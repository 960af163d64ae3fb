/** The "Existing Game" header panel (`SwitchToGame.tsx`): a choice among
    the known game sequencers, shown by a truncated key, and a submit that
    switches to the chosen game unless "No Key" is selected. */
module SwitchToGame {
  import opened Wrappers

  /** `substring(0, 16)`: at most the first 16 characters. */
  function Prefix16(s: string): (r: string)
    ensures |r| == if |s| < 16 then |s| else 16
    ensures r == s[..|r|]
  {
    if |s| < 16 then s else s[..16]
  }

  /** How a key is shown: its first 16 characters and an ellipsis. */
  function Truncated(key: string): (r: string)
    ensures 3 <= |r| <= 19 && r[|r| - 3..] == "..."
    ensures r[..|r| - 3] == Prefix16(key)
  {
    Prefix16(key) + "..."
  }

  datatype MenuItem = MenuItem(value: string, caption: string)

  /** The menu: "No Key" (value "") first, then one item per sequencer
      (pkey, name), valued by its key. */
  function Menu(availableSequencers: seq<(string, string)>): (items: seq<MenuItem>)
    ensures |items| == |availableSequencers| + 1
    ensures items[0] == MenuItem("", "No Key")
    ensures forall i :: 0 <= i < |availableSequencers| ==>
              var (pkey, name) := availableSequencers[i];
              items[i + 1] == MenuItem(pkey, name + " -- " + Prefix16(pkey) + "...")
  {
    [MenuItem("", "No Key")] +
    seq(|availableSequencers|, i requires 0 <= i < |availableSequencers| =>
      MenuItem(availableSequencers[i].0, availableSequencers[i].1 + " -- " + Prefix16(availableSequencers[i].0) + "..."))
  }

  class Panel {
    const availableSequencers: seq<(string, string)>
    const whichGameLoaded: Option<string>
    var whichGame: string
    /** The keys passed to `switch_to_game`, in order. */
    var switched: seq<string>

    /** The selection starts at the loaded game, or at "No Key". */
    constructor (availableSequencers: seq<(string, string)>, whichGameLoaded: Option<string>)
      ensures this.availableSequencers == availableSequencers && this.whichGameLoaded == whichGameLoaded
      ensures whichGame == if whichGameLoaded.Some? then whichGameLoaded.value else ""
      ensures switched == []
    {
      this.availableSequencers := availableSequencers;
      this.whichGameLoaded := whichGameLoaded;
      whichGame := if whichGameLoaded.Some? then whichGameLoaded.value else "";
      switched := [];
    }

    /** The select's change handler. */
    method Select(value: string)
      modifies this`whichGame
      ensures whichGame == value
    {
      whichGame := value;
    }

    /** `handle_submit`: switches only to a non-empty selection. */
    method Submit() returns (sent: Option<string>)
      modifies this`switched
      ensures sent.Some? <==> whichGame != ""
      ensures sent.Some? ==> sent.value == whichGame
      ensures switched == old(switched) + (if sent.Some? then [sent.value] else [])
    {
      if whichGame != "" {
        sent := Some(whichGame);
        switched := switched + [whichGame];
      } else {
        sent := None;
      }
    }

    /** The copy button is shown only when a game is loaded. */
    function ShowCopyButton(): (shown: bool)
      reads this
      ensures shown <==> whichGameLoaded.Some? && whichGameLoaded.value != ""
    {
      whichGameLoaded.Some? && whichGameLoaded.value != ""
    }
  }
}
