/** The "New Game" header panel (`NewGame.tsx`): creating or joining a game
    and finalizing one, each guarded by the form's contents and latched by
    a flag that disables its button while the host call is pending.  An
    awaited host call is split into the click that starts it and the event
    that settles it; the calls made are recorded in order. */
module NewGame {
  import opened Wrappers

  /** JavaScript truthiness of a `string | null`: present and non-empty. */
  predicate Truthy(s: Option<string>) {
    s.Some? && s.value != ""
  }

  datatype FinalizeParams = FinalizeParams(passcode: string, code: string, finishTime: nat, startAmount: nat)

  /** The calls the panel makes to the host. */
  datatype HostCall =
    | JoinExistingGame(nick: string, code: string)
    | MakeNewGame(newNick: string)
    | FinalizeGame(params: FinalizeParams)

  /** One hour, in milliseconds. */
  const FINISH_TIME_MS: nat := 60 * 60 * 1000
  const START_AMOUNT: nat := 1_000_000

  /** The call `handle_click` makes, if any. */
  function CreateCall(joinOrNew: bool, nick: Option<string>, joinCodeForm: Option<string>): (c: Option<HostCall>)
    ensures c.Some? <==> Truthy(nick) && (joinOrNew ==> Truthy(joinCodeForm))
    ensures c.Some? && joinOrNew ==> c.value == JoinExistingGame(nick.value, joinCodeForm.value)
    ensures c.Some? && !joinOrNew ==> c.value == MakeNewGame(nick.value)
  {
    if joinOrNew then
      if Truthy(nick) && Truthy(joinCodeForm) then Some(JoinExistingGame(nick.value, joinCodeForm.value)) else None
    else
      if Truthy(nick) then Some(MakeNewGame(nick.value)) else None
  }

  /** The call `handle_finalize_click` makes, if any. */
  function FinalizeCall(joinCode: Option<string>, joinPassword: Option<string>): (c: Option<HostCall>)
    ensures c.Some? <==> Truthy(joinPassword) && Truthy(joinCode)
    ensures c.Some? ==> c.value.FinalizeGame? && c.value.params.passcode == joinPassword.value &&
                        c.value.params.code == joinCode.value
    ensures c.Some? ==> c.value.params.finishTime == 3_600_000 && c.value.params.startAmount == 1_000_000
  {
    if !(Truthy(joinPassword) && Truthy(joinCode)) then None
    else Some(FinalizeGame(FinalizeParams(joinPassword.value, joinCode.value, FINISH_TIME_MS, START_AMOUNT)))
  }

  class Panel {
    const joinCode: Option<string>
    const joinPassword: Option<string>
    var nick: Option<string>
    var joinCodeForm: Option<string>
    var joinOrNew: bool
    var isFinalizing: bool
    var isCreating: bool
    /** Whether a create or finalize call is being awaited. */
    var createPending: bool
    var finalizePending: bool
    var calls: seq<HostCall>

    /** A latch is up while its call is awaited.  The converse fails after a
        rejected call: nothing lowers the latch then. */
    ghost predicate Valid()
      reads this
    {
      && (createPending ==> isCreating)
      && (finalizePending ==> isFinalizing)
    }

    constructor (joinCode: Option<string>, joinPassword: Option<string>)
      ensures Valid()
      ensures this.joinCode == joinCode && this.joinPassword == joinPassword
      ensures nick.None? && joinCodeForm.None? && !joinOrNew
      ensures !isFinalizing && !isCreating && !createPending && !finalizePending && calls == []
    {
      this.joinCode := joinCode;
      this.joinPassword := joinPassword;
      nick := None;
      joinCodeForm := None;
      joinOrNew := false;
      isFinalizing := false;
      isCreating := false;
      createPending := false;
      finalizePending := false;
      calls := [];
    }

    /** `action`: the label of the create button. */
    function Action(): (caption: string)
      reads this
      ensures caption == "Join" <==> joinOrNew
      ensures !joinOrNew ==> caption == "New"
    {
      if joinOrNew then "Join" else "New"
    }

    /** The toggle's change handler: a null value (the pressed button pressed
        again) keeps the current mode. */
    method Toggle(newValue: Option<bool>)
      modifies this`joinOrNew
      ensures joinOrNew == if newValue.Some? then newValue.value else old(joinOrNew)
    {
      if newValue.Some? {
        joinOrNew := newValue.value;
      }
    }

    method SetNick(value: string)
      modifies this`nick
      ensures nick == Some(value)
    {
      nick := Some(value);
    }

    method SetJoinCodeForm(value: string)
      modifies this`joinCodeForm
      ensures joinCodeForm == Some(value)
    {
      joinCodeForm := Some(value);
    }

    /** A click on the create button, which is disabled while `isCreating`.
        Without a call to await the latch drops again at once. */
    method ClickCreate() returns (call: Option<HostCall>)
      requires Valid() && !isCreating
      modifies this`isCreating, this`createPending, this`calls
      ensures Valid()
      ensures call == CreateCall(joinOrNew, nick, joinCodeForm)
      ensures calls == old(calls) + (if call.Some? then [call.value] else [])
      ensures isCreating == call.Some? && createPending == call.Some?
    {
      isCreating := true;
      call := CreateCall(joinOrNew, nick, joinCodeForm);
      if call.Some? {
        calls := calls + [call.value];
        createPending := true;
      } else {
        isCreating := false;
      }
    }

    /** The awaited create call settles.  There is no `finally`: a rejection
        leaves the latch up and the button disabled. */
    method CreateSettled(fulfilled: bool)
      requires Valid() && createPending
      modifies this`isCreating, this`createPending
      ensures Valid()
      ensures !createPending
      ensures isCreating == !fulfilled
    {
      createPending := false;
      if fulfilled {
        isCreating := false;
      }
    }

    /** A click on the finalize button, which is disabled while
        `isFinalizing`: without both the password and the code it does
        nothing at all. */
    method ClickFinalize() returns (call: Option<HostCall>)
      requires Valid() && !isFinalizing
      modifies this`isFinalizing, this`finalizePending, this`calls
      ensures Valid()
      ensures call == FinalizeCall(joinCode, joinPassword)
      ensures call.None? ==> unchanged(this)
      ensures call.Some? ==> calls == old(calls) + [call.value] && isFinalizing && finalizePending
    {
      call := FinalizeCall(joinCode, joinPassword);
      if call.None? {
        return;
      }
      isFinalizing := true;
      calls := calls + [call.value];
      finalizePending := true;
    }

    /** The awaited finalize call settles; as with create, only a fulfilled
        call lowers the latch. */
    method FinalizeSettled(fulfilled: bool)
      requires Valid() && finalizePending
      modifies this`isFinalizing, this`finalizePending
      ensures Valid()
      ensures !finalizePending
      ensures isFinalizing == !fulfilled
    {
      finalizePending := false;
      if fulfilled {
        isFinalizing := false;
      }
    }
  }

  /** A missing or empty nickname makes no call, whether joining or creating
      and whatever join code was typed. */
  lemma CreateGuardsOnForm(nick: Option<string>, joinCodeForm: Option<string>)
    requires nick == None || nick == Some("")
    ensures CreateCall(true, nick, joinCodeForm).None? && CreateCall(false, nick, joinCodeForm).None?
  {
  }
}
