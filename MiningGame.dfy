/** The mining game's payment-pool contract (`mining_game.rs`): the guards
    that lock the pool (every player signing, or a quorum that shrinks as
    blocks pass), the five ways to end the game and the coercions that route
    a `GameEnd` argument to the one continuation it belongs to.  Keys,
    signatures, the game board and the transaction templates are abstract;
    a template is the list of outputs it pays. */
module MiningGame {
  import opened Wrappers
  import opened Messages

  type SecretKey = nat
  type Amount = nat

  /** A spending condition, as the contract compiles it to a script. */
  datatype Clause =
    | Key(key: PublicKey)
    | Older(blocks: nat)              // a relative height timelock
    | Threshold(k: nat, subs: seq<Clause>)
    | And(subs: seq<Clause>)

  /** Whether a spend signed by `signed`, from a coin `age` blocks deep,
      meets the clause. */
  predicate Satisfied(c: Clause, signed: set<PublicKey>, age: nat)
    decreases c, 1
  {
    match c
    case Key(k) => k in signed
    case Older(b) => age >= b
    case Threshold(k, subs) => CountSatisfied(c, 0, signed, age) >= k
    case And(subs) => CountSatisfied(c, 0, signed, age) == |subs|
  }

  /** How many of the sub-clauses of `c` from index `from` on are met. */
  function CountSatisfied(c: Clause, from: nat, signed: set<PublicKey>, age: nat): nat
    requires c.Threshold? || c.And?
    decreases c, 0, |c.subs| - from
  {
    if from >= |c.subs| then 0
    else (if Satisfied(c.subs[from], signed, age) then 1 else 0) + CountSatisfied(c, from + 1, signed, age)
  }

  lemma {:induction false} CountBounds(c: Clause, from: nat, signed: set<PublicKey>, age: nat)
    requires c.Threshold? || c.And?
    requires from <= |c.subs|
    ensures CountSatisfied(c, from, signed, age) <= |c.subs| - from
    ensures CountSatisfied(c, from, signed, age) >= 1 <==>
              exists i :: from <= i < |c.subs| && Satisfied(c.subs[i], signed, age)
    ensures CountSatisfied(c, from, signed, age) == |c.subs| - from <==>
              forall i :: from <= i < |c.subs| ==> Satisfied(c.subs[i], signed, age)
    decreases |c.subs| - from
  {
    if from < |c.subs| {
      CountBounds(c, from + 1, signed, age);
      if forall i :: from + 1 <= i < |c.subs| ==> Satisfied(c.subs[i], signed, age) {
        if Satisfied(c.subs[from], signed, age) {
          assert forall i :: from <= i < |c.subs| ==> Satisfied(c.subs[i], signed, age);
        }
      }
    }
  }

  /** A spend meets a threshold of keys exactly when enough of the keys signed. */
  datatype Player = Player(key: PublicKey, balance: Amount)

  /** `GameKernel`: the players (a map ordered by key) with their balances,
      the game host and the game's finish time. */
  datatype GameKernel = GameKernel(players: seq<Player>, gameHost: PublicKey, timeout: int)

  function Keys(players: seq<Player>): (ks: seq<PublicKey>)
    ensures |ks| == |players| && forall i :: 0 <= i < |players| ==> ks[i] == players[i].key
  {
    if players == [] then [] else [players[0].key] + Keys(players[1..])
  }

  function KeyClauses(keys: seq<PublicKey>): (cs: seq<Clause>)
    ensures |cs| == |keys| && forall i :: 0 <= i < |keys| ==> cs[i] == Key(keys[i])
  {
    if keys == [] then [] else [Key(keys[0])] + KeyClauses(keys[1..])
  }

  /** How many entries of `keys` signed (a key listed twice counts twice). */
  function SignedCount(keys: seq<PublicKey>, signed: set<PublicKey>): (n: nat)
    ensures n <= |keys|
  {
    if keys == [] then 0
    else (if keys[0] in signed then 1 else 0) + SignedCount(keys[1..], signed)
  }

  lemma {:induction false} SignedCountAll(keys: seq<PublicKey>, signed: set<PublicKey>)
    ensures SignedCount(keys, signed) == |keys| <==> forall i :: 0 <= i < |keys| ==> keys[i] in signed
  {
    if keys != [] {
      SignedCountAll(keys[1..], signed);
      assert forall i :: 1 <= i < |keys| ==> keys[1..][i - 1] == keys[i];
    }
  }

  /** A threshold over key clauses counts exactly the signers among the keys. */
  lemma {:induction false} KeyThresholdCounts(keys: seq<PublicKey>, k: nat, from: nat, signed: set<PublicKey>, age: nat)
    requires from <= |keys|
    ensures CountSatisfied(Threshold(k, KeyClauses(keys)), from, signed, age) == SignedCount(keys[from..], signed)
    decreases |keys| - from
  {
    if from < |keys| {
      KeyThresholdCounts(keys, k, from + 1, signed, age);
      assert keys[from..][1..] == keys[from + 1..];
    }
  }

  /** `all_players_signed`: an n-of-n threshold over the players' keys. */
  function AllPlayersSigned(kernel: GameKernel): Clause {
    var keys := KeyClauses(Keys(kernel.players));
    Threshold(|keys|, keys)
  }

  /** The guard is met exactly when every player signed; the host's key and
      the coin's age do not matter. */
  lemma AllPlayersSignedIsNofN(kernel: GameKernel, signed: set<PublicKey>, age: nat)
    ensures Satisfied(AllPlayersSigned(kernel), signed, age) <==>
              forall i :: 0 <= i < |kernel.players| ==> kernel.players[i].key in signed
  {
    var keys := Keys(kernel.players);
    KeyThresholdCounts(keys, |keys|, 0, signed, age);
    assert keys[0..] == keys;
    SignedCountAll(keys, signed);
  }

  // ---------------------------------------------------------------------------
  // degraded_quorum

  /** Blocks between two steps of the schedule (about an hour). */
  const DEGRADE_EVERY_N_BLOCKS: nat := 6
  const U16_MAX: nat := 0xFFFF

  function Max(a: nat, b: nat): nat { if a < b then b else a }

  /** Iteration `k`'s host-assisted clause: after max(1, 12k) blocks, the
      host and total-k of the players (12 is two degrade steps). */
  function HostAssisted(keys: seq<PublicKey>, host: PublicKey, k: nat): Clause
    requires k < |keys|
  {
    Threshold(3, [Older(Max(1, 12 * k)),
                  Threshold(|keys| - k, KeyClauses(keys)),
                  Key(host)])
  }

  /** Iteration `k`'s plain clause: after 12k+6 blocks, total-k of the players. */
  function Unassisted(keys: seq<PublicKey>, k: nat): Clause
    requires k < |keys|
  {
    And([Threshold(|keys| - k, KeyClauses(keys)),
         Older(12 * k + 6)])
  }

  /** The shape `degraded_quorum` builds: one of 2·total clauses, a
      host-assisted and a plain one per party count from total down to 1. */
  predicate DegradeSchedule(c: Clause, keys: seq<PublicKey>, host: PublicKey) {
    && c.Threshold? && c.k == 1 && |c.subs| == 2 * |keys|
    && forall k :: 0 <= k < |keys| ==>
         c.subs[2 * k] == HostAssisted(keys, host, k) && c.subs[2 * k + 1] == Unassisted(keys, k)
  }

  /** `degraded_quorum`.  `total - 1` is computed in `usize` and the block
      counter is a `u16`, so the source needs at least one player and a
      schedule that ends by block 65535. */
  method DegradedQuorum(kernel: GameKernel) returns (c: Clause)
    requires |kernel.players| >= 1
    requires 12 * |kernel.players| <= U16_MAX
    ensures DegradeSchedule(c, Keys(kernel.players), kernel.gameHost)
  {
    var total := |kernel.players|;
    var keyList := Keys(kernel.players);
    var keys := KeyClauses(keyList);
    var clauses: seq<Clause> := [];
    var nextTriggerAt: nat := 0;
    var parties := total;
    while parties >= 1
      invariant 0 <= parties <= total
      invariant nextTriggerAt == 12 * (total - parties)
      invariant |clauses| == 2 * (total - parties)
      invariant forall k :: 0 <= k < total - parties ==>
                  clauses[2 * k] == HostAssisted(keyList, kernel.gameHost, k) &&
                  clauses[2 * k + 1] == Unassisted(keyList, k)
    {
      var v := [Older(Max(nextTriggerAt, 1)), Threshold(parties, keys), Key(kernel.gameHost)];
      clauses := clauses + [Threshold(|v|, v)];
      nextTriggerAt := nextTriggerAt + DEGRADE_EVERY_N_BLOCKS;
      clauses := clauses + [And([Threshold(parties, keys), Older(nextTriggerAt)])];
      nextTriggerAt := nextTriggerAt + DEGRADE_EVERY_N_BLOCKS;
      parties := parties - 1;
    }
    c := Threshold(1, clauses);
  }

  /** A threshold over all the players' keys is met once enough of them signed. */
  lemma KeyThresholdMeaning(keys: seq<PublicKey>, k: nat, signed: set<PublicKey>, age: nat)
    ensures Satisfied(Threshold(k, KeyClauses(keys)), signed, age) <==> SignedCount(keys, signed) >= k
  {
    KeyThresholdCounts(keys, k, 0, signed, age);
    assert keys[0..] == keys;
  }

  lemma HostAssistedMeaning(keys: seq<PublicKey>, host: PublicKey, k: nat, signed: set<PublicKey>, age: nat)
    requires k < |keys|
    ensures Satisfied(HostAssisted(keys, host, k), signed, age) <==>
              && age >= Max(1, 12 * k)
              && SignedCount(keys, signed) >= |keys| - k
              && host in signed
  {
    var c := HostAssisted(keys, host, k);
    var quorum := Threshold(|keys| - k, KeyClauses(keys));
    assert c.subs == [Older(Max(1, 12 * k)), quorum, Key(host)];
    KeyThresholdMeaning(keys, |keys| - k, signed, age);
    CountBounds(c, 0, signed, age);
    assert Satisfied(c, signed, age) <==>
             Satisfied(c.subs[0], signed, age) && Satisfied(c.subs[1], signed, age) && Satisfied(c.subs[2], signed, age);
  }

  lemma UnassistedMeaning(keys: seq<PublicKey>, k: nat, signed: set<PublicKey>, age: nat)
    requires k < |keys|
    ensures Satisfied(Unassisted(keys, k), signed, age) <==>
              SignedCount(keys, signed) >= |keys| - k && age >= 12 * k + 6
  {
    var c := Unassisted(keys, k);
    var quorum := Threshold(|keys| - k, KeyClauses(keys));
    assert c.subs == [quorum, Older(12 * k + 6)];
    KeyThresholdMeaning(keys, |keys| - k, signed, age);
    CountBounds(c, 0, signed, age);
  }

  /** What the degrading quorum admits, in closed form: with s of the total
      players signing (s at least 1), the host may join them to spend after
      max(1, 12(total - s)) blocks, and without the host they may spend six
      blocks after that. */
  predicate QuorumMet(keys: seq<PublicKey>, host: PublicKey, signed: set<PublicKey>, age: nat) {
    var s := SignedCount(keys, signed);
    && s >= 1
    && ((host in signed && age >= Max(1, 12 * (|keys| - s))) || age >= 12 * (|keys| - s) + 6)
  }

  lemma ScheduleEntryMet(c: Clause, keys: seq<PublicKey>, host: PublicKey, signed: set<PublicKey>, age: nat, i: nat)
    requires DegradeSchedule(c, keys, host)
    requires i < |c.subs| && Satisfied(c.subs[i], signed, age)
    ensures QuorumMet(keys, host, signed, age)
  {
    var k := i / 2;
    if i == 2 * k {
      assert c.subs[2 * k] == HostAssisted(keys, host, k);
      HostAssistedMeaning(keys, host, k, signed, age);
    } else {
      assert i == 2 * k + 1;
      assert c.subs[2 * k + 1] == Unassisted(keys, k);
      UnassistedMeaning(keys, k, signed, age);
    }
  }

  lemma QuorumMetHasEntry(c: Clause, keys: seq<PublicKey>, host: PublicKey, signed: set<PublicKey>, age: nat)
    requires DegradeSchedule(c, keys, host)
    requires QuorumMet(keys, host, signed, age)
    ensures exists i :: 0 <= i < |c.subs| && Satisfied(c.subs[i], signed, age)
  {
    var k := |keys| - SignedCount(keys, signed);
    assert c.subs[2 * k] == HostAssisted(keys, host, k);
    assert c.subs[2 * k + 1] == Unassisted(keys, k);
    HostAssistedMeaning(keys, host, k, signed, age);
    UnassistedMeaning(keys, k, signed, age);
    if Satisfied(c.subs[2 * k], signed, age) {
      assert 0 <= 2 * k < |c.subs|;
    } else {
      assert Satisfied(c.subs[2 * k + 1], signed, age);
    }
  }

  /** The clause `degraded_quorum` builds admits exactly `QuorumMet`. */
  lemma DegradedQuorumAdmits(c: Clause, keys: seq<PublicKey>, host: PublicKey, signed: set<PublicKey>, age: nat)
    requires DegradeSchedule(c, keys, host)
    ensures Satisfied(c, signed, age) <==> QuorumMet(keys, host, signed, age)
  {
    CountBounds(c, 0, signed, age);
    if Satisfied(c, signed, age) {
      var i :| 0 <= i < |c.subs| && Satisfied(c.subs[i], signed, age);
      ScheduleEntryMet(c, keys, host, signed, age, i);
    }
    if QuorumMet(keys, host, signed, age) {
      QuorumMetHasEntry(c, keys, host, signed, age);
    }
  }

  // ---------------------------------------------------------------------------
  // continuations

  /** What a continuation compiles to: no transaction (`empty()`) or the one
      template it built, given by its outputs. */
  datatype Output = Output(amount: Amount, key: PublicKey)
  type Spends = seq<seq<Output>>

  datatype CompilationError =
    | ContinuationCoercion(reason: string)
    | Custom(reason: string)
    | TerminateWith(reason: string)

  /** The outputs pay each player their balance, in the players' order. */
  predicate PaysEachPlayer(outputs: seq<Output>, players: seq<Player>) {
    && |outputs| == |players|
    && forall i :: 0 <= i < |players| ==> outputs[i] == Output(players[i].balance, players[i].key)
  }

  /** The loop over `self.kernel.players` that adds one output per player. */
  method PayEachPlayer(players: seq<Player>) returns (outputs: seq<Output>)
    ensures PaysEachPlayer(outputs, players)
  {
    outputs := [];
    for i := 0 to |players|
      invariant PaysEachPlayer(outputs, players[..i])
    {
      outputs := outputs + [Output(players[i].balance, players[i].key)];
    }
    assert players[..|players|] == players;
  }

  function Sum(outputs: seq<Output>): nat {
    if outputs == [] then 0 else outputs[0].amount + Sum(outputs[1..])
  }

  function TotalBalance(players: seq<Player>): nat {
    if players == [] then 0 else players[0].balance + TotalBalance(players[1..])
  }

  /** Paying each player their balance pays out exactly the pool's balances. */
  lemma {:induction false} PayoutConservesBalances(outputs: seq<Output>, players: seq<Player>)
    requires PaysEachPlayer(outputs, players)
    ensures Sum(outputs) == TotalBalance(players)
  {
    if players != [] {
      assert PaysEachPlayer(outputs[1..], players[1..]);
      PayoutConservesBalances(outputs[1..], players[1..]);
    }
  }

  const KeyMismatch := "The Secret Key Provided does not match the Public Key of the Game Host"

  /** `host_cheat_equivocate`: a revealed host secret key lets the players
      take back their balances, but only the key of this game's host. */
  method HostCheatEquivocate(kernel: GameKernel, proof: Option<SecretKey>, xOnly: SecretKey -> PublicKey)
    returns (r: Result<Spends, CompilationError>)
    ensures proof.None? ==> r == Ok([])
    ensures proof.Some? && xOnly(proof.value) != kernel.gameHost ==> r == Err(Custom(KeyMismatch))
    ensures proof.Some? && xOnly(proof.value) == kernel.gameHost ==>
              r.Ok? && |r.value| == 1 && PaysEachPlayer(r.value[0], kernel.players)
  {
    match proof
    case None => r := Ok([]);
    case Some(k) =>
      if xOnly(k) == kernel.gameHost {
        var outputs := PayEachPlayer(kernel.players);
        r := Ok([outputs]);
      } else {
        r := Err(Custom(KeyMismatch));
      }
  }

  /** `host_cheat_censor`: a proof of censorship is not yet supported. */
  function HostCheatCensor(proof: Option<()>): (r: Result<Spends, CompilationError>)
    ensures r.Ok? <==> proof.None?
    ensures r.Ok? ==> r.value == []
    ensures r.Err? ==> r.error == TerminateWith("Not Yet Supported")
  {
    if proof.Some? then Err(TerminateWith("Not Yet Supported")) else Ok([])
  }

  /** `degrade`: once the degrading quorum signs, everyone gets their balance. */
  method Degrade(kernel: GameKernel, unit: Option<()>) returns (r: Result<Spends, CompilationError>)
    ensures r.Ok?
    ensures unit.None? <==> r.value == []
    ensures unit.Some? ==> |r.value| == 1 && PaysEachPlayer(r.value[0], kernel.players)
  {
    if unit.None? {
      r := Ok([]);
    } else {
      var outputs := PayEachPlayer(kernel.players);
      r := Ok([outputs]);
    }
  }

  // ---------------------------------------------------------------------------
  // get_finished_board

  datatype FinishReason = TimeExpired | DominatingPlayer(id: nat)

  /** What `GameBoard::play` reports for one move: accepted, the game being
      finished, or any other rejection.  The board it leaves is returned
      alongside. */
  datatype Played = Accepted | GameIsFinished(reason: FinishReason) | Rejected

  datatype GameSetup = GameSetup(players: seq<string>, startAmount: nat, finishTime: int)

  /** The game board and its operations, none of which this model can see. */
  datatype Board<!B> = Board(
    newBoard: GameSetup -> B,
    play: (B, nat, PublicKey) -> (B, Played),
    keyString: PublicKey -> string,
    closeDistribution: (B, Amount, string) -> Option<seq<(string, Amount)>>,
    parseKey: string -> Option<PublicKey>)

  /** The board every replay starts from. */
  function InitialSetup<B>(kernel: GameKernel, board: Board<B>): GameSetup {
    GameSetup(seq(|kernel.players|, i requires 0 <= i < |kernel.players| => board.keyString(kernel.players[i].key)),
              100_000_000, kernel.timeout)
  }

  /** Replaying a move trace: rejected moves are skipped, and the first move
      that reports the game finished ends the replay with that board. */
  function Replay<B>(game: B, trace: seq<(nat, PublicKey)>, board: Board<B>): Result<(FinishReason, B), B> {
    if trace == [] then Err(game)
    else
      var (next, played) := board.play(game, trace[0].0, trace[0].1);
      if played.GameIsFinished? then Ok((played.reason, next))
      else Replay(next, trace[1..], board)
  }

  /** Replay is a fold: replaying two traces back to back is replaying the
      first and, unless it finished the game, the second from where it left off. */
  lemma {:induction false} ReplayAppend<B>(game: B, t1: seq<(nat, PublicKey)>, t2: seq<(nat, PublicKey)>, board: Board<B>)
    ensures Replay(game, t1 + t2, board) ==
              match Replay(game, t1, board)
              case Ok(done) => Ok(done)
              case Err(g) => Replay(g, t2, board)
  {
    if t1 != [] {
      assert (t1 + t2)[1..] == t1[1..] + t2;
      var (next, played) := board.play(game, t1[0].0, t1[0].1);
      if !played.GameIsFinished? {
        ReplayAppend(next, t1[1..], t2, board);
      }
    } else {
      assert t1 + t2 == t2;
    }
  }

  /** Moves after the one that finished the game are never looked at. */
  lemma ReplayIgnoresMovesAfterFinish<B>(game: B, t1: seq<(nat, PublicKey)>, t2: seq<(nat, PublicKey)>, board: Board<B>)
    requires Replay(game, t1, board).Ok?
    ensures Replay(game, t1 + t2, board) == Replay(game, t1, board)
  {
    ReplayAppend(game, t1, t2, board);
  }

  /** `get_finished_board`. */
  method GetFinishedBoard<B>(kernel: GameKernel, trace: seq<(nat, PublicKey)>, board: Board<B>)
    returns (r: Result<(FinishReason, B), B>)
    ensures r == Replay(board.newBoard(InitialSetup(kernel, board)), trace, board)
  {
    var game := board.newBoard(InitialSetup(kernel, board));
    var i := 0;
    while i < |trace|
      invariant 0 <= i <= |trace|
      invariant Replay(board.newBoard(InitialSetup(kernel, board)), trace, board) == Replay(game, trace[i..], board)
    {
      var (next, played) := board.play(game, trace[i].0, trace[i].1);
      game := next;
      if played.GameIsFinished? {
        return Ok((played.reason, game));
      }
      i := i + 1;
    }
    r := Err(game);
  }

  // ---------------------------------------------------------------------------
  // game_end_players_win / game_end_players_lose

  const NotFinished := "Game Not Finished, Violating Invariant that was finished"

  /** The outputs of a close distribution: the first entry whose key does not
      parse aborts the whole spend. */
  function DistributionOutputs(dist: seq<(string, Amount)>, parseKey: string -> Option<PublicKey>): (r: Result<seq<Output>, CompilationError>)
    ensures r.Ok? <==> forall i :: 0 <= i < |dist| ==> parseKey(dist[i].0).Some?
    ensures r.Ok? ==> |r.value| == |dist| && forall i :: 0 <= i < |dist| ==> r.value[i] == Output(dist[i].1, parseKey(dist[i].0).value)
    ensures r.Err? ==> exists i :: 0 <= i < |dist| && parseKey(dist[i].0).None? && r.error == TerminateWith("Corrupt GameBoard, Invalid Key: " + dist[i].0)
  {
    if dist == [] then Ok([])
    else
      match parseKey(dist[0].0)
      case None => Err(TerminateWith("Corrupt GameBoard, Invalid Key: " + dist[0].0))
      case Some(key) =>
        var rest := DistributionOutputs(dist[1..], parseKey);
        if rest.Err? then
          assert exists i :: 1 <= i < |dist| && parseKey(dist[i].0).None? && rest.error == TerminateWith("Corrupt GameBoard, Invalid Key: " + dist[i].0) by {
            var j :| 0 <= j < |dist| - 1 && parseKey(dist[1..][j].0).None? &&
              rest.error == TerminateWith("Corrupt GameBoard, Invalid Key: " + dist[1..][j].0);
            assert dist[j + 1] == dist[1..][j];
          }
          rest
        else
          assert forall i :: 1 <= i < |dist| ==> dist[i] == dist[1..][i - 1];
          Ok([Output(dist[0].1, key)] + rest.value)
  }

  function Prepend(outputs: seq<Output>, r: Result<seq<Output>, CompilationError>): Result<seq<Output>, CompilationError> {
    match r
    case Ok(rest) => Ok(outputs + rest)
    case Err(e) => Err(e)
  }

  lemma PrependAppend(a: seq<Output>, b: seq<Output>, r: Result<seq<Output>, CompilationError>)
    ensures Prepend(a, Prepend(b, r)) == Prepend(a + b, r)
  {
    if r.Ok? {
      assert a + (b + r.value) == (a + b) + r.value;
    }
  }

  lemma PrependNothing(r: Result<seq<Output>, CompilationError>)
    ensures Prepend([], r) == r
  {
    if r.Ok? {
      assert [] + r.value == r.value;
    }
  }

  lemma DistributionStep(dist: seq<(string, Amount)>, i: nat, parseKey: string -> Option<PublicKey>)
    requires i < |dist| && parseKey(dist[i].0).Some?
    ensures DistributionOutputs(dist[i..], parseKey) ==
              Prepend([Output(dist[i].1, parseKey(dist[i].0).value)], DistributionOutputs(dist[i + 1..], parseKey))
  {
    assert dist[i..][1..] == dist[i + 1..];
  }

  /** The loop over the close distribution that adds one output per entry. */
  method PayDistribution(dist: seq<(string, Amount)>, parseKey: string -> Option<PublicKey>)
    returns (r: Result<seq<Output>, CompilationError>)
    ensures r == DistributionOutputs(dist, parseKey)
  {
    var outputs: seq<Output> := [];
    var i := 0;
    assert dist[0..] == dist;
    PrependNothing(DistributionOutputs(dist, parseKey));
    while i < |dist|
      invariant 0 <= i <= |dist|
      invariant DistributionOutputs(dist, parseKey) == Prepend(outputs, DistributionOutputs(dist[i..], parseKey))
    {
      var key := parseKey(dist[i].0);
      if key.None? {
        assert dist[i..][0] == dist[i];
        return Err(TerminateWith("Corrupt GameBoard, Invalid Key: " + dist[i].0));
      }
      DistributionStep(dist, i, parseKey);
      PrependAppend(outputs, [Output(dist[i].1, key.value)], DistributionOutputs(dist[i + 1..], parseKey));
      outputs := outputs + [Output(dist[i].1, key.value)];
      i := i + 1;
    }
    assert outputs + [] == outputs;
    r := Ok(outputs);
  }

  /** Paying out a finished game: the board's close distribution of the
      contract's funds, one output per entry. */
  function Settlement<B>(kernel: GameKernel, game: B, funds: Amount, board: Board<B>): Result<Spends, CompilationError> {
    match board.closeDistribution(game, funds, board.keyString(kernel.gameHost))
    case None => Err(TerminateWith(NotFinished))
    case Some(dist) =>
      match DistributionOutputs(dist, board.parseKey)
      case Err(e) => Err(e)
      case Ok(outputs) => Ok([outputs])
  }

  /** Which finish reason each ending accepts. */
  predicate PlayersWon(reason: FinishReason) { reason.TimeExpired? }
  predicate PlayersLost(reason: FinishReason) { reason.DominatingPlayer? }

  /** The shared body of the two game-end continuations, gated on the reason
      the replay finished with. */
  method SettleIfFinished<B>(kernel: GameKernel, gameTrace: Option<seq<(nat, PublicKey)>>, funds: Amount,
                    board: Board<B>, playersWin: bool)
    returns (r: Result<Spends, CompilationError>)
    ensures gameTrace.None? ==> r == Ok([])
    ensures gameTrace.Some? ==>
              var finished := Replay(board.newBoard(InitialSetup(kernel, board)), gameTrace.value, board);
              if finished.Ok? && (if playersWin then PlayersWon(finished.value.0) else PlayersLost(finished.value.0))
              then r == Settlement(kernel, finished.value.1, funds, board)
              else r == Ok([])
  {
    if gameTrace.None? {
      return Ok([]);
    }
    var finished := GetFinishedBoard(kernel, gameTrace.value, board);
    if finished.Err? || !(if playersWin then PlayersWon(finished.value.0) else PlayersLost(finished.value.0)) {
      return Ok([]);
    }
    var game := finished.value.1;
    var dist := board.closeDistribution(game, funds, board.keyString(kernel.gameHost));
    if dist.None? {
      return Err(TerminateWith(NotFinished));
    }
    var outputs := PayDistribution(dist.value, board.parseKey);
    if outputs.Err? {
      return Err(outputs.error);
    }
    r := Ok([outputs.value]);
  }

  /** `game_end_players_win`: pays out only for a game that ran out of time. */
  method GameEndPlayersWin<B>(kernel: GameKernel, gameTrace: Option<seq<(nat, PublicKey)>>, funds: Amount, board: Board<B>)
    returns (r: Result<Spends, CompilationError>)
    ensures gameTrace.None? ==> r == Ok([])
    ensures gameTrace.Some? ==>
              var finished := Replay(board.newBoard(InitialSetup(kernel, board)), gameTrace.value, board);
              if finished.Ok? && finished.value.0 == TimeExpired
              then r == Settlement(kernel, finished.value.1, funds, board)
              else r == Ok([])
  {
    r := SettleIfFinished(kernel, gameTrace, funds, board, true);
  }

  /** `game_end_players_lose`: pays out only for a game a player dominated. */
  method GameEndPlayersLose<B>(kernel: GameKernel, gameTrace: Option<seq<(nat, PublicKey)>>, funds: Amount, board: Board<B>)
    returns (r: Result<Spends, CompilationError>)
    ensures gameTrace.None? ==> r == Ok([])
    ensures gameTrace.Some? ==>
              var finished := Replay(board.newBoard(InitialSetup(kernel, board)), gameTrace.value, board);
              if finished.Ok? && finished.value.0.DominatingPlayer?
              then r == Settlement(kernel, finished.value.1, funds, board)
              else r == Ok([])
  {
    r := SettleIfFinished(kernel, gameTrace, funds, board, false);
  }

  // ---------------------------------------------------------------------------
  // coercions

  /** The argument of an update to the contract. */
  datatype GameEnd =
    | HostCheatEquivocate(hostKey: SecretKey)
    | HostCheatCensor
    | PlayersWin(winTrace: seq<(nat, PublicKey)>)
    | PlayersLose(loseTrace: seq<(nat, PublicKey)>)
    | Degrade

  function CoerceHostKey(k: Option<GameEnd>): (r: Result<Option<SecretKey>, CompilationError>)
    ensures r.Ok? <==> k.None? || k.value.HostCheatEquivocate?
    ensures r.Ok? ==> r.value == if k.None? then None else Some(k.value.hostKey)
    ensures r.Err? ==> r.error == ContinuationCoercion("Failed to coerce GameEnd into HostKey")
  {
    match k
    case Some(HostCheatEquivocate(x)) => Ok(Some(x))
    case Some(_) => Err(ContinuationCoercion("Failed to coerce GameEnd into HostKey"))
    case None => Ok(None)
  }

  function CoerceCensorshipProof(k: Option<GameEnd>): (r: Result<Option<()>, CompilationError>)
    ensures r.Ok? <==> k.None? || k.value.HostCheatCensor?
    ensures r.Ok? ==> (r.value.None? <==> k.None?)
    ensures r.Err? ==> r.error == ContinuationCoercion("Failed to coerce GameEnd into CensorshipProof")
  {
    match k
    case Some(HostCheatCensor) => Ok(Some(()))
    case Some(_) => Err(ContinuationCoercion("Failed to coerce GameEnd into CensorshipProof"))
    case None => Ok(None)
  }

  function CoercePlayersWin(k: Option<GameEnd>): (r: Result<Option<seq<(nat, PublicKey)>>, CompilationError>)
    ensures r.Ok? <==> k.None? || k.value.PlayersWin?
    ensures r.Ok? ==> r.value == if k.None? then None else Some(k.value.winTrace)
    ensures r.Err? ==> r.error == ContinuationCoercion("Failed to coerce GameEnd into PlayersWin")
  {
    match k
    case Some(PlayersWin(ms)) => Ok(Some(ms))
    case Some(_) => Err(ContinuationCoercion("Failed to coerce GameEnd into PlayersWin"))
    case None => Ok(None)
  }

  function CoercePlayersLose(k: Option<GameEnd>): (r: Result<Option<seq<(nat, PublicKey)>>, CompilationError>)
    ensures r.Ok? <==> k.None? || k.value.PlayersLose?
    ensures r.Ok? ==> r.value == if k.None? then None else Some(k.value.loseTrace)
    ensures r.Err? ==> r.error == ContinuationCoercion("Failed to coerce GameEnd into ExtractedMoveEnvelopes")
  {
    match k
    case Some(PlayersLose(ms)) => Ok(Some(ms))
    case Some(_) => Err(ContinuationCoercion("Failed to coerce GameEnd into ExtractedMoveEnvelopes"))
    case None => Ok(None)
  }

  function CoerceDegrade(k: Option<GameEnd>): (r: Result<Option<()>, CompilationError>)
    ensures r.Ok? <==> k.None? || k.value.Degrade?
    ensures r.Ok? ==> (r.value.None? <==> k.None?)
    ensures r.Err? ==> r.error == ContinuationCoercion("Failed to coerce GameEnd into Degrade")
  {
    match k
    case Some(Degrade) => Ok(Some(()))
    case Some(_) => Err(ContinuationCoercion("Failed to coerce GameEnd into Degrade"))
    case None => Ok(None)
  }

  /** How many continuations receive the argument (`Ok(Some(_))`). */
  function Receivers(k: Option<GameEnd>): nat {
    (if CoerceHostKey(k) == Ok(None) || CoerceHostKey(k).Err? then 0 else 1)
    + (if CoerceCensorshipProof(k) == Ok(None) || CoerceCensorshipProof(k).Err? then 0 else 1)
    + (if CoercePlayersWin(k) == Ok(None) || CoercePlayersWin(k).Err? then 0 else 1)
    + (if CoercePlayersLose(k) == Ok(None) || CoercePlayersLose(k).Err? then 0 else 1)
    + (if CoerceDegrade(k) == Ok(None) || CoerceDegrade(k).Err? then 0 else 1)
  }

  /** An update argument reaches exactly one continuation and is refused by
      the other four; no argument reaches none and is refused by none. */
  lemma CoercionsRouteToOneContinuation(k: Option<GameEnd>)
    ensures k.Some? ==> Receivers(k) == 1
    ensures k.None? ==> Receivers(k) == 0
    ensures k.None? ==> CoerceHostKey(k).Ok? && CoerceCensorshipProof(k).Ok? && CoercePlayersWin(k).Ok?
    ensures k.None? ==> CoercePlayersLose(k).Ok? && CoerceDegrade(k).Ok?
  {
  }
}
