/** The bookkeeping of one authenticated attestation socket (`protocol.rs`):
    the table of requests this side has sent and not yet seen answered, the
    count of outstanding messages ("defecit") with its cap, the routing of
    responses back to their requesters, and the handling of the peer's
    requests.  The database, signature checks and socket are inputs; what is
    written to the socket is recorded in `sent`. */
module Protocol {
  import opened Wrappers
  import opened Messages
  import opened ProtocolTypes
  import Handshake

  /** Only allow 10 outstanding messages. */
  const MAX_MESSAGE_DEFECIT: int := 10

  /** Where the response to an in-flight request goes, and the code it must carry. */
  datatype ResponseRouter = ResponseRouter(code: nat, sender: AnySender)

  /** A response handed to the one-shot channel that waited for it. */
  datatype Routed = Routed(sender: AnySender, response: AttestResponse)

  type InflightTable = map<nat, ResponseRouter>

  /** A router made by `handle_internal_request` carries the code of the
      request whose sender it holds. */
  predicate RouterConsistent(k: ResponseRouter) {
    || (k.code == 0 && k.sender.LatestTipsSender?)
    || (k.code == 1 && k.sender.SpecificTipsSender?)
    || (k.code == 2 && k.sender.PostSender?)
  }

  /** The sender/response pairs `handle_message_from_peer` delivers. */
  predicate SenderFits(s: AnySender, r: AttestResponse) {
    || (s.LatestTipsSender? && r.LatestTipsResponse?)
    || (s.SpecificTipsSender? && r.SpecificTipsResponse?)
    || (s.PostSender? && r.PostResponse?)
  }

  /** Routing a response numbered `seqNo`: the entry is removed before its
      code is checked, so even a mistyped response consumes it. */
  function Route(inflight: InflightTable, seqNo: nat, resp: AttestResponse): (r: (Result<Routed, AttestProtocolError>, InflightTable))
    ensures r.1 == inflight - {seqNo}
    ensures seqNo !in inflight ==> r.0 == Err(UnrequestedResponse)
    ensures seqNo in inflight && ResponseCode(resp) != inflight[seqNo].code ==> r.0 == Err(ResponseTypeIncorrect)
    ensures r.0.Ok? ==> seqNo in inflight && r.0.value == Routed(inflight[seqNo].sender, resp)
    ensures r.0.Err? ==> r.0.error == UnrequestedResponse || r.0.error == ResponseTypeIncorrect
  {
    if seqNo in inflight then
      var k := inflight[seqNo];
      var rest := inflight - {seqNo};
      if ResponseCode(resp) != k.code then (Err(ResponseTypeIncorrect), rest)
      else if SenderFits(k.sender, resp) then (Ok(Routed(k.sender, resp)), rest)
      else (Err(ResponseTypeIncorrect), rest)
    else (Err(UnrequestedResponse), inflight)
  }

  /** A sequence number is routed at most once: a second response with the
      same number is unrequested, whatever happened to the first. */
  lemma RouteAtMostOnce(inflight: InflightTable, seqNo: nat, first: AttestResponse, second: AttestResponse)
    ensures Route(Route(inflight, seqNo, first).1, seqNo, second).0 == Err(UnrequestedResponse)
  {
  }

  /** With consistent routers, a response is delivered exactly when it was
      requested and has the requested code, and it reaches the sender of the
      request it answers. */
  lemma RouteDeliversRequested(inflight: InflightTable, seqNo: nat, resp: AttestResponse)
    requires forall s :: s in inflight ==> RouterConsistent(inflight[s])
    ensures Route(inflight, seqNo, resp).0.Ok? <==>
              seqNo in inflight && inflight[seqNo].code == ResponseCode(resp)
    ensures Route(inflight, seqNo, resp).0.Ok? ==> SenderFits(inflight[seqNo].sender, resp)
  {
  }

  /** A request kind's code is the code of the response kind that answers it,
      so a router built for a request accepts exactly that request's answers. */
  lemma RouterForRequestAcceptsItsAnswers(q: AttestRequest, s: AnySender, r: AttestResponse)
    requires Paired(q, s)
    ensures RouterConsistent(ResponseRouter(RequestCode(q), s))
    ensures SenderFits(s, r) <==> Answers(q, r)
  {
  }

  // ---------------------------------------------------------------------------
  // fetch_specific_tips: sort_unstable then dedup

  predicate Sorted(s: seq<Hash>) {
    forall i, j :: 0 <= i < j < |s| ==> s[i] <= s[j]
  }

  predicate StrictlyIncreasing(s: seq<Hash>) {
    forall i, j :: 0 <= i < j < |s| ==> s[i] < s[j]
  }

  function Insert(s: seq<Hash>, x: Hash): (r: seq<Hash>)
    requires Sorted(s)
    ensures Sorted(r) && multiset(r) == multiset(s) + multiset{x}
    ensures forall y :: y in r ==> y == x || y in s
  {
    if s == [] || x <= s[0] then [x] + s
    else
      assert s == [s[0]] + s[1..];
      var rest := Insert(s[1..], x);
      assert forall i :: 0 <= i < |rest| ==> s[0] <= rest[i] by {
        forall i | 0 <= i < |rest| ensures s[0] <= rest[i] {
          assert rest[i] in rest;
        }
      }
      [s[0]] + rest
  }

  /** `sort_unstable`: an ascending permutation. */
  function Sort(s: seq<Hash>): (r: seq<Hash>)
    ensures Sorted(r) && multiset(r) == multiset(s)
  {
    if s == [] then []
    else
      assert s == [s[0]] + s[1..];
      Insert(Sort(s[1..]), s[0])
  }

  /** `dedup`: drop each element equal to its predecessor. */
  function Dedup(s: seq<Hash>): (r: seq<Hash>)
    ensures forall h :: h in r <==> h in s
    ensures Sorted(s) ==> StrictlyIncreasing(r)
    ensures |r| <= |s|
    ensures |s| > 0 ==> |r| > 0 && r[0] == s[0]
  {
    if |s| <= 1 then s
    else if s[0] == s[1] then Dedup(s[1..])
    else [s[0]] + Dedup(s[1..])
  }

  /** After sorting and deduplicating, the tips are strictly increasing and
      are exactly the requested ones, each once. */
  lemma SortDedupIsCanonical(tips: seq<Hash>)
    ensures StrictlyIncreasing(Dedup(Sort(tips)))
    ensures forall h :: h in Dedup(Sort(tips)) <==> h in tips
  {
    var sorted := Sort(tips);
    forall h ensures h in sorted <==> h in tips {
      assert h in sorted <==> h in multiset(sorted);
      assert h in tips <==> h in multiset(tips);
    }
  }

  lemma SameElementsSameEmptiness(a: seq<Hash>, b: seq<Hash>)
    requires forall h :: h in a <==> h in b
    ensures a == [] <==> b == []
  {
    if a != [] {
      assert a[0] in b;
    }
    if b != [] {
      assert b[0] in a;
    }
  }

  /** There is only one strictly increasing arrangement of a set of tips, so
      whatever order the peer listed them in, the database is asked the same. */
  lemma {:induction false} StrictlyIncreasingIsUnique(a: seq<Hash>, b: seq<Hash>)
    requires StrictlyIncreasing(a) && StrictlyIncreasing(b)
    requires forall h :: h in a <==> h in b
    ensures a == b
  {
    SameElementsSameEmptiness(a, b);
    if a != [] && b != [] {
      assert a[0] in b && b[0] in a;
      assert a[0] == b[0];
      forall h ensures h in a[1..] <==> h in b[1..] {
        if h in a[1..] {
          var i :| 0 <= i < |a| - 1 && a[1..][i] == h;
          assert a[0] < a[i + 1] && h in b;
          var j :| 0 <= j < |b| && b[j] == h;
          assert j != 0 && b[1..][j - 1] == h;
        }
        if h in b[1..] {
          var i :| 0 <= i < |b| - 1 && b[1..][i] == h;
          assert b[0] < b[i + 1] && h in a;
          var j :| 0 <= j < |a| && a[j] == h;
          assert j != 0 && a[1..][j - 1] == h;
        }
      }
      StrictlyIncreasingIsUnique(a[1..], b[1..]);
      assert a == [a[0]] + a[1..] && b == [b[0]] + b[1..];
    }
  }

  // ---------------------------------------------------------------------------
  // post_envelope

  /** What inserting one authenticated envelope into the database yields:
      `Ok(Ok(()))`, `Ok(Err(_))` or `Err(_)`. */
  datatype InsertResult = Inserted | Refused | SqlFailure

  /** The database and signature checks a session consults. `tryInsert` sees
      the envelopes inserted earlier in the same batch. */
  datatype Database = Database(
    tipsForAllUsers: Option<seq<Envelope>>,           // None: database error
    messagesByHash: seq<Hash> -> Option<seq<Envelope>>,
    selfAuthenticate: Envelope -> bool,
    tryInsert: (seq<Envelope>, Envelope) -> InsertResult)

  /** The envelopes `post_envelope` keeps: those before the first one that
      fails to authenticate. */
  function AuthenticatedPrefix(envs: seq<Envelope>, auth: Envelope -> bool): (p: seq<Envelope>)
    ensures |p| <= |envs| && p == envs[..|p|]
    ensures forall i :: 0 <= i < |p| ==> auth(p[i])
    ensures |p| < |envs| ==> !auth(envs[|p|])
  {
    if envs == [] || !auth(envs[0]) then []
    else [envs[0]] + AuthenticatedPrefix(envs[1..], auth)
  }

  /** One outcome per authenticated envelope, a success exactly when the
      insert itself succeeded. */
  function PostOutcomes(authed: seq<Envelope>, tryInsert: (seq<Envelope>, Envelope) -> InsertResult): (o: seq<Outcome>)
    ensures |o| == |authed|
    ensures forall i :: 0 <= i < |authed| ==> (o[i].success <==> tryInsert(authed[..i], authed[i]) == Inserted)
  {
    if authed == [] then []
    else
      var n := |authed| - 1;
      assert forall i :: 0 <= i < n ==> authed[..n][..i] == authed[..i];
      PostOutcomes(authed[..n], tryInsert) + [Outcome(tryInsert(authed[..n], authed[n]) == Inserted)]
  }

  /** The first loop of `post_envelope`. */
  method AuthenticateBatch(envs: seq<Envelope>, auth: Envelope -> bool) returns (authed: seq<Envelope>)
    ensures authed == AuthenticatedPrefix(envs, auth)
  {
    authed := [];
    var i := 0;
    while i < |envs|
      invariant 0 <= i <= |envs|
      invariant authed == envs[..i]
      invariant AuthenticatedPrefix(envs, auth) == authed + AuthenticatedPrefix(envs[i..], auth)
    {
      if auth(envs[i]) {
        assert envs[i..] == [envs[i]] + envs[i + 1..];
        authed := authed + [envs[i]];
        i := i + 1;
        assert authed == envs[..i];
      } else {
        break;
      }
    }
  }

  /** The second loop of `post_envelope`. */
  method InsertBatch(authed: seq<Envelope>, tryInsert: (seq<Envelope>, Envelope) -> InsertResult) returns (outcomes: seq<Outcome>)
    ensures outcomes == PostOutcomes(authed, tryInsert)
  {
    outcomes := [];
    for i := 0 to |authed|
      invariant outcomes == PostOutcomes(authed[..i], tryInsert)
    {
      var success := tryInsert(authed[..i], authed[i]) == Inserted;
      outcomes := outcomes + [Outcome(success)];
      assert authed[..i + 1][..i] == authed[..i];
    }
    assert authed[..|authed|] == authed;
  }

  /** A post batch is answered with one outcome per envelope up to the first
      forged one: the answer never covers an envelope after a forgery, and an
      outcome is a success only for an authentic envelope the database took. */
  lemma PostAnswersAuthenticPrefix(envs: seq<Envelope>, db: Database, i: nat)
    requires i < |envs|
    ensures var o := PostOutcomes(AuthenticatedPrefix(envs, db.selfAuthenticate), db.tryInsert);
            && |o| <= |envs|
            && (i < |o| <==> forall j :: 0 <= j <= i ==> db.selfAuthenticate(envs[j]))
            && (i < |o| ==> (o[i].success <==> db.tryInsert(envs[..i], envs[i]) == Inserted))
  {
    var p := AuthenticatedPrefix(envs, db.selfAuthenticate);
    if i < |p| {
      assert p[..i] == envs[..i];
    }
  }

  class PeerSession {
    var inflight: InflightTable
    var defecit: int
    /** The frames written to the socket, oldest first. */
    var sent: seq<AttestSocketProtocol>

    /** The outstanding count never exceeds its cap, and every router was
        built from a request and its own sender. */
    ghost predicate Valid()
      reads this
    {
      && defecit <= MAX_MESSAGE_DEFECIT
      && forall s :: s in inflight ==> RouterConsistent(inflight[s])
    }

    /** The state `run_protocol` starts from after the handshake. */
    constructor ()
      ensures Valid()
      ensures inflight == map[] && defecit == 0 && sent == []
    {
      inflight := map[];
      defecit := 0;
      sent := [];
    }

    /** The guard under which `run_protocol` takes a new internal request. */
    predicate AcceptsInternalRequest()
      reads this
    {
      defecit < MAX_MESSAGE_DEFECIT
    }

    /** `handle_internal_request`: record the router, count the message, send
        the request.  The table and count change even if the send fails. */
    method HandleInternalRequest(seqNo: nat, request: AttestRequest, sender: AnySender, sendOk: bool)
      returns (r: Result<(), AttestProtocolError>)
      requires Valid() && AcceptsInternalRequest()
      requires Paired(request, sender)
      modifies this
      ensures Valid()
      ensures inflight == old(inflight)[seqNo := ResponseRouter(RequestCode(request), sender)]
      ensures defecit == old(defecit) + 1
      // taken only under the guard, an internal request never lifts the count past its cap
      ensures defecit <= MAX_MESSAGE_DEFECIT
      ensures sent == old(sent) + (if sendOk then [Request(seqNo, request)] else [])
      ensures r == if sendOk then Ok(()) else Err(SocketError)
    {
      inflight := inflight[seqNo := ResponseRouter(RequestCode(request), sender)];
      defecit := defecit + 1;
      if sendOk {
        sent := sent + [Request(seqNo, request)];
        r := Ok(());
      } else {
        r := Err(SocketError);
      }
    }

    /** The `Response` arm of `handle_message_from_peer`: the count drops
        before the lookup, even for a response that is then refused. */
    method HandleResponse(seqNo: nat, response: AttestResponse) returns (r: Result<Routed, AttestProtocolError>)
      requires Valid()
      modifies this`defecit, this`inflight
      ensures Valid()
      ensures defecit == old(defecit) - 1
      ensures (r, inflight) == Route(old(inflight), seqNo, response)
    {
      defecit := defecit - 1;
      if seqNo in inflight {
        var k := inflight[seqNo];
        inflight := inflight - {seqNo};
        if ResponseCode(response) != k.code {
          return Err(ResponseTypeIncorrect);
        }
        if SenderFits(k.sender, response) {
          r := Ok(Routed(k.sender, response));
        } else {
          r := Err(ResponseTypeIncorrect);
        }
      } else {
        r := Err(UnrequestedResponse);
      }
    }

    /** `post_envelope`. */
    method PostEnvelope(envelopes: seq<Envelope>, db: Database, seqNo: nat, sendOk: bool)
      returns (r: Result<(), AttestProtocolError>)
      modifies this`sent
      ensures var answer := PostResponse(PostOutcomes(AuthenticatedPrefix(envelopes, db.selfAuthenticate), db.tryInsert));
              sent == old(sent) + (if sendOk then [Response(seqNo, answer)] else [])
      ensures r == if sendOk then Ok(()) else Err(SocketClosed)
    {
      var authed := AuthenticateBatch(envelopes, db.selfAuthenticate);
      var outcomes := InsertBatch(authed, db.tryInsert);
      if !sendOk {
        return Err(SocketClosed);
      }
      sent := sent + [Response(seqNo, PostResponse(outcomes))];
      r := Ok(());
    }

    /** `fetch_specific_tips`: the requested hashes are sorted and
        deduplicated before the database is asked. */
    method FetchSpecificTips(tips: seq<Hash>, db: Database, seqNo: nat, sendOk: bool)
      returns (r: Result<(), AttestProtocolError>)
      modifies this`sent
      ensures var asked := Dedup(Sort(tips));
              match db.messagesByHash(asked)
              case None => r == Err(DatabaseError) && sent == old(sent)
              case Some(found) =>
                && sent == old(sent) + (if sendOk then [Response(seqNo, SpecificTipsResponse(found))] else [])
                && r == if sendOk then Ok(()) else Err(SocketClosed)
    {
      var asked := Sort(tips);
      asked := Dedup(asked);
      var allTips := db.messagesByHash(asked);
      if allTips.None? {
        return Err(DatabaseError);
      }
      if !sendOk {
        return Err(SocketClosed);
      }
      sent := sent + [Response(seqNo, SpecificTipsResponse(allTips.value))];
      r := Ok(());
    }

    /** `fetch_latest_tips`. */
    method FetchLatestTips(db: Database, seqNo: nat, sendOk: bool) returns (r: Result<(), AttestProtocolError>)
      modifies this`sent
      ensures match db.tipsForAllUsers
              case None => r == Err(DatabaseError) && sent == old(sent)
              case Some(v) =>
                && sent == old(sent) + (if sendOk then [Response(seqNo, LatestTipsResponse(v))] else [])
                && r == if sendOk then Ok(()) else Err(SocketClosed)
    {
      if db.tipsForAllUsers.None? {
        return Err(DatabaseError);
      }
      if !sendOk {
        return Err(SocketClosed);
      }
      sent := sent + [Response(seqNo, LatestTipsResponse(db.tipsForAllUsers.value))];
      r := Ok(());
    }

    /** `handle_message_from_peer`: the message must be text holding a
        protocol frame; a request is served, a response is routed. */
    method HandleMessageFromPeer(msg: Handshake.Message, decode: string -> Option<AttestSocketProtocol>,
                                 db: Database, sendOk: bool)
      returns (r: Result<(), AttestProtocolError>)
      requires Valid()
      modifies this
      ensures Valid()
      // anything but a decodable text frame is refused and changes nothing
      ensures !msg.Text? ==> r == Err(Handshake.OnlyText(msg, "as a json encoded messages").error) && unchanged(this)
      ensures msg.Text? && decode(msg.text).None? ==> r == Err(JsonError) && unchanged(this)
      // serving a request never touches the in-flight table or the count
      ensures msg.Text? && decode(msg.text).Some? && decode(msg.text).value.Request? ==>
                inflight == old(inflight) && defecit == old(defecit)
      // each request kind is answered by its handler, whose outcome is returned
      ensures msg.Text? && decode(msg.text).Some? && decode(msg.text).value.Request? &&
              decode(msg.text).value.request.LatestTips? ==>
                var seqNo := decode(msg.text).value.seqNo;
                match db.tipsForAllUsers
                case None => r == Err(DatabaseError) && sent == old(sent)
                case Some(v) =>
                  && sent == old(sent) + (if sendOk then [Response(seqNo, LatestTipsResponse(v))] else [])
                  && r == if sendOk then Ok(()) else Err(SocketClosed)
      ensures msg.Text? && decode(msg.text).Some? && decode(msg.text).value.Request? &&
              decode(msg.text).value.request.SpecificTips? ==>
                var seqNo := decode(msg.text).value.seqNo;
                match db.messagesByHash(Dedup(Sort(decode(msg.text).value.request.tips)))
                case None => r == Err(DatabaseError) && sent == old(sent)
                case Some(found) =>
                  && sent == old(sent) + (if sendOk then [Response(seqNo, SpecificTipsResponse(found))] else [])
                  && r == if sendOk then Ok(()) else Err(SocketClosed)
      ensures msg.Text? && decode(msg.text).Some? && decode(msg.text).value.Request? &&
              decode(msg.text).value.request.Post? ==>
                var f := decode(msg.text).value;
                var answer := PostResponse(PostOutcomes(AuthenticatedPrefix(f.request.envelopes, db.selfAuthenticate), db.tryInsert));
                && sent == old(sent) + (if sendOk then [Response(f.seqNo, answer)] else [])
                && r == if sendOk then Ok(()) else Err(SocketClosed)
      // every response frame lowers the count by one and consumes its table entry
      ensures msg.Text? && decode(msg.text).Some? && decode(msg.text).value.Response? ==>
                var f := decode(msg.text).value;
                && defecit == old(defecit) - 1
                && inflight == Route(old(inflight), f.seqNo, f.response).1
                && sent == old(sent)
                && (r.Ok? <==> Route(old(inflight), f.seqNo, f.response).0.Ok?)
                && (r.Err? ==> r.error == Route(old(inflight), f.seqNo, f.response).0.error)
    {
      var text := Handshake.OnlyText(msg, "as a json encoded messages");
      if text.Err? {
        return Err(text.error);
      }
      var frame := decode(text.value);
      if frame.None? {
        return Err(JsonError);
      }
      match frame.value
      case Request(seqNo, m) =>
        match m {
          case LatestTips => r := FetchLatestTips(db, seqNo, sendOk);
          case SpecificTips(tips) => r := FetchSpecificTips(tips, db, seqNo, sendOk);
          case Post(envelopes) => r := PostEnvelope(envelopes, db, seqNo, sendOk);
        }
      case Response(seqNo, resp) =>
        var routed := HandleResponse(seqNo, resp);
        r := if routed.Ok? then Ok(()) else Err(routed.error);
    }
  }
}
