/** The wire vocabulary of the attestation socket protocol: requests,
    responses, their response codes and the protocol's error kinds. */
module ProtocolTypes {
  import opened Messages

  /** A single post outcome reported back to the peer. */
  datatype Outcome = Outcome(success: bool)

  datatype AttestRequest =
    | LatestTips
    | SpecificTips(tips: seq<Hash>)
    | Post(envelopes: seq<Envelope>)

  datatype AttestResponse =
    | LatestTipsResponse(latest: seq<Envelope>)
    | SpecificTipsResponse(found: seq<Envelope>)
    | PostResponse(outcomes: seq<Outcome>)

  /** A frame on the socket, numbered by the sender's sequence number. */
  datatype AttestSocketProtocol =
    | Request(seqNo: nat, request: AttestRequest)
    | Response(seqNo: nat, response: AttestResponse)

  /** The one-shot reply channel an internal request carries, by kind. */
  datatype AnySender = LatestTipsSender | SpecificTipsSender | PostSender

  datatype AttestProtocolError =
    | JsonError
    | ReqwetError
    | SocketError
    | HostnameUnknown
    | NonZeroSync
    | IncorrectMessageOwned(context: string)
    | CookieMissMatch
    | TimedOut
    | SocketClosed
    | FailedToAuthenticate
    | AlreadyConnected
    | InvalidSetup
    | DatabaseError
    | ResponseTypeIncorrect
    | UnrequestedResponse
    | InvalidChallengeHashString

  /** `AttestRequest::response_code_of`. */
  function RequestCode(r: AttestRequest): (c: nat)
    ensures c < 3
    ensures c == 0 <==> r.LatestTips?
    ensures c == 1 <==> r.SpecificTips?
    ensures c == 2 <==> r.Post?
  {
    match r
    case LatestTips => 0
    case SpecificTips(_) => 1
    case Post(_) => 2
  }

  /** `AttestResponse::response_code_of`. */
  function ResponseCode(r: AttestResponse): (c: nat)
    ensures c < 3
    ensures c == 0 <==> r.LatestTipsResponse?
    ensures c == 1 <==> r.SpecificTipsResponse?
    ensures c == 2 <==> r.PostResponse?
  {
    match r
    case LatestTipsResponse(_) => 0
    case SpecificTipsResponse(_) => 1
    case PostResponse(_) => 2
  }

  /** The response kind that answers a request kind. */
  predicate Answers(q: AttestRequest, r: AttestResponse) {
    || (q.LatestTips? && r.LatestTipsResponse?)
    || (q.SpecificTips? && r.SpecificTipsResponse?)
    || (q.Post? && r.PostResponse?)
  }

  /** The sender an internal request of each kind is paired with on its channel. */
  predicate Paired(q: AttestRequest, s: AnySender) {
    || (q.LatestTips? && s.LatestTipsSender?)
    || (q.SpecificTips? && s.SpecificTipsSender?)
    || (q.Post? && s.PostSender?)
  }

  /** Requests and responses share the code table, so a response carries the
      code of a request exactly when it is that request's kind of answer. */
  lemma CodesMatchExactlyAnswers(q: AttestRequest, r: AttestResponse)
    ensures RequestCode(q) == ResponseCode(r) <==> Answers(q, r)
  {
  }
}
