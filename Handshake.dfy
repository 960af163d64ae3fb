/** The authentication handshake that opens an attestation socket
    (`authentication_handshake.rs`).  The socket is abstract: what successive
    `t_recv` calls yield, how many `t_send` calls succeed before the peer is
    gone, and what has been sent.  Randomness, the clock, the HTTP call that
    hands the secret to the peer and the hashing and hex codecs are inputs. */
module Handshake {
  import opened Wrappers
  import opened ProtocolTypes
  import opened CookieJar
  import opened Connections

  /** A websocket message. */
  datatype Message =
    | Text(text: string)
    | Binary(data: seq<bv8>)
    | Ping(data: seq<bv8>)
    | Pong(data: seq<bv8>)
    | Close

  /** `MessageExt::only_text`: the payload of a text message, an error naming
      the message type and `context` otherwise. */
  function OnlyText(m: Message, context: string): (r: Result<string, AttestProtocolError>)
    ensures m.Text? <==> r.Ok?
    ensures m.Text? ==> r.value == m.text
    ensures !m.Text? ==> r.error.IncorrectMessageOwned?
  {
    match m
    case Text(s) => Ok(s)
    case Binary(_) => Err(IncorrectMessageOwned("Incorrect Message Type Binary, expected Text " + context))
    case Ping(_) => Err(IncorrectMessageOwned("Incorrect Message Type Ping, expected Text " + context))
    case Pong(_) => Err(IncorrectMessageOwned("Incorrect Message Type Pong, expected Text " + context))
    case Close => Err(IncorrectMessageOwned("Incorrect Message Type Close, expected Text " + context))
  }

  /** One item of the incoming stream: a message, or a transport error. */
  datatype Incoming = Frame(msg: Message) | Broken

  /** The stream ends (`t_recv` yields `None`) once `inbox` is exhausted;
      `t_send` succeeds `sendBudget` more times. */
  datatype Socket = Socket(inbox: seq<Incoming>, sendBudget: nat, outbox: seq<Message>)

  /** `t_recv().await.ok_or(SocketClosed)??`. */
  function Recv(s: Socket): (Result<Message, AttestProtocolError>, Socket) {
    if |s.inbox| == 0 then (Err(SocketClosed), s)
    else
      var rest := s.(inbox := s.inbox[1..]);
      match s.inbox[0]
      case Frame(m) => (Ok(m), rest)
      case Broken => (Err(SocketError), rest)
  }

  /** `t_recv` followed by `only_text(context)`. */
  function RecvText(s: Socket, context: string): (Result<string, AttestProtocolError>, Socket) {
    var (m, s') := Recv(s);
    if m.Err? then (Err(m.error), s') else (OnlyText(m.value, context), s')
  }

  /** `t_send`: true when the message went out. */
  function Send(s: Socket, m: Message): (bool, Socket) {
    if s.sendBudget == 0 then (false, s)
    else (true, s.(sendBudget := s.sendBudget - 1, outbox := s.outbox + [m]))
  }

  /** The hashing and hex codecs the handshake relies on. */
  datatype Crypto = Crypto(
    sha256: Secret -> Challenge,
    hexOfHash: Challenge -> string,
    hexOfSecret: Secret -> string,
    hashFromHex: string -> Option<Challenge>)

  /** What the server side cannot compute itself. */
  datatype ServerEnv = ServerEnv(
    parseServiceId: string -> Option<ServiceUrl>,  // serde_json::from_str of the claimed identity
    secret: Secret,                                // new_cookie()
    authenticated: bool,                           // client.authenticate(..) reached the claimed service
    answeredInTime: bool,                          // the answer arrived within the 2 second timeout
    closed: set<ChanId>,                           // channels of the registry whose receiver is gone
    newChan: ChanId)                               // the channel new_protocol_chan would make

  datatype ServerRun = ServerRun(result: Result<ChanId, AttestProtocolError>, socket: Socket, conns: Registry)

  /** The server's first message: hex of the challenge hash of its secret. */
  function ChallengeText(env: ServerEnv, c: Crypto): string {
    c.hexOfHash(c.sha256(env.secret))
  }

  /** The stream a server needs to see to accept, claiming identity `svc`. */
  ghost predicate ServerAccepts(sock: Socket, conns: Registry, env: ServerEnv, c: Crypto, svc: ServiceUrl) {
    && |sock.inbox| >= 3
    && sock.inbox[0].Frame? && sock.inbox[0].msg.Text?
    && env.parseServiceId(sock.inbox[0].msg.text) == Some(svc)
    && OpenChannel(conns, env.closed, svc).None?
    && sock.sendBudget >= 1
    && sock.inbox[1] == Frame(Text(""))
    && env.authenticated
    && env.answeredInTime
    && sock.inbox[2] == Frame(Text(c.hexOfSecret(env.secret)))
  }

  /** `handshake_protocol_server`. */
  function ServerHandshake(sock: Socket, conns: Registry, env: ServerEnv, c: Crypto): (r: ServerRun)
    // the server never fails for a reason reserved to the dispatcher
    ensures r.result != Err(InvalidSetup)
    // the registry changes only when the handshake succeeds
    ensures r.result.Err? ==> r.conns == conns
  {
    var (t, s1) := RecvText(sock, "Expected Text Message to initiate protocol");
    if t.Err? then ServerRun(Err(t.error), s1, conns)
    else match env.parseServiceId(t.value)
    case None => ServerRun(Err(JsonError), s1, conns)
    case Some(svc) =>
      if OpenChannel(conns, env.closed, svc).Some? then ServerRun(Err(AlreadyConnected), s1, conns)
      else
        var (sent, s2) := Send(s1, Text(ChallengeText(env, c)));
        if !sent then ServerRun(Err(SocketClosed), s2, conns)
        else
          var (ack, s3) := RecvText(s2, "for challenge ack");
          if ack.Err? then ServerRun(Err(ack.error), s3, conns)
          else if ack.value != "" then ServerRun(Err(NonZeroSync), s3, conns)
          else if !env.authenticated then ServerRun(Err(FailedToAuthenticate), s3, conns)
          else if !env.answeredInTime then ServerRun(Err(TimedOut), s3, conns)
          else
            var (answer, s4) := RecvText(s3, "for challenge_response");
            if answer.Err? then ServerRun(Err(answer.error), s4, conns)
            else if answer.value != c.hexOfSecret(env.secret) then ServerRun(Err(CookieMissMatch), s4, conns)
            else
              var (state, conns') := GetOrCreate(conns, env.closed, svc, env.newChan);
              if state.Newly? then ServerRun(Ok(state.chan), s4, conns')
              else ServerRun(Err(AlreadyConnected), s4, conns)
  }

  /** The first message claims `svc` as the peer's identity. */
  ghost predicate Claims(sock: Socket, env: ServerEnv, svc: ServiceUrl) {
    && |sock.inbox| >= 1
    && sock.inbox[0].Frame? && sock.inbox[0].msg.Text?
    && env.parseServiceId(sock.inbox[0].msg.text) == Some(svc)
  }

  /** A peer claiming a service that already has an open connection is turned
      away before any challenge is sent. */
  lemma ServerRefusesConnectedPeer(sock: Socket, conns: Registry, env: ServerEnv, c: Crypto, svc: ServiceUrl)
    requires Claims(sock, env, svc)
    requires OpenChannel(conns, env.closed, svc).Some?
    ensures var r := ServerHandshake(sock, conns, env, c);
            r.result == Err(AlreadyConnected) && r.socket.outbox == sock.outbox && r.conns == conns
  {
    var (t, _) := RecvText(sock, "Expected Text Message to initiate protocol");
    assert t == Ok(sock.inbox[0].msg.text);
  }

  /** Once the challenge is out, a non-empty acknowledgement is refused with
      `NonZeroSync`, whatever follows it. */
  lemma ServerRefusesNonEmptyAck(sock: Socket, conns: Registry, env: ServerEnv, c: Crypto, svc: ServiceUrl, ack: string)
    requires Claims(sock, env, svc)
    requires OpenChannel(conns, env.closed, svc).None?
    requires sock.sendBudget >= 1
    requires |sock.inbox| >= 2 && sock.inbox[1] == Frame(Text(ack)) && ack != ""
    ensures var r := ServerHandshake(sock, conns, env, c);
            r.result == Err(NonZeroSync) && r.socket.outbox == sock.outbox + [Text(ChallengeText(env, c))]
  {
    var (t, s1) := RecvText(sock, "Expected Text Message to initiate protocol");
    assert t == Ok(sock.inbox[0].msg.text);
    var (_, s2) := Send(s1, Text(ChallengeText(env, c)));
    assert s2.inbox == sock.inbox[1..];
  }

  /** The server accepts exactly the streams that claim an unconnected
      service, acknowledge with an empty text and answer with hex of the
      secret; it has then sent the challenge alone and registered the new
      channel for the claimed service. */
  lemma ServerSucceedsIff(sock: Socket, conns: Registry, env: ServerEnv, c: Crypto)
    ensures var r := ServerHandshake(sock, conns, env, c);
            r.result.Ok? <==> exists svc :: ServerAccepts(sock, conns, env, c, svc)
    ensures var r := ServerHandshake(sock, conns, env, c);
            forall svc :: ServerAccepts(sock, conns, env, c, svc) ==>
              && r.result == Ok(env.newChan)
              && r.socket.outbox == sock.outbox + [Text(ChallengeText(env, c))]
              && r.conns == conns[svc := env.newChan]
  {
    var r := ServerHandshake(sock, conns, env, c);
    var (t, s1) := RecvText(sock, "Expected Text Message to initiate protocol");
    if t.Ok? && env.parseServiceId(t.value).Some? {
      var svc := env.parseServiceId(t.value).value;
      assert t == Ok(sock.inbox[0].msg.text);
      var (_, s2) := Send(s1, Text(ChallengeText(env, c)));
      assert s2.inbox == sock.inbox[1..];
      var (ack, s3) := RecvText(s2, "for challenge ack");
      if |sock.inbox| >= 2 && sock.inbox[1] == Frame(Text("")) {
        assert ack == Ok("");
        assert s3.inbox == sock.inbox[2..];
      }
      if r.result.Ok? {
        assert ServerAccepts(sock, conns, env, c, svc);
      }
    }
  }

  /** What the client side cannot compute itself. */
  datatype ClientEnv = ClientEnv(
    tor: Option<Option<ServiceUrl>>,   // Some(hostname lookup) when Tor is configured
    attestationPort: nat,
    encodeId: ServiceUrl -> string,    // serde_json::to_string of the identity
    now: Timestamp,                    // clock read for cookie-jar garbage collection
    stamp: Timestamp,                  // clock read when the challenge is registered
    learned: Option<Secret>)           // the secret forwarded to the challenge within 10 seconds

  datatype ClientRun = ClientRun(result: Result<(), AttestProtocolError>, socket: Socket, jar: Jar)

  /** The identity a client claims: its Tor hostname, or the local port. */
  function Identity(env: ClientEnv): Result<ServiceUrl, AttestProtocolError> {
    match env.tor
    case None => Ok(ServiceUrl("127.0.0.1", env.attestationPort))
    case Some(None) => Err(HostnameUnknown)
    case Some(Some(me)) => Ok(me)
  }

  /** `handshake_protocol_client`. */
  function ClientHandshake(sock: Socket, jar: Jar, env: ClientEnv, c: Crypto): (r: ClientRun)
    ensures r.result != Err(InvalidSetup)
  {
    var me := Identity(env);
    if me.Err? then ClientRun(Err(me.error), sock, jar)
    else
      var (sent, s1) := Send(sock, Text(env.encodeId(me.value)));
      if !sent then ClientRun(Err(SocketClosed), s1, jar)
      else
        var (t, s2) := RecvText(s1, "for challenge hash type");
        if t.Err? then ClientRun(Err(t.error), s2, jar)
        else match c.hashFromHex(t.value)
        case None => ClientRun(Err(InvalidChallengeHashString), s2, jar)
        case Some(challenge) =>
          var jar' := Expect(jar, challenge, env.now, env.stamp);
          var (acked, s3) := Send(s2, Text(""));
          if !acked then ClientRun(Err(TimedOut), s3, jar')
          else match env.learned
          case None => ClientRun(Err(TimedOut), s3, jar')
          case Some(cookie) =>
            var (answered, s4) := Send(s3, Text(c.hexOfSecret(cookie)));
            if !answered then ClientRun(Err(SocketClosed), s4, jar')
            else ClientRun(Ok(()), s4, jar')
  }

  /** A challenge that is not hex is refused after the identity went out,
      and nothing is registered in the cookie jar. */
  lemma ClientRejectsNonHexChallenge(sock: Socket, jar: Jar, env: ClientEnv, c: Crypto, challenge: string)
    requires Identity(env).Ok? && sock.sendBudget >= 1
    requires |sock.inbox| >= 1 && sock.inbox[0] == Frame(Text(challenge))
    requires c.hashFromHex(challenge).None?
    ensures var r := ClientHandshake(sock, jar, env, c);
            r.result == Err(InvalidChallengeHashString) && r.jar == jar
            && r.socket.outbox == sock.outbox + [Text(env.encodeId(Identity(env).value))]
  {
    var (_, s1) := Send(sock, Text(env.encodeId(Identity(env).value)));
    assert s1.inbox == sock.inbox;
  }

  /** Given a hex challenge, a client that can send three messages and learns
      a secret in time succeeds; it has sent its identity, an empty
      acknowledgement and hex of the learned secret, and registered the
      challenge in the jar before acknowledging. */
  lemma ClientSucceeds(sock: Socket, jar: Jar, env: ClientEnv, c: Crypto, challenge: Challenge)
    requires Identity(env).Ok? && sock.sendBudget >= 3
    requires |sock.inbox| >= 1 && sock.inbox[0].Frame? && sock.inbox[0].msg.Text?
    requires c.hashFromHex(sock.inbox[0].msg.text) == Some(challenge)
    requires env.learned.Some?
    ensures var r := ClientHandshake(sock, jar, env, c);
            && r.result.Ok?
            && r.jar == Expect(jar, challenge, env.now, env.stamp)
            && r.socket.outbox == sock.outbox + [Text(env.encodeId(Identity(env).value)), Text(""),
                                                 Text(c.hexOfSecret(env.learned.value))]
  {
    var (_, s1) := Send(sock, Text(env.encodeId(Identity(env).value)));
    assert s1.inbox == sock.inbox;
    var (t, s2) := RecvText(s1, "for challenge hash type");
    assert t == Ok(sock.inbox[0].msg.text);
  }

  /** The acknowledgement is sent only after the challenge was registered:
      every run that got as far as sending its second message (the empty
      acknowledgement) has registered the challenge it received. */
  lemma ClientRegistersBeforeAck(sock: Socket, jar: Jar, env: ClientEnv, c: Crypto)
    ensures var r := ClientHandshake(sock, jar, env, c);
            |r.socket.outbox| >= |sock.outbox| + 2 ==>
              && r.socket.outbox[|sock.outbox| + 1] == Text("")
              && |sock.inbox| >= 1
              && sock.inbox[0].Frame? && sock.inbox[0].msg.Text?
              && c.hashFromHex(sock.inbox[0].msg.text).Some?
              && r.jar == Expect(jar, c.hashFromHex(sock.inbox[0].msg.text).value, env.now, env.stamp)
  {
    var r := ClientHandshake(sock, jar, env, c);
    var me := Identity(env);
    if me.Ok? {
      var (sent, s1) := Send(sock, Text(env.encodeId(me.value)));
      if sent {
        var (t, s2) := RecvText(s1, "for challenge hash type");
        if t.Ok? && c.hashFromHex(t.value).Some? {
          assert t == Ok(sock.inbox[0].msg.text);
        } else {
          assert r.socket.outbox[|sock.outbox|..] == [Text(env.encodeId(me.value))];
        }
      } else {
        assert r.socket.outbox[|sock.outbox|..] == [];
      }
    } else {
      assert r.socket.outbox[|sock.outbox|..] == [];
    }
  }

  /** Which side runs and with what internal request channel. */
  datatype Role = Server | Client

  datatype HandshakeRun = HandshakeRun(result: Result<ChanId, AttestProtocolError>, socket: Socket, conns: Registry, jar: Jar)

  /** `handshake_protocol`: a server without a request channel runs the server
      side, a client with one runs the client side and keeps its channel. */
  function HandshakeProtocol(role: Role, newRequest: Option<ChanId>, sock: Socket, conns: Registry, jar: Jar,
                             senv: ServerEnv, cenv: ClientEnv, c: Crypto): (r: HandshakeRun)
    ensures r.result == Err(InvalidSetup) <==> !((role.Server? && newRequest.None?) || (role.Client? && newRequest.Some?))
    ensures r.result.Err? && r.result.error == InvalidSetup ==> r.socket == sock && r.conns == conns && r.jar == jar
    ensures role.Client? && newRequest.Some? && r.result.Ok? ==> r.result.value == newRequest.value
    // a server without a channel runs the server side, the jar untouched
    ensures role.Server? && newRequest.None? ==>
              var s := ServerHandshake(sock, conns, senv, c);
              r == HandshakeRun(s.result, s.socket, s.conns, jar)
    // a client with a channel runs the client side, the registry untouched
    ensures role.Client? && newRequest.Some? ==>
              var cl := ClientHandshake(sock, jar, cenv, c);
              && r.socket == cl.socket && r.jar == cl.jar && r.conns == conns
              && (r.result.Ok? <==> cl.result.Ok?)
              && (r.result.Err? ==> r.result.error == cl.result.error)
  {
    match (role, newRequest)
    case (Server, None) =>
      var run := ServerHandshake(sock, conns, senv, c);
      HandshakeRun(run.result, run.socket, run.conns, jar)
    case (Client, Some(rx)) =>
      var run := ClientHandshake(sock, jar, cenv, c);
      HandshakeRun(if run.result.Ok? then Ok(rx) else Err(run.result.error), run.socket, conns, run.jar)
    case _ => HandshakeRun(Err(InvalidSetup), sock, conns, jar)
  }

  /** An honest client meets the server: the server's challenge is delivered
      to the client, the secret the server hands out reaches the client's
      cookie jar entry, and the client's three messages make the server accept. */
  lemma HonestClientIsAccepted(
    conns: Registry, jar: Jar, senv: ServerEnv, cenv: ClientEnv, c: Crypto, me: ServiceUrl)
    requires Identity(cenv) == Ok(me)
    requires senv.parseServiceId(cenv.encodeId(me)) == Some(me)
    requires c.hashFromHex(ChallengeText(senv, c)) == Some(c.sha256(senv.secret))
    requires OpenChannel(conns, senv.closed, me).None?
    requires senv.authenticated && senv.answeredInTime
    ensures
      // the client, receiving the challenge, registers it; the secret then finds its entry
      var client := ClientHandshake(Socket([Frame(Text(ChallengeText(senv, c)))], 3, []), jar,
                                    cenv.(learned := Some(senv.secret)), c);
      && client.result.Ok?
      && Add(client.jar, senv.secret, c.sha256).1
      // and the server, receiving what the client sent, accepts and registers it
      && var frames := seq(|client.socket.outbox|, i requires 0 <= i < |client.socket.outbox| => Frame(client.socket.outbox[i]));
         var server := ServerHandshake(Socket(frames, 1, []), conns, senv, c);
         server.result == Ok(senv.newChan) && server.conns == conns[me := senv.newChan]
  {
    var cenv' := cenv.(learned := Some(senv.secret));
    var client := ClientHandshake(Socket([Frame(Text(ChallengeText(senv, c)))], 3, []), jar, cenv', c);
    ExpectThenAddFinds(jar, senv.secret, c.sha256, cenv.now, cenv.stamp);
    var frames := seq(|client.socket.outbox|, i requires 0 <= i < |client.socket.outbox| => Frame(client.socket.outbox[i]));
    assert frames == [Frame(Text(cenv.encodeId(me))), Frame(Text("")), Frame(Text(c.hexOfSecret(senv.secret)))];
    assert ServerAccepts(Socket(frames, 1, []), conns, senv, c, me);
    ServerSucceedsIff(Socket(frames, 1, []), conns, senv, c);
  }
}
