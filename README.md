# judica-vm core, modelled in Dafny

This project models the sequential logic of judica-vm, a peer-to-peer
attestation network and a mining game played on Bitcoin contracts. It covers:

- **The attestation socket protocol** (`protocol.rs`):
  - the table of in-flight requests and the outstanding-message count
    ("defecit"), capped at 10;
  - how a peer's response is routed back to the request that asked for it;
  - the size-bounded cookie jar of expected challenges;
  - how a batch of posted envelopes is authenticated and inserted;
  - how tip queries are served.
- **The authentication handshake** (`authentication_handshake.rs`): the
  server and client step sequences over an abstract socket, and the
  role/channel dispatch.
- **The client connection registry** (`connection_creation.rs`): get or
  create a channel per service, replacing closed ones.
- **The mining-game contract** (`mining_game.rs`):
  - the n-of-n guard and the degrading-quorum schedule;
  - the five continuations and their argument coercions;
  - the replay of a move trace to a finished board.
- **The coin-lockup NFT** (`lockup.rs`): lock coins into a non-transferable
  account and release them to the owner once a time has passed.
- **Envelope construction** (`create.rs`, `attest-database/src/lib.rs`):
  the header of the next message in a user's chain, the genesis header, and
  the database file path.
- **Two UX panels** (`NewGame.tsx`, `SwitchToGame.tsx`): the create, join
  and finalize guards and latches, and the game-switch selection.

Cryptography, the database, sockets, clocks and randomness are parameters:
- functions such as `sha256`, `sign`, `selfAuthenticate` and `tryInsert`;
- booleans for "the send succeeded";
- a sequence of incoming frames.

Code that changes state in place is modelled as a class with `modifies`
clauses: `GlobalSocketState`, `PeerSession`, `AttestationClient`,
`GameBoard` and the two panels. Pure code is modelled as functions and
lemmas. Loops in the source are methods with loop invariants, proved equal
to a specification function:
- `AuthenticateBatch` and `InsertBatch`;
- `DegradedQuorum` and `GetFinishedBoard`;
- `PayEachPlayer` and `PayDistribution`.

Modules:
- `Wrappers`: Option and Result.
- `Messages`: the envelope and header types of the attestation messages.
- `ProtocolTypes`: request and response kinds, their codes and the errors.
- `CookieJar`, `Protocol`, `Handshake` and `Connections`: the socket server
  and the client.
- `MiningGame` and `Lockup`: the game contract and the NFT.
- `EnvelopeCreate` and `AttestDatabase`: envelope construction and the
  database path.
- `NewGame` and `SwitchToGame`: the two UX panels.

The two latches of `NewGame.tsx` behave as the code is written:
- `handle_click` and `handle_finalize_click` reset their latch only after
  the awaited call resolves, with no `finally`. A rejected call leaves the
  latch set and the button disabled.
- Nothing stops a game from being finalized twice: once a finalize call
  has resolved, the button is enabled again.

## Model

| member | source | states |
|---|---|---|
| ProtocolTypes.RequestCode | common/attest/src/attestations/server/protocol.rs:94-101 | LatestTips has code 0, SpecificTips 1 and Post 2, each code naming exactly one kind |
| ProtocolTypes.ResponseCode | common/attest/src/attestations/server/protocol.rs:108-115 | LatestTipsResponse has code 0, SpecificTipsResponse 1 and PostResponse 2, each code naming exactly one kind |
| ProtocolTypes.CodesMatchExactlyAnswers | common/attest/src/attestations/server/protocol.rs:94-115 | a request's code equals a response's code exactly when that response is the answer kind of that request |
| CookieJar.MinKey | common/attest/src/attestations/server/protocol.rs:190-194 | the key evicted when the jar is still too full is the smallest one present |
| CookieJar.Retain | common/attest/src/attestations/server/protocol.rs:188-189 | garbage collection keeps exactly the entries stamped after the staleness bound, with their stamps |
| CookieJar.Expect | common/attest/src/attestations/server/protocol.rs:183-200 | after expecting, the challenge maps to its stamp; a jar of at most 100 entries only gains it; over 100, every stale entry is dropped, and if the fresh ones are still over 100 the smallest of them is evicted, every other fresh entry surviving unchanged |
| CookieJar.Add | common/attest/src/attestations/server/protocol.rs:201-215 | an entry is found exactly when the cookie's hash is in the jar, and that entry and nothing else is removed |
| CookieJar.ExpectKeepsJarBounded | common/attest/src/attestations/server/protocol.rs:186-198 | expecting never takes the jar above 101 entries, from any jar |
| CookieJar.AddConsumesChallenge | common/attest/src/attestations/server/protocol.rs:202-214 | a challenge is found at most once: a second add of the same cookie finds nothing |
| CookieJar.ExpectThenAddFinds | common/attest/src/attestations/server/protocol.rs:183-215 | a cookie whose hash was just expected is found and removed when it arrives |
| CookieJar.GlobalSocketState.ExpectACookie | common/attest/src/attestations/server/protocol.rs:183-200 | the jar becomes `Expect` of the old jar |
| CookieJar.GlobalSocketState.AddACookie | common/attest/src/attestations/server/protocol.rs:201-215 | the jar and the found-and-removed flag are `Add` of the old jar |
| Protocol.Route | common/attest/src/attestations/server/protocol.rs:365-390 | the sequence number leaves the table whatever the outcome; absent gives UnrequestedResponse, a code mismatch gives ResponseTypeIncorrect, otherwise the response goes to the recorded sender |
| Protocol.RouteAtMostOnce | common/attest/src/attestations/server/protocol.rs:368-388 | a second response with the same sequence number is always UnrequestedResponse |
| Protocol.RouteDeliversRequested | common/attest/src/attestations/server/protocol.rs:368-381 | with consistent routers, routing succeeds iff the number is in flight with the response's code, and the response then fits its sender |
| Protocol.RouterForRequestAcceptsItsAnswers | common/attest/src/attestations/server/protocol.rs:325-331 | the router recorded for a request is consistent, and its sender accepts exactly that request's answers |
| Protocol.Sort | common/attest/src/attestations/server/protocol.rs:458 | the requested hashes come out sorted and a permutation of the input |
| Protocol.Dedup | common/attest/src/attestations/server/protocol.rs:459 | deduplication keeps the same set of hashes, makes a sorted list strictly increasing and never grows it |
| Protocol.SortDedupIsCanonical | common/attest/src/attestations/server/protocol.rs:458-459 | the database is asked for a strictly increasing list holding exactly the requested hashes |
| Protocol.StrictlyIncreasingIsUnique | common/attest/src/attestations/server/protocol.rs:458-459 | two strictly increasing lists with the same elements are equal, so the query depends only on the set of hashes requested |
| Protocol.AuthenticatedPrefix | common/attest/src/attestations/server/protocol.rs:404-414 | the authenticated envelopes are a prefix of the batch, each authentic, stopped at the first that is not |
| Protocol.PostOutcomes | common/attest/src/attestations/server/protocol.rs:415-436 | one outcome per authenticated envelope, successful iff its insert (after the earlier ones) succeeded |
| Protocol.AuthenticateBatch | common/attest/src/attestations/server/protocol.rs:404-414 | the authentication loop yields exactly `AuthenticatedPrefix` |
| Protocol.InsertBatch | common/attest/src/attestations/server/protocol.rs:415-436 | the insert loop yields exactly `PostOutcomes` |
| Protocol.PostAnswersAuthenticPrefix | common/attest/src/attestations/server/protocol.rs:404-436 | envelope i gets an outcome iff it and every envelope before it are authentic; that outcome is a success iff its insert after the earlier ones succeeded |
| Protocol.PeerSession.constructor | common/attest/src/attestations/server/protocol.rs:244-246 | a session starts with no requests in flight, a zero count and nothing sent |
| Protocol.PeerSession.HandleInternalRequest | common/attest/src/attestations/server/protocol.rs:268-336 | taken only while the count is below 10 (the `run_protocol` guard), it records exactly seq to the request's code and sender, raises the count by one so it stays at most 10, sends the request, and gives SocketError if the send fails |
| Protocol.PeerSession.HandleResponse | common/attest/src/attestations/server/protocol.rs:365-390 | the count drops by one before the lookup, and the outcome and table are `Route` of the old table |
| Protocol.PeerSession.PostEnvelope | common/attest/src/attestations/server/protocol.rs:394-445 | sends the post outcomes of the authentic prefix; SocketClosed if the send fails |
| Protocol.PeerSession.FetchSpecificTips | common/attest/src/attestations/server/protocol.rs:447-480 | asks the database for the sorted, deduplicated hashes; DatabaseError sends nothing, otherwise the found envelopes are sent |
| Protocol.PeerSession.FetchLatestTips | common/attest/src/attestations/server/protocol.rs:482-512 | DatabaseError sends nothing, otherwise all tips are sent; SocketClosed if the send fails |
| Protocol.PeerSession.HandleMessageFromPeer | common/attest/src/attestations/server/protocol.rs:338-392 | non-text or undecodable frames change nothing; each request kind is answered by its handler (latest tips, sorted and deduplicated specific tips, post outcomes) whose result is returned, leaving table and count alone; a response lowers the count and returns Route's error |
| Handshake.OnlyText | common/attest/src/attestations/server/protocol/authentication_handshake.rs:36-57 | text yields its payload; Binary, Ping, Pong and Close yield IncorrectMessageOwned |
| Handshake.ServerHandshake | common/attest/src/attestations/server/protocol/authentication_handshake.rs:59-129 | the server never reports InvalidSetup and touches the registry only on success |
| Handshake.ServerRefusesConnectedPeer | common/attest/src/attestations/server/protocol/authentication_handshake.rs:74-82 | a peer claiming an already connected service gets AlreadyConnected before any challenge is sent |
| Handshake.ServerRefusesNonEmptyAck | common/attest/src/attestations/server/protocol/authentication_handshake.rs:83-97 | after sending hex of the challenge hash, a non-empty acknowledgement gives NonZeroSync |
| Handshake.ServerSucceedsIff | common/attest/src/attestations/server/protocol/authentication_handshake.rs:59-129 | the server succeeds iff the peer claims an unconnected service, acks empty and answers hex of the secret; it then sent only the challenge and registered the new channel |
| Handshake.ClientHandshake | common/attest/src/attestations/server/protocol/authentication_handshake.rs:131-183 | the client never reports InvalidSetup |
| Handshake.ClientRejectsNonHexChallenge | common/attest/src/attestations/server/protocol/authentication_handshake.rs:155-156 | a non-hex challenge gives InvalidChallengeHashString after only the identity was sent, with the jar untouched |
| Handshake.ClientSucceeds | common/attest/src/attestations/server/protocol/authentication_handshake.rs:136-181 | given a hex challenge and a learned secret, the client sends identity, empty ack and hex of the secret, having registered the challenge |
| Handshake.ClientRegistersBeforeAck | common/attest/src/attestations/server/protocol/authentication_handshake.rs:158-162 | whenever the empty ack went out, the received challenge was already registered in the jar |
| Handshake.HandshakeProtocol | common/attest/src/attestations/server/protocol/authentication_handshake.rs:186-211 | (Server, no channel) runs the server handshake and (Client, channel) the client handshake, which keeps its channel; any other pairing is InvalidSetup and changes nothing |
| Handshake.HonestClientIsAccepted | common/attest/src/attestations/server/protocol/authentication_handshake.rs:59-183 | an honest client's messages make the server accept it, and the secret the server hands out finds the client's jar entry |
| Connections.OpenChannel | common/attest/src/attestations/client/connection_creation.rs:19-32 | a channel is found exactly when the service has an entry that is not closed |
| Connections.UpdateEntry | common/attest/src/attestations/client/connection_creation.rs:39-63 | the entry update is never Unknown: open gives Already, closed or absent gives Newly with the new channel stored |
| Connections.GetOrCreate | common/attest/src/attestations/client/connection_creation.rs:33-66 | Already leaves the map unchanged, otherwise Newly stores the fresh channel; afterwards the service maps to the returned channel and every other entry is unchanged |
| Connections.GetOrCreateIsIdempotent | common/attest/src/attestations/client/connection_creation.rs:33-66 | asking again right after finds the same channel as Already and changes nothing |
| Connections.AttestationClient.constructor | common/attest/src/attestations/client/connection_creation.rs:107-116 | a new client has no connections and no in-flight requests |
| Connections.AttestationClient.ConnAlreadyExists | common/attest/src/attestations/client/connection_creation.rs:19-32 | returns the service's channel exactly when it exists and is open |
| Connections.AttestationClient.NewProtocolChan | common/attest/src/attestations/client/connection_creation.rs:42-60 | each new channel is distinct from every channel made before |
| Connections.AttestationClient.ConnAlreadyExistsOrCreate | common/attest/src/attestations/client/connection_creation.rs:33-66 | the result and the new map are `GetOrCreate` of the old map, and the returned channel is open |
| Connections.AttestationClient.GetConn | common/attest/src/attestations/client/connection_creation.rs:67-71 | an open channel is returned as is, without creating anything |
| MiningGame.CountBounds | contracts/modules/mining_game/src/mining_game.rs:89-97 | a threshold's count of satisfied sub-clauses is at most their number; it is positive iff one is met, and full iff all are |
| MiningGame.SignedCountAll | contracts/modules/mining_game/src/mining_game.rs:51-59 | every key signed exactly when the signed count equals the number of keys |
| MiningGame.AllPlayersSignedIsNofN | contracts/modules/mining_game/src/mining_game.rs:51-59 | the guard is satisfied exactly when every player's key has signed |
| MiningGame.DegradedQuorum | contracts/modules/mining_game/src/mining_game.rs:62-98 | builds a 1-of threshold of 2n clauses; for k = 0..n-1, a host-assisted (n-k)-of-n at height max(1,12k) and a plain (n-k)-of-n at 12k+6 |
| MiningGame.KeyThresholdMeaning | contracts/modules/mining_game/src/mining_game.rs:86-92 | a k-of-keys threshold holds iff at least k of the keys signed |
| MiningGame.HostAssistedMeaning | contracts/modules/mining_game/src/mining_game.rs:82-89 | the host-assisted clause holds iff the age reaches max(1,12k), n-k players signed and the host signed |
| MiningGame.UnassistedMeaning | contracts/modules/mining_game/src/mining_game.rs:91-94 | the plain clause holds iff n-k players signed and the age reaches 12k+6 |
| MiningGame.DegradedQuorumAdmits | contracts/modules/mining_game/src/mining_game.rs:62-98 | the whole guard holds iff some k has n-k signers and either age 12k+6, or the host and age max(1,12k) |
| MiningGame.PayEachPlayer | contracts/modules/mining_game/src/mining_game.rs:262-264 | one output per player, paying that player's balance to their key, in order |
| MiningGame.PayoutConservesBalances | contracts/modules/mining_game/src/mining_game.rs:262-264 | the outputs pay out exactly the players' total balance |
| MiningGame.HostCheatEquivocate | contracts/modules/mining_game/src/mining_game.rs:105-124 | no proof gives no spends; the host's own secret key pays each player; any other key gives the Custom mismatch error |
| MiningGame.HostCheatCensor | contracts/modules/mining_game/src/mining_game.rs:131-137 | no proof gives no spends; any proof gives TerminateWith("Not Yet Supported") |
| MiningGame.Degrade | contracts/modules/mining_game/src/mining_game.rs:257-268 | no argument gives no spends; with one, a single spend pays each player their balance |
| MiningGame.ReplayAppend | contracts/modules/mining_game/src/mining_game.rs:155-162 | replaying two traces in a row is replaying the first and, if it did not finish, continuing with the second |
| MiningGame.ReplayIgnoresMovesAfterFinish | contracts/modules/mining_game/src/mining_game.rs:158 | once the game finishes, later moves change nothing |
| MiningGame.GetFinishedBoard | contracts/modules/mining_game/src/mining_game.rs:139-163 | the loop from the initial board (100 000 000 start amount, the kernel's timeout) equals the replay: first finish with its board, else the last board |
| MiningGame.DistributionOutputs | contracts/modules/mining_game/src/mining_game.rs:189-197 | every distribution key parses iff the result is one output per entry in order; otherwise the error names a bad key |
| MiningGame.PayDistribution | contracts/modules/mining_game/src/mining_game.rs:189-197 | the payout loop yields exactly `DistributionOutputs` |
| MiningGame.SettleIfFinished | contracts/modules/mining_game/src/mining_game.rs:169-250 | with a trace, pays the close distribution only when the replay finished for the accepted reason; otherwise no spends |
| MiningGame.GameEndPlayersWin | contracts/modules/mining_game/src/mining_game.rs:169-204 | pays out only for a game finished with TimeExpired |
| MiningGame.GameEndPlayersLose | contracts/modules/mining_game/src/mining_game.rs:211-250 | pays out only for a game finished with DominatingPlayer |
| MiningGame.CoerceHostKey | contracts/modules/mining_game/src/mining_game.rs:305-315 | None gives Ok(None), HostCheatEquivocate gives its key, anything else the coercion error |
| MiningGame.CoerceCensorshipProof | contracts/modules/mining_game/src/mining_game.rs:317-327 | None gives Ok(None), HostCheatCensor gives a proof, anything else the coercion error |
| MiningGame.CoercePlayersWin | contracts/modules/mining_game/src/mining_game.rs:329-339 | None gives Ok(None), PlayersWin gives its trace, anything else the coercion error |
| MiningGame.CoercePlayersLose | contracts/modules/mining_game/src/mining_game.rs:341-351 | None gives Ok(None), PlayersLose gives its trace, anything else the coercion error |
| MiningGame.CoerceDegrade | contracts/modules/mining_game/src/mining_game.rs:353-363 | None gives Ok(None), Degrade gives unit, anything else the coercion error |
| MiningGame.CoercionsRouteToOneContinuation | contracts/modules/mining_game/src/mining_game.rs:281-363 | every update reaches exactly one continuation; no update is accepted by all five |
| Lockup.Transfer | common/mine-with-friends-board/src/nfts/instances/lockup.rs:60-64 | succeeds iff the sender's balance suffices, moving exactly the amount and leaving every other balance unchanged; a failure changes nothing |
| Lockup.TransferConserves | common/mine-with-friends-board/src/nfts/instances/lockup.rs:42-44 | a transfer keeps the sum of sender's and receiver's balances |
| Lockup.LockThenReleaseRestores | common/mine-with-friends-board/src/nfts/instances/lockup.rs:22-65 | locking and then releasing restores the owner's balance and empties the lockup account, touching no one else |
| Lockup.ReleaseEmptiesLockup | common/mine-with-friends-board/src/nfts/instances/lockup.rs:60-64 | releasing always succeeds, empties the lockup account and credits the owner with its whole balance |
| Lockup.GameBoard.Alloc | common/mine-with-friends-board/src/nfts/instances/lockup.rs:29 | each allocated entity id is fresh |
| Lockup.GameBoard.Lockup | common/mine-with-friends-board/src/nfts/instances/lockup.rs:22-45 | adds a fresh NFT owned by the owner with transfer count u128::MAX, schedules a callback at the release time, and moves the amount of that asset only |
| Lockup.GameBoard.Action | common/mine-with-friends-board/src/nfts/instances/lockup.rs:49-65 | before the release time nothing changes; afterwards the lockup account's whole balance goes to the NFT's current owner |
| EnvelopeCreate.Position | common/attest-database/src/db_handle/create.rs:34-35 | finds the first tip whose key is the signer's, or none |
| EnvelopeCreate.SwapRemove | common/attest-database/src/db_handle/create.rs:36 | the last tip moves into the removed slot and the length drops by one |
| EnvelopeCreate.SwapRemoveIsRemoval | common/attest-database/src/db_handle/create.rs:36 | swap-remove removes exactly that one element |
| EnvelopeCreate.TipRefs | common/attest-database/src/db_handle/create.rs:40-47 | tips become (key, height, canonical hash) triples, in order |
| EnvelopeCreate.OtherTipsExcludeSigner | common/attest-database/src/db_handle/create.rs:34-37 | with one tip per user, the header's tips are exactly the other users' tips |
| EnvelopeCreate.WrapMessageInEnvelopeForUserByKey | common/attest-database/src/db_handle/create.rs:23-77 | each failed lookup (tips, own tip, nonce secret, fresh nonce) is returned as the database error in that order; once all succeed only signing can fail; a signed envelope has the signer's key, height one above its tip, that tip's genesis and hash, other users' tips, a fresh nonce, the given or default checkpoints, and is signed with the nonce its tip committed to |
| EnvelopeCreate.NextEnvelopeExtendsChain | common/attest-database/src/db_handle/create.rs:58-64 | the new envelope is one above its tip, keeps the tip's genesis and points back to it |
| AttestDatabase.FileStem | common/attest-database/src/lib.rs:31 | the stem of a file name is a prefix of it |
| AttestDatabase.SetExtension | common/attest-database/src/lib.rs:31 | only the last path component changes: its stem gains the new extension |
| AttestDatabase.DbFileIsNameDotSqlite3 | common/attest-database/src/lib.rs:30-32 | the database file is dir/name.sqlite3 for a name without a dot |
| AttestDatabase.SetupDbAt | common/attest-database/src/lib.rs:23-38 | succeeds iff the directory can be made, with the file `DbFile(dir, name)` |
| AttestDatabase.DataDir | common/attest-database/src/lib.rs:42-47 | no prefix keeps the data directory; with a prefix the data directory is re-rooted under it, and a relative data directory fails |
| AttestDatabase.SetupDbFileIsAttestations | common/attest-database/src/lib.rs:39-49 | whatever the application, the file is attestations.sqlite3 in the data directory |
| AttestDatabase.GenerateNewUser | common/attest-database/src/lib.rs:51-77 | the genesis has height 0, no ancestors, no tips, default checkpoints, commits to the second nonce and is signed with the first; its message is `init` canonicalized or Null; an unserializable init gives SerializeError, otherwise it fails exactly when signing fails, with SigningFailed |
| AttestDatabase.FirstMessageExtendsGenesis | common/attest-database/src/lib.rs:51-77 | the first message after a genesis is at height 1, names the genesis as both genesis and previous message, and is signed with the committed nonce |
| NewGame.CreateCall | ux/src/header/NewGame.tsx:19-28 | a call is made iff the nickname is truthy and, in join mode, the join code too; join calls join_existing_game, new calls make_new_game |
| NewGame.FinalizeCall | ux/src/header/NewGame.tsx:29-42 | a call is made iff password and code are truthy, with finish time 3 600 000 ms and start amount 1 000 000 |
| NewGame.CreateGuardsOnForm | ux/src/header/NewGame.tsx:22-25 | a missing or empty nickname makes no call, in join mode or in new mode |
| NewGame.Panel.constructor | ux/src/header/NewGame.tsx:11-17 | fields start null, new mode, both latches down and no calls |
| NewGame.Panel.Action | ux/src/header/NewGame.tsx:18 | the caption is "Join" iff join mode, else "New" |
| NewGame.Panel.Toggle | ux/src/header/NewGame.tsx:52-54 | a null new value is ignored; otherwise it becomes the mode |
| NewGame.Panel.SetNick | ux/src/header/NewGame.tsx:66 | the nickname becomes the typed value |
| NewGame.Panel.SetJoinCodeForm | ux/src/header/NewGame.tsx:68 | the join code becomes the typed value |
| NewGame.Panel.ClickCreate | ux/src/header/NewGame.tsx:19-28 | the call made is `CreateCall`; the latch stays up exactly while that call is pending |
| NewGame.Panel.CreateSettled | ux/src/header/NewGame.tsx:23-27 | the latch drops only when the call was fulfilled; a rejection leaves it up |
| NewGame.Panel.ClickFinalize | ux/src/header/NewGame.tsx:29-42 | without password and code nothing changes; otherwise the finalize call is recorded and the latch raised |
| NewGame.Panel.FinalizeSettled | ux/src/header/NewGame.tsx:35-41 | the latch drops only when the call was fulfilled |
| SwitchToGame.Prefix16 | ux/src/header/SwitchToGame.tsx:17 | `substring(0, 16)` is the first min(16, length) characters |
| SwitchToGame.Truncated | ux/src/header/SwitchToGame.tsx:28 | the shown value is the key's first 16 characters followed by "..." |
| SwitchToGame.Menu | ux/src/header/SwitchToGame.tsx:15-30 | "No Key" with value "" first, then one item per sequencer valued by its key, captioned name -- prefix... |
| SwitchToGame.Panel.constructor | ux/src/header/SwitchToGame.tsx:13 | the selection starts at the loaded game, or "" |
| SwitchToGame.Panel.Select | ux/src/header/SwitchToGame.tsx:28 | the selection becomes the chosen value |
| SwitchToGame.Panel.Submit | ux/src/header/SwitchToGame.tsx:20-23 | switches to the selection iff it is non-empty, and records it |
| SwitchToGame.Panel.ShowCopyButton | ux/src/header/SwitchToGame.tsx:35 | the copy button appears iff a non-empty game is loaded |

## Left out

- The `run_protocol` select loop, the spawn, retry and poll loops of `get_conn`, and the handshake timeouts are left out because they are asynchronous plumbing. Each handler is one atomic step. A timeout is a boolean parameter. The loop's guard on the count is the precondition of `Protocol.PeerSession.HandleInternalRequest`.
- fetch_peer.rs, server.rs, the Tauri `main.rs`, `ChatLog.tsx`, `purchase-offer` and the board's tests are not part of this model.
- Cryptography, the database, the socket transport, the clock and randomness are parameters of the model, not implementations. This covers sha256, x-only keys, signing, `self_authenticate`, canonical hashing, rusqlite, directory creation and `ProjectDirs`.
- JSON encoding and decoding are parameters. Decode failures are modelled as JsonError, in `Protocol.PeerSession.HandleMessageFromPeer` and `Handshake.ServerHandshake`. Encode failures are not modelled; each is named on its own line below.
- Protocol.PeerSession.HandleInternalRequest: does not model a failure to encode the request (`into_protocol_and_log`, protocol.rs line 333). Such a failure returns JsonError after the in-flight entry was recorded and the count raised, with nothing sent.
- Protocol.PeerSession.PostEnvelope: does not model a failure to encode the answer (protocol.rs line 438), which would return JsonError with nothing sent.
- Protocol.PeerSession.FetchSpecificTips: does not model a failure to encode the answer (protocol.rs lines 472-473), which would return JsonError with nothing sent.
- Protocol.PeerSession.FetchLatestTips: does not model a failure to encode the answer (protocol.rs line 496), which would return JsonError with nothing sent.
- Handshake.ClientHandshake: does not model a failure to encode the client's identity (authentication_handshake.rs line 146), which would return JsonError before anything is sent.
- The game board's `play` and `get_close_distribution`, and the key parsing, are parameters (`Board`). The board's own rules are not part of this model.
- Clause satisfaction (`Satisfied`) is this model's own reading of sapio clauses over a set of signed keys and a relative age. The compiler's policy semantics are not modelled.
- The sapio template and `ctx.funds()` are not modelled. A spend is modelled as its list of outputs, and the template's own value checks are left out.
- MiningGame.DegradedQuorum: requires at least one player, because `total - 1` underflows for an empty game. It also requires 12·n ≤ 65535 so that the u16 trigger counter does not overflow. Wrap-around is not modelled.
- Lockup: the token ledger is assumed to transfer all-or-nothing. tokens.rs is not part of this model.
- Lockup.GameBoard.Lockup: the NFT is assumed to be keyed by its own id, since `nfts.add` is not part of this model. The transaction brackets are atomic.
- Connections.AttestationClient.ConnAlreadyExistsOrCreate: requires that only channels already handed out can be closed. A fresh channel is never closed.
- Connections: a channel's closedness is decided outside the registry, when its receiver is dropped. It is given as a set of closed channels.
- `AttestationClient.inflight` is kept only as its initial value, because no core operation updates it.
- EnvelopeCreate.WrapMessageInEnvelopeForUserByKey: the fresh nonce lookup is a function of the database. Its side effect, storing the new nonce's secret (create.rs lines 56-57), is not modelled, so two calls with the same database get the same nonce.
- Handshake.ServerHandshake: the error path of `g.get_client()` (authentication_handshake.rs line 73), between parsing the claimed identity and the already-connected check, is not modelled. The server always obtains its client there, because the client pool is not part of this model.
- Handshake: the registration at the end of the server handshake calls `conn_already_exists_or_create` with the signature of its definition in connection_creation.rs. That file's signature differs from the call site.
- AttestDatabase: a path name is pushed as a single component. The `Connection::open` unwrap is not modelled.
- Protocol.PeerSession.HandleInternalRequest: requires the count below 10, which is the `run_protocol` guard on taking internal requests. It also requires the sender to match the request kind, which is how the caller pairs a request with its reply channel.
- NewGame: a disabled button cannot be clicked, so the click handlers require their latch to be down.
- NewGame: an awaited host call is split into the click and a later settle event.
