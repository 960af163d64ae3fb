/** Building and signing a user's next envelope
    (`wrap_message_in_envelope_for_user_by_key`, `create.rs`).  The database
    reads, nonce generation, hashing and signing are inputs; the model keeps
    the order in which they are consulted and the header they produce. */
module EnvelopeCreate {
  import opened Wrappers
  import opened Messages

  type KeyPair = nat
  type Secret = nat   // secret half of a precommitted nonce

  datatype SqlError = SqlError
  datatype SigningError = SigningError

  /** The message database as this operation sees it. */
  datatype MsgDb = MsgDb(
    tipsForAllUsers: Result<seq<Envelope>, SqlError>,
    tipForUserByKey: PublicKey -> Result<Envelope, SqlError>,
    secretForPublicNonce: PublicNonce -> Result<Secret, SqlError>,
    // has a side effect on the database: the fresh secret is stored
    freshNonceForUserByKey: PublicKey -> Result<PublicNonce, SqlError>)

  datatype Signer = Signer(
    xOnly: KeyPair -> PublicKey,
    canonicalHash: Envelope -> Hash,
    // signs the envelope as it stands (with the default signature)
    sign: (Envelope, KeyPair, Secret) -> Result<Signature, SigningError>)

  /** `iter().position`: the first tip signed by `key`. */
  function Position(tips: seq<Envelope>, key: PublicKey): (p: Option<nat>)
    ensures p.Some? ==> p.value < |tips| && tips[p.value].header.key == key
    ensures p.Some? ==> forall i :: 0 <= i < p.value ==> tips[i].header.key != key
    ensures p.None? ==> forall i :: 0 <= i < |tips| ==> tips[i].header.key != key
  {
    if tips == [] then None
    else if tips[0].header.key == key then Some(0)
    else
      match Position(tips[1..], key)
      case None => None
      case Some(i) => Some(i + 1)
  }

  /** `Vec::swap_remove`: the last element takes the removed one's slot. */
  function SwapRemove<T>(s: seq<T>, p: nat): (r: seq<T>)
    requires p < |s|
    ensures |r| == |s| - 1
    ensures p < |r| ==> r[p] == s[|s| - 1]
    ensures forall i :: 0 <= i < |r| && i != p ==> r[i] == s[i]
  {
    if p == |s| - 1 then s[..p] else s[..p] + [s[|s| - 1]] + s[p + 1..|s| - 1]
  }

  /** Swap-removing takes out exactly the one element and keeps all others. */
  lemma SwapRemoveIsRemoval<T>(s: seq<T>, p: nat)
    requires p < |s|
    ensures multiset(SwapRemove(s, p)) == multiset(s) - multiset{s[p]}
  {
    var last := |s| - 1;
    if p == last {
      assert s == s[..p] + [s[p]];
    } else {
      assert s == s[..p] + [s[p]] + s[p + 1..last] + [s[last]];
      calc {
        multiset(s);
        multiset(s[..p]) + multiset{s[p]} + multiset(s[p + 1..last]) + multiset{s[last]};
        multiset(s[..p] + [s[last]] + s[p + 1..last]) + multiset{s[p]};
      }
    }
  }

  /** The tips of other users after the signer's own one is dropped. */
  function OtherTips(tips: seq<Envelope>, key: PublicKey): seq<Envelope> {
    match Position(tips, key)
    case None => tips
    case Some(p) => SwapRemove(tips, p)
  }

  /** The (key, height, hash) triples the header lists, in order. */
  function TipRefs(tips: seq<Envelope>, hash: Envelope -> Hash): (refs: seq<TipRef>)
    ensures |refs| == |tips|
    ensures forall i :: 0 <= i < |tips| ==>
              refs[i] == TipRef(tips[i].header.key, tips[i].header.height, hash(tips[i]))
  {
    if tips == [] then [] else [TipRef(tips[0].header.key, tips[0].header.height, hash(tips[0]))] + TipRefs(tips[1..], hash)
  }

  /** The database keeps one tip per user. */
  predicate OneTipPerUser(tips: seq<Envelope>) {
    forall i, j :: 0 <= i < j < |tips| ==> tips[i].header.key != tips[j].header.key
  }

  /** With one tip per user, the header never lists the signer's own tip and
      lists every other user's tip. */
  lemma OtherTipsExcludeSigner(tips: seq<Envelope>, key: PublicKey)
    requires OneTipPerUser(tips)
    ensures forall t :: t in OtherTips(tips, key) ==> t.header.key != key
    ensures forall t :: t in tips && t.header.key != key ==> t in OtherTips(tips, key)
  {
    var other := OtherTips(tips, key);
    match Position(tips, key)
    case None =>
    case Some(p) =>
      SwapRemoveIsRemoval(tips, p);
      forall t | t in other ensures t.header.key != key {
        var i :| 0 <= i < |other| && other[i] == t;
        if i == p {
          assert t == tips[|tips| - 1];
        } else {
          assert t == tips[i];
        }
      }
      forall t | t in tips && t.header.key != key ensures t in other {
        assert t in multiset(tips) && t != tips[p];
        assert t in multiset(other);
      }
  }

  /** The tip the new envelope builds on: the bypass tip when one is given,
      else the signer's tip from the database. */
  function MyTip(db: MsgDb, key: PublicKey, dangerousBypassTip: Option<Envelope>): Result<Envelope, SqlError> {
    if dangerousBypassTip.Some? then Ok(dangerousBypassTip.value) else db.tipForUserByKey(key)
  }

  /** The new envelope's header before it is signed. */
  function NextHeader(key: PublicKey, myTip: Envelope, tips: seq<TipRef>, nextNonce: PublicNonce,
                      sentTimeMs: int, checkpoints: Option<seq<CheckPoint>>, hash: Envelope -> Hash): Header
  {
    Header(key, nextNonce, Some(Ancestors(GenesisHash(myTip, hash), hash(myTip))), tips,
           myTip.header.height + 1, sentTimeMs, None,
           if checkpoints.Some? then checkpoints.value else DefaultCheckpoints)
  }

  /** `wrap_message_in_envelope_for_user_by_key`.  Database failures are
      the outer error and a signing failure the inner one; the lookups happen
      in the order tips, own tip, signing secret, fresh nonce. */
  function WrapMessageInEnvelopeForUserByKey(db: MsgDb, crypto: Signer, msg: Json, keypair: KeyPair,
                                             bitcoinTipcache: Option<seq<CheckPoint>>,
                                             dangerousBypassTip: Option<Envelope>, now: int)
    : (r: Result<Result<Envelope, SigningError>, SqlError>)
    ensures db.tipsForAllUsers.Err? ==> r == Err(db.tipsForAllUsers.error)
    ensures r.Ok? && r.value.Ok? ==>
              var key := crypto.xOnly(keypair);
              var e := r.value.value;
              && db.tipsForAllUsers.Ok?
              && MyTip(db, key, dangerousBypassTip).Ok?
              && var myTip := MyTip(db, key, dangerousBypassTip).value;
                 && db.secretForPublicNonce(myTip.header.nextNonce).Ok?
                 && db.freshNonceForUserByKey(key) == Ok(e.header.nextNonce)
                 && e.msg == msg
                 && e.header.key == key
                 && e.header.height == myTip.header.height + 1
                 && e.header.ancestors == Some(Ancestors(GenesisHash(myTip, crypto.canonicalHash), crypto.canonicalHash(myTip)))
                 && e.header.tips == TipRefs(OtherTips(db.tipsForAllUsers.value, key), crypto.canonicalHash)
                 && e.header.sentTimeMs == now
                 && e.header.checkpoints == (if bitcoinTipcache.Some? then bitcoinTipcache.value else DefaultCheckpoints)
                 && e.header.signature.Some?
                 && crypto.sign(Envelope(e.header.(signature := None), msg), keypair,
                                db.secretForPublicNonce(myTip.header.nextNonce).value) == Ok(e.header.signature.value)
    // each failed lookup is returned as the database error, in lookup order
    ensures db.tipsForAllUsers.Ok? && MyTip(db, crypto.xOnly(keypair), dangerousBypassTip).Err? ==>
              r == Err(MyTip(db, crypto.xOnly(keypair), dangerousBypassTip).error)
    ensures db.tipsForAllUsers.Ok? && MyTip(db, crypto.xOnly(keypair), dangerousBypassTip).Ok? ==>
              var myTip := MyTip(db, crypto.xOnly(keypair), dangerousBypassTip).value;
              var secret := db.secretForPublicNonce(myTip.header.nextNonce);
              var nextNonce := db.freshNonceForUserByKey(crypto.xOnly(keypair));
              && (secret.Err? ==> r == Err(secret.error))
              && (secret.Ok? && nextNonce.Err? ==> r == Err(nextNonce.error))
              // once every lookup succeeded the database part succeeds, and
              // only signing can fail
              && (secret.Ok? && nextNonce.Ok? ==>
                    var header := NextHeader(crypto.xOnly(keypair), myTip,
                                             TipRefs(OtherTips(db.tipsForAllUsers.value, crypto.xOnly(keypair)), crypto.canonicalHash),
                                             nextNonce.value, now, bitcoinTipcache, crypto.canonicalHash);
                    var signed := crypto.sign(Envelope(header, msg), keypair, secret.value);
                    && r.Ok?
                    && (r.value.Ok? <==> signed.Ok?)
                    && (signed.Err? ==> r.value == Err(signed.error)))
  {
    var key := crypto.xOnly(keypair);
    match db.tipsForAllUsers
    case Err(e) => Err(e)
    case Ok(all) =>
      var tips := TipRefs(OtherTips(all, key), crypto.canonicalHash);
      var myTip := MyTip(db, key, dangerousBypassTip);
      if myTip.Err? then Err(myTip.error)
      else
        var secret := db.secretForPublicNonce(myTip.value.header.nextNonce);
        if secret.Err? then Err(secret.error)
        else
          var nextNonce := db.freshNonceForUserByKey(key);
          if nextNonce.Err? then Err(nextNonce.error)
          else
            var header := NextHeader(key, myTip.value, tips, nextNonce.value, now, bitcoinTipcache, crypto.canonicalHash);
            var unsigned := Envelope(header, msg);
            match crypto.sign(unsigned, keypair, secret.value)
            case Err(e) => Ok(Err(e))
            case Ok(sig) => Ok(Ok(Envelope(header.(signature := Some(sig)), msg)))
  }

  /** The new envelope continues its user's chain: it sits one above the
      tip it was built on, keeps that tip's genesis and points back at it. */
  lemma NextEnvelopeExtendsChain(db: MsgDb, crypto: Signer, msg: Json, keypair: KeyPair,
                                 bitcoinTipcache: Option<seq<CheckPoint>>, myTip: Envelope, now: int)
    requires WrapMessageInEnvelopeForUserByKey(db, crypto, msg, keypair, bitcoinTipcache, Some(myTip), now).Ok?
    requires WrapMessageInEnvelopeForUserByKey(db, crypto, msg, keypair, bitcoinTipcache, Some(myTip), now).value.Ok?
    ensures var e := WrapMessageInEnvelopeForUserByKey(db, crypto, msg, keypair, bitcoinTipcache, Some(myTip), now).value.value;
            && e.header.height == myTip.header.height + 1
            && GenesisHash(e, crypto.canonicalHash) == GenesisHash(myTip, crypto.canonicalHash)
            && e.header.ancestors.value.prevMsg == crypto.canonicalHash(myTip)
  {
  }
}
