/** The attestation envelope as far as the modelled core touches it: the header
    fields that `wrap_message_in_envelope_for_user_by_key` and
    `generate_new_user` fill in.  Keys, nonces, hashes and signatures are
    opaque numbers; the cryptography that relates them is a parameter of the
    operations that use it. */
module Messages {
  import opened Wrappers

  type PublicKey = nat   // x-only public key of a user
  type PublicNonce = nat // public half of a precommitted nonce
  type Hash = nat        // canonical envelope hash (ordered like the source's Ord)
  type Signature = nat
  type CheckPoint = nat

  /** Where an envelope sits in its user's chain. */
  datatype Ancestors = Ancestors(genesis: Hash, prevMsg: Hash)

  /** One entry of `header.tips`: (key, height, canonical hash) of another user's tip. */
  datatype TipRef = TipRef(key: PublicKey, height: nat, hash: Hash)

  /** `ruma_serde::CanonicalJsonValue`, kept opaque except for `Null`. */
  datatype Json = Null | Value(id: nat)

  datatype Header = Header(
    key: PublicKey,
    nextNonce: PublicNonce,
    ancestors: Option<Ancestors>,
    tips: seq<TipRef>,
    height: nat,
    sentTimeMs: int,
    signature: Option<Signature>,  // None is the default (unsigned) signature
    checkpoints: seq<CheckPoint>)

  datatype Envelope = Envelope(header: Header, msg: Json)

  /** `Default::default()` of the Bitcoin checkpoint cache. */
  const DefaultCheckpoints: seq<CheckPoint> := []

  /** The genesis hash of the chain an envelope belongs to: a genesis envelope
      (no ancestors) is its own genesis. */
  function GenesisHash(e: Envelope, hash: Envelope -> Hash): Hash {
    match e.header.ancestors
    case None => hash(e)
    case Some(a) => a.genesis
  }
}
