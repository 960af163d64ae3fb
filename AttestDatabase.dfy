/** Opening the message database and minting a new user
    (`attest-database/src/lib.rs`).  Paths are modelled as an absolute flag
    and a list of components; the filesystem, the platform's data directory
    and key and nonce generation are inputs. */
module AttestDatabase {
  import opened Wrappers
  import opened Messages
  import EnvelopeCreate

  /** A `PathBuf`: whether it starts at the root, and its components. */
  datatype Path = Path(absolute: bool, parts: seq<string>)

  datatype SetupError = StripPrefixError | EnsureDirError

  /** `Path::join`: an absolute right-hand side replaces the base. */
  function Join(base: Path, p: Path): (r: Path)
    ensures p.absolute ==> r == p
    ensures !p.absolute ==> r.absolute == base.absolute && r.parts == base.parts + p.parts
  {
    if p.absolute then p else Path(base.absolute, base.parts + p.parts)
  }

  /** `strip_prefix("/")`: only an absolute path has the root to strip. */
  function StripRoot(p: Path): (r: Result<Path, SetupError>)
    ensures r.Ok? <==> p.absolute
    ensures r.Ok? ==> !r.value.absolute && r.value.parts == p.parts
  {
    if p.absolute then Ok(Path(false, p.parts)) else Err(StripPrefixError)
  }

  /** `PathBuf::push` of a single file name. */
  function Push(p: Path, name: string): Path {
    Path(p.absolute, p.parts + [name])
  }

  /** The index of the last '.' in `s` at or after `from`, if any. */
  function LastDot(s: string, from: nat): (i: Option<nat>)
    requires from <= |s|
    ensures i.Some? ==> from <= i.value < |s| && s[i.value] == '.'
    ensures i.Some? ==> forall j :: i.value < j < |s| ==> s[j] != '.'
    ensures i.None? ==> forall j :: from <= j < |s| ==> s[j] != '.'
    decreases |s| - from
  {
    if from == |s| then None
    else
      match LastDot(s, from + 1)
      case Some(i) => Some(i)
      case None => if s[from] == '.' then Some(from) else None
  }

  /** `file_stem`: the name before its last '.', where a leading '.' does
      not start an extension. */
  function FileStem(name: string): (stem: string)
    ensures |stem| <= |name| && stem == name[..|stem|]
  {
    if |name| == 0 then name
    else
      match LastDot(name, 1)
      case None => name
      case Some(i) => name[..i]
  }

  /** `PathBuf::set_extension`: the last component's extension is replaced;
      a path with no components is left alone. */
  function SetExtension(p: Path, ext: string): (r: Path)
    ensures |r.parts| == |p.parts| && r.absolute == p.absolute
    ensures |p.parts| > 0 ==> r.parts == p.parts[..|p.parts| - 1] + [FileStem(p.parts[|p.parts| - 1]) + "." + ext]
    ensures |p.parts| == 0 ==> r == p
  {
    if |p.parts| == 0 then p
    else
      var last := |p.parts| - 1;
      Path(p.absolute, p.parts[..last] + [FileStem(p.parts[last]) + "." + ext])
  }

  /** The file `setup_db_at` opens: `name` with extension sqlite3, inside `dir`. */
  function DbFile(dir: Path, name: string): Path {
    SetExtension(Push(dir, name), "sqlite3")
  }

  /** A name without a dot, such as "attestations", keeps its whole text
      and gains ".sqlite3"; the directory is untouched. */
  lemma DbFileIsNameDotSqlite3(dir: Path, name: string)
    requires forall i :: 0 <= i < |name| ==> name[i] != '.'
    ensures DbFile(dir, name) == Path(dir.absolute, dir.parts + [name + ".sqlite3"])
  {
    var pushed := Push(dir, name);
    assert pushed.parts[..|pushed.parts| - 1] == dir.parts;
    if |name| > 0 {
      assert LastDot(name, 1).None?;
    }
    assert FileStem(name) == name;
    assert name + "." + "sqlite3" == name + ".sqlite3";
  }

  /** `setup_db_at`: creating the directory may fail; the database file is
      then `DbFile(dir, name)`. */
  function SetupDbAt(dir: Path, name: string, ensureDir: Path -> bool): (r: Result<Path, SetupError>)
    ensures r.Ok? <==> ensureDir(dir)
    ensures r.Ok? ==> r.value == DbFile(dir, name)
  {
    if ensureDir(dir) then Ok(DbFile(dir, name)) else Err(EnsureDirError)
  }

  /** The directory `setup_db` uses: the platform's data directory, or that
      directory re-rooted under `prefix`. */
  function DataDir(projectDataDir: Path, prefix: Option<Path>): (r: Result<Path, SetupError>)
    ensures prefix.None? ==> r == Ok(projectDataDir)
    ensures prefix.Some? ==> (r.Ok? <==> projectDataDir.absolute)
    ensures prefix.Some? && r.Ok? ==>
              r.value == Path(prefix.value.absolute, prefix.value.parts + projectDataDir.parts)
  {
    match prefix
    case None => Ok(projectDataDir)
    case Some(pre) =>
      match StripRoot(projectDataDir)
      case Err(e) => Err(e)
      case Ok(rel) => Ok(Join(pre, rel))
  }

  /** `setup_db`.  `projectDataDir` stands for the platform data directory
      of the application (`ProjectDirs::from("org", "judica", application)`). */
  function SetupDb(application: string, prefix: Option<Path>, projectDataDir: string -> Path,
                   ensureDir: Path -> bool): Result<Path, SetupError>
  {
    match DataDir(projectDataDir(application), prefix)
    case Err(e) => Err(e)
    case Ok(dir) => SetupDbAt(dir, "attestations", ensureDir)
  }

  /** Whatever the application is called, its database file is named
      "attestations.sqlite3", inside the (possibly re-rooted) data directory. */
  lemma SetupDbFileIsAttestations(application: string, prefix: Option<Path>, projectDataDir: string -> Path,
                                  ensureDir: Path -> bool)
    ensures var r := SetupDb(application, prefix, projectDataDir, ensureDir);
            r.Ok? ==>
              var dir := DataDir(projectDataDir(application), prefix).value;
              && |r.value.parts| >= 1
              && r.value.parts[|r.value.parts| - 1] == "attestations.sqlite3"
              && r.value.parts[..|r.value.parts| - 1] == dir.parts
              && r.value.absolute == dir.absolute
  {
    var d := DataDir(projectDataDir(application), prefix);
    if d.Ok? {
      DbFileIsNameDotSqlite3(d.value, "attestations");
      var f := d.value.parts + ["attestations.sqlite3"];
      assert f[..|f| - 1] == d.value.parts;
    }
  }

  // ---------------------------------------------------------------------------
  // generate_new_user

  datatype NewUserError = SerializeError | SigningFailed

  /** The randomness and signing `generate_new_user` draws on. */
  datatype NewUserEnv = NewUserEnv(
    keypair: EnvelopeCreate.KeyPair,
    nonce: EnvelopeCreate.Secret,        // the nonce the genesis is signed with
    nextNonce: EnvelopeCreate.Secret,    // the nonce committed for the next message
    publicOf: EnvelopeCreate.Secret -> PublicNonce,
    now: int,
    signer: EnvelopeCreate.Signer)

  /** The genesis header, before it is signed: height 0, no ancestors, no
      tips, committing to the public half of the second nonce. */
  function GenesisHeader(env: NewUserEnv): Header {
    Header(env.signer.xOnly(env.keypair), env.publicOf(env.nextNonce), None, [], 0,
           env.now, None, DefaultCheckpoints)
  }

  /** The message a new user's genesis carries: `init` canonicalized, or Null. */
  function InitialMessage<T>(init: Option<T>, toCanonical: T -> Option<Json>): Option<Json> {
    if init.None? then Some(Null) else toCanonical(init.value)
  }

  /** `generate_new_user`: a fresh key's genesis envelope.  It commits to the
      second nonce and is signed with the first; the second is returned so
      the next message can be signed with it. */
  function GenerateNewUser<T>(env: NewUserEnv, init: Option<T>, toCanonical: T -> Option<Json>)
    : (r: Result<(EnvelopeCreate.KeyPair, EnvelopeCreate.Secret, Envelope), NewUserError>)
    ensures r.Ok? ==>
              var e := r.value.2;
              && r.value.0 == env.keypair
              && r.value.1 == env.nextNonce
              && e.header.height == 0
              && e.header.ancestors.None?
              && e.header.tips == []
              && e.header.key == env.signer.xOnly(env.keypair)
              && e.header.nextNonce == env.publicOf(r.value.1)
              && e.header.checkpoints == DefaultCheckpoints
              && e.header.sentTimeMs == env.now
              && e.header.signature.Some?
              && env.signer.sign(Envelope(e.header.(signature := None), e.msg), env.keypair, env.nonce)
                   == Ok(e.header.signature.value)
    ensures init.None? ==> (r.Ok? ==> r.value.2.msg == Null)
    ensures init.Some? && toCanonical(init.value).None? ==> r == Err(SerializeError)
    ensures r.Ok? && init.Some? ==> r.value.2.msg == toCanonical(init.value).value
    // a message that serializes fails only when signing it fails
    ensures InitialMessage(init, toCanonical).Some? ==>
              var signed := env.signer.sign(Envelope(GenesisHeader(env), InitialMessage(init, toCanonical).value),
                                            env.keypair, env.nonce);
              && (r.Ok? <==> signed.Ok?)
              && (signed.Err? ==> r == Err(SigningFailed))
  {
    var header := GenesisHeader(env);
    var msg := InitialMessage(init, toCanonical);
    if msg.None? then Err(SerializeError)
    else
      match env.signer.sign(Envelope(header, msg.value), env.keypair, env.nonce)
      case Err(_) => Err(SigningFailed)
      case Ok(sig) => Ok((env.keypair, env.nextNonce, Envelope(header.(signature := Some(sig)), msg.value)))
  }

  /** A new user's genesis envelope is its own genesis, and the first message
      built on it sits at height 1, names the genesis twice (as genesis and as
      previous message) and is signed with the nonce the genesis committed to. */
  lemma FirstMessageExtendsGenesis<T>(env: NewUserEnv, init: Option<T>, toCanonical: T -> Option<Json>,
                                      db: EnvelopeCreate.MsgDb, msg: Json, now: int)
    requires GenerateNewUser(env, init, toCanonical).Ok?
    requires var (kp, _, genesis) := GenerateNewUser(env, init, toCanonical).value;
             var r := EnvelopeCreate.WrapMessageInEnvelopeForUserByKey(db, env.signer, msg, kp, None, Some(genesis), now);
             r.Ok? && r.value.Ok?
    ensures var (kp, next, genesis) := GenerateNewUser(env, init, toCanonical).value;
            var e := EnvelopeCreate.WrapMessageInEnvelopeForUserByKey(db, env.signer, msg, kp, None, Some(genesis), now).value.value;
            && GenesisHash(genesis, env.signer.canonicalHash) == env.signer.canonicalHash(genesis)
            && e.header.height == 1
            && e.header.ancestors == Some(Ancestors(env.signer.canonicalHash(genesis), env.signer.canonicalHash(genesis)))
            && env.signer.sign(Envelope(e.header.(signature := None), msg), kp,
                               db.secretForPublicNonce(env.publicOf(next)).value) == Ok(e.header.signature.value)
  {
  }
}
