/**
  The encrypted archive of `backup_recovery.py`: what `encrypt_archive` writes, `decrypt_archive`
  accepts and gives back; what it accepts, nobody has altered.
 */
module Archive {
  import opened Json
  import opened Canonical
  import opened Identifiers

  /** Bytes, and text in an encoding where every character used is one byte. */
  type Bytes = string

  datatype File = File(path: string, data: Bytes)

  /** Key pairs are named by what they are derived from; `bits` is the size of the key. */
  datatype PublicKey = PublicKey(pair: nat, bits: nat)
  datatype PrivateKey = PrivateKey(pair: nat, bits: nat)

  function PublicOf(k: PrivateKey): PublicKey { PublicKey(k.pair, k.bits) }

  /** The cryptography, the encodings and the zip library, known by the laws below alone. */
  datatype Primitives = Primitives(
    digest: Bytes -> string,
    b64: Bytes -> string,
    unb64: string -> Option<Bytes>,
    zip: seq<File> -> Bytes,
    unzip: Bytes -> Option<seq<File>>,
    fingerprint: PublicKey -> string,
    wrap: (PublicKey, Bytes) -> Bytes,
    unwrap: (PrivateKey, Bytes) -> Option<Bytes>,
    seal: (Bytes, Bytes, Bytes, Bytes) -> Bytes,
    open: (Bytes, Bytes, Bytes, Bytes) -> Option<Bytes>,
    roleKey: Bytes -> string)

  ghost predicate Encodes(p: Primitives, x: Bytes) { p.unb64(p.b64(x)) == Some(x) }

  /** Base64 writes four characters, none in need of escaping, for every three bytes begun. */
  ghost predicate Measures(p: Primitives, x: Bytes) { |p.b64(x)| == 4 * ((|x| + 2) / 3) && IsPlain(p.b64(x)) }

  ghost predicate Zips(p: Primitives, fs: seq<File>) { p.unzip(p.zip(fs)) == Some(fs) }

  ghost predicate Wraps(p: Primitives, k: PrivateKey, x: Bytes) { p.unwrap(k, p.wrap(PublicOf(k), x)) == Some(x) }

  /** Sealed bytes open under the same key, nonce and associated data. */
  ghost predicate Seals(p: Primitives, k: Bytes, n: Bytes, x: Bytes, a: Bytes) {
    p.open(k, n, p.seal(k, n, x, a), a) == Some(x)
  }

  ghost predicate Lawful(p: Primitives) {
    && (forall x :: Encodes(p, x))
    && (forall fs :: Zips(p, fs))
    && (forall k, x :: Wraps(p, k, x))
    && (forall k, n, x, a :: Seals(p, k, n, x, a))
  }

  ghost predicate Base64(p: Primitives) { forall x :: Measures(p, x) }

  /** No character needs escaping. */
  predicate IsPlain(s: string) { forall k :: 0 <= k < |s| ==> s[k] >= ' ' && s[k] != '"' && s[k] != '\\' }

  // ---------------------------------------------------------------- constants

  const MAX_SQL := 67108864
  const MAX_ENCODED := 134217728
  const MAX_ROLES := 4096
  const FORMAT := "forecast-off-device-backup-v1"
  const GENESIS := "EtWTRABZaYq6iMfeYKouRu166VU2xqa1wcaWoxPkrZBG"
  const SQL_PATH := "d1.sql"
  const ROLES_PATH := "devnet-roles.json"

  // ---------------------------------------------------------------- encryption

  /** The four signing seeds, by role. */
  datatype Seeds = Seeds(relayer: Bytes, upgrade: Bytes, program: Bytes, buffer: Bytes)

  datatype Deployment =
    Deployment(
      cluster: string,
      genesisHash: string,
      relayer: string,
      upgradeAuthority: string,
      programId: string,
      buffer: Option<string>)

  datatype Refusal =
    | BadId | BadSize | BadDeployment | BadSeed | WrongRole
    | TooLong | NotJson | BadShape | WrongKey | BadCiphertext | BadNonce | BadWrapping | NotAuthentic
    | WrongScope | BadPaths | BadMembers | BadFile

  datatype Outcome<+T> = Done(value: T) | Refused(why: Refusal)

  /** What `validate_seeds` refuses. */
  function SeedsRefusal(p: Primitives, s: Seeds, d: Deployment): Option<Refusal> {
    if d.cluster != "devnet" || d.genesisHash != GENESIS then Some(BadDeployment)
    else if |s.relayer| != 32 || |s.upgrade| != 32 || |s.program| != 32 || |s.buffer| != 32 then Some(BadSeed)
    else if p.roleKey(s.relayer) != d.relayer || p.roleKey(s.upgrade) != d.upgradeAuthority
            || p.roleKey(s.program) != d.programId
            || (d.buffer.Some? && p.roleKey(s.buffer) != d.buffer.value)
    then Some(WrongRole)
    else None
  }

  function TextField(key: string, text: string, rest: Fields): Fields { Field(key, Text(text), rest) }

  /** One text for each role, in the order of the roles. */
  function ByRole(relayer: string, upgrade: string, program: string, buffer: string): Fields {
    var last := TextField("buffer", buffer, NoFields);
    var third := TextField("program", program, last);
    var second := TextField("upgrade", upgrade, third);
    TextField("relayer", relayer, second)
  }

  function SeedFields(p: Primitives, s: Seeds): Fields {
    ByRole(p.b64(s.relayer), p.b64(s.upgrade), p.b64(s.program), p.b64(s.buffer))
  }

  function KeyFields(p: Primitives, s: Seeds): Fields {
    ByRole(p.roleKey(s.relayer), p.roleKey(s.upgrade), p.roleKey(s.program), p.roleKey(s.buffer))
  }

  function SeedFileOf(seeds: Json): Json {
    var last := Field("seeds", seeds, NoFields);
    var second := TextField("genesisHash", GENESIS, last);
    Dict(TextField("cluster", "devnet", second))
  }

  function SeedFile(p: Primitives, s: Seeds): Json { SeedFileOf(Dict(SeedFields(p, s))) }

  function Files(p: Primitives, sql: Bytes, s: Seeds): seq<File> {
    [File(SQL_PATH, sql), File(ROLES_PATH, Canon(SeedFile(p, s)))]
  }

  function Entry(p: Primitives, f: File): Json {
    var last := TextField("sha256", p.digest(f.data), NoFields);
    var second := Field("bytes", Number(|f.data|), last);
    Dict(TextField("path", f.path, second))
  }

  function EntryList(p: Primitives, files: seq<File>): Json
    requires |files| == 2
  {
    List(Item(Entry(p, files[0]), Item(Entry(p, files[1]), NoItems)))
  }

  function ManifestOf(id: string, createdAt: string, keys: Json, entries: Json): Fields {
    var last := Field("files", entries, NoFields);
    var counted := Field("pathCount", Number(2), last);
    var keyed := Field("publicKeys", keys, counted);
    var genesis := TextField("genesisHash", GENESIS, keyed);
    var cluster := TextField("cluster", "devnet", genesis);
    var created := TextField("createdAt", createdAt, cluster);
    TextField("backupId", id, created)
  }

  function Manifest(p: Primitives, files: seq<File>, s: Seeds, id: string, createdAt: string): Fields
    requires |files| == 2
  {
    ManifestOf(id, createdAt, Dict(KeyFields(p, s)), EntryList(p, files))
  }

  /** The header of an archive, before whatever is set after it. */
  function Header(keyFingerprint: string, manifest: Fields, nonce: string, wrapped: string, more: Fields): Fields {
    var last := TextField("wrappedKey", wrapped, more);
    var fourth := TextField("nonce", nonce, last);
    var third := Field("manifest", Dict(manifest), fourth);
    var second := TextField("keyFingerprint", keyFingerprint, third);
    TextField("format", FORMAT, second)
  }

  /** The text of a sealed envelope: its header, and the plain bytes sealed over the header's own text. */
  function EnvelopeText(p: Primitives, fp: string, m: Fields, key: Bytes, nonce: Bytes, wrapped: Bytes, plain: Bytes): Bytes {
    var header := Header(fp, m, p.b64(nonce), p.b64(wrapped), NoFields);
    var sealed := p.seal(key, nonce, plain, Canon(Dict(header)));
    Canon(Dict(Header(fp, m, p.b64(nonce), p.b64(wrapped), TextField("ciphertext", p.b64(sealed), NoFields))))
  }

  /** `encrypt_archive`; the clock, the key and the nonce are what the system supplies. */
  function Encrypt(p: Primitives, sql: Bytes, s: Seeds, d: Deployment, recipient: PublicKey, id: string,
                   createdAt: string, key: Bytes, nonce: Bytes): Outcome<(Bytes, Json)>
  {
    if !IsBackupId(id) then Refused(BadId)
    else if !(0 < |sql| <= MAX_SQL) || recipient.bits < 3072 then Refused(BadSize)
    else if SeedsRefusal(p, s, d).Some? then Refused(SeedsRefusal(p, s, d).value)
    else
      var files := Files(p, sql, s);
      var manifest := Manifest(p, files, s, id, createdAt);
      var wrapped := p.wrap(recipient, key);
      Done((EnvelopeText(p, p.fingerprint(recipient), manifest, key, nonce, wrapped, p.zip(files)), Dict(manifest)))
  }

  // ---------------------------------------------------------------- decryption

  function TextAt(f: Fields, key: string): Option<string> {
    match Lookup(f, key)
    case Some(Text(s)) => Some(s)
    case _ => None
  }

  function NumberAt(f: Fields, key: string): Option<int> {
    match Lookup(f, key)
    case Some(Number(n)) => Some(n)
    case _ => None
  }

  function DictAt(f: Fields, key: string): Option<Fields> {
    match Lookup(f, key)
    case Some(Dict(g)) => Some(g)
    case _ => None
  }

  function ListAt(f: Fields, key: string): Option<Items> {
    match Lookup(f, key)
    case Some(List(items)) => Some(items)
    case _ => None
  }

  function Keys(f: Fields): set<string> { if f.NoFields? then {} else {f.key} + Keys(f.rest) }

  const ENVELOPE := {"format", "keyFingerprint", "manifest", "nonce", "wrappedKey", "ciphertext"}

  /** The checks on one unpacked file. */
  function FileRefusal(p: Primitives, f: File, entry: Fields): Option<Refusal> {
    var limit := if f.path == SQL_PATH then MAX_SQL else MAX_ROLES;
    if !(0 < |f.data| <= limit) || NumberAt(entry, "bytes") != Some(|f.data|) then Some(BadFile)
    else if TextAt(entry, "sha256") != Some(p.digest(f.data)) then Some(BadFile)
    else None
  }

  /** What the manifest must say before anything is unpacked: its entries. */
  function Entries(m: Fields): Outcome<(Fields, Fields)> {
    if TextAt(m, "backupId").None? || !IsBackupId(TextAt(m, "backupId").value) then Refused(BadId)
    else if TextAt(m, "cluster") != Some("devnet") || TextAt(m, "genesisHash") != Some(GENESIS)
            || NumberAt(m, "pathCount") != Some(2)
    then Refused(WrongScope)
    else
      match ListAt(m, "files")
      case Some(Item(Dict(first), Item(Dict(second), NoItems))) =>
        if TextAt(first, "path") == Some(SQL_PATH) && TextAt(second, "path") == Some(ROLES_PATH) then Done((first, second))
        else Refused(BadPaths)
      case _ => Refused(BadPaths)
  }

  /** The zip under the manifest. */
  function Unpack(p: Primitives, plain: Bytes, m: Fields): Outcome<(seq<File>, Json)> {
    match Entries(m)
    case Refused(why) => Refused(why)
    case Done((first, second)) =>
      match p.unzip(plain)
      case None => Refused(BadMembers)
      case Some(files) =>
        if |files| != 2 || files[0].path != SQL_PATH || files[1].path != ROLES_PATH then Refused(BadMembers)
        else if FileRefusal(p, files[0], first).Some? then Refused(FileRefusal(p, files[0], first).value)
        else if FileRefusal(p, files[1], second).Some? then Refused(FileRefusal(p, files[1], second).value)
        else Done((files, Dict(m)))
  }

  /** The envelope, once parsed. */
  function OpenEnvelope(p: Primitives, f: Fields, recipient: PrivateKey, expected: string): Outcome<(seq<File>, Json)> {
    if Keys(f) != ENVELOPE then Refused(BadShape)
    else if TextAt(f, "format") != Some(FORMAT) || TextAt(f, "keyFingerprint") != Some(expected)
            || p.fingerprint(PublicOf(recipient)) != expected
    then Refused(WrongKey)
    else if TextAt(f, "ciphertext").None? || p.unb64(TextAt(f, "ciphertext").value).None? then Refused(BadCiphertext)
      else if TextAt(f, "nonce").None? || p.unb64(TextAt(f, "nonce").value).None?
              || |p.unb64(TextAt(f, "nonce").value).value| != 12
      then Refused(BadNonce)
      else if TextAt(f, "wrappedKey").None? || p.unb64(TextAt(f, "wrappedKey").value).None?
              || p.unwrap(recipient, p.unb64(TextAt(f, "wrappedKey").value).value).None?
        then Refused(BadWrapping)
        else
          var key := p.unwrap(recipient, p.unb64(TextAt(f, "wrappedKey").value).value).value;
          var nonce := p.unb64(TextAt(f, "nonce").value).value;
          var ciphertext := p.unb64(TextAt(f, "ciphertext").value).value;
          match p.open(key, nonce, ciphertext, Canon(Dict(Remove(f, "ciphertext"))))
          case None => Refused(NotAuthentic)
          case Some(plain) =>
            match DictAt(f, "manifest")
            case None => Refused(BadShape)
            case Some(m) => Unpack(p, plain, m)
  }

  function Decrypt(p: Primitives, encoded: Bytes, recipient: PrivateKey, expected: string): Outcome<(seq<File>, Json)> {
    if |encoded| > MAX_ENCODED then Refused(TooLong)
    else
      match Loads(encoded)
      case Some(Dict(f)) => OpenEnvelope(p, f, recipient, expected)
      case _ => Refused(NotJson)
  }
}
