/**
  The archive's round trip: whatever is encrypted is decrypted to the same files and manifest, the
  associated data being recomputed byte for byte from what was parsed.
 */
module ArchiveTheorems {
  import opened Json
  import opened Canonical
  import opened Archive
  import opened Identifiers
  import opened Numerals
  import Quads

  // ---------------------------------------------------------------- looking up after parsing

  lemma {:induction false} KeysHas(f: Fields, k: string)
    ensures k in Keys(f) <==> Has(f, k)
  {
    if f.Field? { KeysHas(f.rest, k); }
  }

  /** A dictionary as it is read back. */
  function Read(f: Fields): Fields { SortFields(NormFields(f)) }

  lemma KeysRead(f: Fields)
    ensures Keys(Read(f)) == Keys(f)
  {
    forall k: string ensures k in Keys(Read(f)) <==> k in Keys(f) {
      KeysHas(f, k);
      KeysHas(Read(f), k);
      HasSort(NormFields(f), k);
      HasNorm(f, k);
    }
  }

  /** Every kind of lookup sees what was written. */
  lemma ReadBack(f: Fields, k: string)
    requires Distinct(f)
    ensures TextAt(Read(f), k) == TextAt(f, k) && NumberAt(Read(f), k) == NumberAt(f, k)
    ensures DictAt(f, k).Some? ==> DictAt(Read(f), k) == Some(Read(DictAt(f, k).value))
    ensures ListAt(f, k).Some? ==> ListAt(Read(f), k) == Some(NormItems(ListAt(f, k).value))
  {
    LookupCanon(f, k);
  }

  // ---------------------------------------------------------------- the records are proper

  lemma HeaderKeys(fp: string, m: Fields, nonce: string, wrapped: string, more: Fields)
    ensures Keys(Header(fp, m, nonce, wrapped, more)) ==
            {"format", "keyFingerprint", "manifest", "nonce", "wrappedKey"} + Keys(more)
  {
    var last := TextField("wrappedKey", wrapped, more);
    var fourth := TextField("nonce", nonce, last);
    var third := Field("manifest", Dict(m), fourth);
    assert Keys(fourth) == {"nonce", "wrappedKey"} + Keys(more);
    assert Keys(TextField("keyFingerprint", fp, third)) == {"keyFingerprint", "manifest", "nonce", "wrappedKey"} + Keys(more);
  }

  /** A field under a key the rest does not have. */
  lemma OneMoreField(key: string, v: Json, rest: Fields)
    requires Proper(v) && ProperFields(rest) && key !in Keys(rest)
    ensures ProperFields(Field(key, v, rest)) && Keys(Field(key, v, rest)) == {key} + Keys(rest)
  {
    KeysHas(rest, key);
  }

  lemma HeaderIsProper(fp: string, m: Fields, nonce: string, wrapped: string, more: Fields)
    requires ProperFields(m) && ProperFields(more) && Keys(more) <= {"ciphertext"}
    ensures ProperFields(Header(fp, m, nonce, wrapped, more))
  {
    var last := TextField("wrappedKey", wrapped, more);
    var fourth := TextField("nonce", nonce, last);
    var third := Field("manifest", Dict(m), fourth);
    var second := TextField("keyFingerprint", fp, third);
    OneMoreField("wrappedKey", Text(wrapped), more);
    OneMoreField("nonce", Text(nonce), last);
    OneMoreField("manifest", Dict(m), fourth);
    OneMoreField("keyFingerprint", Text(fp), third);
    OneMoreField("format", Text(FORMAT), second);
  }

  lemma FourKeys(a: string, b: string, c: string, d: string)
    ensures ProperFields(ByRole(a, b, c, d))
  {
    var last := TextField("buffer", d, NoFields);
    var third := TextField("program", c, last);
    var second := TextField("upgrade", b, third);
    OneMoreField("buffer", Text(d), NoFields);
    OneMoreField("program", Text(c), last);
    OneMoreField("upgrade", Text(b), third);
    OneMoreField("relayer", Text(a), second);
  }

  lemma EntryIsProper(p: Primitives, f: File)
    ensures Proper(Entry(p, f))
    ensures var e := Entry(p, f).fields;
            && TextAt(e, "path") == Some(f.path) && NumberAt(e, "bytes") == Some(|f.data|)
            && TextAt(e, "sha256") == Some(p.digest(f.data))
  {
    var last := TextField("sha256", p.digest(f.data), NoFields);
    var second := Field("bytes", Number(|f.data|), last);
    OneMoreField("sha256", Text(p.digest(f.data)), NoFields);
    OneMoreField("bytes", Number(|f.data|), last);
    OneMoreField("path", Text(f.path), second);
    var e := TextField("path", f.path, second);
    assert Lookup(second, "sha256") == Lookup(last, "sha256") == Some(Text(p.digest(f.data)));
    assert Lookup(e, "sha256") == Lookup(second, "sha256") && Lookup(e, "bytes") == Lookup(second, "bytes");
  }

  lemma ManifestIsProper(p: Primitives, files: seq<File>, s: Seeds, id: string, createdAt: string)
    requires |files| == 2
    ensures ProperFields(Manifest(p, files, s, id, createdAt))
  {
    var entries := EntryList(p, files);
    EntryIsProper(p, files[0]);
    EntryIsProper(p, files[1]);
    FourKeys(p.roleKey(s.relayer), p.roleKey(s.upgrade), p.roleKey(s.program), p.roleKey(s.buffer));
    assert ProperItems(Item(Entry(p, files[1]), NoItems));
    var last := Field("files", entries, NoFields);
    var counted := Field("pathCount", Number(2), last);
    var keyed := Field("publicKeys", Dict(KeyFields(p, s)), counted);
    var genesis := TextField("genesisHash", GENESIS, keyed);
    var cluster := TextField("cluster", "devnet", genesis);
    var created := TextField("createdAt", createdAt, cluster);
    OneMoreField("files", entries, NoFields);
    OneMoreField("pathCount", Number(2), last);
    OneMoreField("publicKeys", Dict(KeyFields(p, s)), counted);
    OneMoreField("genesisHash", Text(GENESIS), keyed);
    OneMoreField("cluster", Text("devnet"), genesis);
    OneMoreField("createdAt", Text(createdAt), cluster);
    OneMoreField("backupId", Text(id), created);
  }

  lemma ManifestLooksUp(p: Primitives, files: seq<File>, s: Seeds, id: string, createdAt: string)
    requires |files| == 2
    ensures var m := Manifest(p, files, s, id, createdAt);
            && TextAt(m, "backupId") == Some(id) && TextAt(m, "cluster") == Some("devnet")
            && TextAt(m, "genesisHash") == Some(GENESIS) && NumberAt(m, "pathCount") == Some(2)
            && ListAt(m, "files") == Some(Item(Entry(p, files[0]), Item(Entry(p, files[1]), NoItems)))
  {
    var entries := EntryList(p, files);
    var last := Field("files", entries, NoFields);
    var counted := Field("pathCount", Number(2), last);
    var keyed := Field("publicKeys", Dict(KeyFields(p, s)), counted);
    var genesis := TextField("genesisHash", GENESIS, keyed);
    var cluster := TextField("cluster", "devnet", genesis);
    var created := TextField("createdAt", createdAt, cluster);
    assert Lookup(counted, "files") == Some(entries);
    assert Lookup(keyed, "files") == Some(entries) && Lookup(keyed, "pathCount") == Some(Number(2));
    assert Lookup(genesis, "files") == Some(entries) && Lookup(genesis, "pathCount") == Some(Number(2));
    assert Lookup(cluster, "files") == Some(entries) && Lookup(cluster, "pathCount") == Some(Number(2));
    assert Lookup(cluster, "genesisHash") == Some(Text(GENESIS));
    assert Lookup(created, "files") == Some(entries) && Lookup(created, "pathCount") == Some(Number(2));
    assert Lookup(created, "genesisHash") == Some(Text(GENESIS)) && Lookup(created, "cluster") == Some(Text("devnet"));
  }

  // ---------------------------------------------------------------- lengths

  lemma {:induction false} EscapeLength(s: string)
    ensures |Escape(s)| <= 6 * |s|
    ensures IsPlain(s) ==> |Escape(s)| == |s|
  {
    if s != [] { EscapeLength(s[1..]); }
  }

  /** The length of a dictionary's text, one field at a time. */
  lemma FieldLength(key: string, v: Json, rest: Fields)
    ensures |PrintFields(Field(key, v, rest))| <=
            6 * |key| + 3 + |Print(v)| + (if rest.Field? then 1 + |PrintFields(rest)| else 0)
    ensures |PrintFields(Field(key, v, rest))| > 0
  {
    EscapeLength(key);
  }

  lemma TextLength(s: string)
    ensures |Print(Text(s))| <= 6 * |s| + 2 && (IsPlain(s) ==> |Print(Text(s))| == |s| + 2)
  {
    EscapeLength(s);
  }

  lemma SeedTextLength(p: Primitives, seed: Bytes)
    requires Base64(p) && |seed| == 32
    ensures |Print(Text(p.b64(seed)))| == 46
  {
    assert Measures(p, seed);
    TextLength(p.b64(seed));
  }

  lemma SeedFieldsLength(p: Primitives, s: Seeds)
    requires Base64(p) && |s.relayer| == 32 && |s.upgrade| == 32 && |s.program| == 32 && |s.buffer| == 32
    ensures |PrintFields(SeedFields(p, s))| <= 600
  {
    SeedTextLength(p, s.relayer);
    SeedTextLength(p, s.upgrade);
    SeedTextLength(p, s.program);
    SeedTextLength(p, s.buffer);
    var last := TextField("buffer", p.b64(s.buffer), NoFields);
    var third := TextField("program", p.b64(s.program), last);
    var second := TextField("upgrade", p.b64(s.upgrade), third);
    FieldLength("buffer", Text(p.b64(s.buffer)), NoFields);
    FieldLength("program", Text(p.b64(s.program)), last);
    FieldLength("upgrade", Text(p.b64(s.upgrade)), third);
    FieldLength("relayer", Text(p.b64(s.relayer)), second);
  }

  lemma DictLength(f: Fields)
    ensures |Print(Dict(f))| == |PrintFields(f)| + 2
  {}

  /** The seeds always fit the limit that is checked on the way back. */
  lemma SeedFileFits(p: Primitives, s: Seeds)
    requires Base64(p) && |s.relayer| == 32 && |s.upgrade| == 32 && |s.program| == 32 && |s.buffer| == 32
    ensures 0 < |Canon(SeedFile(p, s))| <= MAX_ROLES
  {
    CanonLength(SeedFile(p, s));
    SeedFieldsLength(p, s);
    var seeds := Dict(SeedFields(p, s));
    SeedFileLength(seeds);
    DictLength(SeedFields(p, s));
  }

  lemma SeedFileLength(seeds: Json)
    requires |Print(seeds)| <= 602
    ensures 0 < |Print(SeedFileOf(seeds))| <= MAX_ROLES
  {
    var last := Field("seeds", seeds, NoFields);
    var second := TextField("genesisHash", GENESIS, last);
    FieldLength("seeds", seeds, NoFields);
    TextLength(GENESIS);
    TextLength("devnet");
    FieldLength("genesisHash", Text(GENESIS), last);
    FieldLength("cluster", Text("devnet"), second);
    DictLength(TextField("cluster", "devnet", second));
  }

  // ---------------------------------------------------------------- the round trip

  /** The manifest as it is read back yields its two entries. */
  lemma EntriesBack(p: Primitives, files: seq<File>, s: Seeds, id: string, createdAt: string)
    requires |files| == 2 && files[0].path == SQL_PATH && files[1].path == ROLES_PATH && IsBackupId(id)
    ensures Entries(Read(Manifest(p, files, s, id, createdAt))) ==
            Done((Read(Entry(p, files[0]).fields), Read(Entry(p, files[1]).fields)))
  {
    var m := Manifest(p, files, s, id, createdAt);
    ManifestIsProper(p, files, s, id, createdAt);
    ProperIsDistinct(m);
    ManifestLooksUp(p, files, s, id, createdAt);
    ReadBack(m, "backupId");
    ReadBack(m, "cluster");
    ReadBack(m, "genesisHash");
    ReadBack(m, "pathCount");
    ReadBack(m, "files");
    EntryBack(p, files[0]);
    EntryBack(p, files[1]);
    TwoItems(Entry(p, files[0]), Entry(p, files[1]));
  }

  lemma FileAccepted(p: Primitives, f: File)
    requires f.path == SQL_PATH ==> |f.data| <= MAX_SQL
    requires f.path != SQL_PATH ==> |f.data| <= MAX_ROLES
    requires |f.data| > 0
    ensures FileRefusal(p, f, Read(Entry(p, f).fields)).None?
  {
    EntryBack(p, f);
  }

  lemma UnpackAccepts(p: Primitives, plain: Bytes, m: Fields, first: File, second: File, a: Fields, b: Fields)
    requires Entries(m) == Done((a, b)) && p.unzip(plain) == Some([first, second])
    requires first.path == SQL_PATH && second.path == ROLES_PATH
    requires FileRefusal(p, first, a).None? && FileRefusal(p, second, b).None?
    ensures Unpack(p, plain, m) == Done(([first, second], Dict(m)))
  {}

  lemma UnpackBack(p: Primitives, sql: Bytes, s: Seeds, id: string, createdAt: string)
    requires Lawful(p) && Base64(p) && 0 < |sql| <= MAX_SQL && IsBackupId(id)
    requires |s.relayer| == 32 && |s.upgrade| == 32 && |s.program| == 32 && |s.buffer| == 32
    ensures var files := Files(p, sql, s);
            var m := Manifest(p, files, s, id, createdAt);
            Unpack(p, p.zip(files), Read(m)) == Done((files, Dict(Read(m))))
  {
    var first, second := File(SQL_PATH, sql), File(ROLES_PATH, Canon(SeedFile(p, s)));
    SeedFileFits(p, s);
    UnpackBackOf(p, first, second, s, id, createdAt);
  }

  lemma UnpackBackOf(p: Primitives, first: File, second: File, s: Seeds, id: string, createdAt: string)
    requires Lawful(p) && IsBackupId(id) && first.path == SQL_PATH && second.path == ROLES_PATH
    requires 0 < |first.data| <= MAX_SQL && 0 < |second.data| <= MAX_ROLES
    ensures var m := Manifest(p, [first, second], s, id, createdAt);
            Unpack(p, p.zip([first, second]), Read(m)) == Done(([first, second], Dict(Read(m))))
  {
    var files := [first, second];
    EntriesBack(p, files, s, id, createdAt);
    FileAccepted(p, first);
    FileAccepted(p, second);
    assert Zips(p, files);
    UnpackAccepts(p, p.zip(files), Read(Manifest(p, files, s, id, createdAt)), first, second,
                  Read(Entry(p, first).fields), Read(Entry(p, second).fields));
  }

  lemma TwoItems(a: Json, b: Json)
    ensures NormItems(Item(a, Item(b, NoItems))) == Item(Norm(a), Item(Norm(b), NoItems))
  {
    assert NormItems(Item(b, NoItems)) == Item(Norm(b), NoItems);
  }

  lemma EntryBack(p: Primitives, f: File)
    ensures var e := Read(Entry(p, f).fields);
            && Norm(Entry(p, f)) == Dict(e)
            && TextAt(e, "path") == Some(f.path) && NumberAt(e, "bytes") == Some(|f.data|)
            && TextAt(e, "sha256") == Some(p.digest(f.data))
  {
    var e := Entry(p, f).fields;
    EntryIsProper(p, f);
    ProperIsDistinct(e);
    ReadBack(e, "path");
    ReadBack(e, "bytes");
    ReadBack(e, "sha256");
  }

  lemma EnvelopeIsProper(fp: string, m: Fields, nonce: string, wrapped: string, ciphertext: string)
    requires ProperFields(m)
    ensures ProperFields(Header(fp, m, nonce, wrapped, TextField("ciphertext", ciphertext, NoFields)))
    ensures ProperFields(Header(fp, m, nonce, wrapped, NoFields))
    ensures Keys(Read(Header(fp, m, nonce, wrapped, TextField("ciphertext", ciphertext, NoFields)))) == ENVELOPE
  {
    var more := TextField("ciphertext", ciphertext, NoFields);
    OneMoreField("ciphertext", Text(ciphertext), NoFields);
    HeaderIsProper(fp, m, nonce, wrapped, more);
    HeaderIsProper(fp, m, nonce, wrapped, NoFields);
    HeaderKeys(fp, m, nonce, wrapped, more);
    KeysRead(Header(fp, m, nonce, wrapped, more));
  }

  /** Every field of the envelope as it is read back. */
  lemma EnvelopeFields(fp: string, m: Fields, nonce: string, wrapped: string, more: Fields)
    requires ProperFields(Header(fp, m, nonce, wrapped, more))
    ensures var f := Read(Header(fp, m, nonce, wrapped, more));
            && TextAt(f, "format") == Some(FORMAT) && TextAt(f, "keyFingerprint") == Some(fp)
            && TextAt(f, "nonce") == Some(nonce) && TextAt(f, "wrappedKey") == Some(wrapped)
            && TextAt(f, "ciphertext") == TextAt(more, "ciphertext") && DictAt(f, "manifest") == Some(Read(m))
  {
    var full := Header(fp, m, nonce, wrapped, more);
    ProperIsDistinct(full);
    HeaderLookup(fp, m, nonce, wrapped, more, "format");
    HeaderLookup(fp, m, nonce, wrapped, more, "keyFingerprint");
    HeaderLookup(fp, m, nonce, wrapped, more, "nonce");
    HeaderLookup(fp, m, nonce, wrapped, more, "wrappedKey");
    HeaderLookup(fp, m, nonce, wrapped, more, "ciphertext");
    HeaderLookup(fp, m, nonce, wrapped, more, "manifest");
    ReadBack(full, "format");
    ReadBack(full, "keyFingerprint");
    ReadBack(full, "nonce");
    ReadBack(full, "wrappedKey");
    ReadBack(full, "ciphertext");
    ReadBack(full, "manifest");
  }

  /** The associated data, recomputed from the envelope as it is read back, is the header's own text. */
  lemma EnvelopeBack(fp: string, m: Fields, nonce: string, wrapped: string, ciphertext: string)
    requires ProperFields(m)
    ensures var full := Header(fp, m, nonce, wrapped, TextField("ciphertext", ciphertext, NoFields));
            Canon(Dict(Remove(Read(full), "ciphertext"))) == Canon(Dict(Header(fp, m, nonce, wrapped, NoFields)))
  {
    var full := Header(fp, m, nonce, wrapped, TextField("ciphertext", ciphertext, NoFields));
    EnvelopeIsProper(fp, m, nonce, wrapped, ciphertext);
    HeaderWithout(fp, m, nonce, wrapped, ciphertext);
    RemoveFromCanon(full, Header(fp, m, nonce, wrapped, NoFields), "ciphertext");
  }

  /** The header is the envelope without its ciphertext. */
  lemma HeaderWithout(fp: string, m: Fields, nonce: string, wrapped: string, ciphertext: string)
    ensures var full := Header(fp, m, nonce, wrapped, TextField("ciphertext", ciphertext, NoFields));
            var header := Header(fp, m, nonce, wrapped, NoFields);
            forall k: string :: Lookup(header, k) == if k == "ciphertext" then None else Lookup(full, k)
  {
    var full := Header(fp, m, nonce, wrapped, TextField("ciphertext", ciphertext, NoFields));
    var header := Header(fp, m, nonce, wrapped, NoFields);
    forall k: string ensures Lookup(header, k) == if k == "ciphertext" then None else Lookup(full, k) {
      HeaderLookup(fp, m, nonce, wrapped, NoFields, k);
      HeaderLookup(fp, m, nonce, wrapped, TextField("ciphertext", ciphertext, NoFields), k);
    }
  }

  lemma HeaderLookup(fp: string, m: Fields, nonce: string, wrapped: string, more: Fields, k: string)
    ensures Lookup(Header(fp, m, nonce, wrapped, more), k) ==
            if k == "format" then Some(Text(FORMAT))
            else if k == "keyFingerprint" then Some(Text(fp))
            else if k == "manifest" then Some(Dict(m))
            else if k == "nonce" then Some(Text(nonce))
            else if k == "wrappedKey" then Some(Text(wrapped))
            else Lookup(more, k)
  {
    var last := TextField("wrappedKey", wrapped, more);
    var fourth := TextField("nonce", nonce, last);
    var third := Field("manifest", Dict(m), fourth);
    var second := TextField("keyFingerprint", fp, third);
    assert Lookup(last, k) == if k == "wrappedKey" then Some(Text(wrapped)) else Lookup(more, k);
    assert Lookup(fourth, k) == if k == "nonce" then Some(Text(nonce)) else Lookup(last, k);
    assert Lookup(third, k) == if k == "manifest" then Some(Dict(m)) else Lookup(fourth, k);
    assert Lookup(second, k) == if k == "keyFingerprint" then Some(Text(fp)) else Lookup(third, k);
  }

  /** An envelope whose parts decode, and whose seal is over its own header, opens to what was sealed. */
  lemma EnvelopeOpens(p: Primitives, f: Fields, recipient: PrivateKey, key: Bytes, nonce: Bytes, wrapped: Bytes,
                      sealed: Bytes, plain: Bytes, m: Fields)
    requires Keys(f) == ENVELOPE && TextAt(f, "format") == Some(FORMAT)
    requires TextAt(f, "keyFingerprint") == Some(p.fingerprint(PublicOf(recipient)))
    requires TextAt(f, "nonce") == Some(p.b64(nonce)) && TextAt(f, "wrappedKey") == Some(p.b64(wrapped))
    requires TextAt(f, "ciphertext") == Some(p.b64(sealed)) && DictAt(f, "manifest") == Some(m)
    requires p.unb64(p.b64(nonce)) == Some(nonce) && p.unb64(p.b64(wrapped)) == Some(wrapped)
    requires p.unb64(p.b64(sealed)) == Some(sealed) && |nonce| == 12 && p.unwrap(recipient, wrapped) == Some(key)
    requires p.open(key, nonce, sealed, Canon(Dict(Remove(f, "ciphertext")))) == Some(plain)
    ensures OpenEnvelope(p, f, recipient, p.fingerprint(PublicOf(recipient))) == Unpack(p, plain, m)
  {}

  /**
    Every archive that is encrypted is decrypted under the same key to the same files and the same
    manifest, unless the text is longer than the bound that is checked first.
   */
  lemma RoundTrip(p: Primitives, sql: Bytes, s: Seeds, d: Deployment, recipient: PrivateKey, id: string,
                  createdAt: string, key: Bytes, nonce: Bytes)
    requires Lawful(p) && Base64(p) && |nonce| == 12
    requires Encrypt(p, sql, s, d, PublicOf(recipient), id, createdAt, key, nonce).Done?
    ensures var (encoded, manifest) := Encrypt(p, sql, s, d, PublicOf(recipient), id, createdAt, key, nonce).value;
            Decrypt(p, encoded, recipient, p.fingerprint(PublicOf(recipient))) ==
            if |encoded| > MAX_ENCODED then Refused(TooLong) else Done((Files(p, sql, s), Norm(manifest)))
  {
    var files := Files(p, sql, s);
    var m := Manifest(p, files, s, id, createdAt);
    ManifestIsProper(p, files, s, id, createdAt);
    assert Wraps(p, recipient, key);
    SealedEnvelopeOpens(p, m, recipient, key, nonce, p.wrap(PublicOf(recipient), key), p.zip(files));
    UnpackBack(p, sql, s, id, createdAt);
  }

  /** What is sealed in an envelope is what opening its text unpacks. */
  lemma SealedEnvelopeOpens(p: Primitives, m: Fields, recipient: PrivateKey, key: Bytes, nonce: Bytes, wrapped: Bytes, plain: Bytes)
    requires Lawful(p) && ProperFields(m) && |nonce| == 12 && p.unwrap(recipient, wrapped) == Some(key)
    ensures var fp := p.fingerprint(PublicOf(recipient));
            var text := EnvelopeText(p, fp, m, key, nonce, wrapped, plain);
            |text| <= MAX_ENCODED ==> Decrypt(p, text, recipient, fp) == Unpack(p, plain, Read(m))
  {
    var fp := p.fingerprint(PublicOf(recipient));
    var header := Header(fp, m, p.b64(nonce), p.b64(wrapped), NoFields);
    var sealed := p.seal(key, nonce, plain, Canon(Dict(header)));
    var more := TextField("ciphertext", p.b64(sealed), NoFields);
    EnvelopeIsProper(fp, m, p.b64(nonce), p.b64(wrapped), p.b64(sealed));
    EnvelopeFields(fp, m, p.b64(nonce), p.b64(wrapped), more);
    EnvelopeBack(fp, m, p.b64(nonce), p.b64(wrapped), p.b64(sealed));
    CanonIsStable(Dict(Header(fp, m, p.b64(nonce), p.b64(wrapped), more)));
    assert Encodes(p, nonce) && Encodes(p, wrapped) && Encodes(p, sealed);
    assert Seals(p, key, nonce, plain, Canon(Dict(header)));
    var f := Read(Header(fp, m, p.b64(nonce), p.b64(wrapped), more));
    EnvelopeOpens(p, f, recipient, key, nonce, wrapped, sealed, plain, Read(m));
  }

  // ---------------------------------------------------------------- the bound on the text

  /** A file of the largest size allowed has eight digits. */
  lemma SizeLength(n: int)
    requires 0 <= n <= MAX_SQL
    ensures |Print(Number(n))| <= 8
  {
    var base, count := 10, 8;
    if n > 0 {
      assert Pow(base, 0) == 1;
      EightDigits(base, count);
      DigitCount(base, n, 0, count);
    }
  }

  lemma EightDigits(base: nat, count: nat)
    requires base == 10 && count == 8
    ensures Pow(base, count) == 100000000
  {
    assert Pow(base, 0) == 1 && Pow(base, 1) == 10 && Pow(base, 2) == 100 && Pow(base, 3) == 1000 && Pow(base, 4) == 10000;
    PowAdd(base, 4, 4);
  }

  lemma EntryLength(p: Primitives, f: File)
    requires |f.data| <= MAX_SQL && |f.path| <= 20 && |p.digest(f.data)| <= 64
    ensures |Print(Entry(p, f))| <= 700
  {
    var last := TextField("sha256", p.digest(f.data), NoFields);
    var second := Field("bytes", Number(|f.data|), last);
    TextLength(p.digest(f.data));
    TextLength(f.path);
    SizeLength(|f.data|);
    FieldLength("sha256", Text(p.digest(f.data)), NoFields);
    FieldLength("bytes", Number(|f.data|), last);
    FieldLength("path", Text(f.path), second);
    DictLength(TextField("path", f.path, second));
  }

  lemma KeysLength(p: Primitives, s: Seeds)
    requires |p.roleKey(s.relayer)| <= 44 && |p.roleKey(s.upgrade)| <= 44
    requires |p.roleKey(s.program)| <= 44 && |p.roleKey(s.buffer)| <= 44
    ensures |Print(Dict(KeyFields(p, s)))| <= 1300
  {
    var last := TextField("buffer", p.roleKey(s.buffer), NoFields);
    var third := TextField("program", p.roleKey(s.program), last);
    var second := TextField("upgrade", p.roleKey(s.upgrade), third);
    TextLength(p.roleKey(s.relayer));
    TextLength(p.roleKey(s.upgrade));
    TextLength(p.roleKey(s.program));
    TextLength(p.roleKey(s.buffer));
    FieldLength("buffer", Text(p.roleKey(s.buffer)), NoFields);
    FieldLength("program", Text(p.roleKey(s.program)), last);
    FieldLength("upgrade", Text(p.roleKey(s.upgrade)), third);
    FieldLength("relayer", Text(p.roleKey(s.relayer)), second);
    DictLength(KeyFields(p, s));
  }

  lemma ManifestLength(id: string, createdAt: string, keys: Json, entries: Json)
    requires |id| == 38 && |createdAt| <= 64 && |Print(keys)| <= 1300 && |Print(entries)| <= 1500
    ensures |PrintFields(ManifestOf(id, createdAt, keys, entries))| <= 5000
  {
    var last := Field("files", entries, NoFields);
    var counted := Field("pathCount", Number(2), last);
    var keyed := Field("publicKeys", keys, counted);
    var genesis := TextField("genesisHash", GENESIS, keyed);
    var cluster := TextField("cluster", "devnet", genesis);
    var created := TextField("createdAt", createdAt, cluster);
    SizeLength(2);
    TextLength(GENESIS);
    TextLength("devnet");
    TextLength(createdAt);
    TextLength(id);
    FieldLength("files", entries, NoFields);
    FieldLength("pathCount", Number(2), last);
    FieldLength("publicKeys", keys, counted);
    FieldLength("genesisHash", Text(GENESIS), keyed);
    FieldLength("cluster", Text("devnet"), genesis);
    FieldLength("createdAt", Text(createdAt), cluster);
    FieldLength("backupId", Text(id), created);
  }

  lemma HeaderLength(fp: string, m: Fields, nonce: string, wrapped: string, ciphertext: string)
    requires IsPlain(nonce) && IsPlain(wrapped) && IsPlain(ciphertext) && |fp| <= 64 && |PrintFields(m)| <= 5000
    ensures |Print(Dict(Header(fp, m, nonce, wrapped, TextField("ciphertext", ciphertext, NoFields))))| <=
            6500 + |nonce| + |wrapped| + |ciphertext|
  {
    var more := TextField("ciphertext", ciphertext, NoFields);
    var last := TextField("wrappedKey", wrapped, more);
    var fourth := TextField("nonce", nonce, last);
    var third := Field("manifest", Dict(m), fourth);
    var second := TextField("keyFingerprint", fp, third);
    TextLength(ciphertext);
    TextLength(wrapped);
    TextLength(nonce);
    TextLength(fp);
    TextLength(FORMAT);
    DictLength(m);
    FieldLength("ciphertext", Text(ciphertext), NoFields);
    FieldLength("wrappedKey", Text(wrapped), more);
    FieldLength("nonce", Text(nonce), last);
    FieldLength("manifest", Dict(m), fourth);
    FieldLength("keyFingerprint", Text(fp), third);
    FieldLength("format", Text(FORMAT), second);
    DictLength(TextField("format", FORMAT, second));
  }

  /** What the primitives' outputs measure: hashes, keys, a time, a wrapped key, and how far zip can expand. */
  ghost predicate Bounded(p: Primitives, sql: Bytes, s: Seeds, recipient: PublicKey, createdAt: string, key: Bytes) {
    var files := Files(p, sql, s);
    var total := |files[0].data| + |files[1].data|;
    && |createdAt| <= 64 && |p.fingerprint(recipient)| <= 64 && |p.wrap(recipient, key)| <= 16384
    && |p.digest(files[0].data)| <= 64 && |p.digest(files[1].data)| <= 64
    && |p.roleKey(s.relayer)| <= 44 && |p.roleKey(s.upgrade)| <= 44
    && |p.roleKey(s.program)| <= 44 && |p.roleKey(s.buffer)| <= 44
    && |p.zip(files)| <= total + total / 1000 + 1024
  }

  /** Sealing adds a tag of sixteen bytes. */
  ghost predicate Tags(p: Primitives, key: Bytes, nonce: Bytes, plain: Bytes) {
    forall a :: |p.seal(key, nonce, plain, a)| == |plain| + 16
  }

  lemma TwoItemsLength(a: Json, b: Json)
    ensures |Print(List(Item(a, Item(b, NoItems))))| == |Print(a)| + |Print(b)| + 3
  {
    assert PrintItems(Item(b, NoItems)) == Print(b);
  }

  lemma ManifestFits(p: Primitives, sql: Bytes, s: Seeds, recipient: PublicKey, id: string, createdAt: string, key: Bytes)
    requires Bounded(p, sql, s, recipient, createdAt, key) && |id| == 38 && |sql| <= MAX_SQL
    requires |Canon(SeedFile(p, s))| <= MAX_ROLES
    ensures |PrintFields(Manifest(p, Files(p, sql, s), s, id, createdAt))| <= 5000
  {
    var first, second := Entry(p, Files(p, sql, s)[0]), Entry(p, Files(p, sql, s)[1]);
    EntryLength(p, Files(p, sql, s)[0]);
    EntryLength(p, Files(p, sql, s)[1]);
    KeysLength(p, s);
    TwoItemsLength(first, second);
    ManifestLength(id, createdAt, Dict(KeyFields(p, s)), List(Item(first, Item(second, NoItems))));
  }

  /** Base64 of a sealed zip of the largest files, and the rest. */
  lemma SumFits(total: nat, zipped: nat, wrapped: nat, size: nat)
    requires total <= MAX_SQL + MAX_ROLES && zipped <= total + total / 1000 + 1024 && wrapped <= 16384
    requires 3 * size <= 3 * 6500 + 4 * (12 + 2) + 4 * (wrapped + 2) + 4 * (zipped + 16 + 2)
    ensures size <= MAX_ENCODED
  {}

  lemma EncodedLength(p: Primitives, x: Bytes)
    requires Base64(p)
    ensures IsPlain(p.b64(x)) && 3 * |p.b64(x)| <= 4 * (|x| + 2)
  {
    assert Measures(p, x);
  }

  /** Then the text always fits the bound checked on the way back, whatever the size of the database. */
  lemma EncodedFits(p: Primitives, sql: Bytes, s: Seeds, d: Deployment, recipient: PublicKey, id: string,
                    createdAt: string, key: Bytes, nonce: Bytes)
    requires Base64(p) && |nonce| == 12 && Bounded(p, sql, s, recipient, createdAt, key)
    requires Tags(p, key, nonce, p.zip(Files(p, sql, s)))
    requires Encrypt(p, sql, s, d, recipient, id, createdAt, key, nonce).Done?
    ensures |Encrypt(p, sql, s, d, recipient, id, createdAt, key, nonce).value.0| <= MAX_ENCODED
  {
    var files := Files(p, sql, s);
    SeedFileFits(p, s);
    ManifestFits(p, sql, s, recipient, id, createdAt, key);
    var m, total := Manifest(p, files, s, id, createdAt), |files[0].data| + |files[1].data|;
    EnvelopeFits(p, p.fingerprint(recipient), m, key, nonce, p.wrap(recipient, key), p.zip(files), total);
  }

  lemma EnvelopeFits(p: Primitives, fp: string, m: Fields, key: Bytes, nonce: Bytes, wrapped: Bytes,
                     zipped: Bytes, total: nat)
    requires Base64(p) && |nonce| == 12 && |fp| <= 64 && |PrintFields(m)| <= 5000 && |wrapped| <= 16384
    requires Tags(p, key, nonce, zipped)
    requires total <= MAX_SQL + MAX_ROLES && |zipped| <= total + total / 1000 + 1024
    ensures |EnvelopeText(p, fp, m, key, nonce, wrapped, zipped)| <= MAX_ENCODED
  {
    var header := Header(fp, m, p.b64(nonce), p.b64(wrapped), NoFields);
    var sealed := p.seal(key, nonce, zipped, Canon(Dict(header)));
    var full := Dict(Header(fp, m, p.b64(nonce), p.b64(wrapped), TextField("ciphertext", p.b64(sealed), NoFields)));
    EncodedLength(p, nonce);
    EncodedLength(p, wrapped);
    EncodedLength(p, sealed);
    HeaderLength(fp, m, p.b64(nonce), p.b64(wrapped), p.b64(sealed));
    CanonLength(full);
    SumFits(total, |zipped|, |wrapped|, |Canon(full)|);
  }

  // ---------------------------------------------------------------- alteration

  /** Only what was sealed opens, and only under the data it was sealed with. */
  ghost predicate Opens(p: Primitives, k: Bytes, n: Bytes, c: Bytes, a: Bytes) {
    p.open(k, n, c, a).Some? ==> c == p.seal(k, n, p.open(k, n, c, a).value, a)
  }

  ghost predicate SealedOnce(p: Primitives, k: Bytes, n: Bytes, x: Bytes, a: Bytes, l: Bytes, o: Bytes, y: Bytes, b: Bytes) {
    p.seal(k, n, x, a) == p.seal(l, o, y, b) ==> x == y && a == b
  }

  ghost predicate Authentic(p: Primitives) {
    && (forall k, n, c, a :: Opens(p, k, n, c, a))
    && (forall k, n, x, a, l, o, y, b :: SealedOnce(p, k, n, x, a, l, o, y, b))
  }

  /** The manifest of a parsed header, from its canonical text. */
  lemma SameHeaderSameManifest(f: Fields, g: Fields, m: Fields, n: Fields)
    requires ProperFields(f) && ProperFields(g) && Canon(Dict(f)) == Canon(Dict(g))
    requires DictAt(f, "manifest") == Some(m) && DictAt(g, "manifest") == Some(n)
    ensures Norm(Dict(m)) == Norm(Dict(n))
  {
    CanonIsInjective(Dict(f), Dict(g));
    ProperIsDistinct(f);
    ProperIsDistinct(g);
    LookupCanon(f, "manifest");
    LookupCanon(g, "manifest");
  }

  /** What an accepted envelope says: its ciphertext opened, over its own header. */
  lemma AcceptedOpens(p: Primitives, f: Fields, recipient: PrivateKey, expected: string)
    requires OpenEnvelope(p, f, recipient, expected).Done?
    ensures TextAt(f, "ciphertext").Some? && p.unb64(TextAt(f, "ciphertext").value).Some?
    ensures var c := p.unb64(TextAt(f, "ciphertext").value).value;
            exists k, n, x :: p.open(k, n, c, Canon(Dict(Remove(f, "ciphertext")))) == Some(x)
                              && DictAt(f, "manifest").Some?
                              && Unpack(p, x, DictAt(f, "manifest").value) == OpenEnvelope(p, f, recipient, expected)
  {
    var key := p.unwrap(recipient, p.unb64(TextAt(f, "wrappedKey").value).value).value;
    var nonce := p.unb64(TextAt(f, "nonce").value).value;
    var c := p.unb64(TextAt(f, "ciphertext").value).value;
    assert p.open(key, nonce, c, Canon(Dict(Remove(f, "ciphertext")))).Some?;
  }

  /**
    Whatever text carries the ciphertext of an encrypted archive, if it is accepted at all, gives the
    files that were encrypted and, but for the order of its keys, the manifest: no part of the header
    can be altered.
   */
  lemma HeaderCannotBeAltered(p: Primitives, sql: Bytes, s: Seeds, d: Deployment, recipient: PublicKey, id: string,
                              createdAt: string, key: Bytes, nonce: Bytes,
                              text: Bytes, holder: PrivateKey, expected: string)
    requires Lawful(p) && Authentic(p)
    requires Encrypt(p, sql, s, d, recipient, id, createdAt, key, nonce).Done?
    requires Decrypt(p, text, holder, expected).Done? && Loads(text).Some? && Loads(text).value.Dict?
    requires var m := Manifest(p, Files(p, sql, s), s, id, createdAt);
             var header := Header(p.fingerprint(recipient), m, p.b64(nonce), p.b64(p.wrap(recipient, key)), NoFields);
             TextAt(Loads(text).value.fields, "ciphertext") ==
             Some(p.b64(p.seal(key, nonce, p.zip(Files(p, sql, s)), Canon(Dict(header)))))
    ensures var (files, manifest) := Decrypt(p, text, holder, expected).value;
            && files == Files(p, sql, s)
            && Norm(manifest) == Norm(Dict(Manifest(p, Files(p, sql, s), s, id, createdAt)))
  {
    var m := Manifest(p, Files(p, sql, s), s, id, createdAt);
    var header := Header(p.fingerprint(recipient), m, p.b64(nonce), p.b64(p.wrap(recipient, key)), NoFields);
    var plain := p.zip(Files(p, sql, s));
    var sealed := p.seal(key, nonce, plain, Canon(Dict(header)));
    var f := Loads(text).value.fields;
    LoadedIsProper(text);
    assert Encodes(p, sealed);
    AcceptedOpens(p, f, holder, expected);
    var rest := Remove(f, "ciphertext");
    var k, n, x :| p.open(k, n, sealed, Canon(Dict(rest))) == Some(x) && DictAt(f, "manifest").Some?
                   && Unpack(p, x, DictAt(f, "manifest").value) == OpenEnvelope(p, f, holder, expected);
    assert Opens(p, k, n, sealed, Canon(Dict(rest)));
    assert SealedOnce(p, k, n, x, Canon(Dict(rest)), key, nonce, plain, Canon(Dict(header)));
    RemoveIsProper(f, "ciphertext");
    LookupRemove(f, "ciphertext", "manifest");
    ManifestIsProper(p, Files(p, sql, s), s, id, createdAt);
    HeaderIsProper(p.fingerprint(recipient), m, p.b64(nonce), p.b64(p.wrap(recipient, key)), NoFields);
    HeaderLookup(p.fingerprint(recipient), m, p.b64(nonce), p.b64(p.wrap(recipient, key)), NoFields, "manifest");
    SameHeaderSameManifest(rest, header, DictAt(f, "manifest").value, m);
    assert Zips(p, Files(p, sql, s));
    UnpackGives(p, x, DictAt(f, "manifest").value);
  }

  lemma UnpackGives(p: Primitives, plain: Bytes, m: Fields)
    requires Unpack(p, plain, m).Done?
    ensures p.unzip(plain) == Some(Unpack(p, plain, m).value.0) && Unpack(p, plain, m).value.1 == Dict(m)
  {}

  // ---------------------------------------------------------------- the laws can be met

  function Sealed(k: Bytes, n: Bytes, x: Bytes, a: Bytes): Json {
    List(Item(Text(k), Item(Text(n), Item(Text(x), Item(Text(a), NoItems)))))
  }

  function Unsealed(k: Bytes, n: Bytes, c: Bytes, a: Bytes): Option<Bytes> {
    match Loads(c)
    case Some(List(Item(_, Item(_, Item(Text(x), _))))) => if c == Print(Sealed(k, n, x, a)) then Some(x) else None
    case _ => None
  }

  function Zipped(fs: seq<File>): Items {
    if fs == [] then NoItems else Item(List(Item(Text(fs[0].path), Item(Text(fs[0].data), NoItems))), Zipped(fs[1..]))
  }

  function Unzipped(items: Items): seq<File> {
    match items
    case Item(List(Item(Text(path), Item(Text(data), NoItems))), rest) => [File(path, data)] + Unzipped(rest)
    case _ => []
  }

  lemma {:induction false} UnzippedBack(fs: seq<File>)
    ensures Unzipped(Zipped(fs)) == fs && ProperItems(Zipped(fs))
  {
    if fs != [] {
      UnzippedBack(fs[1..]);
      assert fs == [fs[0]] + fs[1..];
      ProperPair(fs[0]);
    }
  }

  lemma ProperPair(f: File)
    ensures Proper(List(Item(Text(f.path), Item(Text(f.data), NoItems))))
  {
    TextItem(f.data, NoItems);
    TextItem(f.path, Item(Text(f.data), NoItems));
  }

  lemma TextItem(s: string, rest: Items)
    requires ProperItems(rest)
    ensures ProperItems(Item(Text(s), rest))
  {
    assert Proper(Text(s));
  }

  lemma SealedIsProper(k: Bytes, n: Bytes, x: Bytes, a: Bytes)
    ensures Proper(Sealed(k, n, x, a)) && Loads(Print(Sealed(k, n, x, a))) == Some(Sealed(k, n, x, a))
  {
    var last := Item(Text(a), NoItems);
    TextItem(a, NoItems);
    TextItem(x, last);
    TextItem(n, Item(Text(x), last));
    TextItem(k, Item(Text(n), Item(Text(x), last)));
    LoadsBack(Sealed(k, n, x, a));
  }

  const WITNESS: Primitives := Primitives(
                                 x => x, x => Quads.Encode(x), x => Some(Quads.Decode(x)),
                                 fs => Print(List(Zipped(fs))),
                                 c => match Loads(c) case Some(List(items)) => Some(Unzipped(items)) case _ => None,
                                 k => [], (k, x) => x, (k, x) => Some(x),
                                 (k, n, x, a) => Print(Sealed(k, n, x, a)),
                                 (k, n, c, a) => Unsealed(k, n, c, a),
                                 x => x)

  lemma WitnessEncodes(x: Bytes)
    ensures Encodes(WITNESS, x) && Measures(WITNESS, x)
  {
    Quads.RoundTrip(x);
    Quads.Measured(x);
  }

  lemma WitnessZips(fs: seq<File>)
    ensures Zips(WITNESS, fs)
  {
    UnzippedBack(fs);
    LoadsBack(List(Zipped(fs)));
  }

  lemma WitnessSeals(k: Bytes, n: Bytes, x: Bytes, a: Bytes)
    ensures Seals(WITNESS, k, n, x, a)
  {
    SealedIsProper(k, n, x, a);
  }

  lemma WitnessSealsOnce(k: Bytes, n: Bytes, x: Bytes, a: Bytes, l: Bytes, o: Bytes, y: Bytes, b: Bytes)
    ensures SealedOnce(WITNESS, k, n, x, a, l, o, y, b)
  {
    SealedIsProper(k, n, x, a);
    SealedIsProper(l, o, y, b);
  }

  lemma WitnessIsLawful()
    ensures Lawful(WITNESS) && Base64(WITNESS)
  {
    forall x ensures Encodes(WITNESS, x) && Measures(WITNESS, x) { WitnessEncodes(x); }
    forall fs ensures Zips(WITNESS, fs) { WitnessZips(fs); }
    forall k, x ensures Wraps(WITNESS, k, x) {}
    forall k, n, x, a ensures Seals(WITNESS, k, n, x, a) { WitnessSeals(k, n, x, a); }
  }

  lemma WitnessIsAuthentic()
    ensures Authentic(WITNESS)
  {
    forall k, n, c, a ensures Opens(WITNESS, k, n, c, a) {}
    forall k, n, x, a, l, o, y, b ensures SealedOnce(WITNESS, k, n, x, a, l, o, y, b) {
      WitnessSealsOnce(k, n, x, a, l, o, y, b);
    }
  }

  /** Some primitives obey all the laws: nothing above holds for want of any. */
  lemma LawsCanBeMet()
    ensures exists p :: Lawful(p) && Base64(p) && Authentic(p)
  {
    WitnessIsLawful();
    WitnessIsAuthentic();
  }
}
