/**
  What an archive holds, said of its files, its manifest and its keys one by one: when one is written,
  what comes back from it under each name, and exactly which texts are accepted.
 */
module ArchiveContents {
  import opened Json
  import opened Canonical
  import opened Archive
  import opened ArchiveTheorems
  import opened Identifiers

  // ---------------------------------------------------------------- what is written

  /** An archive is written exactly for a backup ID, a database within its bound, a wide enough key and the roles of the deployment. */
  lemma EncryptsExactlyWhen(p: Primitives, sql: Bytes, s: Seeds, d: Deployment, recipient: PublicKey, id: string,
                            createdAt: string, key: Bytes, nonce: Bytes)
    ensures var r := Encrypt(p, sql, s, d, recipient, id, createdAt, key, nonce);
            && (r == Refused(BadId) <==> !IsBackupId(id))
            && (r == Refused(BadSize) <==> IsBackupId(id) && (sql == [] || |sql| > 67108864 || recipient.bits < 3072))
            && (r == Refused(BadDeployment) ==> d.cluster != "devnet" || d.genesisHash != "EtWTRABZaYq6iMfeYKouRu166VU2xqa1wcaWoxPkrZBG")
            && (r == Refused(BadSeed) ==>
                  && d.cluster == "devnet" && d.genesisHash == "EtWTRABZaYq6iMfeYKouRu166VU2xqa1wcaWoxPkrZBG"
                  && (|s.relayer| != 32 || |s.upgrade| != 32 || |s.program| != 32 || |s.buffer| != 32))
            && (r == Refused(WrongRole) ==>
                  && |s.relayer| == |s.upgrade| == |s.program| == |s.buffer| == 32
                  && (p.roleKey(s.relayer) != d.relayer || p.roleKey(s.upgrade) != d.upgradeAuthority
                      || p.roleKey(s.program) != d.programId || (d.buffer.Some? && p.roleKey(s.buffer) != d.buffer.value)))
            && (r.Refused? ==> r.why in {BadId, BadSize, BadDeployment, BadSeed, WrongRole})
            && (r.Done? <==>
                && IsBackupId(id) && 1 <= |sql| <= 67108864 && recipient.bits >= 3072
                && d.cluster == "devnet" && d.genesisHash == "EtWTRABZaYq6iMfeYKouRu166VU2xqa1wcaWoxPkrZBG"
                && |s.relayer| == 32 && |s.upgrade| == 32 && |s.program| == 32 && |s.buffer| == 32
                && p.roleKey(s.relayer) == d.relayer && p.roleKey(s.upgrade) == d.upgradeAuthority
                && p.roleKey(s.program) == d.programId && (d.buffer.Some? ==> p.roleKey(s.buffer) == d.buffer.value))
  {}

  // ---------------------------------------------------------------- what comes back

  /** The text at a key is the encoding of some bytes. */
  ghost predicate Decodes(p: Primitives, f: Fields, key: string, x: Bytes) {
    exists t :: Lookup(f, key) == Some(Text(t)) && p.unb64(t) == Some(x)
  }

  /** A dictionary of exactly these keys. */
  ghost predicate HasKeys(f: Fields, keys: set<string>) { forall k: string :: Lookup(f, k).Some? <==> k in keys }

  /** The file of seeds: the cluster, and under each role that role's own seed and nothing else. */
  ghost predicate HoldsSeeds(p: Primitives, f: Fields, s: Seeds) {
    && HasKeys(f, {"cluster", "genesisHash", "seeds"})
    && Lookup(f, "cluster") == Some(Text("devnet"))
    && Lookup(f, "genesisHash") == Some(Text("EtWTRABZaYq6iMfeYKouRu166VU2xqa1wcaWoxPkrZBG"))
    && exists seeds: Fields ::
         && Lookup(f, "seeds") == Some(Dict(seeds)) && HasKeys(seeds, {"relayer", "upgrade", "program", "buffer"})
         && Decodes(p, seeds, "relayer", s.relayer) && Decodes(p, seeds, "upgrade", s.upgrade)
         && Decodes(p, seeds, "program", s.program) && Decodes(p, seeds, "buffer", s.buffer)
  }

  /** The manifest's line on a file. */
  ghost predicate Describes(p: Primitives, v: Json, path: string, data: Bytes) {
    v.Dict? && HasKeys(v.fields, {"path", "bytes", "sha256"})
    && Lookup(v.fields, "path") == Some(Text(path)) && Lookup(v.fields, "bytes") == Some(Number(|data|))
    && Lookup(v.fields, "sha256") == Some(Text(p.digest(data)))
  }

  /** The manifest: the backup it is of, under each role that role's own key, and a line on each file. */
  ghost predicate Manifests(p: Primitives, m: Fields, s: Seeds, id: string, createdAt: string, sql: Bytes, roles: Bytes) {
    && HasKeys(m, {"backupId", "createdAt", "cluster", "genesisHash", "publicKeys", "pathCount", "files"})
    && Lookup(m, "backupId") == Some(Text(id)) && Lookup(m, "createdAt") == Some(Text(createdAt))
    && Lookup(m, "cluster") == Some(Text("devnet"))
    && Lookup(m, "genesisHash") == Some(Text("EtWTRABZaYq6iMfeYKouRu166VU2xqa1wcaWoxPkrZBG"))
    && Lookup(m, "pathCount") == Some(Number(2))
    && (exists keys: Fields ::
          && Lookup(m, "publicKeys") == Some(Dict(keys)) && HasKeys(keys, {"relayer", "upgrade", "program", "buffer"})
          && Lookup(keys, "relayer") == Some(Text(p.roleKey(s.relayer)))
          && Lookup(keys, "upgrade") == Some(Text(p.roleKey(s.upgrade)))
          && Lookup(keys, "program") == Some(Text(p.roleKey(s.program)))
          && Lookup(keys, "buffer") == Some(Text(p.roleKey(s.buffer))))
    && exists a, b :: Lookup(m, "files") == Some(List(Item(a, Item(b, NoItems))))
                      && Describes(p, a, "d1.sql", sql) && Describes(p, b, "devnet-roles.json", roles)
  }

  // ---------------------------------------------------------------- looking up what was written

  lemma LookupByRole(a: string, b: string, c: string, d: string, k: string)
    ensures Lookup(ByRole(a, b, c, d), k) ==
            if k == "relayer" then Some(Text(a)) else if k == "upgrade" then Some(Text(b))
            else if k == "program" then Some(Text(c)) else if k == "buffer" then Some(Text(d)) else None
  {
    var last := TextField("buffer", d, NoFields);
    var third := TextField("program", c, last);
    var second := TextField("upgrade", b, third);
    assert Lookup(last, k) == if k == "buffer" then Some(Text(d)) else None;
    assert Lookup(third, k) == if k == "program" then Some(Text(c)) else Lookup(last, k);
    assert Lookup(second, k) == if k == "upgrade" then Some(Text(b)) else Lookup(third, k);
  }

  /** Four texts by role, as they are read back. */
  lemma RolesBack(a: string, b: string, c: string, d: string)
    ensures var f := Read(ByRole(a, b, c, d));
            && HasKeys(f, {"relayer", "upgrade", "program", "buffer"})
            && Lookup(f, "relayer") == Some(Text(a)) && Lookup(f, "upgrade") == Some(Text(b))
            && Lookup(f, "program") == Some(Text(c)) && Lookup(f, "buffer") == Some(Text(d))
  {
    var g := ByRole(a, b, c, d);
    FourKeys(a, b, c, d);
    ProperIsDistinct(g);
    forall k: string
      ensures Lookup(Read(g), k) ==
              if k == "relayer" then Some(Text(a)) else if k == "upgrade" then Some(Text(b))
              else if k == "program" then Some(Text(c)) else if k == "buffer" then Some(Text(d)) else None
    {
      LookupByRole(a, b, c, d, k);
      LookupCanon(g, k);
    }
  }

  lemma LookupSeedFile(seeds: Json, k: string)
    ensures Lookup(SeedFileOf(seeds).fields, k) ==
            if k == "cluster" then Some(Text("devnet")) else if k == "genesisHash" then Some(Text(GENESIS))
            else if k == "seeds" then Some(seeds) else None
  {
    var last := Field("seeds", seeds, NoFields);
    var second := TextField("genesisHash", GENESIS, last);
    assert Lookup(last, k) == if k == "seeds" then Some(seeds) else None;
    assert Lookup(second, k) == if k == "genesisHash" then Some(Text(GENESIS)) else Lookup(last, k);
  }

  lemma SeedFileIsProper(seeds: Json)
    requires Proper(seeds)
    ensures Proper(SeedFileOf(seeds))
  {
    var last := Field("seeds", seeds, NoFields);
    var second := TextField("genesisHash", GENESIS, last);
    OneMoreField("seeds", seeds, NoFields);
    OneMoreField("genesisHash", Text(GENESIS), last);
    OneMoreField("cluster", Text("devnet"), second);
  }

  lemma DictBack(g: Fields)
    requires ProperFields(g)
    ensures Loads(Canon(Dict(g))) == Some(Dict(Read(g)))
  {
    assert Proper(Dict(g));
    CanonIsStable(Dict(g));
  }

  lemma SeedFieldsBack(g: Fields, seeds: Json)
    requires SeedFileOf(seeds) == Dict(g) && ProperFields(g)
    ensures HasKeys(Read(g), {"cluster", "genesisHash", "seeds"})
    ensures Lookup(Read(g), "cluster") == Some(Text("devnet")) && Lookup(Read(g), "genesisHash") == Some(Text(GENESIS))
    ensures Lookup(Read(g), "seeds") == Some(Norm(seeds))
  {
    ProperIsDistinct(g);
    forall k: string
      ensures Lookup(Read(g), k) ==
              if k == "cluster" then Some(Text("devnet")) else if k == "genesisHash" then Some(Text(GENESIS))
              else if k == "seeds" then Some(Norm(seeds)) else None
    {
      LookupSeedFile(seeds, k);
      LookupCanon(g, k);
    }
  }

  lemma RolesDecode(p: Primitives, s: Seeds)
    requires Lawful(p)
    ensures var seeds := Read(SeedFields(p, s));
            && HasKeys(seeds, {"relayer", "upgrade", "program", "buffer"})
            && Decodes(p, seeds, "relayer", s.relayer) && Decodes(p, seeds, "upgrade", s.upgrade)
            && Decodes(p, seeds, "program", s.program) && Decodes(p, seeds, "buffer", s.buffer)
  {
    RolesBack(p.b64(s.relayer), p.b64(s.upgrade), p.b64(s.program), p.b64(s.buffer));
    assert Encodes(p, s.relayer) && Encodes(p, s.upgrade) && Encodes(p, s.program) && Encodes(p, s.buffer);
  }

  /** The file of seeds, parsed. */
  lemma SeedsBack(p: Primitives, s: Seeds) returns (f: Fields)
    requires Lawful(p)
    ensures Loads(Canon(SeedFile(p, s))) == Some(Dict(f)) && HoldsSeeds(p, f, s)
  {
    f := Read(SeedFile(p, s).fields);
    FourKeys(p.b64(s.relayer), p.b64(s.upgrade), p.b64(s.program), p.b64(s.buffer));
    SeedFileIsProper(Dict(SeedFields(p, s)));
    DictBack(SeedFile(p, s).fields);
    SeedFieldsBack(SeedFile(p, s).fields, Dict(SeedFields(p, s)));
    RolesDecode(p, s);
  }

  lemma LookupEntry(p: Primitives, f: File, k: string)
    ensures Lookup(Entry(p, f).fields, k) ==
            if k == "path" then Some(Text(f.path)) else if k == "bytes" then Some(Number(|f.data|))
            else if k == "sha256" then Some(Text(p.digest(f.data))) else None
  {
    var last := TextField("sha256", p.digest(f.data), NoFields);
    var second := Field("bytes", Number(|f.data|), last);
    assert Lookup(last, k) == if k == "sha256" then Some(Text(p.digest(f.data))) else None;
    assert Lookup(second, k) == if k == "bytes" then Some(Number(|f.data|)) else Lookup(last, k);
  }

  lemma EntryDescribes(p: Primitives, f: File)
    ensures Describes(p, Norm(Entry(p, f)), f.path, f.data)
  {
    var e := Entry(p, f).fields;
    EntryIsProper(p, f);
    ProperIsDistinct(e);
    assert Norm(Entry(p, f)) == Dict(Read(e));
    forall k: string
      ensures Lookup(Read(e), k) ==
              if k == "path" then Some(Text(f.path)) else if k == "bytes" then Some(Number(|f.data|))
              else if k == "sha256" then Some(Text(p.digest(f.data))) else None
    {
      LookupEntry(p, f, k);
      LookupCanon(e, k);
    }
  }

  lemma LookupManifest(id: string, createdAt: string, keys: Json, entries: Json, k: string)
    ensures Lookup(ManifestOf(id, createdAt, keys, entries), k) ==
            if k == "backupId" then Some(Text(id)) else if k == "createdAt" then Some(Text(createdAt))
            else if k == "cluster" then Some(Text("devnet")) else if k == "genesisHash" then Some(Text(GENESIS))
            else if k == "publicKeys" then Some(keys) else if k == "pathCount" then Some(Number(2))
            else if k == "files" then Some(entries) else None
  {
    var last := Field("files", entries, NoFields);
    var counted := Field("pathCount", Number(2), last);
    var keyed := Field("publicKeys", keys, counted);
    var genesis := TextField("genesisHash", GENESIS, keyed);
    var cluster := TextField("cluster", "devnet", genesis);
    var created := TextField("createdAt", createdAt, cluster);
    assert Lookup(last, k) == if k == "files" then Some(entries) else None;
    assert Lookup(counted, k) == if k == "pathCount" then Some(Number(2)) else Lookup(last, k);
    assert Lookup(keyed, k) == if k == "publicKeys" then Some(keys) else Lookup(counted, k);
    assert Lookup(genesis, k) == if k == "genesisHash" then Some(Text(GENESIS)) else Lookup(keyed, k);
    assert Lookup(cluster, k) == if k == "cluster" then Some(Text("devnet")) else Lookup(genesis, k);
    assert Lookup(created, k) == if k == "createdAt" then Some(Text(createdAt)) else Lookup(cluster, k);
  }

  /** The manifest, as it is read back. */
  lemma ManifestBack(p: Primitives, s: Seeds, id: string, createdAt: string, sql: File, roles: File)
    requires sql.path == "d1.sql" && roles.path == "devnet-roles.json"
    ensures Manifests(p, Read(Manifest(p, [sql, roles], s, id, createdAt)), s, id, createdAt, sql.data, roles.data)
  {
    var keys, entries := KeyFields(p, s), EntryList(p, [sql, roles]);
    var g := Manifest(p, [sql, roles], s, id, createdAt);
    ManifestIsProper(p, [sql, roles], s, id, createdAt);
    ProperIsDistinct(g);
    TwoItems(Entry(p, sql), Entry(p, roles));
    EntryDescribes(p, sql);
    EntryDescribes(p, roles);
    RolesBack(p.roleKey(s.relayer), p.roleKey(s.upgrade), p.roleKey(s.program), p.roleKey(s.buffer));
    forall k: string
      ensures Lookup(Read(g), k) ==
              if k == "backupId" then Some(Text(id)) else if k == "createdAt" then Some(Text(createdAt))
              else if k == "cluster" then Some(Text("devnet")) else if k == "genesisHash" then Some(Text(GENESIS))
              else if k == "publicKeys" then Some(Dict(Read(keys))) else if k == "pathCount" then Some(Number(2))
              else if k == "files" then Some(List(Item(Norm(Entry(p, sql)), Item(Norm(Entry(p, roles)), NoItems)))) else None
    {
      LookupManifest(id, createdAt, Dict(keys), entries, k);
      LookupCanon(g, k);
    }
  }

  /**
    What is encrypted comes back under its own name: the database as d1.sql, then each role's seed
    under that role in devnet-roles.json, with a manifest of that backup holding each role's own key.
   */
  lemma ContentsComeBack(p: Primitives, sql: Bytes, s: Seeds, d: Deployment, recipient: PrivateKey, id: string,
                         createdAt: string, key: Bytes, nonce: Bytes) returns (seeds: Fields, manifest: Fields)
    requires Lawful(p) && Base64(p) && |nonce| == 12
    requires Encrypt(p, sql, s, d, PublicOf(recipient), id, createdAt, key, nonce).Done?
    requires |Encrypt(p, sql, s, d, PublicOf(recipient), id, createdAt, key, nonce).value.0| <= 134217728
    ensures var encoded := Encrypt(p, sql, s, d, PublicOf(recipient), id, createdAt, key, nonce).value.0;
            var r := Decrypt(p, encoded, recipient, p.fingerprint(PublicOf(recipient)));
            && r.Done? && |r.value.0| == 2
            && r.value.0[0] == File("d1.sql", sql) && r.value.0[1].path == "devnet-roles.json"
            && Loads(r.value.0[1].data) == Some(Dict(seeds)) && HoldsSeeds(p, seeds, s)
            && r.value.1 == Dict(manifest) && Manifests(p, manifest, s, id, createdAt, sql, r.value.0[1].data)
  {
    var roles := File("devnet-roles.json", Canon(SeedFile(p, s)));
    seeds := SeedsBack(p, s);
    manifest := Read(Manifest(p, [File("d1.sql", sql), roles], s, id, createdAt));
    ManifestBack(p, s, id, createdAt, File("d1.sql", sql), roles);
    FilesComeBack(p, sql, s, d, recipient, id, createdAt, key, nonce);
  }

  lemma FilesComeBack(p: Primitives, sql: Bytes, s: Seeds, d: Deployment, recipient: PrivateKey, id: string,
                      createdAt: string, key: Bytes, nonce: Bytes)
    requires Lawful(p) && Base64(p) && |nonce| == 12
    requires Encrypt(p, sql, s, d, PublicOf(recipient), id, createdAt, key, nonce).Done?
    requires |Encrypt(p, sql, s, d, PublicOf(recipient), id, createdAt, key, nonce).value.0| <= 134217728
    ensures var encoded := Encrypt(p, sql, s, d, PublicOf(recipient), id, createdAt, key, nonce).value.0;
            var files := [File("d1.sql", sql), File("devnet-roles.json", Canon(SeedFile(p, s)))];
            Decrypt(p, encoded, recipient, p.fingerprint(PublicOf(recipient))) ==
            Done((files, Dict(Read(Manifest(p, files, s, id, createdAt)))))
  {
    RoundTrip(p, sql, s, d, recipient, id, createdAt, key, nonce);
  }

  /** The manifest the program reports is the one the archive gives back, up to the order of keys. */
  lemma ReportedManifestIsSealed(p: Primitives, sql: Bytes, s: Seeds, d: Deployment, recipient: PrivateKey, id: string,
                                 createdAt: string, key: Bytes, nonce: Bytes)
    requires Lawful(p) && Base64(p) && |nonce| == 12
    requires Encrypt(p, sql, s, d, PublicOf(recipient), id, createdAt, key, nonce).Done?
    ensures var (encoded, manifest) := Encrypt(p, sql, s, d, PublicOf(recipient), id, createdAt, key, nonce).value;
            var r := Decrypt(p, encoded, recipient, p.fingerprint(PublicOf(recipient)));
            && (r.Done? <==> |encoded| <= 134217728)
            && (r.Done? ==> Canon(r.value.1) == Canon(manifest))
  {
    RoundTrip(p, sql, s, d, recipient, id, createdAt, key, nonce);
    ManifestIsProper(p, Files(p, sql, s), s, id, createdAt);
    CanonIsStable(Encrypt(p, sql, s, d, PublicOf(recipient), id, createdAt, key, nonce).value.1);
  }

  // ---------------------------------------------------------------- what is accepted

  /** What the texts of an envelope decode to, and the key that its wrapped key gives. */
  datatype Parts = Parts(ciphertext: Bytes, nonce: Bytes, wrapped: Bytes, key: Bytes)

  /** An envelope of the format, addressed to the key, with nothing missing and nothing more. */
  ghost predicate Addressed(p: Primitives, f: Fields, holder: PrivateKey, expected: string) {
    && HasKeys(f, {"format", "keyFingerprint", "manifest", "nonce", "wrappedKey", "ciphertext"})
    && Lookup(f, "format") == Some(Text("forecast-off-device-backup-v1"))
    && Lookup(f, "keyFingerprint") == Some(Text(expected)) && p.fingerprint(PublicKey(holder.pair, holder.bits)) == expected
  }

  /** Its parts decode, and its seal opens over the rest of its text. */
  ghost predicate OpensWith(p: Primitives, f: Fields, holder: PrivateKey, parts: Parts, m: Fields, plain: Bytes) {
    && Lookup(f, "manifest") == Some(Dict(m))
    && Decodes(p, f, "ciphertext", parts.ciphertext) && Decodes(p, f, "nonce", parts.nonce) && |parts.nonce| == 12
    && Decodes(p, f, "wrappedKey", parts.wrapped) && p.unwrap(holder, parts.wrapped) == Some(parts.key)
    && p.open(parts.key, parts.nonce, parts.ciphertext, Canon(Dict(Remove(f, "ciphertext")))) == Some(plain)
  }

  ghost predicate Opens(p: Primitives, encoded: Bytes, holder: PrivateKey, expected: string, parts: Parts, m: Fields, plain: Bytes) {
    && |encoded| <= 134217728 && Loads(encoded).Some? && Loads(encoded).value.Dict?
    && Addressed(p, Loads(encoded).value.fields, holder, expected)
    && OpensWith(p, Loads(encoded).value.fields, holder, parts, m, plain)
  }

  /** The line a manifest must have on a file of at most `limit` bytes. */
  ghost predicate Vouches(p: Primitives, line: Json, path: string, file: File, limit: nat) {
    && line.Dict? && Lookup(line.fields, "path") == Some(Text(path)) && file.path == path
    && 1 <= |file.data| <= limit && Lookup(line.fields, "bytes") == Some(Number(|file.data|))
    && Lookup(line.fields, "sha256") == Some(Text(p.digest(file.data)))
  }

  /** A manifest of a backup of this cluster, with two lines. */
  ghost predicate Scoped(m: Fields, a: Json, b: Json) {
    && (exists id :: Lookup(m, "backupId") == Some(Text(id)) && IsBackupId(id))
    && Lookup(m, "cluster") == Some(Text("devnet"))
    && Lookup(m, "genesisHash") == Some(Text("EtWTRABZaYq6iMfeYKouRu166VU2xqa1wcaWoxPkrZBG"))
    && Lookup(m, "pathCount") == Some(Number(2))
    && Lookup(m, "files") == Some(List(Item(a, Item(b, NoItems))))
  }

  /** And it vouches for the two files. */
  ghost predicate VouchesForBoth(p: Primitives, m: Fields, a: Json, b: Json, files: seq<File>) {
    && Scoped(m, a, b) && |files| == 2
    && Vouches(p, a, "d1.sql", files[0], 67108864) && Vouches(p, b, "devnet-roles.json", files[1], 4096)
  }

  lemma AddressedShape(p: Primitives, f: Fields, holder: PrivateKey, expected: string)
    ensures Addressed(p, f, holder, expected) <==>
            && Keys(f) == ENVELOPE && TextAt(f, "format") == Some(FORMAT) && TextAt(f, "keyFingerprint") == Some(expected)
            && p.fingerprint(PublicOf(holder)) == expected
  {
    KeysAre(f);
  }

  lemma DecodedText(p: Primitives, f: Fields, key: string, x: Bytes)
    ensures Decodes(p, f, key, x) <==> TextAt(f, key).Some? && p.unb64(TextAt(f, key).value) == Some(x)
  {}

  lemma OpeningUnpacks(p: Primitives, f: Fields, holder: PrivateKey, expected: string, parts: Parts, m: Fields, plain: Bytes)
    requires Addressed(p, f, holder, expected) && OpensWith(p, f, holder, parts, m, plain)
    ensures OpenEnvelope(p, f, holder, expected) == Unpack(p, plain, m)
  {
    AddressedShape(p, f, holder, expected);
    DecodedText(p, f, "ciphertext", parts.ciphertext);
    DecodedText(p, f, "nonce", parts.nonce);
    DecodedText(p, f, "wrappedKey", parts.wrapped);
  }

  lemma UnpackedOpens(p: Primitives, f: Fields, holder: PrivateKey, expected: string) returns (parts: Parts, m: Fields, plain: Bytes)
    requires OpenEnvelope(p, f, holder, expected).Done?
    ensures Addressed(p, f, holder, expected) && OpensWith(p, f, holder, parts, m, plain)
  {
    AddressedShape(p, f, holder, expected);
    var wrapped := p.unb64(TextAt(f, "wrappedKey").value).value;
    parts := Parts(p.unb64(TextAt(f, "ciphertext").value).value, p.unb64(TextAt(f, "nonce").value).value,
                   wrapped, p.unwrap(holder, wrapped).value);
    plain := p.open(parts.key, parts.nonce, parts.ciphertext, Canon(Dict(Remove(f, "ciphertext")))).value;
    m := DictAt(f, "manifest").value;
    DecodedText(p, f, "ciphertext", parts.ciphertext);
    DecodedText(p, f, "nonce", parts.nonce);
    DecodedText(p, f, "wrappedKey", parts.wrapped);
  }

  lemma EntriesAreLines(m: Fields, a: Fields, b: Fields)
    requires Entries(m) == Done((a, b))
    ensures Scoped(m, Dict(a), Dict(b)) && TextAt(a, "path") == Some("d1.sql") && TextAt(b, "path") == Some("devnet-roles.json")
  {
    var id := TextAt(m, "backupId").value;
    assert Lookup(m, "backupId") == Some(Text(id)) && IsBackupId(id);
    match ListAt(m, "files")
    case Some(Item(Dict(first), Item(Dict(second), NoItems))) =>
      assert Lookup(m, "files") == Some(List(Item(Dict(first), Item(Dict(second), NoItems))));
      assert first == a && second == b;
    case _ =>
  }

  lemma LinesAreEntries(m: Fields, a: Fields, b: Fields)
    requires Scoped(m, Dict(a), Dict(b)) && TextAt(a, "path") == Some("d1.sql") && TextAt(b, "path") == Some("devnet-roles.json")
    ensures Entries(m) == Done((a, b))
  {}

  lemma FilePassesExactlyWhen(p: Primitives, line: Fields, file: File, path: string, limit: nat)
    requires TextAt(line, "path") == Some(path) && file.path == path
    requires limit == if path == "d1.sql" then 67108864 else 4096
    ensures FileRefusal(p, file, line).None? <==> Vouches(p, Dict(line), path, file, limit)
  {}

  lemma UnpackGivesBack(p: Primitives, plain: Bytes, m: Fields, a: Fields, b: Fields, files: seq<File>)
    requires VouchesForBoth(p, m, Dict(a), Dict(b), files) && p.unzip(plain) == Some(files)
    ensures Unpack(p, plain, m) == Done((files, Dict(m)))
  {
    LinesAreEntries(m, a, b);
    FilePassesExactlyWhen(p, a, files[0], "d1.sql", 67108864);
    FilePassesExactlyWhen(p, b, files[1], "devnet-roles.json", 4096);
  }

  lemma UnpackedVouches(p: Primitives, plain: Bytes, m: Fields) returns (a: Fields, b: Fields, files: seq<File>)
    requires Unpack(p, plain, m).Done?
    ensures VouchesForBoth(p, m, Dict(a), Dict(b), files) && p.unzip(plain) == Some(files)
    ensures Unpack(p, plain, m) == Done((files, Dict(m)))
  {
    a, b := Entries(m).value.0, Entries(m).value.1;
    files := p.unzip(plain).value;
    EntriesAreLines(m, a, b);
    FilePassesExactlyWhen(p, a, files[0], "d1.sql", 67108864);
    FilePassesExactlyWhen(p, b, files[1], "devnet-roles.json", 4096);
  }

  /**
    Only a text that opens under the key, to a zip of the two files that the manifest it was sealed
    with vouches for, is accepted; and what is returned is those files and that manifest.
   */
  lemma AcceptedIsVouchedFor(p: Primitives, encoded: Bytes, holder: PrivateKey, expected: string)
    returns (parts: Parts, m: Fields, plain: Bytes, a: Fields, b: Fields, files: seq<File>)
    requires Decrypt(p, encoded, holder, expected).Done?
    ensures Opens(p, encoded, holder, expected, parts, m, plain)
    ensures p.unzip(plain) == Some(files) && VouchesForBoth(p, m, Dict(a), Dict(b), files)
    ensures Decrypt(p, encoded, holder, expected) == Done((files, Dict(m)))
  {
    var f := Loads(encoded).value.fields;
    parts, m, plain := UnpackedOpens(p, f, holder, expected);
    OpeningUnpacks(p, f, holder, expected, parts, m, plain);
    a, b, files := UnpackedVouches(p, plain, m);
  }

  /** And every such text is. */
  lemma VouchedForIsAccepted(p: Primitives, encoded: Bytes, holder: PrivateKey, expected: string,
                             parts: Parts, m: Fields, plain: Bytes, a: Fields, b: Fields, files: seq<File>)
    requires Opens(p, encoded, holder, expected, parts, m, plain)
    requires p.unzip(plain) == Some(files) && VouchesForBoth(p, m, Dict(a), Dict(b), files)
    ensures Decrypt(p, encoded, holder, expected) == Done((files, Dict(m)))
  {
    OpeningUnpacks(p, Loads(encoded).value.fields, holder, expected, parts, m, plain);
    UnpackGivesBack(p, plain, m, a, b, files);
  }

  /** The bytes that the text under a key decodes to. */
  ghost function Held(p: Primitives, f: Fields, key: string): Option<Bytes> {
    match Lookup(f, key)
    case Some(Text(t)) => p.unb64(t)
    case _ => None
  }

  /** What is wrong with an envelope that gets this refusal, everything checked before it being in order. */
  ghost predicate RefusedAt(p: Primitives, f: Fields, holder: PrivateKey, expected: string, why: Refusal) {
    var c, n, w := Held(p, f, "ciphertext"), Held(p, f, "nonce"), Held(p, f, "wrappedKey");
    if !HasKeys(f, {"format", "keyFingerprint", "manifest", "nonce", "wrappedKey", "ciphertext"}) then why == BadShape
    else if !Addressed(p, f, holder, expected) then why == WrongKey
    else if c.None? then why == BadCiphertext
    else if n.None? || |n.value| != 12 then why == BadNonce
    else if w.None? || p.unwrap(holder, w.value).None? then why == BadWrapping
    else if p.open(p.unwrap(holder, w.value).value, n.value, c.value, Canon(Dict(Remove(f, "ciphertext")))).None?
    then why == NotAuthentic
    else why in {BadShape, BadId, WrongScope, BadPaths, BadMembers, BadFile}
  }

  /** Which refusal a text gets, first failure first, up to its seal. */
  lemma RefusedInOrder(p: Primitives, encoded: Bytes, holder: PrivateKey, expected: string)
    ensures var r := Decrypt(p, encoded, holder, expected);
            && (r == Refused(TooLong) <==> |encoded| > 134217728)
            && (r == Refused(NotJson) <==> |encoded| <= 134217728 && !(Loads(encoded).Some? && Loads(encoded).value.Dict?))
            && (r.Refused? && |encoded| <= 134217728 && Loads(encoded).Some? && Loads(encoded).value.Dict? ==>
                  RefusedAt(p, Loads(encoded).value.fields, holder, expected, r.why))
  {
    if |encoded| <= 134217728 && Loads(encoded).Some? && Loads(encoded).value.Dict? {
      var f := Loads(encoded).value.fields;
      if OpenEnvelope(p, f, holder, expected).Refused? { EnvelopeRefusedAt(p, f, holder, expected); }
      NeverThatLate(p, f, holder, expected);
    }
  }

  lemma EnvelopeRefusedAt(p: Primitives, f: Fields, holder: PrivateKey, expected: string)
    requires OpenEnvelope(p, f, holder, expected).Refused?
    ensures RefusedAt(p, f, holder, expected, OpenEnvelope(p, f, holder, expected).why)
  {
    AddressedShape(p, f, holder, expected);
    KeysAre(f);
  }

  lemma NeverThatLate(p: Primitives, f: Fields, holder: PrivateKey, expected: string)
    ensures OpenEnvelope(p, f, holder, expected) != Refused(TooLong) && OpenEnvelope(p, f, holder, expected) != Refused(NotJson)
  {}

  lemma KeysAre(f: Fields)
    ensures HasKeys(f, {"format", "keyFingerprint", "manifest", "nonce", "wrappedKey", "ciphertext"}) <==> Keys(f) == ENVELOPE
  {
    forall k: string ensures k in Keys(f) <==> Lookup(f, k).Some? {
      KeysHas(f, k);
      LookupHas(f, k);
    }
  }

  /** And which one a manifest and a zip get, once the seal is open. */
  lemma UnpackingRefusedInOrder(p: Primitives, plain: Bytes, m: Fields)
    ensures var r := Unpack(p, plain, m);
            var named := exists id :: Lookup(m, "backupId") == Some(Text(id)) && IsBackupId(id);
            var scoped :=
              && Lookup(m, "cluster") == Some(Text("devnet"))
              && Lookup(m, "genesisHash") == Some(Text("EtWTRABZaYq6iMfeYKouRu166VU2xqa1wcaWoxPkrZBG"))
              && Lookup(m, "pathCount") == Some(Number(2));
            && (r == Refused(BadId) <==> !named)
            && (r == Refused(WrongScope) <==> named && !scoped)
            && (r == Refused(BadMembers) ==> named && scoped && Paired(p.unzip(plain)).None?)
            && (r == Refused(BadFile) ==> named && scoped && Paired(p.unzip(plain)).Some?)
            && (r == Refused(BadPaths) ==> named && scoped)
            && (r.Refused? ==> r.why in {BadId, WrongScope, BadPaths, BadMembers, BadFile})
  {
    if TextAt(m, "backupId").Some? { assert Lookup(m, "backupId") == Some(Text(TextAt(m, "backupId").value)); }
  }

  /** The two files, if they are what was zipped. */
  ghost function Paired(unzipped: Option<seq<File>>): Option<(File, File)> {
    match unzipped
    case Some(fs) => if |fs| == 2 && fs[0].path == "d1.sql" && fs[1].path == "devnet-roles.json" then Some((fs[0], fs[1])) else None
    case None => None
  }

  // ---------------------------------------------------------------- alteration

  /** The text under a key of a dictionary that a text parses to. */
  ghost function TextUnder(encoded: Bytes, key: string): Option<string> {
    match Loads(encoded)
    case Some(Dict(f)) => (match Lookup(f, key) case Some(Text(t)) => Some(t) case _ => None)
    case _ => None
  }

  lemma SealedUnder(p: Primitives, fp: string, m: Fields, key: Bytes, nonce: Bytes, wrapped: Bytes, plain: Bytes)
    requires ProperFields(m)
    ensures var header := Header(fp, m, p.b64(nonce), p.b64(wrapped), NoFields);
            TextUnder(EnvelopeText(p, fp, m, key, nonce, wrapped, plain), "ciphertext") ==
            Some(p.b64(p.seal(key, nonce, plain, Canon(Dict(header)))))
  {
    var header := Header(fp, m, p.b64(nonce), p.b64(wrapped), NoFields);
    var more := TextField("ciphertext", p.b64(p.seal(key, nonce, plain, Canon(Dict(header)))), NoFields);
    EnvelopeIsProper(fp, m, p.b64(nonce), p.b64(wrapped), more.value.text);
    EnvelopeFields(fp, m, p.b64(nonce), p.b64(wrapped), more);
    CanonIsStable(Dict(Header(fp, m, p.b64(nonce), p.b64(wrapped), more)));
  }

  /**
    Whatever text is accepted under any key with the ciphertext of an encrypted archive gives the files
    and the manifest of that archive: the header around a ciphertext cannot be altered.
   */
  lemma CiphertextDetermines(p: Primitives, sql: Bytes, s: Seeds, d: Deployment, recipient: PrivateKey, id: string,
                             createdAt: string, key: Bytes, nonce: Bytes, text: Bytes, holder: PrivateKey, expected: string)
    requires Lawful(p) && Base64(p) && Authentic(p) && |nonce| == 12
    requires Encrypt(p, sql, s, d, PublicOf(recipient), id, createdAt, key, nonce).Done?
    requires var encoded := Encrypt(p, sql, s, d, PublicOf(recipient), id, createdAt, key, nonce).value.0;
             |encoded| <= 134217728 && TextUnder(text, "ciphertext") == TextUnder(encoded, "ciphertext")
    requires Decrypt(p, text, holder, expected).Done?
    ensures var encoded := Encrypt(p, sql, s, d, PublicOf(recipient), id, createdAt, key, nonce).value.0;
            var own := Decrypt(p, encoded, recipient, p.fingerprint(PublicOf(recipient)));
            && own.Done? && Decrypt(p, text, holder, expected).value.0 == own.value.0
            && Canon(Decrypt(p, text, holder, expected).value.1) == Canon(own.value.1)
  {
    AcceptedGives(p, sql, s, d, recipient, id, createdAt, key, nonce, text, holder, expected);
    RoundTrip(p, sql, s, d, recipient, id, createdAt, key, nonce);
    ManifestIsProper(p, Files(p, sql, s), s, id, createdAt);
    SameCanon(Decrypt(p, text, holder, expected).value.1, Dict(Manifest(p, Files(p, sql, s), s, id, createdAt)));
  }

  lemma AcceptedGives(p: Primitives, sql: Bytes, s: Seeds, d: Deployment, recipient: PrivateKey, id: string,
                      createdAt: string, key: Bytes, nonce: Bytes, text: Bytes, holder: PrivateKey, expected: string)
    requires Lawful(p) && Authentic(p)
    requires Encrypt(p, sql, s, d, PublicOf(recipient), id, createdAt, key, nonce).Done?
    requires TextUnder(text, "ciphertext") ==
             TextUnder(Encrypt(p, sql, s, d, PublicOf(recipient), id, createdAt, key, nonce).value.0, "ciphertext")
    requires Decrypt(p, text, holder, expected).Done?
    ensures var (files, manifest) := Decrypt(p, text, holder, expected).value;
            files == Files(p, sql, s) && Norm(manifest) == Norm(Dict(Manifest(p, Files(p, sql, s), s, id, createdAt)))
  {
    CiphertextUnder(p, sql, s, d, recipient, id, createdAt, key, nonce);
    DecryptedParses(p, text, holder, expected);
    HeaderCannotBeAltered(p, sql, s, d, PublicOf(recipient), id, createdAt, key, nonce, text, holder, expected);
  }

  lemma DecryptedParses(p: Primitives, text: Bytes, holder: PrivateKey, expected: string)
    requires Decrypt(p, text, holder, expected).Done?
    ensures Loads(text).Some? && Loads(text).value.Dict?
    ensures TextUnder(text, "ciphertext") == TextAt(Loads(text).value.fields, "ciphertext")
  {}

  /** The ciphertext in an encrypted archive. */
  lemma CiphertextUnder(p: Primitives, sql: Bytes, s: Seeds, d: Deployment, recipient: PrivateKey, id: string,
                        createdAt: string, key: Bytes, nonce: Bytes)
    requires Encrypt(p, sql, s, d, PublicOf(recipient), id, createdAt, key, nonce).Done?
    ensures var m := Manifest(p, Files(p, sql, s), s, id, createdAt);
            var fp, wrapped := p.fingerprint(PublicOf(recipient)), p.b64(p.wrap(PublicOf(recipient), key));
            var header := Header(fp, m, p.b64(nonce), wrapped, NoFields);
            TextUnder(Encrypt(p, sql, s, d, PublicOf(recipient), id, createdAt, key, nonce).value.0, "ciphertext") ==
            Some(p.b64(p.seal(key, nonce, p.zip(Files(p, sql, s)), Canon(Dict(header)))))
  {
    ManifestIsProper(p, Files(p, sql, s), s, id, createdAt);
    SealedUnder(p, p.fingerprint(PublicOf(recipient)), Manifest(p, Files(p, sql, s), s, id, createdAt), key, nonce,
                p.wrap(PublicOf(recipient), key), p.zip(Files(p, sql, s)));
  }

  lemma SameCanon(v: Json, w: Json)
    requires Proper(w) && Norm(v) == Norm(w)
    ensures Canon(v) == Canon(Norm(w))
  {
    CanonIsStable(w);
  }
}
