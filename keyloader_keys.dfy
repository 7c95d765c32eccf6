/** Building a key set from the files of a directory: one PEM-encoded public
    key per file, identified by its file name, loaded all or nothing. */
module KeyloaderKeys {
  import opened Common
  import opened Text

  /** The PEM block type a key file must carry. */
  const PublicKeyPemType := "PUBLIC KEY"
  /** The JWK `use` value for signature keys (`jwk.ForSignature`). */
  const SignatureUse := "sig"
  /** The file-name suffix dropped from key IDs, compared case-insensitively. */
  const PubSuffix := ".pub"

  /** One decoded PEM block: its type line and its payload. */
  datatype PemBlock = PemBlock(blockType: string, bytes: Bytes)
  /** A parsed SubjectPublicKeyInfo structure. */
  datatype PublicKey = PublicKey(der: Bytes)
  /** A JSON Web Key: its algorithm parameters plus the `kid` and `use` members. */
  datatype Jwk = Jwk(params: Bytes, kid: Option<string>, use: Option<string>)

  /** The libraries the loader calls: PEM decoding, PKIX parsing, JWK
      construction, and the rule by which a JWK set refuses to add a key. */
  datatype Primitives = Primitives(
    pemDecode: Bytes -> Option<PemBlock>,
    parsePkix: Bytes -> Result<PublicKey, string>,
    newJwk: PublicKey -> Result<Jwk, string>,
    refusesAdd: (seq<Jwk>, Jwk) -> bool)

  /** The key directory at the moment it is loaded: the file listing (or why
      it failed) and, per file name, the bytes reading that file yields. */
  datatype DirState = DirState(
    listing: Result<seq<string>, string>,
    contents: string -> Result<Bytes, string>)

  /** A JWK set, in insertion order. */
  datatype KeySet = KeySet(keys: seq<Jwk>)

  /** What one load produces: the key set, and for every file processed the
      key ID derived from its name. */
  datatype Build = Build(keySet: KeySet, loaded: map<string, string>)

  const EmptyBuild := Build(KeySet([]), map[])

  /** Turns the bytes of one key file into a JWK. The checks run in a fixed
      order: PEM decoding, then the block type, then PKIX parsing, then JWK
      construction; the first one that fails decides the error. */
  function LoadPublicKey(p: Primitives, key: Bytes): (r: Result<Jwk, Error>)
    ensures p.pemDecode(key).None? ==> r == Err(PemDecodeFailed)
    ensures p.pemDecode(key).Some? && p.pemDecode(key).value.blockType != PublicKeyPemType ==>
              r == Err(WrongKeyType(p.pemDecode(key).value.blockType))
    ensures var block := p.pemDecode(key);
            block.Some? && block.value.blockType == PublicKeyPemType && p.parsePkix(block.value.bytes).Err? ==>
              r == Err(PkixParseFailed(p.parsePkix(block.value.bytes).error))
    ensures var block := p.pemDecode(key);
            block.Some? && block.value.blockType == PublicKeyPemType && p.parsePkix(block.value.bytes).Ok? ==>
              var made := p.newJwk(p.parsePkix(block.value.bytes).value);
              && (made.Err? ==> r == Err(JwkCreateFailed(made.error)))
              && (made.Ok? ==> r == Ok(made.value))
    ensures r.Ok? ==>
              var block := p.pemDecode(key);
              && block.Some?
              && block.value.blockType == PublicKeyPemType
              && p.parsePkix(block.value.bytes).Ok?
              && p.newJwk(p.parsePkix(block.value.bytes).value) == Ok(r.value)
  {
    match p.pemDecode(key)
    case None => Err(PemDecodeFailed)
    case Some(block) =>
      if block.blockType != PublicKeyPemType then Err(WrongKeyType(block.blockType))
      else
        match p.parsePkix(block.bytes)
        case Err(cause) => Err(PkixParseFailed(cause))
        case Ok(parsed) =>
          match p.newJwk(parsed)
          case Err(cause) => Err(JwkCreateFailed(cause))
          case Ok(jwk) => Ok(jwk)
  }

  /** An undecodable file is reported as such whatever the later stages
      would have said: they are never consulted. */
  lemma DecodeIsCheckedFirst(p: Primitives, q: Primitives, key: Bytes)
    requires p.pemDecode(key).None? && q.pemDecode(key).None?
    ensures LoadPublicKey(p, key) == LoadPublicKey(q, key) == Err(PemDecodeFailed)
  {
  }

  /** A block of the wrong type is rejected before its payload is parsed. */
  lemma TypeIsCheckedBeforeParsing(p: Primitives, q: Primitives, key: Bytes)
    requires p.pemDecode(key) == q.pemDecode(key)
    requires p.pemDecode(key).Some? && p.pemDecode(key).value.blockType != PublicKeyPemType
    ensures LoadPublicKey(p, key) == LoadPublicKey(q, key) == Err(WrongKeyType(p.pemDecode(key).value.blockType))
  {
  }

  /** Reads a key file and loads it; a read error is returned without
      looking at the bytes, otherwise the outcome is that of LoadPublicKey. */
  function LoadPublicKeyFromFile(p: Primitives, d: DirState, name: string): (r: Result<Jwk, Error>)
    ensures d.contents(name).Err? ==> r == Err(ReadFailed(d.contents(name).error))
    ensures d.contents(name).Ok? ==> r == LoadPublicKey(p, d.contents(name).value)
  {
    match d.contents(name)
    case Err(cause) => Err(ReadFailed(cause))
    case Ok(bytes) => LoadPublicKey(p, bytes)
  }

  /** The key ID of a file: its name without a trailing ".pub" in any letter
      case, removed once; any other name is kept as it is. */
  function KeyId(name: string): (id: string)
    ensures |id| == |name| || |id| == |name| - |PubSuffix|
    ensures id == name[..|id|]
    ensures |id| < |name| <==> HasSuffix(ToLower(name), PubSuffix)
  {
    if HasSuffix(ToLower(name), PubSuffix) then name[..|name| - |PubSuffix|] else name
  }

  lemma KeyIdExamples()
    ensures KeyId("A.PUB") == "A"
    ensures KeyId("k.Pub") == "k"
    ensures KeyId("x.pub.pub") == "x.pub"
    ensures KeyId("k") == "k"
    ensures KeyId("key.pem") == "key.pem"
  {
    assert ToLower("A.PUB")[1..] == PubSuffix;
    assert ToLower("k.Pub")[1..] == PubSuffix;
    assert ToLower("x.pub.pub")[5..] == PubSuffix;
    assert ToLower("key.pem")[3..] != PubSuffix by {
      assert ToLower("key.pem")[3..][2] == 'e' != PubSuffix[2];
    }
  }

  /** A loaded key, stamped with its key ID and the signature use. */
  function Stamp(k: Jwk, keyId: string): Jwk {
    k.(kid := Some(keyId), use := Some(SignatureUse))
  }

  /** Offers a key to a set; the set either refuses it and stays as it was,
      or appends it. The second component says whether it was added. */
  function Add(p: Primitives, s: KeySet, k: Jwk): (KeySet, bool) {
    if p.refusesAdd(s.keys, k) then (s, false) else (KeySet(s.keys + [k]), true)
  }

  /** One file's contribution: its stamped key, or the wrapped load error. */
  function LoadFile(p: Primitives, d: DirState, name: string): Result<Jwk, Error> {
    match LoadPublicKeyFromFile(p, d, name)
    case Err(e) => Err(KeyFileFailed(name, e))
    case Ok(k) => Ok(Stamp(k, KeyId(name)))
  }

  /** Processes `names` in order after the files already accumulated in
      `acc`, stopping at the first file that fails. */
  function BuildFrom(p: Primitives, d: DirState, names: seq<string>, acc: Build): Result<Build, Error>
    decreases |names|
  {
    if names == [] then Ok(acc)
    else
      match LoadFile(p, d, names[0])
      case Err(e) => Err(e)
      case Ok(k) =>
        var (s, _) := Add(p, acc.keySet, k);
        BuildFrom(p, d, names[1..], Build(s, acc.loaded[names[0] := KeyId(names[0])]))
  }

  /** The outcome of loading the whole directory. */
  function BuildKeySet(p: Primitives, d: DirState): Result<Build, Error> {
    match d.listing
    case Err(cause) => Err(MetadataFailed(cause))
    case Ok(names) => BuildFrom(p, d, names, EmptyBuild)
  }

  /** A load fails exactly when one of the files fails, and then with the
      error of the first failing file. */
  lemma {:induction false} BuildFailsAtFirstBadFile(p: Primitives, d: DirState, names: seq<string>, acc: Build)
    ensures BuildFrom(p, d, names, acc).Err? <==>
              exists i :: 0 <= i < |names| && LoadFile(p, d, names[i]).Err?
    ensures BuildFrom(p, d, names, acc).Err? ==>
              exists i :: 0 <= i < |names| && LoadFile(p, d, names[i]) == Err(BuildFrom(p, d, names, acc).error)
                          && forall j :: 0 <= j < i ==> LoadFile(p, d, names[j]).Ok?
    decreases |names|
  {
    if names != [] {
      match LoadFile(p, d, names[0])
      case Err(e) =>
        assert LoadFile(p, d, names[0]) == Err(BuildFrom(p, d, names, acc).error);
      case Ok(k) =>
        var (s, _) := Add(p, acc.keySet, k);
        var acc' := Build(s, acc.loaded[names[0] := KeyId(names[0])]);
        BuildFailsAtFirstBadFile(p, d, names[1..], acc');
        assert BuildFrom(p, d, names, acc) == BuildFrom(p, d, names[1..], acc');
        if BuildFrom(p, d, names, acc).Err? {
          var i :| 0 <= i < |names[1..]| && LoadFile(p, d, names[1..][i]) == Err(BuildFrom(p, d, names[1..], acc').error)
                   && forall j :: 0 <= j < i ==> LoadFile(p, d, names[1..][j]).Ok?;
          assert LoadFile(p, d, names[i + 1]) == Err(BuildFrom(p, d, names, acc).error);
          assert forall j :: 0 <= j < i + 1 ==> LoadFile(p, d, names[j]).Ok? by {
            forall j | 0 <= j < i + 1 ensures LoadFile(p, d, names[j]).Ok? {
              if j > 0 { assert names[j] == names[1..][j - 1]; }
            }
          }
        } else {
          forall i | 0 <= i < |names| ensures LoadFile(p, d, names[i]).Ok? {
            if i > 0 { assert names[i] == names[1..][i - 1]; }
          }
        }
    }
  }

  /** Every processed file is recorded under its derived key ID, whether or
      not the set accepted its key; earlier records of other files stay. */
  lemma {:induction false} BuildRecordsEveryFile(p: Primitives, d: DirState, names: seq<string>, acc: Build)
    requires BuildFrom(p, d, names, acc).Ok?
    ensures BuildFrom(p, d, names, acc).value.loaded.Keys == acc.loaded.Keys + set n | n in names
    ensures forall n | n in names :: BuildFrom(p, d, names, acc).value.loaded[n] == KeyId(n)
    ensures forall n | n in acc.loaded && n !in names :: BuildFrom(p, d, names, acc).value.loaded[n] == acc.loaded[n]
    decreases |names|
  {
    if names != [] {
      var k := LoadFile(p, d, names[0]).value;
      var (s, _) := Add(p, acc.keySet, k);
      var acc' := Build(s, acc.loaded[names[0] := KeyId(names[0])]);
      BuildRecordsEveryFile(p, d, names[1..], acc');
      assert forall n :: n in names <==> n == names[0] || n in names[1..];
    }
  }

  /** `key` is the JWK loaded from one of `names`, stamped with that file's
      key ID and the signature use. */
  predicate IsFileKey(p: Primitives, d: DirState, names: seq<string>, key: Jwk) {
    exists n :: n in names && LoadPublicKeyFromFile(p, d, n).Ok? &&
                key == Stamp(LoadPublicKeyFromFile(p, d, n).value, KeyId(n))
  }

  /** The set only grows, gains at most one key per file, and every key it
      gains is the key loaded from one of the files, stamped with that
      file's key ID and the signature use. */
  lemma {:induction false} BuildOffersStampedKeys(p: Primitives, d: DirState, names: seq<string>, acc: Build)
    requires BuildFrom(p, d, names, acc).Ok?
    ensures var ks := BuildFrom(p, d, names, acc).value.keySet.keys;
            && acc.keySet.keys <= ks
            && |ks| <= |acc.keySet.keys| + |names|
            && forall i | |acc.keySet.keys| <= i < |ks| :: IsFileKey(p, d, names, ks[i])
    decreases |names|
  {
    if names != [] {
      var k := LoadFile(p, d, names[0]).value;
      var (s, added) := Add(p, acc.keySet, k);
      var acc' := Build(s, acc.loaded[names[0] := KeyId(names[0])]);
      BuildOffersStampedKeys(p, d, names[1..], acc');
      var ks := BuildFrom(p, d, names, acc).value.keySet.keys;
      assert ks == BuildFrom(p, d, names[1..], acc').value.keySet.keys;
      forall i | |acc.keySet.keys| <= i < |ks|
        ensures IsFileKey(p, d, names, ks[i])
      {
        if i < |s.keys| {
          assert added && i == |acc.keySet.keys| && ks[i] == k;
          assert names[0] in names;
        } else {
          var n :| n in names[1..] && LoadPublicKeyFromFile(p, d, n).Ok? &&
                   ks[i] == Stamp(LoadPublicKeyFromFile(p, d, n).value, KeyId(n));
          assert n in names;
        }
      }
    }
  }

  /** Every key the set gains was accepted when it was offered: the set
      held exactly the keys before it and did not refuse it. A refused key
      therefore never enters the set. */
  lemma {:induction false} BuildAddsOnlyAcceptedKeys(p: Primitives, d: DirState, names: seq<string>, acc: Build)
    requires BuildFrom(p, d, names, acc).Ok?
    ensures var ks := BuildFrom(p, d, names, acc).value.keySet.keys;
            && acc.keySet.keys <= ks
            && forall i | |acc.keySet.keys| <= i < |ks| :: !p.refusesAdd(ks[..i], ks[i])
    decreases |names|
  {
    if names != [] {
      var k := LoadFile(p, d, names[0]).value;
      var (s, added) := Add(p, acc.keySet, k);
      var acc' := Build(s, acc.loaded[names[0] := KeyId(names[0])]);
      BuildAddsOnlyAcceptedKeys(p, d, names[1..], acc');
      var ks := BuildFrom(p, d, names, acc).value.keySet.keys;
      assert ks == BuildFrom(p, d, names[1..], acc').value.keySet.keys;
      if added {
        var n := |acc.keySet.keys|;
        assert s.keys == acc.keySet.keys + [k];
        assert ks[..n] == s.keys[..n] == acc.keySet.keys;
        assert ks[n] == s.keys[n] == k;
      }
    }
  }

  /** When the set never refuses a key, it gains exactly the files' stamped
      keys, in listing order. */
  lemma {:induction false} BuildKeepsEveryKeyWithoutRefusal(p: Primitives, d: DirState, names: seq<string>, acc: Build)
    requires forall ks, k :: !p.refusesAdd(ks, k)
    requires BuildFrom(p, d, names, acc).Ok?
    ensures var ks := BuildFrom(p, d, names, acc).value.keySet.keys;
            && |ks| == |acc.keySet.keys| + |names|
            && acc.keySet.keys <= ks
            && forall i | 0 <= i < |names| ::
                 LoadPublicKeyFromFile(p, d, names[i]).Ok? &&
                 ks[|acc.keySet.keys| + i] == Stamp(LoadPublicKeyFromFile(p, d, names[i]).value, KeyId(names[i]))
    decreases |names|
  {
    if names != [] {
      var k := LoadFile(p, d, names[0]).value;
      var (s, _) := Add(p, acc.keySet, k);
      var acc' := Build(s, acc.loaded[names[0] := KeyId(names[0])]);
      BuildKeepsEveryKeyWithoutRefusal(p, d, names[1..], acc');
      var ks := BuildFrom(p, d, names, acc).value.keySet.keys;
      assert ks == BuildFrom(p, d, names[1..], acc').value.keySet.keys;
      assert s.keys == acc.keySet.keys + [k];
      forall i | 0 <= i < |names|
        ensures LoadPublicKeyFromFile(p, d, names[i]).Ok? &&
                ks[|acc.keySet.keys| + i] == Stamp(LoadPublicKeyFromFile(p, d, names[i]).value, KeyId(names[i]))
      {
        if i == 0 {
          assert ks[|acc.keySet.keys|] == s.keys[|acc.keySet.keys|];
        } else {
          assert names[i] == names[1..][i - 1];
          assert |acc.keySet.keys| + i == |s.keys| + (i - 1);
        }
      }
    }
  }

  /** Loading a directory is all or nothing: it yields a set exactly when
      the listing and every listed file load. That set holds at most one key
      per file, each the key loaded from a listed file and stamped with that
      file's key ID and accepted by the set it was offered to; when the set
      refuses nothing, it is exactly the files'
      stamped keys in listing order. `loaded` maps every file to its key ID. */
  lemma LoadIsAllOrNothing(p: Primitives, d: DirState)
    ensures d.listing.Err? ==> BuildKeySet(p, d) == Err(MetadataFailed(d.listing.error))
    ensures d.listing.Ok? ==>
              (BuildKeySet(p, d).Ok? <==> forall i :: 0 <= i < |d.listing.value| ==> LoadFile(p, d, d.listing.value[i]).Ok?)
    ensures BuildKeySet(p, d).Ok? ==>
              var names, b := d.listing.value, BuildKeySet(p, d).value;
              && b.loaded == (map n | n in names :: KeyId(n))
              && |b.keySet.keys| <= |names|
              && (forall k | k in b.keySet.keys :: IsFileKey(p, d, names, k))
              && (forall i | 0 <= i < |b.keySet.keys| :: !p.refusesAdd(b.keySet.keys[..i], b.keySet.keys[i]))
              && ((forall ks, k :: !p.refusesAdd(ks, k)) ==>
                    && |b.keySet.keys| == |names|
                    && forall i | 0 <= i < |names| ::
                         LoadPublicKeyFromFile(p, d, names[i]).Ok? &&
                         b.keySet.keys[i] == Stamp(LoadPublicKeyFromFile(p, d, names[i]).value, KeyId(names[i])))
  {
    if d.listing.Ok? {
      var names := d.listing.value;
      BuildFailsAtFirstBadFile(p, d, names, EmptyBuild);
      if BuildKeySet(p, d).Ok? {
        BuildRecordsEveryFile(p, d, names, EmptyBuild);
        BuildOffersStampedKeys(p, d, names, EmptyBuild);
        var b := BuildKeySet(p, d).value;
        assert forall i | 0 <= i < |b.keySet.keys| :: !p.refusesAdd(b.keySet.keys[..i], b.keySet.keys[i]) by {
          BuildAddsOnlyAcceptedKeys(p, d, names, EmptyBuild);
        }
        assert b.loaded == (map n | n in names :: KeyId(n));
        forall k | k in b.keySet.keys
          ensures IsFileKey(p, d, names, k)
        {
          var i :| 0 <= i < |b.keySet.keys| && b.keySet.keys[i] == k;
        }
        if forall ks, k :: !p.refusesAdd(ks, k) {
          BuildKeepsEveryKeyWithoutRefusal(p, d, names, EmptyBuild);
        }
      }
    }
  }

  /** Go's `loadKeys`: lists the directory, then loads the files one by one
      into a fresh set, returning at the first failure. */
  method LoadKeys(p: Primitives, d: DirState) returns (r: Result<Build, Error>)
    ensures r == BuildKeySet(p, d)
  {
    if d.listing.Err? {
      return Err(MetadataFailed(d.listing.error));
    }
    var names := d.listing.value;
    var keySet := KeySet([]);
    var loaded: map<string, string> := map[];
    var i := 0;
    while i < |names|
      invariant 0 <= i <= |names|
      invariant BuildFrom(p, d, names, EmptyBuild) == BuildFrom(p, d, names[i..], Build(keySet, loaded))
    {
      var name := names[i];
      var key := LoadPublicKeyFromFile(p, d, name);
      if key.Err? {
        return Err(KeyFileFailed(name, key.error));
      }
      var keyId := KeyId(name);
      var offered := Add(p, keySet, Stamp(key.value, keyId));
      keySet := offered.0;
      loaded := loaded[name := keyId];
      i := i + 1;
    }
    return Ok(Build(keySet, loaded));
  }
}
