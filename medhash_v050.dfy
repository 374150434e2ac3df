/**
 * The 0.5.0 revision of the library's checking and signing code: `ChkHash`, which derives its
 * flags from the stored digests and answers valid or not (medhash/chkhash.go), and PEM key
 * encoding with Ed25519-only `Sign` and `Verify` (medhash/sign.go).
 *
 * The digest generation of this revision (medhash/genhash.go) is the algorithm of
 * `MedhashHash.GenHash`; it takes the file's path from `config.Path`, which is the `path`
 * argument here. A manifest of this revision carries at most an Ed25519 signature; its
 * `Signature` is `MedhashTypes.Signature` with the minisign text left "".
 *
 * PEM (section 2 of RFC 7468) is a pair of functions that the program only relies on to
 * round-trip; Ed25519 and the JSON serialisation are those of `MedhashSignature.Crypto`.
 */
module Medhash050 {
  import opened Outcomes
  import opened GoErrors
  import opened GoLib
  import opened Platform
  import opened MedhashTypes
  import opened MedhashHash
  import opened MedhashSignature

  // ---------------------------------------------------------------- checking (chkhash.go)

  /** A stored digest agrees with the file when it is empty or equal to the file's digest. */
  predicate Agrees(stored: string, digest: string) {
    |stored| == 0 || stored == digest
  }

  /** The digests this revision compares: SHA3-256, SHA256, SHA1 and MD5. */
  predicate SameDigests(stored: Hash, computed: Hash) {
    stored.sha3_256 == computed.sha3_256 && stored.sha256 == computed.sha256 &&
    stored.sha1 == computed.sha1 && stored.md5 == computed.md5
  }

  /** The stored digest of one of the four compared algorithms; SHA3 reads the `sha3_256` field. */
  function Compared(h: Hash, a: Alg): string {
    if a == SHA3 then h.sha3_256 else Field(h, a)
  }

  /** The configuration `ChkHash` hashes with: the directory and one flag per non-empty compared digest. */
  function StoredConfig(dir: string, h: Hash): Config {
    Flags(false, false, |h.sha3_256| > 0, |h.sha256| > 0, |h.sha1| > 0, |h.md5| > 0).(dir := dir)
  }

  /**
   * What `ChkHash` returns for `med` under `dir`: not valid with the error of opening or reading
   * the file, or else whether the compared digests equal the recomputed ones, with no error.
   */
  function CheckResult(env: Env, dir: string, med: Media): (bool, Option<Error>) {
    match ReadAll(env, env.join(dir, med.path))
    case Fail(e) => (false, Some(e))
    case Ok(content) => (SameDigests(med.hash, HashOf(env, StoredConfig(dir, med.hash), content)), None)
  }

  /** `ChkHash`: sets a flag for each stored digest, recomputes them and compares the four fields. */
  method ChkHash(env: Env, dir: string, med: Media) returns (valid: bool, err: Option<Error>)
    ensures (valid, err) == CheckResult(env, dir, med)
  {
    var config := Flags(false, false, false, false, false, false).(dir := dir);
    // filepath.FromSlash is the identity with the POSIX separator
    if |med.hash.sha3_256| > 0 {
      config := config.(sha3 := true);
    }
    if |med.hash.sha256| > 0 {
      config := config.(sha256 := true);
    }
    if |med.hash.sha1| > 0 {
      config := config.(sha1 := true);
    }
    if |med.hash.md5| > 0 {
      config := config.(md5 := true);
    }
    assert config == StoredConfig(dir, med.hash);
    var m := GenHash(env, config, med.path);
    if m.Fail? {
      return false, Some(m.error);
    }
    valid := med.hash.sha3_256 == m.value.hash.sha3_256 &&
      med.hash.sha256 == m.value.hash.sha256 &&
      med.hash.sha1 == m.value.hash.sha1 &&
      med.hash.md5 == m.value.hash.md5;
    err := None;
  }

  /**
   * A readable file checks valid, with no error, exactly when each of the four compared digests
   * is empty or equal to the file's digest; an unreadable one is not valid and gives its error.
   */
  lemma ChkHashValidIff(env: Env, dir: string, med: Media)
    ensures var file := ReadAll(env, env.join(dir, med.path));
      var r := CheckResult(env, dir, med);
      (file.Fail? ==> r == (false, Some(file.error))) &&
      (file.Ok? ==>
        r.1.None? &&
        (r.0 <==> (forall a :: a != XXH3 && a != SHA512 ==> Agrees(Compared(med.hash, a), HexDigest(env, a, file.value)))))
  {
    var file := ReadAll(env, env.join(dir, med.path));
    if file.Ok? {
      var computed := HashOf(env, StoredConfig(dir, med.hash), file.value);
      assert SameDigests(med.hash, computed) <==>
        Agrees(med.hash.sha3_256, HexDigest(env, SHA3, file.value)) &&
        Agrees(med.hash.sha256, HexDigest(env, SHA256, file.value)) &&
        Agrees(med.hash.sha1, HexDigest(env, SHA1, file.value)) &&
        Agrees(med.hash.md5, HexDigest(env, MD5, file.value));
      if SameDigests(med.hash, computed) {
        forall a | a != XXH3 && a != SHA512
          ensures Agrees(Compared(med.hash, a), HexDigest(env, a, file.value))
        {
        }
      } else {
        assert !Agrees(Compared(med.hash, SHA3), HexDigest(env, SHA3, file.value)) ||
          !Agrees(Compared(med.hash, SHA256), HexDigest(env, SHA256, file.value)) ||
          !Agrees(Compared(med.hash, SHA1), HexDigest(env, SHA1, file.value)) ||
          !Agrees(Compared(med.hash, MD5), HexDigest(env, MD5, file.value));
      }
    }
  }

  /** XXH3, SHA512 and the `sha3` field are never checked: changing them changes nothing. */
  lemma UncomparedIgnored(env: Env, dir: string, med: Media, h: Hash)
    requires h.sha3_256 == med.hash.sha3_256 && h.sha256 == med.hash.sha256
    requires h.sha1 == med.hash.sha1 && h.md5 == med.hash.md5
    ensures CheckResult(env, dir, med.(hash := h)) == CheckResult(env, dir, med)
  {
    assert StoredConfig(dir, h) == StoredConfig(dir, med.hash);
  }

  /** A non-empty compared digest that differs from the file's makes the media invalid, with no error. */
  lemma TamperDetected050(env: Env, dir: string, med: Media, content: Bytes, a: Alg)
    requires ReadAll(env, env.join(dir, med.path)) == Ok(content)
    requires a != XXH3 && a != SHA512
    requires |Compared(med.hash, a)| > 0 && Compared(med.hash, a) != HexDigest(env, a, content)
    ensures CheckResult(env, dir, med) == (false, None)
  {
    ChkHashValidIff(env, dir, med);
  }

  /** Digests generated under any configuration check valid against the same file. */
  lemma GenerateThenCheck050(env: Env, gen: Config, dir: string, path: string, content: Bytes)
    requires env.Valid()
    requires ReadAll(env, env.join(dir, path)) == Ok(content)
    ensures CheckResult(env, dir, Media(path, HashOf(env, gen, content))) == (true, None)
  {
    var med := Media(path, HashOf(env, gen, content));
    HashOfFields(env, gen, content);
    ChkHashValidIff(env, dir, med);
    forall a | a != XXH3 && a != SHA512
      ensures Agrees(Compared(med.hash, a), HexDigest(env, a, content))
    {
      assert Compared(med.hash, a) == Field(med.hash, a);
    }
  }

  // ---------------------------------------------------------------- keys (sign.go)

  const PrivType: string := "PRIVATE KEY"
  const PubType: string := "PUBLIC KEY"

  const ErrNoSig: Error := New("no signature")
  const ErrMalformedSig: Error := New("malformed signature")
  const ErrBadPrivKey: Error := New("bad private key")
  const ErrBadPublicKey: Error := New("bad public key")

  /** A PEM block: its type line and its content. */
  datatype PemBlock = PemBlock(blockType: string, bytes: Bytes)

  /** `pem.EncodeToMemory`, and `pem.Decode` giving the first block or `None` when there is none. */
  datatype Pem = Pem(encode: PemBlock -> Bytes, decode: Bytes -> Option<PemBlock>)
  {
    /** Decoding an encoded block gives the block back. */
    ghost predicate Sound() {
      forall b :: decode(encode(b)) == Some(b)
    }
  }

  /** `EncodeKey`: the key in a block labelled as a private or a public key. */
  function EncodeKey(pem: Pem, key: Bytes, private: bool): Bytes {
    pem.encode(PemBlock(if private then PrivType else PubType, key))
  }

  /** `DecodeKey`: the key of the first block, and whether it is labelled private; nothing without a block. */
  function DecodeKey(pem: Pem, encoded: Bytes): (Bytes, bool) {
    match pem.decode(encoded)
    case None => ([], false)
    case Some(b) => (b.bytes, b.blockType == PrivType)
  }

  /** Decoding an encoded key gives the key and its kind back. */
  lemma KeyRoundTrip(pem: Pem, key: Bytes, private: bool)
    requires pem.Sound()
    ensures DecodeKey(pem, EncodeKey(pem, key, private)) == (key, private)
  {
    assert pem.decode(pem.encode(PemBlock(if private then PrivType else PubType, key))).Some?;
  }

  /** Input without a block decodes to no key; a decoded key is private only when its type is the private one. */
  lemma DecodeKeyKinds(pem: Pem, encoded: Bytes)
    ensures pem.decode(encoded).None? ==> DecodeKey(pem, encoded) == ([], false)
    ensures DecodeKey(pem, encoded).1 <==> pem.decode(encoded).Some? && pem.decode(encoded).value.blockType == PrivType
  {
  }

  // ---------------------------------------------------------------- signing (sign.go)

  /** `%v` of a recovered panic value. */
  function PanicText(p: Panic): string {
    match p
    case PanicError(e) => e.msg
    case PanicValue(text) => text
  }

  /**
   * What `Sign` returns: the stripped manifest with a fresh signature holding the hex Ed25519
   * signature when that scheme is enabled, or no manifest and the error of serialising or of
   * the recovered signing panic.
   */
  function SignResult(crypto: Crypto, config: Config, d: ManifestData): (Option<ManifestData>, Option<Error>) {
    match crypto.json(Stripped(d))
    case Fail(e) => (None, Some(e))
    case Ok(j) =>
      if !config.ed25519.enabled then (Some(Stripped(d)), None)
      else match crypto.ed25519Sign(config.ed25519.privKey, j)
        case Fail(p) => (None, Some(Wrap("ed25519: " + ErrBadPrivKey.msg + ": " + PanicText(p), ErrBadPrivKey)))
        case Ok(s) => (Some(Stripped(d).(signature := NoSignature.(ed25519 := HexEncode(s)))), None)
  }

  /** `Sign`. */
  method Sign(crypto: Crypto, config: Config, d: ManifestData) returns (signed: Option<ManifestData>, err: Option<Error>)
    ensures (signed, err) == SignResult(crypto, config, d)
  {
    var stripped := Stripped(d);
    var sig := NoSignature;
    var j := crypto.json(stripped);
    if j.Fail? {
      return None, Some(j.error);
    }
    if config.ed25519.enabled {
      var s := crypto.ed25519Sign(config.ed25519.privKey, j.value);
      if s.Fail? {
        // the deferred recover sets the error; `signed` is still nil
        return None, Some(Wrap("ed25519: " + ErrBadPrivKey.msg + ": " + PanicText(s.error), ErrBadPrivKey));
      }
      sig := sig.(ed25519 := HexEncode(s.value));
    }
    stripped := stripped.(signature := sig);
    signed := Some(stripped);
    err := None;
  }

  /**
   * `Verify`: the stored Ed25519 signature checked against the stripped manifest. A missing,
   * malformed or unverifiable signature, and a panic of the primitive, are errors; a signature
   * that does not verify is not valid without an error; with Ed25519 disabled everything is valid.
   */
  function VerifyResult(crypto: Crypto, config: Config, d: ManifestData): (bool, Option<Error>) {
    match crypto.json(Stripped(d))
    case Fail(e) => (false, Some(e))
    case Ok(j) =>
      if !config.ed25519.enabled then (true, None)
      else if |d.signature.ed25519| < 1 then (false, Some(Wrap("ed25519: " + ErrNoSig.msg, ErrNoSig)))
      else match HexDecode(d.signature.ed25519)
        case Fail(he) =>
          (false, Some(Joined("ed25519: " + ErrMalformedSig.msg + ": " + HexErrorMessage(he), [ErrMalformedSig, HexErr(he)])))
        case Ok(raw) =>
          match crypto.ed25519Verify(config.ed25519.pubKey, j, raw)
          case Fail(p) => (false, Some(Wrap("ed25519: " + ErrBadPublicKey.msg + ": " + PanicText(p), ErrBadPublicKey)))
          case Ok(ok) => (ok, None)
  }

  method Verify(crypto: Crypto, config: Config, d: ManifestData) returns (valid: bool, err: Option<Error>)
    ensures (valid, err) == VerifyResult(crypto, config, d)
  {
    var stripped, sig := Stripped(d), d.signature;
    var j := crypto.json(stripped);
    if j.Fail? {
      return false, Some(j.error);
    }
    if config.ed25519.enabled {
      if |sig.ed25519| < 1 {
        return false, Some(Wrap("ed25519: " + ErrNoSig.msg, ErrNoSig));
      }
      var rawSig := HexDecode(sig.ed25519);
      if rawSig.Fail? {
        var he := rawSig.error;
        return false, Some(Joined("ed25519: " + ErrMalformedSig.msg + ": " + HexErrorMessage(he), [ErrMalformedSig, HexErr(he)]));
      }
      var ok := crypto.ed25519Verify(config.ed25519.pubKey, j.value, rawSig.value);
      if ok.Fail? {
        // the deferred recover sets the error; `valid` is still false
        return false, Some(Wrap("ed25519: " + ErrBadPublicKey.msg + ": " + PanicText(ok.error), ErrBadPublicKey));
      }
      if !ok.value {
        return false, None;
      }
    }
    valid, err := true, None;
  }

  // ---------------------------------------------------------------- properties of signing

  /** A signed manifest stripped again is the input stripped: signing only adds the signature. */
  lemma SignKeepsManifest(crypto: Crypto, config: Config, d: ManifestData)
    ensures var (signed, err) := SignResult(crypto, config, d);
      (signed.Some? <==> err.None?) && (signed.Some? ==> Stripped(signed.value) == Stripped(d))
  {
  }

  /**
   * With a 64-byte private key the stored Ed25519 signature is lower-case hex of the 64-byte
   * signature; any other key makes signing fail with `ErrBadPrivKey` and return no manifest.
   */
  lemma SignEd25519050(crypto: Crypto, config: Config, d: ManifestData)
    requires crypto.Sound() && config.ed25519.enabled && crypto.json(Stripped(d)).Ok?
    ensures var (signed, err) := SignResult(crypto, config, d);
      (|config.ed25519.privKey| == 64 ==>
        signed.Some? && |signed.value.signature.ed25519| == 128 && IsLowerHex(signed.value.signature.ed25519)) &&
      (|config.ed25519.privKey| != 64 ==> signed.None? && err.Some? && Is(err.value, ErrBadPrivKey))
  {
    var j := crypto.json(Stripped(d)).value;
    if |config.ed25519.privKey| == 64 {
      assert crypto.ed25519Sign(config.ed25519.privKey, j).Ok?;
      assert |crypto.ed25519Sign(config.ed25519.privKey, j).value| == 64;
    } else {
      assert crypto.ed25519Sign(config.ed25519.privKey, j).Fail?;
    }
  }

  /**
   * With Ed25519 enabled: an empty signature is `ErrNoSig`, a non-hex one `ErrMalformedSig`
   * (together with the hex error), a wrong-size public key `ErrBadPublicKey`, and a hex
   * signature of the wrong size under a good key is not valid with no error.
   */
  lemma VerifyErrorKinds(crypto: Crypto, config: Config, d: ManifestData)
    requires crypto.Sound() && config.ed25519.enabled && crypto.json(Stripped(d)).Ok?
    ensures var (valid, err) := VerifyResult(crypto, config, d);
      var s := d.signature.ed25519;
      (|s| == 0 ==> !valid && err.Some? && Is(err.value, ErrNoSig)) &&
      (|s| > 0 && HexDecode(s).Fail? ==>
        !valid && err.Some? && Is(err.value, ErrMalformedSig) && Is(err.value, HexErr(HexDecode(s).error))) &&
      (|s| > 0 && HexDecode(s).Ok? && |config.ed25519.pubKey| != 32 ==>
        !valid && err.Some? && Is(err.value, ErrBadPublicKey)) &&
      (|s| > 0 && HexDecode(s).Ok? && |config.ed25519.pubKey| == 32 && |HexDecode(s).value| != 64 ==>
        !valid && err.None?)
  {
    var s := d.signature.ed25519;
    var j := crypto.json(Stripped(d)).value;
    if |s| > 0 && HexDecode(s).Fail? {
      var e := VerifyResult(crypto, config, d).1.value;
      assert e.errs[0] == ErrMalformedSig && e.errs[1] == HexErr(HexDecode(s).error);
    }
    if |s| > 0 && HexDecode(s).Ok? {
      var raw := HexDecode(s).value;
      if |config.ed25519.pubKey| != 32 {
        assert crypto.ed25519Verify(config.ed25519.pubKey, j, raw).Fail?;
      } else if |raw| != 64 {
        assert crypto.ed25519Verify(config.ed25519.pubKey, j, raw) == Ok(false);
      }
    }
  }

  /** With Ed25519 disabled every manifest that serialises is valid. */
  lemma VerifyDisabled(crypto: Crypto, config: Config, d: ManifestData)
    requires !config.ed25519.enabled && crypto.json(Stripped(d)).Ok?
    ensures VerifyResult(crypto, config, d) == (true, None)
  {
  }

  /** Signing with a 64-byte private key and verifying under its public key succeeds. */
  lemma SignThenVerify050(crypto: Crypto, config: Config, d: ManifestData)
    requires crypto.Sound() && crypto.json(Stripped(d)).Ok?
    requires config.ed25519.enabled ==>
      |config.ed25519.privKey| == 64 && config.ed25519.pubKey == crypto.ed25519Public(config.ed25519.privKey)
    ensures var (signed, err) := SignResult(crypto, config, d);
      err.None? && signed.Some? && VerifyResult(crypto, config, signed.value) == (true, None)
  {
    var j := crypto.json(Stripped(d)).value;
    if config.ed25519.enabled {
      var priv := config.ed25519.privKey;
      assert crypto.ed25519Sign(priv, j).Ok?;
      var sig := crypto.ed25519Sign(priv, j).value;
      var signed := SignResult(crypto, config, d).0.value;
      assert Stripped(signed) == Stripped(d);
      assert signed.signature.ed25519 == HexEncode(sig);
      HexRoundTrip(sig);
      assert crypto.ed25519Verify(crypto.ed25519Public(priv), j, sig) == Ok(true);
    }
  }
}
