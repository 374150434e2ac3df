/**
 * Signing and verifying a manifest (format 0.6.0) with Ed25519 (section 5.1 of RFC 8032) and
 * minisign, as values: what each scheme computes from a manifest's serialisable data and the
 * configuration, and how the schemes' errors are joined.
 *
 * The primitives, the JSON serialisation and the minisign text format are the fields of a
 * `Crypto` value. A primitive that panics returns the panic value instead of a result; the
 * deferred `recover` of the program turns it into an error with `RecoverErr`. `Sound` states
 * what the program relies on: signing with a 64-byte private key succeeds and verifies under
 * its public key, a 32-byte public key never makes verification panic, and a signature that is
 * not 64 bytes long does not verify.
 */
module MedhashSignature {
  import opened Outcomes
  import opened GoErrors
  import opened GoLib
  import opened MedhashTypes

  /** A value passed to `panic`: an error, or any other value with its `%v` text. */
  datatype Panic = PanicError(err: Error) | PanicValue(text: string)

  datatype Crypto = Crypto(
    json: ManifestData -> Result<Bytes, Error>,        // Manifest.JSON
    jsonStream: ManifestData -> Result<Bytes, Error>,  // Manifest.JSONStream
    ed25519Sign: (Bytes, Bytes) -> Result<Bytes, Panic>,
    ed25519Verify: (Bytes, Bytes, Bytes) -> Result<bool, Panic>,
    ed25519Public: Bytes -> Bytes,
    minisignSign: (Bytes, Bytes, string, string) -> Result<string, Panic>,
    minisignKeyId: Bytes -> nat,
    minisignVerify: (Bytes, Bytes, string) -> Result<bool, Panic>,
    minisignPublic: Bytes -> Bytes)
  {
    ghost predicate Sound() {
      && (forall priv, msg :: ed25519Sign(priv, msg).Ok? <==> |priv| == 64)
      && (forall priv, msg :: ed25519Sign(priv, msg).Ok? ==>
            |ed25519Sign(priv, msg).value| == 64 &&
            ed25519Verify(ed25519Public(priv), msg, ed25519Sign(priv, msg).value) == Ok(true))
      && (forall pub, msg, sig :: ed25519Verify(pub, msg, sig).Ok? <==> |pub| == 32)
      && (forall pub, msg, sig :: |pub| == 32 && |sig| != 64 ==> ed25519Verify(pub, msg, sig) == Ok(false))
      && (forall priv, msg, t, u :: minisignSign(priv, msg, t, u).Ok? ==>
            minisignVerify(minisignPublic(priv), msg, minisignSign(priv, msg, t, u).value) == Ok(true))
    }
  }

  /** `recoverErr`: nil stays nil, an error is returned as it is, any other value is formatted. */
  function RecoverErr(r: Option<Panic>): (e: Option<Error>)
    ensures e.None? <==> r.None?
    ensures r.Some? && r.value.PanicError? ==> e == Some(r.value.err)
    ensures r.Some? && r.value.PanicValue? ==> e.value.Leaf? && e.value.msg == r.value.text
  {
    match r
    case None => None
    case Some(PanicError(err)) => Some(err)
    case Some(PanicValue(text)) => Some(Leaf(text))
  }

  /** `StripSignature` on the serialised part of a manifest. */
  function Stripped(d: ManifestData): ManifestData {
    d.(signature := NoSignature)
  }

  /** What the signatures are computed over does not depend on the signatures already present. */
  lemma StrippedIgnoresSignature(d: ManifestData, s: Signature)
    ensures Stripped(d.(signature := s)) == Stripped(d)
    ensures Stripped(d).signature == NoSignature
    ensures Stripped(d).media == d.media && Stripped(d).version == d.version && Stripped(d).generator == d.generator
  {
  }

  /** The manifest name that the minisign comments show. */
  function ManifestName(config: Config): string {
    if |config.manifest| == 0 then DefaultManifestName else config.manifest
  }

  function TrustedComment(now: int, name: string): string {
    "timestamp:" + IntToString(now) + "\tfile:" + name
  }

  function UntrustedComment(name: string, keyId: nat): string {
    "signature of stripped " + name + " (key id: " + NatToString(keyId) + ")"
  }

  /** The error that `hex.DecodeString` returns, as a Go error. */
  function HexErr(e: HexError): Error {
    Leaf(HexErrorMessage(e))
  }

  /** `ed25519_sign`: the hex signature to store, or the error (the field is then left as it is). */
  function Ed25519SignResult(crypto: Crypto, d: ManifestData, conf: SigConf): Result<string, Error> {
    match crypto.json(Stripped(d))
    case Fail(e) => Fail(e)
    case Ok(payload) =>
      match crypto.ed25519Sign(conf.privKey, payload)
      case Fail(p) => Fail(RecoverErr(Some(p)).value)
      case Ok(sig) => Ok(HexEncode(sig))
  }

  /** `ed25519_verify`. */
  function Ed25519VerifyResult(crypto: Crypto, d: ManifestData, conf: SigConf): Option<Error> {
    match HexDecode(d.signature.ed25519)
    case Fail(he) => Some(Wrap("ed25519: malformed signature: " + HexErrorMessage(he), HexErr(he)))
    case Ok(sig) =>
      match crypto.json(Stripped(d))
      case Fail(e) => Some(e)
      case Ok(payload) =>
        match crypto.ed25519Verify(conf.pubKey, payload, sig)
        case Fail(p) => RecoverErr(Some(p))
        case Ok(valid) => if valid then None else Some(Leaf("ed25519: bad signature"))
  }

  /** `minisign_sign`: the signature text to store, or the error. */
  function MinisignSignResult(crypto: Crypto, d: ManifestData, config: Config, now: int): Result<string, Error> {
    match crypto.jsonStream(Stripped(d))
    case Fail(e) => Fail(e)
    case Ok(payload) =>
      var name := ManifestName(config);
      var priv := config.minisign.privKey;
      match crypto.minisignSign(priv, payload, TrustedComment(now, name), UntrustedComment(name, crypto.minisignKeyId(priv)))
      case Fail(p) => Fail(RecoverErr(Some(p)).value)
      case Ok(sig) => Ok(sig)
  }

  /** `minisign_verify`. */
  function MinisignVerifyResult(crypto: Crypto, d: ManifestData, config: Config): Option<Error> {
    match crypto.jsonStream(Stripped(d))
    case Fail(e) => Some(e)
    case Ok(payload) =>
      match crypto.minisignVerify(config.minisign.pubKey, payload, d.signature.minisign)
      case Fail(p) => RecoverErr(Some(p))
      case Ok(valid) => if valid then None else Some(Leaf("minisign: bad signature"))
  }

  function ErrOf(r: Result<string, Error>): Option<Error> {
    if r.Ok? then None else Some(r.error)
  }

  /** The errors `Sign` collects, in order: one per enabled scheme, Ed25519 first. */
  function SignErrs(crypto: Crypto, d: ManifestData, config: Config, now: int): seq<Option<Error>> {
    (if config.ed25519.enabled then [ErrOf(Ed25519SignResult(crypto, d, config.ed25519))] else []) +
    (if config.minisign.enabled then [ErrOf(MinisignSignResult(crypto, d, config, now))] else [])
  }

  /** The signatures after `Sign`: each enabled scheme that succeeded replaces its field. */
  function SignedSignature(crypto: Crypto, d: ManifestData, config: Config, now: int): Signature {
    var ed := Ed25519SignResult(crypto, d, config.ed25519);
    var mini := MinisignSignResult(crypto, d, config, now);
    var s := if config.ed25519.enabled && ed.Ok? then d.signature.(ed25519 := ed.value) else d.signature;
    if config.minisign.enabled && mini.Ok? then s.(minisign := mini.value) else s
  }

  /** The errors `Verify` collects, in order: one per enabled scheme, Ed25519 first. */
  function VerifyErrs(crypto: Crypto, d: ManifestData, config: Config): seq<Option<Error>> {
    (if config.ed25519.enabled then [Ed25519VerifyResult(crypto, d, config.ed25519)] else []) +
    (if config.minisign.enabled then [MinisignVerifyResult(crypto, d, config)] else [])
  }

  // ---------------------------------------------------------------- properties

  /** With no scheme enabled, signing changes nothing and both operations return nil. */
  lemma NothingEnabled(crypto: Crypto, d: ManifestData, config: Config, now: int)
    requires !config.ed25519.enabled && !config.minisign.enabled
    ensures SignedSignature(crypto, d, config, now) == d.signature
    ensures Join(SignErrs(crypto, d, config, now)).None?
    ensures Join(VerifyErrs(crypto, d, config)).None?
  {
  }

  /** When both schemes fail, both errors are reported, Ed25519's first. */
  lemma BothErrorsJoined(crypto: Crypto, d: ManifestData, config: Config)
    requires config.ed25519.enabled && config.minisign.enabled
    requires Ed25519VerifyResult(crypto, d, config.ed25519).Some?
    requires MinisignVerifyResult(crypto, d, config).Some?
    ensures var r := Join(VerifyErrs(crypto, d, config));
      r.Some? && r.value.errs == [Ed25519VerifyResult(crypto, d, config.ed25519).value,
                                  MinisignVerifyResult(crypto, d, config).value]
  {
    var errs := VerifyErrs(crypto, d, config);
    assert |errs| == 2 && errs[0].Some? && errs[1].Some?;
    assert errs[1..][1..] == [];
    assert NonNil(errs[1..]) == [errs[1].value] + NonNil([]);
    assert NonNil(errs) == [errs[0].value] + NonNil(errs[1..]);
  }

  /** A signature that is not hex is reported as malformed whatever the primitives would do. */
  lemma MalformedBeforePrimitive(crypto: Crypto, other: Crypto, d: ManifestData, conf: SigConf)
    requires HexDecode(d.signature.ed25519).Fail?
    ensures Ed25519VerifyResult(crypto, d, conf) == Ed25519VerifyResult(other, d, conf)
    ensures var e := Ed25519VerifyResult(crypto, d, conf).value;
      e.Wrap? && HasPrefix(e.msg, "ed25519: malformed signature: ") &&
      e.inner == HexErr(HexDecode(d.signature.ed25519).error)
  {
  }

  /** A hex signature of the wrong size does not verify under a well-formed key. */
  lemma WrongSizeIsBadSignature(crypto: Crypto, d: ManifestData, conf: SigConf)
    requires crypto.Sound()
    requires HexDecode(d.signature.ed25519).Ok? && |HexDecode(d.signature.ed25519).value| != 64
    requires crypto.json(Stripped(d)).Ok? && |conf.pubKey| == 32
    ensures Ed25519VerifyResult(crypto, d, conf) == Some(Leaf("ed25519: bad signature"))
  {
    var sig := HexDecode(d.signature.ed25519).value;
    assert crypto.ed25519Verify(conf.pubKey, crypto.json(Stripped(d)).value, sig) == Ok(false);
  }

  /** A public key of the wrong size makes the primitive panic, which is reported as an error. */
  lemma BadPublicKeyIsError(crypto: Crypto, d: ManifestData, conf: SigConf)
    requires crypto.Sound()
    requires HexDecode(d.signature.ed25519).Ok? && crypto.json(Stripped(d)).Ok? && |conf.pubKey| != 32
    ensures Ed25519VerifyResult(crypto, d, conf).Some?
  {
    var sig := HexDecode(d.signature.ed25519).value;
    assert crypto.ed25519Verify(conf.pubKey, crypto.json(Stripped(d)).value, sig).Fail?;
  }

  /**
   * A private key of the wrong size is reported, and the stored Ed25519 signature stays as it
   * was; with a good key the stored signature is lower-case hex of 64 bytes.
   */
  lemma Ed25519SignOutcome(crypto: Crypto, d: ManifestData, config: Config, now: int)
    requires crypto.Sound() && config.ed25519.enabled && crypto.json(Stripped(d)).Ok?
    ensures |config.ed25519.privKey| != 64 ==>
      SignErrs(crypto, d, config, now)[0].Some? &&
      SignedSignature(crypto, d, config, now).ed25519 == d.signature.ed25519
    ensures |config.ed25519.privKey| == 64 ==>
      SignErrs(crypto, d, config, now)[0].None? &&
      |SignedSignature(crypto, d, config, now).ed25519| == 128 &&
      IsLowerHex(SignedSignature(crypto, d, config, now).ed25519)
  {
    var payload := crypto.json(Stripped(d)).value;
    if |config.ed25519.privKey| == 64 {
      assert crypto.ed25519Sign(config.ed25519.privKey, payload).Ok?;
      assert |crypto.ed25519Sign(config.ed25519.privKey, payload).value| == 64;
    } else {
      assert crypto.ed25519Sign(config.ed25519.privKey, payload).Fail?;
    }
  }

  /**
   * Signing with matching key pairs and then verifying succeeds: the payload of both is the
   * stripped manifest, which the new signatures do not change.
   */
  lemma SignThenVerify(crypto: Crypto, d: ManifestData, config: Config, now: int)
    requires crypto.Sound()
    requires config.ed25519.enabled ==>
      |config.ed25519.privKey| == 64 && config.ed25519.pubKey == crypto.ed25519Public(config.ed25519.privKey) &&
      crypto.json(Stripped(d)).Ok?
    requires config.minisign.enabled ==>
      MinisignSignResult(crypto, d, config, now).Ok? &&
      config.minisign.pubKey == crypto.minisignPublic(config.minisign.privKey)
    ensures Join(SignErrs(crypto, d, config, now)).None?
    ensures Join(VerifyErrs(crypto, d.(signature := SignedSignature(crypto, d, config, now)), config)).None?
  {
    var signed := d.(signature := SignedSignature(crypto, d, config, now));
    assert Stripped(signed) == Stripped(d);
    if config.ed25519.enabled {
      var payload := crypto.json(Stripped(d)).value;
      var priv := config.ed25519.privKey;
      assert crypto.ed25519Sign(priv, payload).Ok?;
      var sig := crypto.ed25519Sign(priv, payload).value;
      assert signed.signature.ed25519 == HexEncode(sig);
      HexRoundTrip(sig);
      assert crypto.ed25519Verify(crypto.ed25519Public(priv), payload, sig) == Ok(true);
      assert Ed25519VerifyResult(crypto, signed, config.ed25519).None?;
    }
    if config.minisign.enabled {
      var payload := crypto.jsonStream(Stripped(d)).value;
      var name := ManifestName(config);
      var priv := config.minisign.privKey;
      var t, u := TrustedComment(now, name), UntrustedComment(name, crypto.minisignKeyId(priv));
      assert crypto.minisignSign(priv, payload, t, u).Ok?;
      assert signed.signature.minisign == crypto.minisignSign(priv, payload, t, u).value;
      assert MinisignVerifyResult(crypto, signed, config).None?;
    }
    var errs := VerifyErrs(crypto, signed, config);
    assert forall i :: 0 <= i < |errs| ==> errs[i].None?;
  }
}
