/**
 * Digest generation and checking of the current revision (medhash/hash.go).
 *
 * `GenHash` computes the enabled digests of one file. `ChkHash` first narrows the
 * configuration to the digests actually stored, recomputes them, and reports the last
 * mismatch in the fixed order XXH3, SHA512, SHA3, SHA256, SHA1, MD5.
 */
module MedhashHash {
  import opened Outcomes
  import opened GoErrors
  import opened GoLib
  import opened Platform
  import opened MedhashTypes

  // ---------------------------------------------------------------- generation

  /**
   * The digests of `content` under `config`: the hex digest of each enabled algorithm and ""
   * for the others. SHA3 fills both `sha3` and its deprecated alias `sha3_256`.
   */
  function HashOf(env: Env, config: Config, content: Bytes): Hash {
    Hash(
      xxh3 := if config.xxh3 then HexDigest(env, XXH3, content) else "",
      sha512 := if config.sha512 then HexDigest(env, SHA512, content) else "",
      sha256 := if config.sha256 then HexDigest(env, SHA256, content) else "",
      sha3 := if config.sha3 then HexDigest(env, SHA3, content) else "",
      sha3_256 := if config.sha3 then HexDigest(env, SHA3, content) else "",
      sha1 := if config.sha1 then HexDigest(env, SHA1, content) else "",
      md5 := if config.md5 then HexDigest(env, MD5, content) else "")
  }

  /**
   * A field of the generated digests is filled exactly when its algorithm is enabled, and then
   * holds that algorithm's digest; the SHA3 alias always equals the SHA3 field.
   */
  lemma HashOfFields(env: Env, config: Config, content: Bytes)
    requires env.Valid()
    ensures forall a :: (|Field(HashOf(env, config, content), a)| > 0) <==> Flag(config, a)
    ensures forall a :: Flag(config, a) ==> Field(HashOf(env, config, content), a) == HexDigest(env, a, content)
    ensures HashOf(env, config, content).sha3_256 == HashOf(env, config, content).sha3
  {
    var h := HashOf(env, config, content);
    forall a ensures (|Field(h, a)| > 0) <==> Flag(config, a) {
      HexDigestShape(env, a, content);
      match a
      case XXH3 =>
      case SHA512 =>
      case SHA3 =>
      case SHA256 =>
      case SHA1 =>
      case MD5 =>
    }
  }

  /**
   * `genHash`: opens `Join(config.Dir, media)`, feeds its content to one hasher per enabled
   * algorithm, and records the hex digests under the slash-normalised path.
   */
  method GenHash(env: Env, config: Config, media: string) returns (r: Result<Media, Error>)
    ensures r.Fail? <==> ReadAll(env, env.join(config.dir, media)).Fail?
    ensures r.Fail? ==> r.error == ReadAll(env, env.join(config.dir, media)).error
    ensures r.Ok? ==> r.value == Media(media, HashOf(env, config, ReadAll(env, env.join(config.dir, media)).value))
  {
    var hashers: set<Alg> := {};
    if config.xxh3 {
      hashers := hashers + {XXH3};
    }
    if config.sha512 {
      hashers := hashers + {SHA512};
    }
    if config.sha3 {
      hashers := hashers + {SHA3};
    }
    if config.sha256 {
      hashers := hashers + {SHA256};
    }
    if config.sha1 {
      hashers := hashers + {SHA1};
    }
    if config.md5 {
      hashers := hashers + {MD5};
    }
    assert (XXH3 in hashers <==> config.xxh3) && (SHA512 in hashers <==> config.sha512) && (SHA3 in hashers <==> config.sha3);
    assert (SHA256 in hashers <==> config.sha256) && (SHA1 in hashers <==> config.sha1) && (MD5 in hashers <==> config.md5);

    var file := ReadAll(env, env.join(config.dir, media));
    if file.Fail? {
      return Fail(file.error);
    }
    var content := file.value;

    var xxh3, sha512, sha3, sha256, sha1, md5 := "", "", "", "", "", "";
    if XXH3 in hashers {
      xxh3 := HexDigest(env, XXH3, content);
    }
    if SHA512 in hashers {
      sha512 := HexDigest(env, SHA512, content);
    }
    if SHA3 in hashers {
      sha3 := HexDigest(env, SHA3, content);
    }
    if SHA256 in hashers {
      sha256 := HexDigest(env, SHA256, content);
    }
    if SHA1 in hashers {
      sha1 := HexDigest(env, SHA1, content);
    }
    if MD5 in hashers {
      md5 := HexDigest(env, MD5, content);
    }
    var hash := Hash(xxh3 := xxh3, sha512 := sha512, sha256 := sha256, sha3 := sha3, sha3_256 := sha3, sha1 := sha1, md5 := md5);
    // filepath.ToSlash is the identity with the POSIX separator
    r := Ok(Media(media, hash));
  }

  // ---------------------------------------------------------------- checking

  /** The mismatch `chkHash` reports: the algorithm, the stored and the recomputed digest. */
  datatype HashErr = HashErr(alg: string, expected: string, actual: string)

  /** `hashErr.Error()`. */
  function HashErrMessage(e: HashErr): string {
    "expected " + ToUpper(e.alg) + " hash: " + Quote(e.expected) + " actual: " + Quote(e.actual)
  }

  function HashErrError(e: HashErr): Error {
    Leaf(HashErrMessage(e))
  }

  /** `hashEq`: digests are compared as exact strings. */
  predicate HashEq(a: string, b: string) {
    a == b
  }

  /**
   * The configuration `chkHash` actually checks with: each flag whose stored digest is empty is
   * cleared; SHA3 only when both `sha3` and `sha3_256` are empty.
   */
  function Narrow(config: Config, h: Hash): Config {
    config.(
      xxh3 := config.xxh3 && |h.xxh3| > 0,
      sha512 := config.sha512 && |h.sha512| > 0,
      sha3 := config.sha3 && !(|h.sha3| == 0 && |h.sha3_256| == 0),
      sha256 := config.sha256 && |h.sha256| > 0,
      sha1 := config.sha1 && |h.sha1| > 0,
      md5 := config.md5 && |h.md5| > 0)
  }

  /**
   * Narrowing only ever clears flags: an algorithm stays enabled exactly when the caller enabled
   * it and a digest for it is stored, and nothing but the flags changes.
   */
  lemma NarrowOnlyClears(config: Config, h: Hash)
    ensures forall a :: Flag(Narrow(config, h), a) ==> Flag(config, a)
    ensures forall a :: a != SHA3 ==> (Flag(Narrow(config, h), a) <==> Flag(config, a) && |Field(h, a)| > 0)
    ensures Flag(Narrow(config, h), SHA3) <==> config.sha3 && (|h.sha3| > 0 || |h.sha3_256| > 0)
    ensures Narrow(config, h).dir == config.dir && Narrow(config, h).manifest == config.manifest
  {
  }

  /** The stored SHA3 digest: `sha3`, or its alias when `sha3` is empty. */
  function StoredSha3(stored: Hash): string {
    if |stored.sha3| == 0 then stored.sha3_256 else stored.sha3
  }

  /** The recomputed SHA3 digest, falling back to the stored alias when none was computed. */
  function ActualSha3(stored: Hash, computed: Hash): string {
    if |computed.sha3| == 0 then stored.sha3_256 else computed.sha3
  }

  /** The comparison of one algorithm, if it is enabled and the digests differ. */
  function Mismatch(c: Config, stored: Hash, computed: Hash, a: Alg): Option<HashErr> {
    if !Flag(c, a) then None
    else if a == SHA3 then
      (if HashEq(StoredSha3(stored), ActualSha3(stored, computed)) then None
       else Some(HashErr("SHA3", StoredSha3(stored), ActualSha3(stored, computed))))
    else if HashEq(Field(stored, a), Field(computed, a)) then None
    else Some(HashErr(AlgName(a), Field(stored, a), Field(computed, a)))
  }

  function AlgName(a: Alg): string {
    match a
    case XXH3 => "XXH3"
    case SHA512 => "SHA512"
    case SHA3 => "SHA3"
    case SHA256 => "SHA256"
    case SHA1 => "SHA1"
    case MD5 => "MD5"
  }

  /** The mismatch of one algorithm as a list of at most one element. */
  function MismatchOf(c: Config, stored: Hash, computed: Hash, a: Alg): seq<HashErr> {
    var m := Mismatch(c, stored, computed, a);
    if m.Some? then [m.value] else []
  }

  /** Every mismatch, in the order `chkHash` compares: XXH3, SHA512, SHA3, SHA256, SHA1, MD5. */
  function Mismatches(c: Config, stored: Hash, computed: Hash): seq<HashErr> {
    MismatchOf(c, stored, computed, XXH3) + MismatchOf(c, stored, computed, SHA512) +
    MismatchOf(c, stored, computed, SHA3) + MismatchOf(c, stored, computed, SHA256) +
    MismatchOf(c, stored, computed, SHA1) + MismatchOf(c, stored, computed, MD5)
  }

  /** The last element of a list of mismatches, the one a sequence of overwrites leaves. */
  function LastOf(errs: seq<HashErr>): Option<HashErr> {
    if |errs| == 0 then None else Some(errs[|errs| - 1])
  }

  /** A `hashErr` as the `error` value `chkHash` returns. */
  function AsError(m: Option<HashErr>): Option<Error> {
    if m.Some? then Some(HashErrError(m.value)) else None
  }

  lemma LastOfAppend(xs: seq<HashErr>, ys: seq<HashErr>)
    ensures LastOf(xs + ys) == if |ys| > 0 then LastOf(ys) else LastOf(xs)
  {
    if |ys| == 0 {
      assert xs + ys == xs;
    }
  }

  /** The first step of `chkHash`: each flag whose stored digest is empty is switched off. */
  method NarrowConfig(config: Config, h: Hash) returns (c: Config)
    ensures c == Narrow(config, h)
  {
    var xxh3, sha512, sha3, sha256, sha1, md5 := config.xxh3, config.sha512, config.sha3, config.sha256, config.sha1, config.md5;
    if |h.xxh3| == 0 {
      xxh3 := false;
    }
    if |h.sha512| == 0 {
      sha512 := false;
    }
    if |h.sha3| == 0 && |h.sha3_256| == 0 {
      sha3 := false;
    }
    if |h.sha256| == 0 {
      sha256 := false;
    }
    if |h.sha1| == 0 {
      sha1 := false;
    }
    if |h.md5| == 0 {
      md5 := false;
    }
    c := config.(xxh3 := xxh3, sha512 := sha512, sha3 := sha3, sha256 := sha256, sha1 := sha1, md5 := md5);
  }

  /**
   * The SHA3 comparison of `chkHash`: the stored digest is `sha3`, or its alias when that is
   * empty; the recomputed one falls back to the stored alias when none was computed.
   */
  method CompareSha3(c: Config, stored: Hash, computed: Hash, prev: Option<HashErr>) returns (err: Option<HashErr>)
    ensures err == if Mismatch(c, stored, computed, SHA3).Some? then Mismatch(c, stored, computed, SHA3) else prev
  {
    err := prev;
    if c.sha3 {
      var a := stored.sha3;
      if |a| == 0 {
        a := stored.sha3_256;
      }
      var b := computed.sha3;
      if |b| == 0 {
        b := stored.sha3_256;
      }
      if !HashEq(a, b) {
        err := Some(HashErr("SHA3", a, b));
      }
    }
  }

  /**
   * The last step of `chkHash`: each enabled algorithm is compared in turn, and a mismatch
   * overwrites the error of any earlier one.
   */
  method CompareDigests(c: Config, stored: Hash, computed: Hash) returns (err: Option<HashErr>)
    ensures err == LastOf(Mismatches(c, stored, computed))
  {
    err := None;
    ghost var seen: seq<HashErr> := [];
    err := CompareField(c, stored, computed, XXH3, err);
    LastOfStep(c, stored, computed, XXH3, seen);
    seen := seen + MismatchOf(c, stored, computed, XXH3);
    err := CompareField(c, stored, computed, SHA512, err);
    LastOfStep(c, stored, computed, SHA512, seen);
    seen := seen + MismatchOf(c, stored, computed, SHA512);
    err := CompareSha3(c, stored, computed, err);
    LastOfStep(c, stored, computed, SHA3, seen);
    seen := seen + MismatchOf(c, stored, computed, SHA3);
    err := CompareField(c, stored, computed, SHA256, err);
    LastOfStep(c, stored, computed, SHA256, seen);
    seen := seen + MismatchOf(c, stored, computed, SHA256);
    err := CompareField(c, stored, computed, SHA1, err);
    LastOfStep(c, stored, computed, SHA1, seen);
    seen := seen + MismatchOf(c, stored, computed, SHA1);
    err := CompareField(c, stored, computed, MD5, err);
    LastOfStep(c, stored, computed, MD5, seen);
    seen := seen + MismatchOf(c, stored, computed, MD5);
  }

  /** One comparison of `chkHash` other than SHA3: a mismatch of an enabled algorithm overwrites the error. */
  method CompareField(c: Config, stored: Hash, computed: Hash, a: Alg, prev: Option<HashErr>) returns (err: Option<HashErr>)
    requires a != SHA3
    ensures err == if Mismatch(c, stored, computed, a).Some? then Mismatch(c, stored, computed, a) else prev
  {
    err := prev;
    if Flag(c, a) && !HashEq(Field(stored, a), Field(computed, a)) {
      err := Some(HashErr(AlgName(a), Field(stored, a), Field(computed, a)));
    }
  }

  /** Appending one algorithm's mismatch, if any, makes it the last. */
  lemma LastOfStep(c: Config, stored: Hash, computed: Hash, a: Alg, seen: seq<HashErr>)
    ensures LastOf(seen + MismatchOf(c, stored, computed, a)) ==
      if Mismatch(c, stored, computed, a).Some? then Mismatch(c, stored, computed, a) else LastOf(seen)
  {
    LastOfAppend(seen, MismatchOf(c, stored, computed, a));
  }

  /**
   * What checking `med` against the file reports: the error of opening or reading it, or else
   * the last mismatch among the digests left after narrowing `config` to the stored ones.
   */
  function CheckOutcome(env: Env, config: Config, med: Media): Option<Error> {
    var c := Narrow(config, med.hash);
    match ReadAll(env, env.join(config.dir, med.path))
    case Fail(e) => Some(e)
    case Ok(content) => AsError(LastOf(Mismatches(c, med.hash, HashOf(env, c, content))))
  }

  /**
   * `chkHash`: narrows `config` to the stored digests, recomputes them (the file is opened even
   * when nothing is left to check), and reports the last mismatch in the order of `Mismatches`.
   */
  method ChkHash(env: Env, config: Config, med: Media) returns (err: Option<Error>)
    ensures err == CheckOutcome(env, config, med)
  {
    var c := NarrowConfig(config, med.hash);
    var chk := GenHash(env, c, med.path);
    if chk.Fail? {
      return Some(chk.error);
    }
    var mismatch := CompareDigests(c, med.hash, chk.value.hash);
    err := AsError(mismatch);
  }

  // ---------------------------------------------------------------- properties of checking

  /** An algorithm whose stored digest is empty is never checked, so it never fails. */
  lemma EmptyStoredNeverFails(config: Config, stored: Hash, computed: Hash, a: Alg)
    requires |Field(stored, a)| == 0 && (a == SHA3 ==> |stored.sha3_256| == 0)
    ensures Mismatch(Narrow(config, stored), stored, computed, a).None?
  {
  }

  /** With no digest stored, checking reports nothing but a failure to read the file. */
  lemma NothingStoredNothingFails(config: Config, computed: Hash)
    ensures Mismatches(Narrow(config, EmptyHash), EmptyHash, computed) == []
  {
    forall a ensures MismatchOf(Narrow(config, EmptyHash), EmptyHash, computed, a) == [] {
      EmptyStoredNeverFails(config, EmptyHash, computed, a);
    }
  }

  /**
   * The report is empty exactly when no enabled algorithm mismatches; otherwise it is the
   * mismatch of the last algorithm in the order that mismatches.
   */
  lemma ReportedIsLastMismatch(c: Config, stored: Hash, computed: Hash)
    ensures LastOf(Mismatches(c, stored, computed)).None? <==> forall a :: Mismatch(c, stored, computed, a).None?
    ensures Mismatch(c, stored, computed, MD5).Some? ==> LastOf(Mismatches(c, stored, computed)) == Mismatch(c, stored, computed, MD5)
    ensures LastOf(Mismatches(c, stored, computed)).Some? ==>
      exists a :: Mismatch(c, stored, computed, a) == LastOf(Mismatches(c, stored, computed))
  {
    var all := Mismatches(c, stored, computed);
    if forall a :: Mismatch(c, stored, computed, a).None? {
      assert all == [];
    } else {
      var a :| Mismatch(c, stored, computed, a).Some?;
      assert all != [] by {
        match a
        case XXH3 => assert all[0] == Mismatch(c, stored, computed, a).value;
        case _ =>
      }
    }
    if LastOf(all).Some? {
      var last := all[|all| - 1];
      var w := LastMismatchWitness(c, stored, computed);
      assert Mismatch(c, stored, computed, w) == Some(last);
    }
  }

  /** The algorithm whose mismatch the report names. */
  function LastMismatchWitness(c: Config, stored: Hash, computed: Hash): (a: Alg)
    requires |Mismatches(c, stored, computed)| > 0
    ensures Mismatch(c, stored, computed, a) == Some(Mismatches(c, stored, computed)[|Mismatches(c, stored, computed)| - 1])
  {
    if Mismatch(c, stored, computed, MD5).Some? then MD5
    else if Mismatch(c, stored, computed, SHA1).Some? then SHA1
    else if Mismatch(c, stored, computed, SHA256).Some? then SHA256
    else if Mismatch(c, stored, computed, SHA3).Some? then SHA3
    else if Mismatch(c, stored, computed, SHA512).Some? then SHA512
    else XXH3
  }

  /**
   * A digest stored for an algorithm the caller enabled that differs from the file's digest is
   * always detected.
   */
  lemma TamperDetected(env: Env, config: Config, med: Media, content: Bytes, a: Alg)
    requires env.Valid()
    requires Flag(config, a) && a != SHA3 && |Field(med.hash, a)| > 0
    requires Field(med.hash, a) != HexDigest(env, a, content)
    ensures var c := Narrow(config, med.hash);
      LastOf(Mismatches(c, med.hash, HashOf(env, c, content))).Some?
  {
    var c := Narrow(config, med.hash);
    NarrowOnlyClears(config, med.hash);
    HashOfFields(env, c, content);
    assert Mismatch(c, med.hash, HashOf(env, c, content), a).Some?;
    ReportedIsLastMismatch(c, med.hash, HashOf(env, c, content));
  }

  /** A changed SHA3 digest is detected too, comparing the stored `sha3` (or its alias). */
  lemma TamperDetectedSha3(env: Env, config: Config, med: Media, content: Bytes)
    requires env.Valid()
    requires config.sha3 && |StoredSha3(med.hash)| > 0
    requires StoredSha3(med.hash) != HexDigest(env, SHA3, content)
    ensures var c := Narrow(config, med.hash);
      LastOf(Mismatches(c, med.hash, HashOf(env, c, content))).Some?
  {
    var c := Narrow(config, med.hash);
    HashOfFields(env, c, content);
    assert Mismatch(c, med.hash, HashOf(env, c, content), SHA3).Some?;
    ReportedIsLastMismatch(c, med.hash, HashOf(env, c, content));
  }

  /**
   * Digests generated for a file under any configuration check clean against the same content
   * under any configuration: every algorithm left after narrowing was generated.
   */
  lemma GenerateThenCheck(env: Env, gen: Config, check: Config, content: Bytes)
    requires env.Valid()
    ensures var stored := HashOf(env, gen, content);
      var c := Narrow(check, stored);
      Mismatches(c, stored, HashOf(env, c, content)) == []
  {
    var stored := HashOf(env, gen, content);
    var c := Narrow(check, stored);
    HashOfFields(env, gen, content);
    HashOfFields(env, c, content);
    NarrowOnlyClears(check, stored);
    forall a ensures Mismatch(c, stored, HashOf(env, c, content), a).None? {
    }
    ReportedIsLastMismatch(c, stored, HashOf(env, c, content));
  }
}
