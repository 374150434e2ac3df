/**
 * The library of the first tools (src/medhash): the 0.4.0 manifest with four digests per file,
 * the `medhash:` error prefix, and the check of one media entry.
 *
 * A media entry's `Hash` is a pointer in Go; here every entry carries one (see the README).
 * Paths use the POSIX separator, so `filepath.FromSlash` and `filepath.ToSlash` are the identity.
 */
module SrcMedhash {
  import opened Outcomes
  import opened GoErrors
  import opened GoLib
  import opened Platform
  import M040 = Medhash040

  const FormatVersionPrevious: string := "0.3.0"
  const FormatVersionCurrent: string := "0.4.0"
  const ManifestName: string := "medhash.json"
  const ErrorPrefix: string := "medhash:"

  datatype Hash = Hash(sha256: string, sha3_256: string, sha1: string, md5: string)

  datatype Media = Media(path: string, hash: Hash)

  /** A manifest; `media` is `None` while the Go slice is nil. */
  datatype MedHash = MedHash(version: string, generator: string, media: Option<seq<Media>>)

  /** `New`: the current format version, no generator and nil media. */
  function New(): (m: MedHash)
    ensures m.version == "0.4.0" && |m.generator| == 0 && m.media.None?
  {
    MedHash(FormatVersionCurrent, "", None)
  }

  /** The tools' `New` starts out as the library's 0.4.0 `New`, apart from the configuration it does not have. */
  lemma NewAgreesWithLibrary()
    ensures New().version == M040.New().version
    ensures New().generator == M040.New().generator
    ensures New().media.None? && M040.New().media.None?
  {
  }

  /** `fmtError`: nil stays nil; any other error becomes a plain error whose text is prefixed with "medhash: ". */
  function FmtError(err: Option<Error>): (r: Option<Error>)
    ensures r.None? <==> err.None?
    ensures r.Some? ==> r.value.Leaf?
  {
    if err.None? then None else Some(Leaf(ErrorPrefix + " " + err.value.msg))
  }

  /** The prefix can be taken off again: the original text follows "medhash: " unchanged. */
  lemma FmtErrorText(err: Error)
    ensures var r := FmtError(Some(err)).value.msg;
      HasPrefix(r, "medhash: ") && r[|"medhash: "|..] == err.msg && |r| == |err.msg| + 9
  {
    var r := FmtError(Some(err)).value.msg;
    assert r == "medhash: " + err.msg;
    assert r[..9] == "medhash: ";
  }

  /**
   * `GenHash`: the entry for the file at `path` with all four digests, or the read error
   * passed through `fmtError`.
   */
  function GenHash(env: Env, path: string): (r: Result<Media, Error>)
    ensures r.Ok? <==> ReadAll(env, path).Ok?
    ensures r.Fail? ==> Some(r.error) == FmtError(Some(ReadAll(env, path).error))
    ensures r.Ok? ==> r.value.path == path && Digests(env, r.value.hash, ReadAll(env, path).value)
  {
    match ReadAll(env, path)
    case Fail(e) => Fail(FmtError(Some(e)).value)
    case Ok(content) =>
      Ok(Media(path, Hash(HexDigest(env, SHA256, content), HexDigest(env, SHA3, content),
                          HexDigest(env, SHA1, content), HexDigest(env, MD5, content))))
  }

  /** Whether `h` holds exactly the four digests of `content`. */
  predicate Digests(env: Env, h: Hash, content: Bytes) {
    h.sha256 == HexDigest(env, SHA256, content) && h.sha3_256 == HexDigest(env, SHA3, content) &&
    h.sha1 == HexDigest(env, SHA1, content) && h.md5 == HexDigest(env, MD5, content)
  }

  /**
   * Whether the stored digests match `content`: SHA256, SHA1 and MD5 always, SHA3-256 only
   * when one is stored.
   */
  predicate Matches(env: Env, h: Hash, content: Bytes) {
    h.sha256 == HexDigest(env, SHA256, content) &&
    (|h.sha3_256| == 0 || h.sha3_256 == HexDigest(env, SHA3, content)) &&
    h.sha1 == HexDigest(env, SHA1, content) && h.md5 == HexDigest(env, MD5, content)
  }

  /**
   * `ChkHash`: `(false, error)` when the file cannot be read, the read error prefixed by
   * `GenHash` and again here; otherwise no error, and valid exactly when the stored digests
   * match the file.
   */
  function ChkHash(env: Env, media: Media): (r: (bool, Option<Error>))
    ensures r.1.Some? <==> ReadAll(env, media.path).Fail?
    ensures r.1.Some? ==> !r.0 && r.1 == FmtError(FmtError(Some(ReadAll(env, media.path).error)))
    ensures r.1.None? ==> (r.0 <==> Matches(env, media.hash, ReadAll(env, media.path).value))
  {
    match GenHash(env, media.path)
    case Fail(e) => (false, FmtError(Some(e)))
    case Ok(m) =>
      if m.hash.sha256 != media.hash.sha256 ||
         (|media.hash.sha3_256| > 0 && m.hash.sha3_256 != media.hash.sha3_256) ||
         m.hash.sha1 != media.hash.sha1 ||
         m.hash.md5 != media.hash.md5
      then (false, None)
      else (true, None)
  }

  // ---------------------------------------------------------------- properties

  /** An entry just generated from a file checks as valid, with no error. */
  lemma GeneratedChecks(env: Env, path: string)
    requires GenHash(env, path).Ok?
    ensures ChkHash(env, GenHash(env, path).value) == (true, None)
  {
  }

  /** The error of a missing file carries the prefix twice, in front of the `open` error. */
  lemma MissingFileText(env: Env, media: Media)
    requires media.path !in env.fs
    ensures ChkHash(env, media).1 ==
      Some(Leaf("medhash: medhash: open " + media.path + ": no such file or directory"))
  {
    var m := "open " + media.path + ": no such file or directory";
    assert ReadAll(env, media.path).error.msg == m;
    assert ErrorPrefix + " " + (ErrorPrefix + " " + m) == "medhash: medhash: open " + media.path + ": no such file or directory";
  }

  /**
   * A readable file with a tampered SHA256, SHA1 or MD5 is invalid without an error; an empty
   * SHA3-256 is not compared, so leaving it out of a valid entry keeps the entry valid.
   */
  lemma TamperedEntry(env: Env, path: string, d: string)
    requires GenHash(env, path).Ok?
    ensures var m := GenHash(env, path).value;
      (d != m.hash.sha256 ==> ChkHash(env, m.(hash := m.hash.(sha256 := d))) == (false, None)) &&
      (d != m.hash.sha1 ==> ChkHash(env, m.(hash := m.hash.(sha1 := d))) == (false, None)) &&
      (d != m.hash.md5 ==> ChkHash(env, m.(hash := m.hash.(md5 := d))) == (false, None)) &&
      (|d| > 0 && d != m.hash.sha3_256 ==> ChkHash(env, m.(hash := m.hash.(sha3_256 := d))) == (false, None)) &&
      ChkHash(env, m.(hash := m.hash.(sha3_256 := ""))) == (true, None)
  {
  }
}
