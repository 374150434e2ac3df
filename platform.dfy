/**
 * The outside world as the program sees it: a file system, the path functions of
 * `path/filepath`, and the digest algorithms.
 *
 * Files are a map from path to entry. `filepath.Join` and `filepath.Match` are parameters,
 * since the program relies on nothing about them beyond being functions. Paths use the POSIX
 * separator, so `filepath.ToSlash` and `filepath.FromSlash` are the identity.
 *
 * The digest algorithms (XXH3-64; SHA-512 and SHA-256 of FIPS 180-4; SHA3-256 of FIPS 202;
 * SHA-1; MD5 of RFC 1321) are one uninterpreted function from content to raw digest bytes,
 * each algorithm with its fixed digest size; the program stores the base16 encoding of
 * section 8 of RFC 4648 in lower case.
 */
module Platform {
  import opened Outcomes
  import opened GoErrors
  import opened GoLib

  datatype Alg = XXH3 | SHA512 | SHA3 | SHA256 | SHA1 | MD5

  /** The digest size in bytes of each algorithm. */
  function DigestSize(a: Alg): nat {
    match a
    case XXH3 => 8
    case SHA512 => 64
    case SHA3 => 32
    case SHA256 => 32
    case SHA1 => 20
    case MD5 => 16
  }

  /** A directory entry: a readable file, or one whose open or read fails with an error. */
  datatype FileEntry =
    | Regular(content: Bytes)
    | Unopenable(openErr: Error)
    | Unreadable(readErr: Error)

  datatype Env = Env(
    fs: map<string, FileEntry>,
    join: (string, string) -> string,
    matchPattern: (string, string) -> Result<bool, Error>,
    digest: (Alg, Bytes) -> Bytes)
  {
    /** Every digest has its algorithm's size. */
    ghost predicate Valid() {
      forall a, content :: |digest(a, content)| == DigestSize(a)
    }
  }

  /** The lower-case hex text of one digest of `content`. */
  function HexDigest(env: Env, a: Alg, content: Bytes): string {
    HexEncode(env.digest(a, content))
  }

  /** Every stored digest is non-empty lower-case hex of twice the digest size. */
  lemma HexDigestShape(env: Env, a: Alg, content: Bytes)
    requires env.Valid()
    ensures |HexDigest(env, a, content)| == 2 * DigestSize(a) > 0
    ensures IsLowerHex(HexDigest(env, a, content))
  {
  }

  /** The `*PathError` of `os.Open` for a path that does not exist. */
  function NotExistError(op: string, path: string): Error {
    Wrap(op + " " + path + ": no such file or directory", ErrNotExist)
  }

  /**
   * Opening `path` and reading it to the end (`os.Open` then `io.Copy`, or `os.ReadFile`):
   * the content, or the error of whichever step failed.
   */
  function ReadAll(env: Env, path: string): (r: Result<Bytes, Error>)
    ensures r.Ok? <==> path in env.fs && env.fs[path].Regular?
    ensures r.Ok? ==> r.value == env.fs[path].content
  {
    if path !in env.fs then Fail(NotExistError("open", path))
    else match env.fs[path]
      case Regular(content) => Ok(content)
      case Unopenable(e) => Fail(Wrap("open " + path + ": " + e.msg, e))
      case Unreadable(e) => Fail(Wrap("read " + path + ": " + e.msg, e))
  }

  /** A path missing from the file system fails with an error that `errors.Is` matches to `ErrNotExist`. */
  lemma ReadAllMissing(env: Env, path: string)
    requires path !in env.fs
    ensures ReadAll(env, path).Fail? && Is(ReadAll(env, path).error, ErrNotExist)
  {
  }
}
