/**
 * The data types of the first tools (src/data): a file's SHA256, SHA1 and MD5 digests, and
 * the check that recomputes them.
 *
 * `GenHash` opens the file once per algorithm; the file system is a value here, so every
 * pass reads the same content and the three passes fail or succeed together.
 */
module SrcData {
  import opened Outcomes
  import opened GoErrors
  import opened GoLib
  import opened Platform

  /** The three digests of one file, lower-case hex. */
  datatype Hash = Hash(sha256: string, sha1: string, md5: string)

  datatype Media = Media(path: string, hash: Hash)

  /** The manifest the first tools write: a version and the media. */
  datatype Medhash = Medhash(version: string, media: seq<Media>)

  /** `GenHash`: the three digests of the file at `path`, or an error naming the first algorithm that failed. */
  function GenHash(env: Env, path: string): (r: Result<Hash, Error>)
    ensures r.Ok? <==> ReadAll(env, path).Ok?
    ensures r.Ok? ==> r.value == Hash(HexDigest(env, SHA256, ReadAll(env, path).value),
                                      HexDigest(env, SHA1, ReadAll(env, path).value),
                                      HexDigest(env, MD5, ReadAll(env, path).value))
  {
    match ReadAll(env, path)
    case Fail(_) => Fail(Leaf("Unable to generate SHA256 hash for: " + path))
    case Ok(content) =>
      Ok(Hash(HexDigest(env, SHA256, content), HexDigest(env, SHA1, content), HexDigest(env, MD5, content)))
  }

  /** Whether `h` holds exactly the three digests of `content`. */
  predicate Agrees(env: Env, h: Hash, content: Bytes) {
    h.sha256 == HexDigest(env, SHA256, content) &&
    h.sha1 == HexDigest(env, SHA1, content) &&
    h.md5 == HexDigest(env, MD5, content)
  }

  /**
   * `ChkHash`: true exactly when the file is readable and each of the three stored digests is,
   * as text, the digest of its content.
   */
  predicate ChkHash(env: Env, path: string, hash: Hash) {
    match GenHash(env, path)
    case Fail(_) => false
    case Ok(h) => h.sha256 == hash.sha256 && h.sha1 == hash.sha1 && h.md5 == hash.md5
  }

  lemma ChkHashMeaning(env: Env, path: string, hash: Hash)
    ensures ChkHash(env, path, hash) <==> ReadAll(env, path).Ok? && Agrees(env, hash, ReadAll(env, path).value)
  {
  }

  // ---------------------------------------------------------------- properties

  /** Digests just generated from a file check as valid against that file. */
  lemma GeneratedChecks(env: Env, path: string)
    requires GenHash(env, path).Ok?
    ensures ChkHash(env, path, GenHash(env, path).value)
  {
  }

  /** A file that cannot be read never checks, whatever is stored. */
  lemma UnreadableFails(env: Env, path: string, hash: Hash)
    requires path !in env.fs || !env.fs[path].Regular?
    ensures !ChkHash(env, path, hash)
  {
  }

  /**
   * Changing any one of the three digests of a valid entry makes it fail: each field is
   * compared, by exact string equality.
   */
  lemma SingleFieldTamper(env: Env, path: string, d: string)
    requires GenHash(env, path).Ok?
    ensures var h := GenHash(env, path).value;
      (d != h.sha256 ==> !ChkHash(env, path, h.(sha256 := d))) &&
      (d != h.sha1 ==> !ChkHash(env, path, h.(sha1 := d))) &&
      (d != h.md5 ==> !ChkHash(env, path, h.(md5 := d)))
  {
  }
}
