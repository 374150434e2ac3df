/**
 * The values of the current manifest format (version 0.6.0): digests, media entries,
 * signatures and the configuration of the hasher and the signers.
 *
 * `Config` is the union of what the revision's files use: the directory, the manifest name,
 * one flag per digest algorithm, and the Ed25519 and minisign signing configurations.
 */
module MedhashTypes {
  import opened GoLib
  import opened Platform

  const ManifestFormatVer: string := "0.6.0"
  const DefaultManifestName: string := "medhash.json"

  /** The stored digests of one file, each lower-case hex or "" when not computed. */
  datatype Hash = Hash(
    xxh3: string,
    sha512: string,
    sha256: string,
    sha3: string,
    sha3_256: string,  // deprecated alias of sha3
    sha1: string,
    md5: string)

  const EmptyHash: Hash := Hash("", "", "", "", "", "", "")

  datatype Media = Media(path: string, hash: Hash)

  /** The stored field of an algorithm; SHA3 names the `sha3` field, not its alias. */
  function Field(h: Hash, a: Alg): string {
    match a
    case XXH3 => h.xxh3
    case SHA512 => h.sha512
    case SHA3 => h.sha3
    case SHA256 => h.sha256
    case SHA1 => h.sha1
    case MD5 => h.md5
  }

  /** One signing scheme: enabled or not, with its unencoded keys. */
  datatype SigConf = SigConf(enabled: bool, pubKey: Bytes, privKey: Bytes)

  const NoSigConf: SigConf := SigConf(false, [], [])

  datatype Config = Config(
    dir: string,
    manifest: string,
    xxh3: bool,
    sha512: bool,
    sha3: bool,
    sha256: bool,
    sha1: bool,
    md5: bool,
    ed25519: SigConf,
    minisign: SigConf)

  /** Whether `c` enables algorithm `a`. */
  function Flag(c: Config, a: Alg): bool {
    match a
    case XXH3 => c.xxh3
    case SHA512 => c.sha512
    case SHA3 => c.sha3
    case SHA256 => c.sha256
    case SHA1 => c.sha1
    case MD5 => c.md5
  }

  /** A configuration with the given algorithm flags and nothing else set. */
  function Flags(xxh3: bool, sha512: bool, sha3: bool, sha256: bool, sha1: bool, md5: bool): Config {
    Config("", "", xxh3, sha512, sha3, sha256, sha1, md5, NoSigConf, NoSigConf)
  }

  const DefaultConfig: Config := Flags(true, false, false, false, false, false)
  const AllConfig: Config := Flags(true, true, true, true, true, true)
  const LegacyConfig: Config := Flags(false, false, true, true, true, true)

  /** `DefaultConfig` enables XXH3 only, `AllConfig` every algorithm, `LegacyConfig` the four of format 0.4.0. */
  lemma PresetConfigs()
    ensures forall a :: Flag(DefaultConfig, a) <==> a == XXH3
    ensures forall a :: Flag(AllConfig, a)
    ensures forall a :: Flag(LegacyConfig, a) <==> a in {SHA3, SHA256, SHA1, MD5}
  {
  }

  datatype Signature = Signature(ed25519: string, minisign: string)

  const NoSignature: Signature := Signature("", "")

  /**
   * What a manifest serialises: every field but `Config`, which is excluded from its JSON form.
   */
  datatype ManifestData = ManifestData(
    version: string,
    generator: string,
    media: seq<Media>,
    signature: Signature)
}
