/**
 * The 0.4.0 revision of the library's manifest (medhash/medhash.go): four digests per file,
 * SHA256, SHA3-256 and the deprecated SHA1 and MD5, and the constructors of a manifest.
 *
 * A manifest's `Media` is a Go slice that is nil until media are added; nil encodes as JSON
 * null, so `media` is an `Option`. The configuration is not serialised. The JSON encoding
 * is given as the decoded value a reader sees: object members in key order.
 */
module Medhash040 {
  import opened Outcomes
  import opened Platform
  import opened JsonValue
  import MedhashTypes

  const ManifestFormatVer: string := "0.4.0"
  const DefaultManifestName: string := "medhash.json"

  /** The digests of one file; "" when not computed. */
  datatype Hash = Hash(sha256: string, sha3_256: string, sha1: string, md5: string)

  datatype Media = Media(path: string, hash: Hash)

  datatype Manifest = Manifest(
    version: string,
    generator: string,
    media: Option<seq<Media>>,
    config: MedhashTypes.Config)

  /** `NewWithConfig`: the current format version, no generator, no media, and the given configuration. */
  function NewWithConfig(config: MedhashTypes.Config): Manifest {
    Manifest(ManifestFormatVer, "", None, config)
  }

  /** `New`: a manifest configured for SHA3, SHA256, SHA1 and MD5. */
  function New(): Manifest {
    NewWithConfig(MedhashTypes.Flags(false, false, true, true, true, true))
  }

  /** `New` is `NewWithConfig` of the configuration with exactly the four digests of this format. */
  lemma NewIsLegacyConfig()
    ensures New() == NewWithConfig(MedhashTypes.LegacyConfig)
    ensures forall a :: MedhashTypes.Flag(New().config, a) <==> a != XXH3 && a != SHA512
  {
  }

  // ---------------------------------------------------------------- JSON encoding

  /** The `hash` object: each non-empty digest under its key (`omitempty`). */
  function HashJson(h: Hash): Json {
    JObject(OmitEmpty("md5", h.md5) + OmitEmpty("sha1", h.sha1) + OmitEmpty("sha256", h.sha256) +
            OmitEmpty("sha3-256", h.sha3_256))
  }

  function MediaJson(m: Media): Json {
    JObject([("hash", HashJson(m.hash)), ("path", JString(m.path))])
  }

  function MediaItems(ms: seq<Media>): (r: seq<Json>)
    ensures |r| == |ms|
  {
    seq(|ms|, i requires 0 <= i < |ms| => MediaJson(ms[i]))
  }

  /** A manifest as written: `generator` when non-empty, `media` (null when nil) and `version`. */
  function ManifestJson(m: Manifest): Json {
    var media := match m.media
      case None => JNull
      case Some(ms) => JArray(MediaItems(ms));
    JObject(OmitEmpty("generator", m.generator) + [("media", media), ("version", JString(m.version))])
  }

  /**
   * A new manifest, whatever its configuration, writes as a version "0.4.0" object with null
   * media and nothing else.
   */
  lemma NewManifestJson(config: MedhashTypes.Config)
    ensures ManifestJson(NewWithConfig(config)) == JObject([("media", JNull), ("version", JString("0.4.0"))])
    ensures Get(Some(ManifestJson(NewWithConfig(config))), ["version"]) == Some(JString(ManifestFormatVer))
    ensures Get(Some(ManifestJson(NewWithConfig(config))), ["media"]) == Some(JNull)
  {
    assert ["version"][1..] == [] && ["media"][1..] == [];
    assert "media"[0] != "version"[0];
  }
}
