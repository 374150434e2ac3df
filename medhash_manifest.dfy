/**
 * A manifest of format 0.6.0 and its media table.
 *
 * The table is kept sorted by path: `Add` appends the new entry and sorts stably, so entries of
 * equal path stay in the order they were added, and `Check` finds an entry by binary search.
 * Errors about one entry carry the entry's joined directory and path in front of their text.
 * `Sign` and `Verify` run each enabled signature scheme over the manifest without its
 * signatures and join the schemes' errors.
 */
module Medhash {
  import opened Outcomes
  import opened GoErrors
  import opened GoLib
  import opened Platform
  import opened MedhashTypes
  import opened MedhashHash
  import opened MediaOrder
  import opened MedhashSignature

  /** The configuration a new manifest keeps: the manifest name defaults to "medhash.json". */
  function WithManifestName(config: Config): (c: Config)
    ensures |c.manifest| > 0
    ensures |config.manifest| > 0 ==> c == config
    ensures |config.manifest| == 0 ==> c.manifest == DefaultManifestName
    ensures c == config.(manifest := c.manifest)
  {
    if |config.manifest| == 0 then config.(manifest := DefaultManifestName) else config
  }

  /** The error of looking up a path the table does not hold. */
  function NotInManifest(p: string): Error {
    Leaf("media " + p + " not in manifest")
  }

  /**
   * `mediaErrOrNil`: nil stays nil; an error becomes a `mediaErr` whose text is the joined
   * directory and path, ": ", and the error's text, and which unwraps to the error.
   */
  function MediaErrOrNil(env: Env, config: Config, media: Media, err: Option<Error>): (r: Option<Error>)
    ensures r.None? <==> err.None?
    ensures r.Some? ==> r.value.Wrap? && r.value.inner == err.value
    ensures r.Some? ==> r.value.msg == env.join(config.dir, media.path) + ": " + err.value.msg
  {
    match err
    case None => None
    case Some(e) => Some(Wrap(env.join(config.dir, media.path) + ": " + e.msg, e))
  }

  /** `errors.Is` sees through a `mediaErr` to every error the wrapped one matches. */
  lemma MediaErrIs(env: Env, config: Config, media: Media, err: Error, target: Error)
    requires Is(err, target)
    ensures Is(MediaErrOrNil(env, config, media, Some(err)).value, target)
  {
  }

  /** `Media.Check`: checks the entry's digests against its file, the error wrapped for the entry. */
  method CheckMedia(env: Env, config: Config, med: Media) returns (err: Option<Error>)
    ensures err == MediaErrOrNil(env, config, med, CheckOutcome(env, config, med))
  {
    var e := ChkHash(env, config, med);
    err := MediaErrOrNil(env, config, med, e);
  }

  /**
   * One step of insertion sort: `x` appended to the sorted prefix and moved left past every
   * greater entry.
   */
  method InsertInto(sorted: seq<Media>, x: Media) returns (t: seq<Media>)
    ensures t == Insert(sorted, x)
  {
    t := sorted + [x];
    var j := |sorted|;
    while j > 0 && MediaCmp(t[j - 1], t[j]) > 0
      invariant 0 <= j <= |sorted|
      invariant t == sorted[..j] + [x] + sorted[j..]
      invariant forall k :: j <= k < |sorted| ==> MediaCmp(sorted[k], x) > 0
    {
      assert t[j - 1] == sorted[j - 1] && t[j] == x;
      t := t[..j - 1] + [t[j]] + [t[j - 1]] + t[j + 1..];
      assert t == sorted[..j - 1] + [x] + sorted[j - 1..] by {
        assert sorted[j - 1..] == [sorted[j - 1]] + sorted[j..];
      }
      j := j - 1;
    }
    assert j == 0 || MediaCmp(sorted[j - 1], x) <= 0 by {
      if j > 0 {
        assert t[j - 1] == sorted[j - 1] && t[j] == x;
      }
    }
    InsertAt(sorted, x, j);
  }

  /** Insertion sort: each entry in turn inserted into the sorted prefix before it. */
  method SortStableSeq(a: seq<Media>) returns (s: seq<Media>)
    ensures s == SortStable(a)
  {
    s := a;
    var i := 0;
    while i < |s|
      invariant 0 <= i <= |s| == |a|
      invariant s[..i] == SortStable(a[..i])
      invariant s[i..] == a[i..]
    {
      SortStablePermutes(a[..i]);
      InsertPermutes(s[..i], s[i]);
      var front := InsertInto(s[..i], s[i]);
      assert a[..i + 1][..i] == a[..i] && a[..i + 1][i] == s[i];
      s := front + s[i + 1..];
      assert s[..i + 1] == front;
      i := i + 1;
    }
    assert s == s[..|s|] && a == a[..|a|];
  }

  class Manifest {
    var version: string
    var generator: string
    var media: seq<Media>
    var config: Config
    var signature: Signature

    constructor (version: string, generator: string, media: seq<Media>, config: Config, signature: Signature)
      ensures this.version == version && this.generator == generator && this.media == media
      ensures this.config == config && this.signature == signature
    {
      this.version := version;
      this.generator := generator;
      this.media := media;
      this.config := config;
      this.signature := signature;
    }

    /** What the manifest serialises: every field but the configuration. */
    function Data(): ManifestData
      reads this
    {
      ManifestData(version, generator, media, signature)
    }

    /**
     * The media table is sorted by path, as binary search needs. A new manifest is sorted, and
     * `Add` and `SortMedia` leave the table sorted whatever it held; a manifest built from
     * decoded data may hold an unsorted table, on which `SearchMedia` promises less.
     */
    predicate Valid()
      reads this
    {
      Sorted(media)
    }

    /**
     * `Add`: hashes the file at `path` under the configured directory, appends the entry and
     * sorts the table stably. On failure the error is returned and the table is unchanged.
     */
    method Add(env: Env, path: string) returns (err: Option<Error>)
      modifies this
      ensures var file := ReadAll(env, env.join(config.dir, path));
        && (file.Fail? ==> err == Some(file.error) && media == old(media))
        && (file.Ok? ==>
              err.None? && media == SortStable(old(media) + [Media(path, HashOf(env, config, file.value))]))
      ensures err.None? ==> Valid()
      ensures old(Valid()) ==> Valid()
      ensures version == old(version) && generator == old(generator)
      ensures config == old(config) && signature == old(signature)
    {
      var med := GenHash(env, config, path);
      if med.Fail? {
        return Some(med.error);
      }
      media := media + [med.value];
      SortMedia();
      return None;
    }

    /**
     * `sortMedia`: a stable sort of the table by path, done here by insertion, moving each
     * entry left past the greater entries before it.
     */
    method SortMedia()
      modifies this
      ensures media == SortStable(old(media))
      ensures Valid()
      ensures version == old(version) && generator == old(generator)
      ensures config == old(config) && signature == old(signature)
    {
      media := SortStableSeq(media);
      SortStableSorted(old(media));
    }

    /**
     * `searchMedia`: `slices.BinarySearchFunc` for the first entry not less than `p`, found
     * when its path is `p`. On a sorted table it finds the first entry with path `p` exactly
     * when there is one.
     */
    method SearchMedia(p: string) returns (r: Result<Media, Error>)
      ensures r.Ok? ==> r.value in media && r.value.path == p
      ensures r.Fail? ==> r.error == NotInManifest(p)
      ensures Sorted(media) ==>
        r == (match FirstWithPath(media, p) case None => Fail(NotInManifest(p)) case Some(i) => Ok(media[i]))
    {
      var target := Media(p, EmptyHash);
      var lo, hi := 0, |media|;
      while lo < hi
        invariant 0 <= lo <= hi <= |media|
        invariant Sorted(media) ==> forall k :: 0 <= k < lo ==> MediaCmp(media[k], target) < 0
        invariant Sorted(media) ==> forall k :: hi <= k < |media| ==> MediaCmp(media[k], target) >= 0
      {
        var mid := (lo + hi) / 2;
        if MediaCmp(media[mid], target) < 0 {
          forall k | 0 <= k <= mid && Sorted(media) ensures MediaCmp(media[k], target) < 0 {
            if k < mid {
              MediaCmpStrict(media[k], media[mid], target);
            }
          }
          lo := mid + 1;
        } else {
          forall k | mid <= k < |media| && Sorted(media) ensures MediaCmp(media[k], target) >= 0 {
            MediaCmpOrder(target, media[mid], media[k]);
            MediaCmpOrder(media[k], target, target);
          }
          hi := mid;
        }
      }
      if lo < |media| && MediaCmp(media[lo], target) == 0 {
        r := Ok(media[lo]);
      } else {
        r := Fail(NotInManifest(p));
      }
      if Sorted(media) {
        SearchMediaFound(media, p, lo);
      }
    }

    /** `Manifest.Check`: finds the entry of path `p` and checks it; an absent path is an error. */
    method Check(env: Env, p: string) returns (err: Option<Error>)
      ensures Sorted(media) ==> err == (match FirstWithPath(media, p)
        case None => Some(NotInManifest(p))
        case Some(i) => MediaErrOrNil(env, config, media[i], CheckOutcome(env, config, media[i])))
      ensures err == Some(NotInManifest(p)) ||
        exists k :: 0 <= k < |media| && media[k].path == p &&
          err == MediaErrOrNil(env, config, media[k], CheckOutcome(env, config, media[k]))
    {
      var med := SearchMedia(p);
      if med.Fail? {
        return Some(med.error);
      }
      err := CheckMedia(env, config, med.value);
    }

    /** `StripSignature`: a new manifest equal to this one but without signatures. */
    method StripSignature() returns (stripped: Manifest)
      ensures fresh(stripped)
      ensures stripped.Data() == Stripped(Data()) && stripped.config == config
    {
      stripped := new Manifest(version, generator, media, config, NoSignature);
    }

    /** `ed25519_sign`. */
    method Ed25519Sign(crypto: Crypto) returns (err: Option<Error>)
      modifies this
      ensures var r := Ed25519SignResult(crypto, old(Data()), config.ed25519);
        err == ErrOf(r) && signature == (if r.Ok? then old(signature).(ed25519 := r.value) else old(signature))
      ensures version == old(version) && generator == old(generator)
      ensures media == old(media) && config == old(config)
    {
      var stripped := StripSignature();
      var payload := crypto.json(stripped.Data());
      if payload.Fail? {
        return Some(payload.error);
      }
      var sig := crypto.ed25519Sign(config.ed25519.privKey, payload.value);
      if sig.Fail? {
        return RecoverErr(Some(sig.error));
      }
      signature := signature.(ed25519 := HexEncode(sig.value));
      return None;
    }

    /** `minisign_sign`, with `now` the Unix time of the trusted comment. */
    method MinisignSign(crypto: Crypto, now: int) returns (err: Option<Error>)
      modifies this
      ensures var r := MinisignSignResult(crypto, old(Data()), config, now);
        err == ErrOf(r) && signature == (if r.Ok? then old(signature).(minisign := r.value) else old(signature))
      ensures version == old(version) && generator == old(generator)
      ensures media == old(media) && config == old(config)
    {
      var stripped := StripSignature();
      var payload := crypto.jsonStream(stripped.Data());
      if payload.Fail? {
        return Some(payload.error);
      }
      var name := if |config.manifest| == 0 then DefaultManifestName else config.manifest;
      var priv := config.minisign.privKey;
      var trusted := TrustedComment(now, name);
      var untrusted := UntrustedComment(name, crypto.minisignKeyId(priv));
      var sig := crypto.minisignSign(priv, payload.value, trusted, untrusted);
      if sig.Fail? {
        return RecoverErr(Some(sig.error));
      }
      signature := signature.(minisign := sig.value);
      return None;
    }

    /** `Sign`: Ed25519 then minisign, each when enabled, their errors joined. */
    method Sign(crypto: Crypto, now: int) returns (err: Option<Error>)
      modifies this
      ensures signature == SignedSignature(crypto, old(Data()), config, now)
      ensures err == Join(SignErrs(crypto, old(Data()), config, now))
      ensures version == old(version) && generator == old(generator)
      ensures media == old(media) && config == old(config)
    {
      ghost var d := Data();
      var errs: seq<Option<Error>> := [];
      if config.ed25519.enabled {
        var e := Ed25519Sign(crypto);
        errs := errs + [e];
      }
      assert Stripped(Data()) == Stripped(d);
      if config.minisign.enabled {
        var e := MinisignSign(crypto, now);
        errs := errs + [e];
      }
      err := Join(errs);
    }

    /** `ed25519_verify`. */
    method Ed25519Verify(crypto: Crypto) returns (err: Option<Error>)
      ensures err == Ed25519VerifyResult(crypto, Data(), config.ed25519)
    {
      var rawSig := HexDecode(signature.ed25519);
      if rawSig.Fail? {
        return Some(Wrap("ed25519: malformed signature: " + HexErrorMessage(rawSig.error), HexErr(rawSig.error)));
      }
      var stripped := StripSignature();
      var payload := crypto.json(stripped.Data());
      if payload.Fail? {
        return Some(payload.error);
      }
      var valid := crypto.ed25519Verify(config.ed25519.pubKey, payload.value, rawSig.value);
      if valid.Fail? {
        return RecoverErr(Some(valid.error));
      }
      if !valid.value {
        return Some(Leaf("ed25519: bad signature"));
      }
      return None;
    }

    /** `minisign_verify`. */
    method MinisignVerify(crypto: Crypto) returns (err: Option<Error>)
      ensures err == MinisignVerifyResult(crypto, Data(), config)
    {
      var stripped := StripSignature();
      var payload := crypto.jsonStream(stripped.Data());
      if payload.Fail? {
        return Some(payload.error);
      }
      var valid := crypto.minisignVerify(config.minisign.pubKey, payload.value, signature.minisign);
      if valid.Fail? {
        return RecoverErr(Some(valid.error));
      }
      if !valid.value {
        return Some(Leaf("minisign: bad signature"));
      }
      return None;
    }

    /** `Verify`: Ed25519 then minisign, each when enabled, their errors joined. */
    method Verify(crypto: Crypto) returns (err: Option<Error>)
      ensures err == Join(VerifyErrs(crypto, Data(), config))
    {
      var errs: seq<Option<Error>> := [];
      if config.ed25519.enabled {
        var e := Ed25519Verify(crypto);
        errs := errs + [e];
      }
      if config.minisign.enabled {
        var e := MinisignVerify(crypto);
        errs := errs + [e];
      }
      err := Join(errs);
    }
  }

  /** Where a binary search over a sorted table stops, the first entry with path `p` is, if any. */
  lemma SearchMediaFound(s: seq<Media>, p: string, lo: nat)
    requires Sorted(s) && lo <= |s|
    requires forall k :: 0 <= k < lo ==> MediaCmp(s[k], Media(p, EmptyHash)) < 0
    requires forall k :: lo <= k < |s| ==> MediaCmp(s[k], Media(p, EmptyHash)) >= 0
    ensures match FirstWithPath(s, p)
      case None => !(lo < |s| && MediaCmp(s[lo], Media(p, EmptyHash)) == 0)
      case Some(i) => i == lo && MediaCmp(s[lo], Media(p, EmptyHash)) == 0
  {
    var target := Media(p, EmptyHash);
    match FirstWithPath(s, p)
    case None =>
    case Some(i) =>
      assert MediaCmp(s[i], target) == 0;
      assert lo <= i;
      SortedLe(s, lo, i);
      MediaCmpOrder(s[lo], s[i], target);
  }

  lemma SortedLe(s: seq<Media>, a: nat, b: nat)
    requires Sorted(s) && a <= b < |s|
    ensures MediaCmp(s[a], s[b]) <= 0
  {
    if a == b {
      MediaCmpOrder(s[a], s[a], s[a]);
    }
  }

  /** `NewWithConfig`: an empty manifest of the current format; it never fails. */
  method NewWithConfig(config: Config) returns (man: Manifest, err: Option<Error>)
    ensures fresh(man) && err.None?
    ensures man.version == ManifestFormatVer && man.generator == "" && man.media == []
    ensures man.signature == NoSignature && man.config == WithManifestName(config)
    ensures man.Valid()
  {
    var c := config;
    if |c.manifest| == 0 {
      c := c.(manifest := DefaultManifestName);
    }
    man := new Manifest(ManifestFormatVer, "", [], c, NoSignature);
    err := None;
  }

  /** `New`: `NewWithConfig(DefaultConfig)`. */
  method New() returns (man: Manifest, err: Option<Error>)
    ensures fresh(man) && err.None?
    ensures man.version == ManifestFormatVer && man.generator == "" && man.media == []
    ensures man.signature == NoSignature && man.config == WithManifestName(DefaultConfig)
  {
    man, err := NewWithConfig(DefaultConfig);
  }

  // ---------------------------------------------------------------- properties of the table

  /**
   * What `Add` leaves: one entry more, sorted, the new entry among the old ones (after those of
   * equal or smaller path when the table was sorted), and in an empty table the only entry.
   */
  lemma AddedEntry(s: seq<Media>, m: Media)
    ensures var t := SortStable(s + [m]);
      |t| == |s| + 1 && Sorted(t) && multiset(t) == multiset(s) + multiset{m}
    ensures Sorted(s) ==> SortStable(s + [m]) == Insert(s, m)
    ensures |s| == 0 ==> SortStable(s + [m]) == [m]
  {
    SortStableSorted(s + [m]);
    SortStablePermutes(s + [m]);
    if Sorted(s) {
      AppendThenSort(s, m);
    }
  }
}
