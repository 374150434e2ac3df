/**
 * `chk` of the current command-line tool: reads and parses one manifest, verifies its
 * signature when a scheme is enabled (reconciling the minisign signature with a sidecar file
 * first), then checks every media entry the file patterns select, joining the failures.
 *
 * `json.Unmarshal` of the manifest file is the parameter `parse`; `filepath.Match` is
 * `env.matchPattern`. Progress output is not modelled.
 */
module Chk {
  import opened Outcomes
  import opened Sequences
  import opened GoErrors
  import opened GoLib
  import opened Platform
  import opened MedhashTypes
  import opened MedhashHash
  import opened MedhashSignature
  import opened CmdErrors
  import opened Medhash

  /** The sidecar file holding a detached minisign signature. */
  function SidecarPath(manPath: string): string {
    manPath + ".minisig"
  }

  /**
   * The sidecar step: a missing sidecar changes nothing, any other read failure is an error;
   * otherwise an empty embedded signature adopts the sidecar's, and a different one is an error.
   */
  function Reconcile(env: Env, manPath: string, d: ManifestData): Result<ManifestData, Error> {
    var sidecar := SidecarPath(manPath);
    match ReadAll(env, sidecar)
    case Fail(e) =>
      if Is(e, ErrNotExist) then Ok(d)
      else Fail(Leaf("cannot check for minisign sidecar file at " + sidecar))
    case Ok(bytes) =>
      var inManifest := TrimSpace(d.signature.minisign);
      var sig := TrimSpace(BytesToString(bytes));
      if |inManifest| == 0 then Ok(d.(signature := d.signature.(minisign := sig)))
      else if inManifest != sig then Fail(Leaf("signature in manifest differs from sidecar file " + sidecar))
      else Ok(d)
  }

  /** The signature gate: the manifest whose media are then checked, or the error that stops `chk`. */
  function Gate(env: Env, crypto: Crypto, manPath: string, config: Config, d: ManifestData): Result<ManifestData, Error> {
    if !config.ed25519.enabled && !config.minisign.enabled then Ok(d)
    else
      var r := if config.minisign.enabled then Reconcile(env, manPath, d) else Ok(d);
      match r
      case Fail(e) => Fail(e)
      case Ok(d') =>
        match Join(VerifyErrs(crypto, d', config))
        case Some(e) => Fail(e)
        case None => Ok(d')
  }

  /**
   * Trying the patterns in order against `path`: the match errors met before the first
   * pattern that matches, and whether one matched.
   */
  function MatchFiles(env: Env, files: seq<string>, path: string): (seq<Option<Error>>, bool) {
    if |files| == 0 then ([], false)
    else match env.matchPattern(files[0], path)
      case Fail(e) =>
        var rest := MatchFiles(env, files[1..], path);
        ([Some(e)] + rest.0, rest.1)
      case Ok(matched) =>
        if matched then ([], true) else MatchFiles(env, files[1..], path)
  }

  /** `med.Check(config)`: the error of checking one media entry, wrapped with its path. */
  function MediaCheck(env: Env, config: Config, med: Media): Option<Error> {
    MediaErrOrNil(env, config, med, CheckOutcome(env, config, med))
  }

  /** What one media entry adds to the joined errors: its match errors, then its check failure. */
  function MediaErrs(env: Env, config: Config, files: seq<string>, med: Media): seq<Option<Error>> {
    var check := MediaCheck(env, config, med);
    var checked := if check.None? then [] else UnwrapJoinedErrors(check);
    if |files| == 0 then checked
    else
      var m := MatchFiles(env, files, med.path);
      Flatten(m.0) + (if m.1 then checked else [])
  }

  /** What the media loop joins, entry by entry. */
  function AllMediaErrs(env: Env, config: Config, files: seq<string>, media: seq<Media>): seq<Option<Error>> {
    if |media| == 0 then []
    else AllMediaErrs(env, config, files, media[..|media| - 1]) + MediaErrs(env, config, files, media[|media| - 1])
  }

  /** The error `chk` returns. */
  function ChkOutcome(env: Env, crypto: Crypto, parse: Bytes -> Result<ManifestData, Error>,
                      manPath: string, config: Config, files: seq<string>): Option<Error> {
    match ReadAll(env, manPath)
    case Fail(e) => Some(e)
    case Ok(bytes) =>
      match parse(bytes)
      case Fail(e) => Some(e)
      case Ok(d) =>
        match Gate(env, crypto, manPath, config, d)
        case Fail(e) => Some(e)
        case Ok(d') => Join(AllMediaErrs(env, config, files, d'.media))
  }

  /** `chk`. */
  method RunChk(env: Env, crypto: Crypto, parse: Bytes -> Result<ManifestData, Error>,
                manPath: string, config: Config, files: seq<string>) returns (err: Option<Error>)
    ensures err == ChkOutcome(env, crypto, parse, manPath, config, files)
  {
    var manFile := ReadAll(env, manPath);
    if manFile.Fail? {
      return Some(manFile.error);
    }
    var parsed := parse(manFile.value);
    if parsed.Fail? {
      return Some(parsed.error);
    }
    var d := parsed.value;
    var manifest := new Manifest(d.version, d.generator, d.media, config, d.signature);
    if config.ed25519.enabled || config.minisign.enabled {
      if config.minisign.enabled {
        var e := ReconcileSidecar(env, manPath, manifest);
        if e.Some? {
          return e;
        }
      }
      assert Gate(env, crypto, manPath, config, d) ==
        (match Join(VerifyErrs(crypto, manifest.Data(), config))
         case Some(e) => Fail(e)
         case None => Ok(manifest.Data()));
      var v := manifest.Verify(crypto);
      if v.Some? {
        return v;
      }
    }
    err := CheckAll(env, manifest.config, files, manifest.media);
  }

  /** The sidecar step of `chk`, applied to the manifest in place. */
  method ReconcileSidecar(env: Env, manPath: string, manifest: Manifest) returns (e: Option<Error>)
    modifies manifest
    ensures manifest.config == old(manifest.config)
    ensures match Reconcile(env, manPath, old(manifest.Data()))
      case Fail(x) => e == Some(x)
      case Ok(d) => e.None? && manifest.Data() == d
  {
    var sidecar := SidecarPath(manPath);
    var sig := ReadAll(env, sidecar);
    e := None;
    if sig.Fail? {
      if !Is(sig.error, ErrNotExist) {
        e := Some(Leaf("cannot check for minisign sidecar file at " + sidecar));
      }
    } else {
      var inManifest := TrimSpace(manifest.signature.minisign);
      var s := TrimSpace(BytesToString(sig.value));
      if |inManifest| == 0 {
        manifest.signature := manifest.signature.(minisign := s);
      } else if |inManifest| != 0 && inManifest != s {
        e := Some(Leaf("signature in manifest differs from sidecar file " + sidecar));
      }
    }
  }

  /** The media loop of `chk`: every entry in order, failures joined without stopping. */
  method CheckAll(env: Env, config: Config, files: seq<string>, media: seq<Media>) returns (errs: Option<Error>)
    ensures errs == Join(AllMediaErrs(env, config, files, media))
  {
    errs := None;
    ghost var acc: seq<Option<Error>> := [];
    for i := 0 to |media|
      invariant acc == AllMediaErrs(env, config, files, media[..i])
      invariant errs == Join(acc)
    {
      errs, acc := CheckEntry(env, config, files, media[i], errs, acc);
      assert media[..i + 1][..i] == media[..i];
    }
    assert media[..|media|] == media;
  }

  /** One round of the media loop: the pattern filter, then the check of a selected entry. */
  method CheckEntry(env: Env, config: Config, files: seq<string>, med: Media,
                    errs: Option<Error>, ghost acc: seq<Option<Error>>)
    returns (errs': Option<Error>, ghost acc': seq<Option<Error>>)
    requires errs == Join(acc)
    ensures acc' == acc + MediaErrs(env, config, files, med)
    ensures errs' == Join(acc')
  {
    errs', acc' := errs, acc;
    var skipped := false;
    if |files| > 0 {
      skipped, errs', acc' := MatchLoop(env, files, med.path, errs', acc');
    }
    if skipped {
      return;
    }
    var err := CheckMedia(env, config, med);
    if err.Some? {
      errs', acc' := JoinOne(errs', acc', err);
    }
  }

  /** `errs = cmd.JoinErrors(errs, e)` on the accumulated errors. */
  method JoinOne(errs: Option<Error>, ghost acc: seq<Option<Error>>, e: Option<Error>)
    returns (errs': Option<Error>, ghost acc': seq<Option<Error>>)
    requires errs == Join(acc)
    ensures acc' == acc + UnwrapJoinedErrors(e) && errs' == Join(acc')
  {
    JoinStep(acc, e);
    errs' := JoinErrors([errs, e]);
    acc' := acc + UnwrapJoinedErrors(e);
  }

  /** The pattern loop: match errors are joined and the next pattern tried; the first match ends it. */
  method MatchLoop(env: Env, files: seq<string>, path: string, errs: Option<Error>, ghost acc: seq<Option<Error>>)
    returns (skipped: bool, errs': Option<Error>, ghost acc': seq<Option<Error>>)
    requires errs == Join(acc)
    ensures acc' == acc + Flatten(MatchFiles(env, files, path).0)
    ensures skipped == !MatchFiles(env, files, path).1
    ensures errs' == Join(acc')
  {
    errs', acc' := errs, acc;
    skipped := true;
    ghost var met: seq<Option<Error>> := [];
    ghost var want := MatchFiles(env, files, path);
    var k := 0;
    assert files[k..] == files && met + want.0 == want.0;
    while k < |files| && skipped
      invariant 0 <= k <= |files|
      invariant acc' == acc + Flatten(met)
      invariant errs' == Join(acc')
      invariant skipped ==> Remaining(want, env, files, path, k, met)
      invariant !skipped ==> want == (met, true)
      decreases |files| - k
    {
      RemainingStep(want, env, files, path, k, met);
      var matched;
      ghost var met';
      matched, errs', acc', met' := TryPattern(env, files[k], path, errs', acc, acc', met);
      skipped := !matched;
      met := met';
      k := k + 1;
    }
    if skipped {
      assert files[k..] == [];
      assert met + [] == met;
    }
  }

  /** One round of the pattern loop: a failing pattern's error is joined; a match ends the loop. */
  method TryPattern(env: Env, file: string, path: string, errs: Option<Error>, ghost acc0: seq<Option<Error>>,
                    ghost acc: seq<Option<Error>>, ghost met: seq<Option<Error>>)
    returns (matched: bool, errs': Option<Error>, ghost acc': seq<Option<Error>>, ghost met': seq<Option<Error>>)
    requires acc == acc0 + Flatten(met) && errs == Join(acc)
    ensures acc' == acc0 + Flatten(met') && errs' == Join(acc')
    ensures match env.matchPattern(file, path)
      case Fail(e) => !matched && met' == met + [Some(e)]
      case Ok(m) => matched == m && met' == met
  {
    var m := env.matchPattern(file, path);
    if m.Fail? {
      var e := Some(m.error);
      errs', acc' := JoinOne(errs, acc, e);
      FlattenSnoc(met, e);
      AppendAssoc(acc0, Flatten(met), UnwrapJoinedErrors(e));
      met' := met + [e];
      matched := false;
    } else {
      matched, errs', acc', met' := m.value, errs, acc, met;
    }
  }

  /** While no pattern has matched: the result is the errors met so far followed by what the rest gives. */
  ghost predicate Remaining(want: (seq<Option<Error>>, bool), env: Env, files: seq<string>, path: string,
                            k: nat, met: seq<Option<Error>>)
    requires k <= |files|
  {
    var rest := MatchFiles(env, files[k..], path);
    want == (met + rest.0, rest.1)
  }

  /** One pattern tried: what is known about the result afterwards. */
  lemma RemainingStep(want: (seq<Option<Error>>, bool), env: Env, files: seq<string>, path: string,
                      k: nat, met: seq<Option<Error>>)
    requires k < |files| && Remaining(want, env, files, path, k, met)
    ensures match env.matchPattern(files[k], path)
      case Fail(e) => Remaining(want, env, files, path, k + 1, met + [Some(e)])
      case Ok(m) => if m then want == (met, true) else Remaining(want, env, files, path, k + 1, met)
  {
    MatchFilesStep(env, files, path, k);
    var rest := MatchFiles(env, files[k + 1..], path);
    match env.matchPattern(files[k], path)
    case Fail(e) =>
      assert (met + [Some(e)]) + rest.0 == met + ([Some(e)] + rest.0);
    case Ok(m) =>
      assert met + [] == met;
  }

  lemma MatchFilesStep(env: Env, files: seq<string>, path: string, k: nat)
    requires k < |files|
    ensures var r := MatchFiles(env, files[k..], path);
      var rest := MatchFiles(env, files[k + 1..], path);
      match env.matchPattern(files[k], path)
      case Fail(e) => r == ([Some(e)] + rest.0, rest.1)
      case Ok(m) => r == if m then ([], true) else rest
  {
    assert files[k..][0] == files[k] && files[k..][1..] == files[k + 1..];
  }

  lemma FlattenSnoc(s: seq<Option<Error>>, x: Option<Error>)
    ensures Flatten(s + [x]) == Flatten(s) + UnwrapJoinedErrors(x)
  {
    assert (s + [x])[..|s|] == s;
  }

  // ---------------------------------------------------------------- properties

  /** With neither scheme enabled nothing about the signature or the sidecar is consulted. */
  lemma NoSchemeNoGate(env: Env, crypto: Crypto, manPath: string, config: Config, d: ManifestData)
    requires !config.ed25519.enabled && !config.minisign.enabled
    ensures Gate(env, crypto, manPath, config, d) == Ok(d)
  {
  }

  /** A sidecar that does not exist is not an error: the embedded signature is verified as it is. */
  lemma MissingSidecarIsNoError(env: Env, manPath: string, d: ManifestData)
    requires SidecarPath(manPath) !in env.fs
    ensures Reconcile(env, manPath, d) == Ok(d)
  {
    ReadAllMissing(env, SidecarPath(manPath));
  }

  /** A sidecar that exists but cannot be read stops `chk` with an error naming it. */
  lemma UnreadableSidecarIsError(env: Env, manPath: string, d: ManifestData, e: Error)
    requires SidecarPath(manPath) in env.fs && env.fs[SidecarPath(manPath)] == Unreadable(e)
    requires !Is(e, ErrNotExist)
    ensures Reconcile(env, manPath, d) == Fail(Leaf("cannot check for minisign sidecar file at " + SidecarPath(manPath)))
  {
    var err := Wrap("read " + SidecarPath(manPath) + ": " + e.msg, e);
    assert err != ErrNotExist;
  }

  /** An empty (or blank) embedded signature adopts the trimmed sidecar text. */
  lemma BlankSignatureAdoptsSidecar(env: Env, manPath: string, d: ManifestData)
    requires SidecarPath(manPath) in env.fs && env.fs[SidecarPath(manPath)].Regular?
    requires |TrimSpace(d.signature.minisign)| == 0
    ensures var text := TrimSpace(BytesToString(env.fs[SidecarPath(manPath)].content));
      Reconcile(env, manPath, d) == Ok(d.(signature := d.signature.(minisign := text)))
  {
  }

  /**
   * Two different non-blank signatures stop `chk` with the "differs" error before the
   * signature is verified and before any media entry is checked.
   */
  lemma DifferingSidecarStops(env: Env, crypto: Crypto, parse: Bytes -> Result<ManifestData, Error>,
                              manPath: string, config: Config, files: seq<string>)
    requires config.minisign.enabled
    requires ReadAll(env, manPath).Ok? && parse(ReadAll(env, manPath).value).Ok?
    requires SidecarPath(manPath) in env.fs && env.fs[SidecarPath(manPath)].Regular?
    requires var d := parse(ReadAll(env, manPath).value).value;
      var embedded := TrimSpace(d.signature.minisign);
      |embedded| > 0 && embedded != TrimSpace(BytesToString(env.fs[SidecarPath(manPath)].content))
    ensures ChkOutcome(env, crypto, parse, manPath, config, files) ==
      Some(Leaf("signature in manifest differs from sidecar file " + SidecarPath(manPath)))
  {
  }

  /** A failed verification is what `chk` returns: no media entry is checked. */
  lemma VerifyFailureStops(env: Env, crypto: Crypto, parse: Bytes -> Result<ManifestData, Error>,
                           manPath: string, config: Config, files: seq<string>)
    requires config.ed25519.enabled && !config.minisign.enabled
    requires ReadAll(env, manPath).Ok? && parse(ReadAll(env, manPath).value).Ok?
    requires Join(VerifyErrs(crypto, parse(ReadAll(env, manPath).value).value, config)).Some?
    ensures ChkOutcome(env, crypto, parse, manPath, config, files) ==
      Join(VerifyErrs(crypto, parse(ReadAll(env, manPath).value).value, config))
  {
  }

  /** An unreadable or unparsable manifest is the result, and nothing else is looked at. */
  lemma ManifestFailureStops(env: Env, crypto: Crypto, parse: Bytes -> Result<ManifestData, Error>,
                             manPath: string, config: Config, files: seq<string>)
    requires ReadAll(env, manPath).Fail? || parse(ReadAll(env, manPath).value).Fail?
    ensures var r := ChkOutcome(env, crypto, parse, manPath, config, files);
      r == Some(if ReadAll(env, manPath).Fail? then ReadAll(env, manPath).error
                else parse(ReadAll(env, manPath).value).error)
  {
  }

  /** An entry that no pattern matches (and none fails on) contributes nothing: it is skipped. */
  lemma {:induction false} UnmatchedSkipped(env: Env, config: Config, files: seq<string>, med: Media)
    requires |files| > 0
    requires forall i :: 0 <= i < |files| ==> env.matchPattern(files[i], med.path) == Ok(false)
    ensures MediaErrs(env, config, files, med) == []
  {
    NoMatch(env, files, med.path);
  }

  lemma {:induction false} NoMatch(env: Env, files: seq<string>, path: string)
    requires forall i :: 0 <= i < |files| ==> env.matchPattern(files[i], path) == Ok(false)
    ensures MatchFiles(env, files, path) == ([], false)
  {
    if |files| > 0 {
      NoMatch(env, files[1..], path);
    }
  }

  /** A pattern that fails is reported and the next pattern is still tried. */
  lemma PatternErrorThenNext(env: Env, files: seq<string>, path: string)
    requires |files| > 0 && env.matchPattern(files[0], path).Fail?
    ensures MatchFiles(env, files, path).0 ==
      [Some(env.matchPattern(files[0], path).error)] + MatchFiles(env, files[1..], path).0
    ensures MatchFiles(env, files, path).1 == MatchFiles(env, files[1..], path).1
  {
  }

  /**
   * A matching pattern selects the entry: it is checked, and its failure (unwrapped to the
   * underlying check error) is joined after the errors of the patterns tried before.
   */
  lemma {:induction false} MatchedEntryChecked(env: Env, config: Config, files: seq<string>, med: Media, k: nat)
    requires k < |files| && env.matchPattern(files[k], med.path) == Ok(true)
    requires forall i :: 0 <= i < k ==> env.matchPattern(files[i], med.path) == Ok(false)
    ensures MediaErrs(env, config, files, med) ==
      (var c := CheckOutcome(env, config, med); if c.None? then [] else [c])
  {
    FirstMatch(env, files, med.path, k);
  }

  lemma {:induction false} FirstMatch(env: Env, files: seq<string>, path: string, k: nat)
    requires k < |files| && env.matchPattern(files[k], path) == Ok(true)
    requires forall i :: 0 <= i < k ==> env.matchPattern(files[i], path) == Ok(false)
    ensures MatchFiles(env, files, path) == ([], true)
  {
    if k > 0 {
      FirstMatch(env, files[1..], path, k - 1);
    }
  }

  /**
   * Without patterns every entry is checked, and `chk`'s media loop reports nothing exactly
   * when every entry checks clean: a failure never stops the loop nor hides another.
   */
  lemma {:induction false} AllCheckedNoPatterns(env: Env, config: Config, media: seq<Media>)
    ensures Join(AllMediaErrs(env, config, [], media)).None? <==>
      forall i :: 0 <= i < |media| ==> CheckOutcome(env, config, media[i]).None?
  {
    if |media| > 0 {
      var init, last := media[..|media| - 1], media[|media| - 1];
      assert |NonNil(AllMediaErrs(env, config, [], init))| == 0 <==>
        forall i :: 0 <= i < |init| ==> CheckOutcome(env, config, init[i]).None? by {
        AllCheckedNoPatterns(env, config, init);
      }
      assert |NonNil(MediaErrs(env, config, [], last))| == 0 <==> CheckOutcome(env, config, last).None? by {
        MediaCheckedNoPatterns(env, config, last);
      }
      assert |NonNil(AllMediaErrs(env, config, [], media))| ==
        |NonNil(AllMediaErrs(env, config, [], init))| + |NonNil(MediaErrs(env, config, [], last))| by {
        NonNilAppend(AllMediaErrs(env, config, [], init), MediaErrs(env, config, [], last));
      }
      assert (forall i :: 0 <= i < |media| ==> CheckOutcome(env, config, media[i]).None?) <==>
        (forall i :: 0 <= i < |init| ==> CheckOutcome(env, config, init[i]).None?) &&
        CheckOutcome(env, config, last).None? by {
        assert forall i :: 0 <= i < |init| ==> init[i] == media[i];
      }
    }
  }

  /** Without patterns, one entry adds an error exactly when its check fails. */
  lemma MediaCheckedNoPatterns(env: Env, config: Config, med: Media)
    ensures |NonNil(MediaErrs(env, config, [], med))| == 0 <==> CheckOutcome(env, config, med).None?
  {
  }
}
