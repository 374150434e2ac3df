/**
 * `chk` of the earlier command-line tool (cmd/chk.go): checks the media of a manifest against
 * the files of each directory, optionally only the media whose path matches one of the given
 * patterns, and collects every failure.
 *
 * Decoding the manifest (`json.Unmarshal` into a `Manifest`) is the parameter `parse`, which
 * gives its media; the working directory is the parameter `cwd`. An entry is checked with
 * `ChkHash` of the 0.5.0 library, as `LegacyUpgrade.MediaErr` states.
 */
module LegacyChk {
  import opened Outcomes
  import opened GoErrors
  import opened GoLib
  import opened Sequences
  import opened Platform
  import opened MedhashTypes
  import Chk
  import CmdErrors
  import M050 = Medhash050
  import MedhashHash
  import LU = LegacyUpgrade

  /** The manifest checked for `dir`: the one named on the command line, else `medhash.json` in `dir`. */
  function ManifestPath(env: Env, manifest: string, dir: string): string {
    if |manifest| > 0 then manifest else env.join(dir, DefaultManifestName)
  }

  /**
   * What one entry adds to the errors: with patterns, the errors of the patterns tried before
   * the first that matches, then, when one matched, the entry's check error; without
   * patterns, the check error alone.
   */
  function EntryErrs(env: Env, config: Config, files: seq<string>, med: Media): seq<Error> {
    var check := LU.ErrList(LU.MediaErr(env, config, med));
    if |files| == 0 then check
    else
      var m := Chk.MatchFiles(env, files, med.path);
      NonNil(m.0) + (if m.1 then check else [])
  }

  /** The errors of the entries, in order. */
  function EntriesErrs(env: Env, config: Config, files: seq<string>, media: seq<Media>): seq<Error> {
    if |media| == 0 then []
    else EntriesErrs(env, config, files, media[..|media| - 1]) + EntryErrs(env, config, files, media[|media| - 1])
  }

  /** What `chk` returns: the error of reading or decoding the manifest, or the errors of its entries. */
  function ChkErrs(env: Env, parse: Bytes -> Result<seq<Media>, Error>, manPath: string, config: Config,
                   files: seq<string>): seq<Error> {
    match ReadAll(env, manPath)
    case Fail(e) => [e]
    case Ok(content) =>
      match parse(content)
      case Fail(e) => [e]
      case Ok(media) => EntriesErrs(env, config, files, media)
  }

  /** The pattern loop of `chk`: a failing pattern's error is kept and the next one tried; the first match ends it. */
  method MatchPatterns(env: Env, files: seq<string>, path: string) returns (skipped: bool, errs: seq<Error>)
    ensures skipped == !Chk.MatchFiles(env, files, path).1
    ensures errs == NonNil(Chk.MatchFiles(env, files, path).0)
  {
    skipped := true;
    errs := [];
    ghost var met: seq<Option<Error>> := [];
    ghost var want := Chk.MatchFiles(env, files, path);
    var k := 0;
    assert files[k..] == files && met + want.0 == want.0;
    while k < |files| && skipped
      invariant 0 <= k <= |files|
      invariant errs == NonNil(met)
      invariant skipped ==> Chk.Remaining(want, env, files, path, k, met)
      invariant !skipped ==> want == (met, true)
      decreases |files| - k
    {
      Chk.RemainingStep(want, env, files, path, k, met);
      var matched := env.matchPattern(files[k], path);
      if matched.Fail? {
        errs := errs + [matched.error];
        CmdErrors.NonNilAppend(met, [Some(matched.error)]);
        met := met + [Some(matched.error)];
      } else if matched.value {
        skipped := false;
      }
      k := k + 1;
    }
    if skipped {
      assert files[k..] == [];
      assert met + [] == met;
    }
  }

  /** The body of `chk`'s media loop for one entry. */
  method CheckEntry(env: Env, config: Config, files: seq<string>, med: Media) returns (errs: seq<Error>)
    ensures errs == EntryErrs(env, config, files, med)
  {
    errs := [];
    if |files| > 0 {
      var skipped, matchErrs := MatchPatterns(env, files, med.path);
      errs := errs + matchErrs;
      if skipped {
        return;
      }
    }
    var valid, err := M050.ChkHash(env, config.dir, med);
    if err.None? && valid {
      return;
    } else {
      if err.None? {
        err := Some(Leaf("invalid hash for " + env.join(config.dir, med.path)));
      }
      errs := errs + [err.value];
    }
  }

  /** `chk`. */
  method RunChk(env: Env, parse: Bytes -> Result<seq<Media>, Error>, manPath: string, config: Config,
                files: seq<string>) returns (errs: seq<Error>)
    ensures errs == ChkErrs(env, parse, manPath, config, files)
  {
    var manFile := ReadAll(env, manPath);
    if manFile.Fail? {
      return [manFile.error];
    }
    var manifest := parse(manFile.value);
    if manifest.Fail? {
      return [manifest.error];
    }
    var media := manifest.value;
    errs := [];
    for i := 0 to |media|
      invariant errs == EntriesErrs(env, config, files, media[..i])
    {
      assert media[..i + 1][..i] == media[..i];
      var e := CheckEntry(env, config, files, media[i]);
      errs := errs + e;
    }
    assert media[..|media|] == media;
  }

  // ---------------------------------------------------------------- properties

  /**
   * An entry reports nothing exactly when no pattern tried before the first match failed and,
   * unless it was skipped, its file is readable with the compared digests agreeing. An entry
   * that no pattern matches is not checked at all.
   */
  lemma EntryErrsClean(env: Env, config: Config, files: seq<string>, med: Media)
    ensures var m := Chk.MatchFiles(env, files, med.path);
      var checked := |files| == 0 || m.1;
      (|EntryErrs(env, config, files, med)| == 0 <==>
        ((|files| == 0 || forall i :: 0 <= i < |m.0| ==> m.0[i].None?) &&
         (checked ==> LU.MediaErr(env, config, med).None?))) &&
      (!checked ==> EntryErrs(env, config, files, med) == NonNil(m.0))
  {
  }

  /** The entries report nothing exactly when each of them reports nothing. */
  lemma {:induction false} EntriesErrsClean(env: Env, config: Config, files: seq<string>, media: seq<Media>)
    ensures |EntriesErrs(env, config, files, media)| == 0 <==>
      forall k :: 0 <= k < |media| ==> |EntryErrs(env, config, files, media[k])| == 0
  {
    if |media| > 0 {
      var init := media[..|media| - 1];
      EntriesErrsClean(env, config, files, init);
      assert forall k :: 0 <= k < |init| ==> init[k] == media[k];
    }
  }

  /**
   * Media whose digests were generated from the files, under any configuration, all check
   * clean when no patterns are given.
   */
  lemma GeneratedMediaCheck(env: Env, config: Config, gens: seq<Config>, media: seq<Media>, contents: seq<Bytes>)
    requires env.Valid()
    requires |gens| == |media| == |contents|
    requires forall k :: 0 <= k < |media| ==>
      ReadAll(env, env.join(config.dir, media[k].path)) == Ok(contents[k]) &&
      media[k].hash == MedhashHash.HashOf(env, gens[k], contents[k])
    ensures EntriesErrs(env, config, [], media) == []
  {
    forall k | 0 <= k < |media| ensures |EntryErrs(env, config, [], media[k])| == 0 {
      M050.GenerateThenCheck050(env, gens[k], config.dir, media[k].path, contents[k]);
      assert media[k] == Media(media[k].path, MedhashHash.HashOf(env, gens[k], contents[k]));
    }
    EntriesErrsClean(env, config, [], media);
  }

  // ---------------------------------------------------------------- the command

  /** Whether checking `dir` reports an error. */
  predicate DirFailed(env: Env, parse: Bytes -> Result<seq<Media>, Error>, manifest: string, config: Config,
                      files: seq<string>, dir: string) {
    |ChkErrs(env, parse, ManifestPath(env, manifest, dir), config.(dir := dir), files)| > 0
  }

  /** Whether checking one of `dirs` reports an error. */
  predicate AnyFailed(env: Env, parse: Bytes -> Result<seq<Media>, Error>, manifest: string, config: Config,
                      files: seq<string>, dirs: seq<string>) {
    AnyOf(dir => DirFailed(env, parse, manifest, config, files, dir), dirs)
  }

  /** Some directory fails exactly when checking one of them reports an error. */
  lemma AnyFailedIff(env: Env, parse: Bytes -> Result<seq<Media>, Error>, manifest: string,
                      config: Config, files: seq<string>, dirs: seq<string>)
    ensures AnyFailed(env, parse, manifest, config, files, dirs) <==>
      exists k :: 0 <= k < |dirs| && DirFailed(env, parse, manifest, config, files, dirs[k])
  {
    AnyOfIff(dir => DirFailed(env, parse, manifest, config, files, dir), dirs);
  }

  /** The directory loop of `Execute`: every directory checked in turn; the status is 1 exactly when one failed. */
  method ChkDirs(env: Env, parse: Bytes -> Result<seq<Media>, Error>, manifest: string, config: Config,
                 files: seq<string>, dirs: seq<string>) returns (status: int)
    ensures status == 1 <==> AnyFailed(env, parse, manifest, config, files, dirs)
    ensures status == 0 <==> !AnyFailed(env, parse, manifest, config, files, dirs)
  {
    status := 0;
    for i := 0 to |dirs|
      invariant status == 0 || status == 1
      invariant status == 1 <==> AnyFailed(env, parse, manifest, config, files, dirs[..i])
    {
      AnyOfStep(dir => DirFailed(env, parse, manifest, config, files, dir), dirs, i);
      var dir := dirs[i];
      var conf := config.(dir := dir);
      var manPath: string;
      if |manifest| > 0 {
        manPath := manifest;
      } else {
        manPath := env.join(dir, DefaultManifestName);
      }
      var errs := RunChk(env, parse, manPath, conf, files);
      if |errs| > 0 {
        status := 1;
      }
    }
    assert dirs[..|dirs|] == dirs;
  }

  /** The `chk` subcommand: its arguments, which `Execute` completes before checking. */
  class ChkCmd {
    var dirs: seq<string>
    const manifest: string
    const files: seq<string>
    const flags: LU.CmdFlags

    constructor (dirs: seq<string>, manifest: string, files: seq<string>, flags: LU.CmdFlags)
      ensures this.dirs == dirs && this.manifest == manifest && this.files == files && this.flags == flags
    {
      this.dirs := dirs;
      this.manifest := manifest;
      this.files := files;
      this.flags := flags;
    }

    /**
     * `Execute`: without directories the working directory is checked, and when it cannot be
     * found the status is 1 and nothing else happens; otherwise every directory is checked and
     * the status is 1 exactly when one of them reported an error.
     */
    method Execute(env: Env, cwd: Result<string, Error>, parse: Bytes -> Result<seq<Media>, Error>)
      returns (status: int)
      modifies this
      ensures |old(dirs)| == 0 && cwd.Fail? ==> status == 1 && dirs == old(dirs)
      ensures |old(dirs)| > 0 || cwd.Ok? ==>
        dirs == (if |old(dirs)| == 0 then [cwd.value] else old(dirs)) &&
        (status == 1 <==> AnyFailed(env, parse, manifest, LU.SelectConfig(flags), files, dirs)) &&
        (status == 0 <==> !AnyFailed(env, parse, manifest, LU.SelectConfig(flags), files, dirs))
    {
      var config := LU.ConfigOf(flags);
      if |dirs| < 1 {
        if cwd.Fail? {
          status := 1;
          return;
        }
        dirs := dirs + [cwd.value];
      }
      status := ChkDirs(env, parse, manifest, config, files, dirs);
    }
  }
}
