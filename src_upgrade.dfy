/**
 * The upgrade handlers of the first tools (src/medhash-upgrade): `handleUpgradeV010` turns a
 * `sha256sum`-style `sums.txt` into a manifest, and `handleUpgradeV020` rewrites a manifest as
 * version 0.3.0; both verify every file first and write nothing when one fails.
 *
 * The tool's version (`packageinfo.Version`), decoding the manifest (`json.Unmarshal`, which
 * gives the decoded value together with its error) and writing the result (`MarshalIndent`,
 * `os.Create` and `Write`, reduced to their error) are parameters. A handler's outcome is the
 * manifest it hands to the writing step, if any, and the error it returns.
 */
module SrcUpgrade {
  import opened Outcomes
  import opened GoErrors
  import opened GoLib
  import opened Platform
  import opened SrcData

  const IntegrityError: Error := Leaf("media integrity")

  /** What a handler did: the manifest handed to the writing step, if any, and the error returned. */
  datatype Outcome = Outcome(written: Option<Medhash>, err: Option<Error>)

  /** Whether `root` is ".". */
  predicate IsDot(root: string) {
    |root| == 1 && root[0] == '.'
  }

  /** The path a stored media path is checked at: under `root`, unless `root` is ".". */
  function CompPath(root: string, path: string): string {
    if !IsDot(root) then root + "/" + path else path
  }

  /** A leading "./" is dropped, but only when something follows it. */
  function StripDotSlash(p: string): string {
    if |p| > 2 && p[..2] == "./" then p[2..] else p
  }

  lemma StripDotSlashCases(q: string)
    ensures |q| > 0 ==> StripDotSlash("./" + q) == q
    ensures StripDotSlash("./") == "./"
    ensures !HasPrefix(q, "./") ==> StripDotSlash(q) == q
  {
    if |q| > 0 {
      assert ("./" + q)[..2] == "./";
      assert ("./" + q)[2..] == q;
    }
  }

  /**
   * One line of `sums.txt`: the parts around two-space separators; with at least two, the
   * path (part 1, "./" dropped) and the legacy SHA256 (part 0). Further parts are ignored.
   */
  function LineEntry(line: string): Option<(string, string)> {
    var parts := Split(line, "  ");
    if |parts| > 1 then Some((StripDotSlash(parts[1]), parts[0])) else None
  }

  /** A string without the separator is a single part. */
  lemma SplitWithout(s: string, sep: string)
    requires |sep| > 0 && !Contains(s, sep)
    ensures Split(s, sep) == [s]
  {
  }

  /** A line without two consecutive spaces, such as an empty line, is ignored. */
  lemma LineWithoutSeparator(line: string)
    requires !Contains(line, "  ")
    ensures LineEntry(line) == None
  {
    SplitWithout(line, "  ");
  }

  /**
   * A `sha256sum` line, a digest without white space, two spaces and a path without two
   * consecutive spaces, gives that path, "./" dropped, with that digest.
   */
  lemma SumsLine(h: string, p: string)
    requires NoSpace(h) && !Contains(p, "  ")
    ensures LineEntry(h + "  " + p) == Some((StripDotSlash(p), h))
  {
    var s := h + "  " + p;
    forall j: nat | j < |h| ensures !OccursAt(s, "  ", j) {
      assert s[j] == h[j];
      assert !IsSpace(h[j]);
    }
    assert OccursAt(s, "  ", |h|) by {
      assert s[|h|..|h| + 2] == "  ";
    }
    var i := IndexFrom(s, "  ", 0);
    assert i == Some(|h|);
    assert s[..|h|] == h && s[|h| + 2..] == p;
    SplitWithout(p, "  ");
    assert Split(s, "  ") == [h] + [p];
  }

  /** What the first pass does with one line. */
  datatype Step = Skipped | Failed | Kept(media: Media)

  /**
   * One line of the first pass: ignored without an entry; otherwise failed when the file
   * cannot be hashed or its SHA256 differs from the legacy one; else kept with the computed
   * digests and the stored (relative) path.
   */
  function LineStep(env: Env, root: string, line: string): Step {
    match LineEntry(line)
    case None => Skipped
    case Some((path, legacyHash)) =>
      match GenHash(env, CompPath(root, path))
      case Fail(_) => Failed
      case Ok(h) => if h.sha256 != legacyHash then Failed else Kept(Media(path, h))
  }

  /** The first pass over `lines`: the kept media in order, and the number of failed lines. */
  function FirstPass(env: Env, root: string, lines: seq<string>): (seq<Media>, nat) {
    if |lines| == 0 then ([], 0)
    else
      var r := FirstPass(env, root, lines[..|lines| - 1]);
      match LineStep(env, root, lines[|lines| - 1])
      case Skipped => r
      case Failed => (r.0, r.1 + 1)
      case Kept(m) => (r.0 + [m], r.1)
  }

  /** The entries of `lines` that parse, as (path, legacy SHA256), in order. */
  function Entries(lines: seq<string>): seq<(string, string)> {
    if |lines| == 0 then []
    else
      var init := Entries(lines[..|lines| - 1]);
      match LineEntry(lines[|lines| - 1])
      case None => init
      case Some(e) => init + [e]
  }

  /** Whether `data.ChkHash` accepts `m`, checked at its path under `root`. */
  predicate Checks(env: Env, root: string, m: Media) {
    ChkHash(env, CompPath(root, m.path), m.hash)
  }

  /** The number of media that `check` rejects. */
  function Rejected(check: Media -> bool, media: seq<Media>): nat {
    if |media| == 0 then 0
    else Rejected(check, media[..|media| - 1]) + (if check(media[|media| - 1]) then 0 else 1)
  }

  /** The number of media that `data.ChkHash` rejects. */
  function CheckFailures(env: Env, root: string, media: seq<Media>): nat {
    Rejected(m => Checks(env, root, m), media)
  }

  /** `handleUpgradeV010`. */
  function V010Outcome(env: Env, root: string, toolVersion: string, store: Medhash -> Option<Error>): Outcome {
    match ReadAll(env, root + "/sums.txt")
    case Fail(e) => Outcome(None, Some(e))
    case Ok(content) =>
      var pass := FirstPass(env, root, Split(BytesToString(content), "\n"));
      if pass.1 > 0 then Outcome(None, Some(IntegrityError))
      else if CheckFailures(env, root, pass.0) > 0 then Outcome(None, Some(IntegrityError))
      else
        var man := Medhash(toolVersion, pass.0);
        Outcome(Some(man), store(man))
  }

  /** `handleUpgradeV020` as written: the decoding error is dropped. */
  function V020AsWritten(env: Env, root: string, decode: Bytes -> (Medhash, Option<Error>),
                         store: Medhash -> Option<Error>): Outcome {
    match ReadAll(env, root + "/medhash.json")
    case Fail(e) => Outcome(None, Some(e))
    case Ok(content) =>
      var man := decode(content).0.(version := "0.3.0");
      if CheckFailures(env, root, man.media) > 0 then Outcome(None, Some(IntegrityError))
      else Outcome(Some(man), store(man))
  }

  /** `handleUpgradeV020` as evidently intended: a decoding error is returned and nothing is written. */
  function V020Outcome(env: Env, root: string, decode: Bytes -> (Medhash, Option<Error>),
                       store: Medhash -> Option<Error>): Outcome {
    match ReadAll(env, root + "/medhash.json")
    case Fail(e) => Outcome(None, Some(e))
    case Ok(content) =>
      if decode(content).1.Some? then Outcome(None, decode(content).1)
      else
        var man := decode(content).0.(version := "0.3.0");
        if CheckFailures(env, root, man.media) > 0 then Outcome(None, Some(IntegrityError))
        else Outcome(Some(man), store(man))
  }

  // ---------------------------------------------------------------- the handlers

  /** The first loop of `handleUpgradeV010`: parse each line, hash its file and keep it when the SHA256 agrees. */
  method ParseAndHash(env: Env, root: string, lines: seq<string>) returns (media: seq<Media>, errCount: nat)
    ensures (media, errCount) == FirstPass(env, root, lines)
  {
    media := [];
    errCount := 0;
    for i := 0 to |lines|
      invariant (media, errCount) == FirstPass(env, root, lines[..i])
    {
      FirstPassStep(env, root, lines, i);
      var legacyMedia := Split(lines[i], "  ");
      if |legacyMedia| > 1 {
        var legacyPath := legacyMedia[1];
        var legacyHash := legacyMedia[0];
        if |legacyPath| > 2 && legacyPath[..2] == "./" {
          legacyPath := legacyPath[2..];
        }
        var compPath := legacyPath;
        if !IsDot(root) {
          compPath := root + "/" + legacyPath;
        }
        var hash := GenHash(env, compPath);
        if hash.Fail? {
          errCount := errCount + 1;
        } else if hash.value.sha256 != legacyHash {
          errCount := errCount + 1;
        } else {
          media := media + [Media(legacyPath, hash.value)];
        }
      }
    }
    assert lines[..|lines|] == lines;
  }

  /** The first pass over one more line extends the pass over the lines before it by that line's step. */
  lemma FirstPassStep(env: Env, root: string, lines: seq<string>, i: nat)
    requires i < |lines|
    ensures var r := FirstPass(env, root, lines[..i]);
      FirstPass(env, root, lines[..i + 1]) ==
        match LineStep(env, root, lines[i])
        case Skipped => r
        case Failed => (r.0, r.1 + 1)
        case Kept(m) => (r.0 + [m], r.1)
  {
    assert lines[..i + 1][..i] == lines[..i];
  }

  /** The sanity-check loop: every media entry checked, without stopping at a failure, and the failures counted. */
  method CheckAll(env: Env, root: string, media: seq<Media>) returns (errCount: nat)
    ensures errCount == CheckFailures(env, root, media)
  {
    errCount := 0;
    for i := 0 to |media|
      invariant errCount == CheckFailures(env, root, media[..i])
    {
      assert media[..i + 1][..i] == media[..i];
      var compPath := media[i].path;
      if !IsDot(root) {
        compPath := root + "/" + compPath;
      }
      var berr := !ChkHash(env, compPath, media[i].hash);
      if berr {
        errCount := errCount + 1;
      }
    }
    assert media[..|media|] == media;
  }

  /** `handleUpgradeV010`. */
  method HandleUpgradeV010(env: Env, root: string, toolVersion: string, store: Medhash -> Option<Error>)
    returns (r: Outcome)
    ensures r == V010Outcome(env, root, toolVersion, store)
  {
    var legacyMedhashFile := ReadAll(env, root + "/sums.txt");
    if legacyMedhashFile.Fail? {
      return Outcome(None, Some(legacyMedhashFile.error));
    }
    var legacyMedhashMedia := Split(BytesToString(legacyMedhashFile.value), "\n");
    var media, errCount := ParseAndHash(env, root, legacyMedhashMedia);
    if errCount > 0 {
      return Outcome(None, Some(IntegrityError));
    }
    errCount := CheckAll(env, root, media);
    if errCount > 0 {
      return Outcome(None, Some(IntegrityError));
    }
    var medhash := Medhash(toolVersion, media);
    r := Outcome(Some(medhash), store(medhash));
  }

  /** `handleUpgradeV020` as written. */
  method HandleUpgradeV020AsWritten(env: Env, root: string, decode: Bytes -> (Medhash, Option<Error>),
                                    store: Medhash -> Option<Error>) returns (r: Outcome)
    ensures r == V020AsWritten(env, root, decode, store)
  {
    var medhashLegacyFile := ReadAll(env, root + "/medhash.json");
    if medhashLegacyFile.Fail? {
      return Outcome(None, Some(medhashLegacyFile.error));
    }
    var (medhash, _) := decode(medhashLegacyFile.value);
    medhash := medhash.(version := "0.3.0");
    var errCount := CheckAll(env, root, medhash.media);
    if errCount > 0 {
      return Outcome(None, Some(IntegrityError));
    }
    r := Outcome(Some(medhash), store(medhash));
  }

  /** `handleUpgradeV020` with the decoding error checked. */
  method HandleUpgradeV020(env: Env, root: string, decode: Bytes -> (Medhash, Option<Error>),
                           store: Medhash -> Option<Error>) returns (r: Outcome)
    ensures r == V020Outcome(env, root, decode, store)
  {
    var medhashLegacyFile := ReadAll(env, root + "/medhash.json");
    if medhashLegacyFile.Fail? {
      return Outcome(None, Some(medhashLegacyFile.error));
    }
    var (medhash, err) := decode(medhashLegacyFile.value);
    if err.Some? {
      return Outcome(None, err);
    }
    medhash := medhash.(version := "0.3.0");
    var errCount := CheckAll(env, root, medhash.media);
    if errCount > 0 {
      return Outcome(None, Some(IntegrityError));
    }
    r := Outcome(Some(medhash), store(medhash));
  }

  // ---------------------------------------------------------------- properties

  /** Nothing is rejected exactly when `check` accepts every entry. */
  lemma {:induction false} RejectedZero(check: Media -> bool, media: seq<Media>)
    ensures Rejected(check, media) == 0 <==> forall k :: 0 <= k < |media| ==> check(media[k])
  {
    if |media| > 0 {
      var init := media[..|media| - 1];
      RejectedZero(check, init);
      assert forall k :: 0 <= k < |init| ==> init[k] == media[k];
    }
  }

  /** No check fails exactly when every entry checks. */
  lemma CheckFailuresZero(env: Env, root: string, media: seq<Media>)
    ensures CheckFailures(env, root, media) == 0 <==> forall k :: 0 <= k < |media| ==> Checks(env, root, media[k])
  {
    RejectedZero(m => Checks(env, root, m), media);
  }

  /** Whether every line is ignored or kept. */
  predicate NoLineFails(env: Env, root: string, lines: seq<string>) {
    forall k :: 0 <= k < |lines| ==> !LineStep(env, root, lines[k]).Failed?
  }

  /** No line fails exactly when each line is ignored or kept. */
  lemma {:induction false} FirstPassClean(env: Env, root: string, lines: seq<string>)
    ensures FirstPass(env, root, lines).1 == 0 <==> NoLineFails(env, root, lines)
  {
    if |lines| > 0 {
      FirstPassClean(env, root, lines[..|lines| - 1]);
      FailedStep(env, root, lines);
      NoLineFailsStep(env, root, lines);
    }
  }

  /** The last line adds one failure when it fails, and none otherwise. */
  lemma FailedStep(env: Env, root: string, lines: seq<string>)
    requires |lines| > 0
    ensures FirstPass(env, root, lines).1 ==
      FirstPass(env, root, lines[..|lines| - 1]).1 + (if LineStep(env, root, lines[|lines| - 1]).Failed? then 1 else 0)
  {
  }

  lemma NoLineFailsStep(env: Env, root: string, lines: seq<string>)
    requires |lines| > 0
    ensures NoLineFails(env, root, lines) <==>
      NoLineFails(env, root, lines[..|lines| - 1]) && !LineStep(env, root, lines[|lines| - 1]).Failed?
  {
    var init := lines[..|lines| - 1];
    assert forall k :: 0 <= k < |init| ==> init[k] == lines[k];
  }

  /**
   * Without failures, the first pass keeps one entry per parsed line, in order: the line's
   * path, with the digests computed from the file, whose SHA256 is the legacy one.
   */
  lemma {:induction false} FirstPassEntries(env: Env, root: string, lines: seq<string>)
    requires FirstPass(env, root, lines).1 == 0
    ensures var media := FirstPass(env, root, lines).0;
      var es := Entries(lines);
      |media| == |es| &&
      forall k :: 0 <= k < |media| ==>
        media[k].path == es[k].0 && media[k].hash.sha256 == es[k].1 &&
        GenHash(env, CompPath(root, es[k].0)) == Ok(media[k].hash)
  {
    if |lines| > 0 {
      FirstPassEntries(env, root, lines[..|lines| - 1]);
    }
  }

  /** The sanity check of the second pass cannot fail: what the first pass kept was just computed from the same files. */
  lemma {:induction false} SecondPassRedundant(env: Env, root: string, lines: seq<string>)
    ensures CheckFailures(env, root, FirstPass(env, root, lines).0) == 0
  {
    if |lines| > 0 {
      var init := lines[..|lines| - 1];
      SecondPassRedundant(env, root, init);
      var before := FirstPass(env, root, init).0;
      match LineStep(env, root, lines[|lines| - 1])
      case Skipped =>
      case Failed =>
      case Kept(m) =>
        assert (before + [m])[..|before|] == before;
        assert Checks(env, root, m);
    }
  }

  /**
   * `handleUpgradeV010` writes a manifest exactly when `sums.txt` is readable and no line
   * fails; the manifest carries the tool's version and one entry per parsed line. When a
   * line fails, the error is "media integrity" and nothing is written.
   */
  lemma V010AllOrNothing(env: Env, root: string, toolVersion: string, store: Medhash -> Option<Error>)
    ensures var r := V010Outcome(env, root, toolVersion, store);
      var file := ReadAll(env, root + "/sums.txt");
      (r.written.Some? <==>
        (file.Ok? && NoLineFails(env, root, Split(BytesToString(file.value), "\n")))) &&
      (file.Ok? && r.written.None? ==> r.err == Some(IntegrityError)) &&
      (r.written.Some? ==>
        r.written.value.version == toolVersion &&
        r.written.value.media == FirstPass(env, root, Split(BytesToString(file.value), "\n")).0 &&
        r.err == store(r.written.value))
  {
    var file := ReadAll(env, root + "/sums.txt");
    if file.Ok? {
      var lines := Split(BytesToString(file.value), "\n");
      FirstPassClean(env, root, lines);
      SecondPassRedundant(env, root, lines);
      var pass := FirstPass(env, root, lines);
      assert V010Outcome(env, root, toolVersion, store) ==
        if pass.1 > 0 then Outcome(None, Some(IntegrityError))
        else Outcome(Some(Medhash(toolVersion, pass.0)), store(Medhash(toolVersion, pass.0)));
    } else {
      assert V010Outcome(env, root, toolVersion, store) == Outcome(None, Some(file.error));
    }
  }

  /**
   * (Corrected) `handleUpgradeV020` writes exactly when the manifest is readable, decodes
   * without error and every entry checks; what it writes is the decoded manifest with version
   * "0.3.0" and its media unchanged.
   */
  lemma V020AllOrNothing(env: Env, root: string, decode: Bytes -> (Medhash, Option<Error>),
                         store: Medhash -> Option<Error>)
    ensures var r := V020Outcome(env, root, decode, store);
      var file := ReadAll(env, root + "/medhash.json");
      (r.written.Some? <==>
        (file.Ok? && decode(file.value).1.None? &&
         forall k :: 0 <= k < |decode(file.value).0.media| ==> Checks(env, root, decode(file.value).0.media[k]))) &&
      (r.written.Some? ==>
        r.written.value == Medhash("0.3.0", decode(file.value).0.media) && r.err == store(r.written.value))
  {
    var file := ReadAll(env, root + "/medhash.json");
    if file.Ok? {
      CheckFailuresZero(env, root, decode(file.value).0.media);
    }
  }

  /**
   * As written, a `medhash.json` that does not decode (a syntax error, which leaves the
   * zero value) is replaced: an empty version 0.3.0 manifest is handed to the writing step.
   * With the decoding error checked, that error is returned and nothing is written.
   */
  lemma V020OverwritesUndecodable(env: Env, root: string, decode: Bytes -> (Medhash, Option<Error>),
                                  store: Medhash -> Option<Error>, e: Error)
    requires ReadAll(env, root + "/medhash.json").Ok?
    requires decode(ReadAll(env, root + "/medhash.json").value) == (Medhash("", []), Some(e))
    ensures V020AsWritten(env, root, decode, store).written == Some(Medhash("0.3.0", []))
    ensures V020Outcome(env, root, decode, store) == Outcome(None, Some(e))
  {
  }

  /**
   * Dropping the decoding error is the only difference between `handleUpgradeV020` as written
   * and as corrected: when the manifest cannot be read, or decodes without error, both give
   * the same outcome.
   */
  lemma V020AgreeWhenDecoded(env: Env, root: string, decode: Bytes -> (Medhash, Option<Error>),
                             store: Medhash -> Option<Error>)
    ensures var file := ReadAll(env, root + "/medhash.json");
      (file.Fail? || decode(file.value).1.None?) ==>
        V020AsWritten(env, root, decode, store) == V020Outcome(env, root, decode, store)
  {
  }
}
