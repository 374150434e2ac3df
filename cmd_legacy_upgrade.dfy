/**
 * `upgrade` of the earlier command-line tool (cmd/upgrade.go): turns a manifest of an older
 * format (the `sums.txt` of format 0.1.0, or a JSON manifest of formats 0.2.0 to 0.5.0) into a
 * current one. The version of a JSON manifest is read with a regular expression into three
 * numbers; the old manifest's media are checked against the files with `ChkHash` of the 0.5.0
 * library, and a new manifest is generated when the checks pass.
 *
 * Generating and writing the new manifest (`GenFunc` followed by `WriteFunc`) is the parameter
 * `genWrite`, which gives their errors; each outcome records whether it was invoked.
 * `objx.FromJSON` is the parameter `fromJson`, and the working directory is the parameter `cwd`.
 */
module LegacyUpgrade {
  import opened Outcomes
  import opened GoErrors
  import opened GoLib
  import opened Sequences
  import opened Platform
  import opened MedhashTypes
  import opened JsonValue
  import U = Upgrade
  import M050 = Medhash050
  import M040 = Medhash040

  // ---------------------------------------------------------------- semantic versions

  /** Where the run of decimal digits of `s` starting at `p` ends. */
  function DigitEnd(s: string, p: nat): (q: nat)
    requires p <= |s|
    ensures p <= q <= |s|
    decreases |s| - p
  {
    if p < |s| && IsDigit(s[p]) then DigitEnd(s, p + 1) else p
  }

  /** Where an optional character `c` at `p` ends: past it when present, at `p` otherwise. */
  function Skip(s: string, p: nat, c: char): (q: nat)
    requires p <= |s|
    ensures p <= q <= |s|
  {
    if p < |s| && s[p] == c then p + 1 else p
  }

  /** A match of the version pattern: where it ends and its three groups. */
  datatype PatternMatch = PatternMatch(end: nat, groups: seq<string>)

  /**
   * The match at `p` of the pattern `(?:v{0,1})([0-9]*)(?:\.{0,1})([0-9]*)(?:\.{0,1})([0-9]*)`.
   * Every part is optional, so a match exists at every position and the leftmost-first one
   * takes each part greedily.
   */
  function MatchAt(s: string, p: nat): (m: PatternMatch)
    requires p <= |s|
    ensures p <= m.end <= |s| && |m.groups| == 3
  {
    var a := Skip(s, p, 'v');
    var b := DigitEnd(s, a);
    var c := Skip(s, b, '.');
    var d := DigitEnd(s, c);
    var e := Skip(s, d, '.');
    var f := DigitEnd(s, e);
    PatternMatch(f, [s[a..b], s[c..d], s[e..f]])
  }

  /**
   * `ReplaceAllString(s, "$g")` from the search position `pos` on, the previous match having
   * ended at `last`: text between matches is kept, each match is replaced by its group `g`
   * except an empty match right after the previous one, and the search moves past each match,
   * by one character at least.
   */
  function ReplaceFrom(s: string, g: nat, pos: nat, last: nat): string
    requires g < 3 && last <= pos <= |s|
    decreases |s| - pos
  {
    var m := MatchAt(s, pos);
    var kept := s[last..pos] + (if m.end > last || pos == 0 then m.groups[g] else "");
    var next := if m.end > pos then m.end else pos + 1;
    if next > |s| then kept + s[m.end..] else kept + ReplaceFrom(s, g, next, m.end)
  }

  /** `pattern.ReplaceAllString(s, "$g")` for the group `g` (counted from 0). */
  function ReplaceAll(s: string, g: nat): string
    requires g < 3
  {
    ReplaceFrom(s, g, 0, 0)
  }

  /** `strconv.Atoi`, with 0 for a text it rejects. */
  function AtoiOrZero(s: string): int {
    var n := Atoi(s);
    if n.Ok? then n.value else 0
  }

  /** The three numbers `breakoutSemver` gives for a version text. */
  function Semver(s: string): seq<int> {
    [AtoiOrZero(ReplaceAll(s, 0)), AtoiOrZero(ReplaceAll(s, 1)), AtoiOrZero(ReplaceAll(s, 2))]
  }

  /** The loop of `breakoutSemver`: each text parsed, or 0 when it does not parse. */
  method ParseComponents(verStr: seq<string>) returns (ver: seq<int>)
    ensures |ver| == |verStr|
    ensures forall k :: 0 <= k < |verStr| ==> ver[k] == AtoiOrZero(verStr[k])
  {
    var v := new int[|verStr|];
    for i := 0 to |verStr|
      invariant forall k :: 0 <= k < i ==> v[k] == AtoiOrZero(verStr[k])
    {
      var n := Atoi(verStr[i]);
      if n.Ok? {
        v[i] := n.value;
      } else {
        v[i] := 0;
      }
    }
    ver := v[..];
  }

  /** `breakoutSemver`: each group's replacement, parsed, or 0 when it does not parse. */
  method BreakoutSemver(semver: string) returns (ver: seq<int>)
    ensures ver == Semver(semver)
  {
    var verStr := [ReplaceAll(semver, 0), ReplaceAll(semver, 1), ReplaceAll(semver, 2)];
    ver := ParseComponents(verStr);
  }

  /** The number a run of decimal digits stands for in a version: 0 when empty or beyond int64. */
  function ComponentValue(d: string): int
    requires AllDigits(d)
  {
    if |d| == 0 || DigitsValue(d) > Int64Max then 0 else DigitsValue(d)
  }

  lemma {:induction false} DigitEndIs(s: string, p: nat, q: nat)
    requires p <= q <= |s| && AllDigits(s[p..q])
    requires q == |s| || !IsDigit(s[q])
    ensures DigitEnd(s, p) == q
    decreases q - p
  {
    if p < q {
      assert s[p] == s[p..q][0];
      assert s[p + 1..q] == s[p..q][1..];
      DigitEndIs(s, p + 1, q);
    }
  }

  lemma DigitsParse(d: string)
    requires AllDigits(d)
    ensures AtoiOrZero(d) == ComponentValue(d)
  {
  }

  /** At the end of the text the pattern matches the empty string. */
  lemma MatchAtEnd(s: string)
    ensures MatchAt(s, |s|).end == |s|
  {
  }

  /** When the first match covers the whole text, each replacement is that match's group. */
  lemma ReplaceWhole(s: string, g: nat)
    requires g < 3 && MatchAt(s, 0).end == |s|
    ensures ReplaceAll(s, g) == MatchAt(s, 0).groups[g]
  {
    if |s| > 0 {
      MatchAtEnd(s);
      assert ReplaceFrom(s, g, |s|, |s|) == "";
    }
  }

  /** A text made of an optional "v" and three digit runs separated by dots is matched whole. */
  lemma MatchOfParts(s: string, a: nat, b: nat, d: nat)
    requires a <= b < d < |s| && Skip(s, 0, 'v') == a
    requires AllDigits(s[a..b]) && s[b] == '.' && AllDigits(s[b + 1..d]) && s[d] == '.' && AllDigits(s[d + 1..])
    ensures MatchAt(s, 0) == PatternMatch(|s|, [s[a..b], s[b + 1..d], s[d + 1..]])
  {
    DigitEndIs(s, a, b);
    DigitEndIs(s, b + 1, d);
    assert s[d + 1..|s|] == s[d + 1..];
    DigitEndIs(s, d + 1, |s|);
  }

  /** The first match of "X.Y.Z" (or "vX.Y.Z") with digit runs X, Y and Z is the whole text, with groups X, Y and Z. */
  lemma MatchWellFormed(prefix: string, x: string, y: string, z: string)
    requires prefix == "" || prefix == "v"
    requires AllDigits(x) && AllDigits(y) && AllDigits(z)
    ensures var s := prefix + x + "." + y + "." + z;
      MatchAt(s, 0) == PatternMatch(|s|, [x, y, z])
  {
    var s := prefix + x + "." + y + "." + z;
    var a := |prefix|;
    var b := a + |x|;
    var d := b + 1 + |y|;
    assert s[a..b] == x;
    assert s[b] == '.';
    assert s[b + 1..d] == y;
    assert s[d] == '.';
    assert s[d + 1..] == z;
    assert Skip(s, 0, 'v') == a by {
      if prefix == "" {
        assert s[0] == '.' || IsDigit(s[0]);
      } else {
        assert s[0] == 'v';
      }
    }
    MatchOfParts(s, a, b, d);
  }

  /**
   * A version written "X.Y.Z", with or without a leading "v", gives the numbers its three
   * runs of digits stand for.
   */
  lemma WellFormedSemver(prefix: string, x: string, y: string, z: string)
    requires prefix == "" || prefix == "v"
    requires AllDigits(x) && AllDigits(y) && AllDigits(z)
    ensures Semver(prefix + x + "." + y + "." + z) == [ComponentValue(x), ComponentValue(y), ComponentValue(z)]
  {
    var s := prefix + x + "." + y + "." + z;
    MatchWellFormed(prefix, x, y, z);
    ReplaceWhole(s, 0);
    ReplaceWhole(s, 1);
    ReplaceWhole(s, 2);
    DigitsParse(x);
    DigitsParse(y);
    DigitsParse(z);
  }

  /** Formatting three version numbers and breaking the text out again gives the numbers. */
  lemma SemverRoundTrip(prefix: string, x: nat, y: nat, z: nat)
    requires prefix == "" || prefix == "v"
    requires x <= Int64Max && y <= Int64Max && z <= Int64Max
    ensures Semver(prefix + NatToString(x) + "." + NatToString(y) + "." + NatToString(z)) == [x, y, z]
  {
    WellFormedSemver(prefix, NatToString(x), NatToString(y), NatToString(z));
  }

  /** An empty or missing version breaks out as 0.0.0. */
  lemma EmptySemver()
    ensures Semver("") == [0, 0, 0]
  {
    ReplaceWhole("", 0);
    ReplaceWhole("", 1);
    ReplaceWhole("", 2);
    assert MatchAt("", 0).groups == ["", "", ""];
    assert Atoi("") == Fail(ErrSyntax);
  }

  // ---------------------------------------------------------------- comparing versions

  /** Lexicographic order on equally long sequences of numbers. */
  predicate LexLess(x: seq<int>, y: seq<int>)
    requires |x| == |y|
  {
    |x| > 0 && (x[0] < y[0] || (x[0] == y[0] && LexLess(x[1..], y[1..])))
  }

  /** On triples, the lexicographic order compares the first components, then the second, then the third. */
  lemma LexLessTriple(a: seq<int>, b: seq<int>)
    requires |a| == 3 && |b| == 3
    ensures LexLess(a, b) <==>
      (a[0] < b[0] || (a[0] == b[0] && (a[1] < b[1] || (a[1] == b[1] && a[2] < b[2]))))
  {
    assert LexLess(a[1..][1..][1..], b[1..][1..][1..]) == false;
    assert LexLess(a[1..][1..], b[1..][1..]) <==> a[2] < b[2];
    assert LexLess(a[1..], b[1..]) <==> (a[1] < b[1] || (a[1] == b[1] && a[2] < b[2]));
  }

  /** The comparison of two broken-out versions: 1, -1 or 0, in the lexicographic order. */
  function CompareTriples(a: seq<int>, b: seq<int>): (r: int)
    requires |a| == 3 && |b| == 3
    ensures r == 0 || r == 1 || r == -1
    ensures r == 0 <==> a == b
    ensures r == -1 <==> LexLess(a, b)
    ensures r == 1 <==> LexLess(b, a)
  {
    LexLessTriple(a, b);
    LexLessTriple(b, a);
    assert a == [a[0], a[1], a[2]] && b == [b[0], b[1], b[2]];
    if a[0] > b[0] then 1
    else if a[0] < b[0] then -1
    else if a[1] > b[1] then 1
    else if a[1] < b[1] then -1
    else if a[2] > b[2] then 1
    else if a[2] < b[2] then -1
    else 0
  }

  /** `compareSemver`. */
  function CompareSemver(a: string, b: string): int {
    CompareTriples(Semver(a), Semver(b))
  }

  /** `compareSemver` is a total order on broken-out versions: reflexive and antisymmetric in sign. */
  lemma CompareSemverOrder(a: string, b: string)
    ensures CompareSemver(a, a) == 0
    ensures CompareSemver(a, b) == -CompareSemver(b, a)
    ensures CompareSemver(a, b) == 0 <==> Semver(a) == Semver(b)
  {
  }

  // ---------------------------------------------------------------- configuration

  /** The algorithm switches of the command line. */
  datatype CmdFlags = CmdFlags(all: bool, default: bool, xxh3: bool, sha3: bool, sha256: bool, sha1: bool, md5: bool)

  /**
   * The configuration `Execute` generates with: every algorithm with `all`, else the algorithms
   * asked for, else the default with `default`, else none.
   */
  function SelectConfig(f: CmdFlags): Config {
    if f.all then AllConfig
    else if f.xxh3 || f.sha3 || f.sha256 || f.sha1 || f.md5 then Flags(f.xxh3, false, f.sha3, f.sha256, f.sha1, f.md5)
    else if f.default then DefaultConfig
    else Flags(false, false, false, false, false, false)
  }

  /** The configuration chain at the start of `Execute`. */
  method ConfigOf(flags: CmdFlags) returns (config: Config)
    ensures config == SelectConfig(flags)
  {
    config := Flags(false, false, false, false, false, false);
    if flags.all {
      config := AllConfig;
    } else if flags.xxh3 || flags.sha3 || flags.sha256 || flags.sha1 || flags.md5 {
      config := config.(xxh3 := flags.xxh3, sha3 := flags.sha3, sha256 := flags.sha256, sha1 := flags.sha1,
                        md5 := flags.md5);
    } else if flags.default {
      config := DefaultConfig;
    }
  }

  /**
   * An algorithm asked for by name wins over `default`; SHA-512 is only enabled by `all`; with
   * nothing asked for and no preset, no algorithm is enabled.
   */
  lemma SelectConfigFlags(f: CmdFlags)
    ensures var c := SelectConfig(f);
      var asked := f.xxh3 || f.sha3 || f.sha256 || f.sha1 || f.md5;
      (f.all ==> forall a :: Flag(c, a)) &&
      (!f.all && asked ==> !c.sha512 && c.xxh3 == f.xxh3 && c.sha3 == f.sha3 && c.sha256 == f.sha256 &&
                           c.sha1 == f.sha1 && c.md5 == f.md5) &&
      (!f.all && !asked && f.default ==> forall a :: Flag(c, a) <==> a == XXH3) &&
      (!f.all && !asked && !f.default ==> forall a :: !Flag(c, a))
  {
    PresetConfigs();
  }

  // ---------------------------------------------------------------- the media array

  /** The check of one digest of a media object: an error unless it is a string, null or absent. */
  function DigestCheck(i: nat, med: Option<Json>, name: string, key: string): Option<Error> {
    var v := Get(med, ["hash", key]);
    if !IsStr(v) && !IsNil(v) then Some(Leaf("unexpected " + name + " for media " + IntToString(i) + ": " + ShowData(v)))
    else None
  }

  /**
   * One element of the media array as `mapToMedia` converts it: an object with a non-empty
   * path and the four digests of the old formats, each a string or missing; the first check
   * that fails gives the element's error.
   */
  function ConvertLegacy(i: nat, v: Json): Result<Media, Error> {
    if !v.JObject? then Fail(Leaf("unknown media " + IntToString(i) + ": " + TypeName(v) + " " + Show(v)))
    else
      var med := Some(v);
      var path := Get(med, ["path"]);
      if |Str(path)| == 0 then Fail(Leaf("unexpected path for media " + IntToString(i) + ": " + ShowData(path)))
      else
        var sha3 := DigestCheck(i, med, "sha3", "sha3-256");
        var sha256 := DigestCheck(i, med, "sha256", "sha256");
        var sha1 := DigestCheck(i, med, "sha1", "sha1");
        var md5 := DigestCheck(i, med, "md5", "md5");
        if sha3.Some? then Fail(sha3.value)
        else if sha256.Some? then Fail(sha256.value)
        else if sha1.Some? then Fail(sha1.value)
        else if md5.Some? then Fail(md5.value)
        else Ok(Media(Str(path), EmptyHash.(sha3_256 := Str(Get(med, ["hash", "sha3-256"])),
                                            sha256 := Str(Get(med, ["hash", "sha256"])),
                                            sha1 := Str(Get(med, ["hash", "sha1"])),
                                            md5 := Str(Get(med, ["hash", "md5"])))))
  }

  /** The digest keys of the old formats. */
  predicate LegacyDigestsConvertible(med: Option<Json>) {
    U.Convertible(Get(med, ["hash", "sha3-256"])) && U.Convertible(Get(med, ["hash", "sha256"])) &&
    U.Convertible(Get(med, ["hash", "sha1"])) && U.Convertible(Get(med, ["hash", "md5"]))
  }

  /**
   * An element converts exactly when it is an object with a non-empty path whose four digests
   * are strings or missing; the entry then carries the path and those four digests, nothing
   * else. A failure is a single error.
   */
  lemma ConvertLegacyIff(i: nat, v: Json)
    ensures var r := ConvertLegacy(i, v);
      (r.Ok? <==> v.JObject? && |Str(Get(Some(v), ["path"]))| > 0 && LegacyDigestsConvertible(Some(v))) &&
      (r.Ok? ==> r.value.path == Str(Get(Some(v), ["path"])) &&
                 r.value.hash.sha3_256 == Str(Get(Some(v), ["hash", "sha3-256"])) &&
                 r.value.hash.sha256 == Str(Get(Some(v), ["hash", "sha256"])) &&
                 r.value.hash.sha1 == Str(Get(Some(v), ["hash", "sha1"])) &&
                 r.value.hash.md5 == Str(Get(Some(v), ["hash", "md5"])) &&
                 r.value.hash.xxh3 == "" && r.value.hash.sha512 == "" && r.value.hash.sha3 == "") &&
      (r.Fail? ==> r.error.Leaf?)
  {
  }

  /** A two-key path goes through the first key's value. */
  lemma GetTwo(v: Option<Json>, k1: string, k2: string)
    ensures Get(v, [k1, k2]) == Get(Get(v, [k1]), [k2])
  {
    assert [k1, k2][1..] == [k2];
    assert [k1][1..] == [];
  }

  /** An entry the 0.4.0 library wrote converts back to the entry, all four digests kept. */
  lemma V040EntryConverts(i: nat, m: M040.Media)
    requires |m.path| > 0
    ensures ConvertLegacy(i, M040.MediaJson(m)) == Ok(U.FromV040(m))
  {
    var cur := U.FromV040(m);
    assert M040.HashJson(m.hash) == U.HashJson(cur.hash);
    assert M040.MediaJson(m) == U.MediaJson(cur);
    U.MediaJsonMembers(cur);
    U.DigestsReadBack(cur.hash);
    var v := Some(U.MediaJson(cur));
    var h := Some(U.HashJson(cur.hash));
    GetTwo(v, "hash", "sha3-256");
    GetTwo(v, "hash", "sha256");
    GetTwo(v, "hash", "sha1");
    GetTwo(v, "hash", "md5");
    U.DigestReadBack(cur.hash, "sha3-256", cur.hash.sha3_256);
    U.DigestReadBack(cur.hash, "sha256", cur.hash.sha256);
    U.DigestReadBack(cur.hash, "sha1", cur.hash.sha1);
    U.DigestReadBack(cur.hash, "md5", cur.hash.md5);
    ConvertLegacyIff(i, U.MediaJson(cur));
  }

  /** The errors of the failed conversions, in order. */
  function ConversionErrs(rs: seq<Result<Media, Error>>): seq<Error> {
    if |rs| == 0 then []
    else ConversionErrs(rs[..|rs| - 1]) + (if rs[|rs| - 1].Fail? then [rs[|rs| - 1].error] else [])
  }

  /** There are no conversion errors exactly when every conversion succeeded. */
  lemma {:induction false} ConversionErrsEmpty(rs: seq<Result<Media, Error>>)
    ensures |ConversionErrs(rs)| == 0 <==> forall k :: 0 <= k < |rs| ==> rs[k].Ok?
  {
    if |rs| > 0 {
      var init := rs[..|rs| - 1];
      ConversionErrsEmpty(init);
      assert forall k :: 0 <= k < |init| ==> init[k] == rs[k];
    }
  }

  /** What `mapToMedia` returns: a slot per element and the errors of the elements that failed. */
  function MapResult(legacyMed: Option<Json>): (seq<Media>, seq<Error>) {
    if !IsInterSlice(legacyMed) then ([], [Leaf("invalid media array: " + ShowData(legacyMed))])
    else
      var rs := U.Conversions(ConvertLegacy, legacyMed.value.items);
      (U.SlotsOf(rs), ConversionErrs(rs))
  }

  /** `mapToMedia`: one slot per element, filled by index; a failing element leaves the zero entry. */
  method MapToMedia(legacyMed: Option<Json>) returns (media: seq<Media>, errs: seq<Error>)
    ensures (media, errs) == MapResult(legacyMed)
  {
    if !IsInterSlice(legacyMed) {
      return [], [Leaf("invalid media array: " + ShowData(legacyMed))];
    }
    var legacy := legacyMed.value.items;
    ghost var rs := U.Conversions(ConvertLegacy, legacy);
    var converted := new Media[|legacy|](_ => U.ZeroMedia);
    errs := [];
    for i := 0 to |legacy|
      invariant converted[..i] == U.SlotsOf(rs[..i])
      invariant forall k :: i <= k < |legacy| ==> converted[k] == U.ZeroMedia
      invariant errs == ConversionErrs(rs[..i])
    {
      assert rs[..i + 1][..i] == rs[..i];
      var c := ConvertLegacy(i, legacy[i]);
      assert rs[i] == c;
      if c.Fail? {
        errs := errs + [c.error];
      }
      U.StoreSlot(converted, i, c, rs);
    }
    assert rs[..|rs|] == rs;
    assert converted[..] == converted[..|rs|];
    media := converted[..];
  }

  /**
   * A media array gives one slot per element, the converted entry or the zero entry; it gives
   * no error exactly when it is an array whose every element converts.
   */
  lemma MapResultSlots(legacyMed: Option<Json>)
    ensures var (media, errs) := MapResult(legacyMed);
      (|errs| == 0 <==>
        (IsInterSlice(legacyMed) &&
         forall k :: 0 <= k < |legacyMed.value.items| ==> ConvertLegacy(k, legacyMed.value.items[k]).Ok?)) &&
      (IsInterSlice(legacyMed) ==>
        (|media| == |legacyMed.value.items| &&
         forall k :: 0 <= k < |media| ==> media[k] == U.Slot(ConvertLegacy(k, legacyMed.value.items[k]))))
  {
    if IsInterSlice(legacyMed) {
      var items := legacyMed.value.items;
      var rs := U.Conversions(ConvertLegacy, items);
      ConversionErrsEmpty(rs);
      assert forall k :: 0 <= k < |rs| ==> rs[k] == ConvertLegacy(k, items[k]);
      forall k | 0 <= k < |rs| ensures U.SlotsOf(rs)[k] == U.Slot(ConvertLegacy(k, items[k])) {
        U.SlotsOfAt(rs, k);
      }
    }
  }

  // ---------------------------------------------------------------- checking media

  /**
   * `chkMedia`: the error of `ChkHash`, or an error naming the file when the digests do not
   * match, or nil.
   */
  function MediaErr(env: Env, config: Config, med: Media): Option<Error> {
    var (valid, err) := M050.CheckResult(env, config.dir, med);
    if err.Some? then err
    else if !valid then Some(Leaf("invalid hash for " + env.join(config.dir, med.path)))
    else None
  }

  method ChkMedia(env: Env, config: Config, med: Media) returns (err: Option<Error>)
    ensures err == MediaErr(env, config, med)
  {
    var valid;
    valid, err := M050.ChkHash(env, config.dir, med);
    if err.Some? {
      return;
    } else if !valid {
      err := Some(Leaf("invalid hash for " + env.join(config.dir, med.path)));
      return;
    }
  }

  /**
   * An entry checks clean exactly when its file is readable and each of the four compared
   * digests is empty or the file's; an unreadable file gives the read error, a mismatch the
   * error naming the file.
   */
  lemma MediaErrIff(env: Env, config: Config, med: Media)
    ensures var file := ReadAll(env, env.join(config.dir, med.path));
      var e := MediaErr(env, config, med);
      (file.Fail? ==> e == Some(file.error)) &&
      (file.Ok? ==>
        (e.None? <==> forall a :: a != XXH3 && a != SHA512 ==>
                        M050.Agrees(M050.Compared(med.hash, a), HexDigest(env, a, file.value))) &&
        (e.Some? ==> e == Some(Leaf("invalid hash for " + env.join(config.dir, med.path)))))
  {
    M050.ChkHashValidIff(env, config.dir, med);
  }

  /** The error list of one check: empty, or the error. */
  function ErrList(e: Option<Error>): seq<Error> {
    if e.Some? then [e.value] else []
  }

  /** The errors of checking every entry, in order. */
  function SliceErrs(env: Env, config: Config, media: seq<Media>): seq<Error> {
    Somes(m => MediaErr(env, config, m), media)
  }

  /** `chkMediaSlice`: checks every entry, keeping going after a failure. */
  method ChkMediaSlice(env: Env, config: Config, media: seq<Media>) returns (errs: seq<Error>)
    ensures errs == SliceErrs(env, config, media)
  {
    errs := [];
    for i := 0 to |media|
      invariant errs == SliceErrs(env, config, media[..i])
    {
      assert media[..i + 1][..i] == media[..i];
      var err := ChkMedia(env, config, media[i]);
      if err.Some? {
        errs := errs + [err.value];
      }
    }
    assert media[..|media|] == media;
  }

  /** Checking gives no error exactly when every entry checks clean. */
  lemma SliceErrsEmpty(env: Env, config: Config, media: seq<Media>)
    ensures |SliceErrs(env, config, media)| == 0 <==> forall k :: 0 <= k < |media| ==> MediaErr(env, config, media[k]).None?
  {
    SomesEmpty(m => MediaErr(env, config, m), media);
  }

  // ---------------------------------------------------------------- runs

  /** `GenFunc(config, ignores)` followed by `WriteFunc`: the errors of generating and writing a manifest. */
  type GenWrite = (Config, seq<string>) -> seq<Error>

  /** What an upgrade returns, and whether it went as far as generating a new manifest. */
  datatype LegacyRun = LegacyRun(errs: seq<Error>, generated: bool)

  // ---------------------------------------------------------------- format 0.1.0

  /** The checks of `sums.txt` under `dir`: the errors of its entries in line order, or the error of reading it. */
  function SumsChecks(env: Env, dir: string): Result<seq<Error>, Error> {
    match ReadAll(env, env.join(dir, "sums.txt"))
    case Fail(e) => Fail(e)
    case Ok(content) =>
      Ok(SliceErrs(env, U.V010ChkConfig.(dir := dir), U.LegacyMedia(Split(BytesToString(content), "\n"))))
  }

  /** The loop of `v010`: each line split into fields and, when it has two, its entry checked at once. */
  method CheckSumsLines(env: Env, chkConfig: Config, legacyMan: seq<string>) returns (errs: seq<Error>)
    ensures errs == SliceErrs(env, chkConfig, U.LegacyMedia(legacyMan))
  {
    errs := [];
    for i := 0 to |legacyMan|
      invariant errs == SliceErrs(env, chkConfig, U.LegacyMedia(legacyMan[..i]))
    {
      assert legacyMan[..i + 1][..i] == legacyMan[..i];
      ghost var before := U.LegacyMedia(legacyMan[..i]);
      var m := Fields(legacyMan[i]);
      assert |m| < 2 ==> U.LegacyMedia(legacyMan[..i + 1]) == before;
      if |m| < 1 {
        continue;
      } else if |m| < 2 {
        continue;
      }
      var newMed := Media(m[0], EmptyHash.(sha256 := m[1]));
      assert U.LegacyMedia(legacyMan[..i + 1]) == before + [newMed];
      assert (before + [newMed])[..|before|] == before;
      var err := ChkMedia(env, chkConfig, newMed);
      if err.Some? {
        errs := errs + [err.value];
        continue;
      }
    }
    assert legacyMan[..|legacyMan|] == legacyMan;
  }

  /**
   * `v010` as written: the check failures are appended to the errors, but the list meant to
   * hold them and to stop the upgrade stays empty, so a new manifest is generated whatever the
   * checks found.
   */
  function V010RunAsWritten(env: Env, genConfig: Config, ignores: seq<string>, genWrite: GenWrite): LegacyRun {
    match SumsChecks(env, genConfig.dir)
    case Fail(e) => LegacyRun([e], false)
    case Ok(checkErrs) => LegacyRun(checkErrs + genWrite(genConfig, ignores), true)
  }

  method V010AsWritten(env: Env, genConfig: Config, ignores: seq<string>, genWrite: GenWrite) returns (r: LegacyRun)
    ensures r == V010RunAsWritten(env, genConfig, ignores, genWrite)
  {
    var chkConfig := U.V010ChkConfig.(dir := genConfig.dir);
    var legacy := ReadAll(env, env.join(genConfig.dir, "sums.txt"));
    if legacy.Fail? {
      return LegacyRun([legacy.error], false);
    }
    var legacyMan := Split(BytesToString(legacy.value), "\n");
    var chkErrs: seq<Error> := [];
    var errs := CheckSumsLines(env, chkConfig, legacyMan);
    assert SumsChecks(env, genConfig.dir) == Ok(errs);
    errs := errs + chkErrs;
    assert errs == SumsChecks(env, genConfig.dir).value;
    if |chkErrs| > 0 {
      return LegacyRun(errs, false);
    }
    errs := errs + genWrite(genConfig, ignores);
    r := LegacyRun(errs, true);
  }

  /** `v010` as intended: the check failures stop the upgrade before anything is generated. */
  function V010Run(env: Env, genConfig: Config, ignores: seq<string>, genWrite: GenWrite): LegacyRun {
    match SumsChecks(env, genConfig.dir)
    case Fail(e) => LegacyRun([e], false)
    case Ok(checkErrs) =>
      if |checkErrs| > 0 then LegacyRun(checkErrs, false) else LegacyRun(genWrite(genConfig, ignores), true)
  }

  method V010(env: Env, genConfig: Config, ignores: seq<string>, genWrite: GenWrite) returns (r: LegacyRun)
    ensures r == V010Run(env, genConfig, ignores, genWrite)
  {
    var chkConfig := U.V010ChkConfig.(dir := genConfig.dir);
    var legacy := ReadAll(env, env.join(genConfig.dir, "sums.txt"));
    if legacy.Fail? {
      return LegacyRun([legacy.error], false);
    }
    var legacyMan := Split(BytesToString(legacy.value), "\n");
    var errs := CheckSumsLines(env, chkConfig, legacyMan);
    if |errs| > 0 {
      return LegacyRun(errs, false);
    }
    errs := errs + genWrite(genConfig, ignores);
    r := LegacyRun(errs, true);
  }

  /**
   * As written, an entry of `sums.txt` that fails its check is reported and yet a new manifest
   * is generated over the files; as intended, nothing is generated and the failures are all
   * that is returned.
   */
  lemma V010GeneratesDespiteFailures(env: Env, genConfig: Config, ignores: seq<string>, genWrite: GenWrite,
                                     content: Bytes, k: nat)
    requires ReadAll(env, env.join(genConfig.dir, "sums.txt")) == Ok(content)
    requires var media := U.LegacyMedia(Split(BytesToString(content), "\n"));
      k < |media| && MediaErr(env, U.V010ChkConfig.(dir := genConfig.dir), media[k]).Some?
    ensures var checkErrs := SumsChecks(env, genConfig.dir).value;
      |checkErrs| > 0 &&
      V010RunAsWritten(env, genConfig, ignores, genWrite) == LegacyRun(checkErrs + genWrite(genConfig, ignores), true) &&
      V010Run(env, genConfig, ignores, genWrite) == LegacyRun(checkErrs, false)
  {
    var media := U.LegacyMedia(Split(BytesToString(content), "\n"));
    SliceErrsEmpty(env, U.V010ChkConfig.(dir := genConfig.dir), media);
  }

  /**
   * All or nothing: a new manifest is generated exactly when `sums.txt` is read and every one
   * of its entries checks clean, and then only the errors of generating and writing are
   * returned; otherwise there is at least one error.
   */
  lemma V010AllOrNothing(env: Env, genConfig: Config, ignores: seq<string>, genWrite: GenWrite)
    ensures var r := V010Run(env, genConfig, ignores, genWrite);
      var checks := SumsChecks(env, genConfig.dir);
      (r.generated <==> checks == Ok([])) &&
      (r.generated ==> r.errs == genWrite(genConfig, ignores)) &&
      (!r.generated ==> |r.errs| > 0)
  {
  }

  /**
   * As written, `v010` generates exactly when `sums.txt` can be read, and returns the check
   * failures followed by the errors of generating and writing.
   */
  lemma V010AsWrittenRun(env: Env, genConfig: Config, ignores: seq<string>, genWrite: GenWrite)
    ensures var r := V010RunAsWritten(env, genConfig, ignores, genWrite);
      var checks := SumsChecks(env, genConfig.dir);
      (r.generated <==> checks.Ok?) &&
      (r.generated ==> r.errs == checks.value + genWrite(genConfig, ignores)) &&
      (!r.generated ==> r.errs == [checks.error])
  {
  }

  /** The entries of `sums.txt` that `v010` checks, when it is readable, check clean exactly when no error is reported. */
  lemma SumsChecksClean(env: Env, dir: string, content: Bytes, media: seq<Media>)
    requires ReadAll(env, env.join(dir, "sums.txt")) == Ok(content)
    requires media == U.LegacyMedia(Split(BytesToString(content), "\n"))
    ensures SumsChecks(env, dir) == Ok([]) <==>
      forall k :: 0 <= k < |media| ==> MediaErr(env, U.V010ChkConfig.(dir := dir), media[k]).None?
  {
    assert SumsChecks(env, dir) == Ok(SliceErrs(env, U.V010ChkConfig.(dir := dir), media));
    SliceErrsEmpty(env, U.V010ChkConfig.(dir := dir), media);
  }

  // ---------------------------------------------------------------- JSON formats 0.2.0 to 0.5.0

  /**
   * `upgradeV020` to `upgradeV050` for the format `triple`: an error unless the version is
   * non-empty and breaks out as `triple`, then an error when `gated` (format 0.5.0 not forced),
   * else the mapping errors followed by the check errors of every slot, with the algorithms
   * `chkFlags` the format stored.
   */
  function VersionErrs(env: Env, triple: seq<int>, chkFlags: Config, gated: bool, genConfig: Config,
                       legacy: seq<(string, Json)>): seq<Error> {
    var doc := Some(JObject(legacy));
    var version := Get(doc, ["version"]);
    var ver := Str(version);
    if |ver| == 0 || Semver(ver) != triple then [Leaf("unexpected version: " + ShowData(version))]
    else if gated then [Leaf("manifest v0.5.0 is the current spec")]
    else
      var (media, mapErrs) := MapResult(Get(doc, ["media"]));
      mapErrs + SliceErrs(env, chkFlags.(dir := genConfig.dir), media)
  }

  /** The common body of `upgradeV020` to `upgradeV050`. */
  method UpgradeVersion(env: Env, triple: seq<int>, chkFlags: Config, gated: bool, genConfig: Config,
                        legacy: seq<(string, Json)>) returns (errs: seq<Error>)
    ensures errs == VersionErrs(env, triple, chkFlags, gated, genConfig, legacy)
  {
    var chkConfig := chkFlags.(dir := genConfig.dir);
    var doc := Some(JObject(legacy));
    var ver := Str(Get(doc, ["version"]));
    if |ver| == 0 {
      return [Leaf("unexpected version: " + ShowData(Get(doc, ["version"])))];
    }
    var parsed := BreakoutSemver(ver);
    if parsed != triple {
      return [Leaf("unexpected version: " + ShowData(Get(doc, ["version"])))];
    }
    if gated {
      return [Leaf("manifest v0.5.0 is the current spec")];
    }
    var media, e := MapToMedia(Get(doc, ["media"]));
    errs := e;
    var chkErrs := ChkMediaSlice(env, chkConfig, media);
    errs := errs + chkErrs;
  }

  method UpgradeV020(env: Env, genConfig: Config, legacy: seq<(string, Json)>) returns (errs: seq<Error>)
    ensures errs == VersionErrs(env, [0, 2, 0], U.V020ChkConfig, false, genConfig, legacy)
  {
    errs := UpgradeVersion(env, [0, 2, 0], U.V020ChkConfig, false, genConfig, legacy);
  }

  method UpgradeV030(env: Env, genConfig: Config, legacy: seq<(string, Json)>) returns (errs: seq<Error>)
    ensures errs == VersionErrs(env, [0, 3, 0], U.V030ChkConfig, false, genConfig, legacy)
  {
    errs := UpgradeVersion(env, [0, 3, 0], U.V030ChkConfig, false, genConfig, legacy);
  }

  method UpgradeV040(env: Env, genConfig: Config, legacy: seq<(string, Json)>) returns (errs: seq<Error>)
    ensures errs == VersionErrs(env, [0, 4, 0], AllConfig, false, genConfig, legacy)
  {
    errs := UpgradeVersion(env, [0, 4, 0], AllConfig, false, genConfig, legacy);
  }

  method UpgradeV050(env: Env, genConfig: Config, legacy: seq<(string, Json)>, force: bool) returns (errs: seq<Error>)
    ensures errs == VersionErrs(env, [0, 5, 0], AllConfig, !force, genConfig, legacy)
  {
    errs := UpgradeVersion(env, [0, 5, 0], AllConfig, !force, genConfig, legacy);
  }

  /**
   * A version upgrade reports nothing exactly when the version is the expected one, the format
   * is not gated, the media value is an array whose every element converts, and every slot
   * checks clean.
   */
  lemma VersionErrsClean(env: Env, triple: seq<int>, chkFlags: Config, gated: bool, genConfig: Config,
                         legacy: seq<(string, Json)>)
    ensures var doc := Some(JObject(legacy));
      var ver := Str(Get(doc, ["version"]));
      var (media, mapErrs) := MapResult(Get(doc, ["media"]));
      |VersionErrs(env, triple, chkFlags, gated, genConfig, legacy)| == 0 <==>
        (|ver| > 0 && Semver(ver) == triple && !gated && |mapErrs| == 0 &&
         forall k :: 0 <= k < |media| ==> MediaErr(env, chkFlags.(dir := genConfig.dir), media[k]).None?)
  {
    var doc := Some(JObject(legacy));
    var (media, mapErrs) := MapResult(Get(doc, ["media"]));
    SliceErrsEmpty(env, chkFlags.(dir := genConfig.dir), media);
  }

  /** The format a broken-out version selects: its check algorithms and whether it is gated. */
  function Dispatch(v: seq<int>, force: bool): Option<(Config, bool)> {
    if v == [0, 2, 0] then Some((U.V020ChkConfig, false))
    else if v == [0, 3, 0] then Some((U.V030ChkConfig, false))
    else if v == [0, 4, 0] then Some((AllConfig, false))
    else if v == [0, 5, 0] then Some((AllConfig, !force))
    else None
  }

  /** The errors of `upgradeJSON`'s version switch. */
  function DispatchErrs(env: Env, genConfig: Config, legacy: seq<(string, Json)>, force: bool): seq<Error> {
    var version := Get(Some(JObject(legacy)), ["version"]);
    var v := Semver(Str(version));
    match Dispatch(v, force)
    case None => [Leaf("unexpected version: " + ShowData(version))]
    case Some((chkFlags, gated)) => VersionErrs(env, v, chkFlags, gated, genConfig, legacy)
  }

  /** `upgradeJSON`: read and parse `medhash.json`, upgrade by version, and generate when nothing failed. */
  function JsonRun(env: Env, fromJson: Bytes -> Result<seq<(string, Json)>, Error>, config: Config,
                   ignores: seq<string>, force: bool, genWrite: GenWrite): LegacyRun {
    match ReadAll(env, env.join(config.dir, DefaultManifestName))
    case Fail(e) => LegacyRun([e], false)
    case Ok(content) =>
      match fromJson(content)
      case Fail(e) => LegacyRun([e], false)
      case Ok(legacy) =>
        var errs := DispatchErrs(env, config, legacy, force);
        if |errs| > 0 then LegacyRun(errs, false) else LegacyRun(genWrite(config, ignores), true)
  }

  /** The version switch of `upgradeJSON`. */
  method DispatchVersion(env: Env, config: Config, legacy: seq<(string, Json)>, force: bool) returns (errs: seq<Error>)
    ensures errs == DispatchErrs(env, config, legacy, force)
  {
    var version := Get(Some(JObject(legacy)), ["version"]);
    var v := BreakoutSemver(Str(version));
    if v == [0, 2, 0] {
      errs := UpgradeV020(env, config, legacy);
    } else if v == [0, 3, 0] {
      errs := UpgradeV030(env, config, legacy);
    } else if v == [0, 4, 0] {
      errs := UpgradeV040(env, config, legacy);
    } else if v == [0, 5, 0] {
      errs := UpgradeV050(env, config, legacy, force);
    } else {
      errs := [Leaf("unexpected version: " + ShowData(version))];
    }
  }

  method UpgradeJson(env: Env, fromJson: Bytes -> Result<seq<(string, Json)>, Error>, config: Config,
                     ignores: seq<string>, force: bool, genWrite: GenWrite) returns (r: LegacyRun)
    ensures r == JsonRun(env, fromJson, config, ignores, force, genWrite)
  {
    var legacyFile := ReadAll(env, env.join(config.dir, DefaultManifestName));
    if legacyFile.Fail? {
      return LegacyRun([legacyFile.error], false);
    }
    var parsed := fromJson(legacyFile.value);
    if parsed.Fail? {
      return LegacyRun([parsed.error], false);
    }
    var errs := DispatchVersion(env, config, parsed.value, force);
    if |errs| > 0 {
      return LegacyRun(errs, false);
    }
    errs := errs + genWrite(config, ignores);
    r := LegacyRun(errs, true);
  }

  /**
   * All or nothing: a new manifest is generated exactly when `medhash.json` is read and parsed
   * and its upgrade reports nothing, and then only the errors of generating and writing are
   * returned; otherwise there is at least one error.
   */
  lemma JsonAllOrNothing(env: Env, fromJson: Bytes -> Result<seq<(string, Json)>, Error>, config: Config,
                         ignores: seq<string>, force: bool, genWrite: GenWrite)
    ensures var r := JsonRun(env, fromJson, config, ignores, force, genWrite);
      var file := ReadAll(env, env.join(config.dir, DefaultManifestName));
      (r.generated <==>
        (file.Ok? && fromJson(file.value).Ok? && |DispatchErrs(env, config, fromJson(file.value).value, force)| == 0)) &&
      (r.generated ==> r.errs == genWrite(config, ignores)) &&
      (!r.generated ==> |r.errs| > 0)
  {
  }

  /**
   * A version that breaks out as none of 0.2.0 to 0.5.0 (an empty or missing one included) is
   * rejected with the one error naming it, and so is a version 0.5.0 manifest unless forced.
   */
  lemma UnsupportedVersion(env: Env, config: Config, legacy: seq<(string, Json)>, force: bool)
    ensures var version := Get(Some(JObject(legacy)), ["version"]);
      var v := Semver(Str(version));
      (v !in {[0, 2, 0], [0, 3, 0], [0, 4, 0], [0, 5, 0]} ==>
        DispatchErrs(env, config, legacy, force) == [Leaf("unexpected version: " + ShowData(version))]) &&
      (|Str(version)| == 0 ==>
        DispatchErrs(env, config, legacy, force) == [Leaf("unexpected version: " + ShowData(version))]) &&
      (v == [0, 5, 0] && !force ==>
        DispatchErrs(env, config, legacy, force) == [Leaf("manifest v0.5.0 is the current spec")])
  {
    var version := Get(Some(JObject(legacy)), ["version"]);
    if |Str(version)| == 0 {
      EmptySemver();
    }
  }

  // ---------------------------------------------------------------- manifests of the 0.4.0 library

  /** The entries of a 0.4.0 manifest in the current form. */
  function FromV040All(ms: seq<M040.Media>): (r: seq<Media>)
    ensures |r| == |ms|
  {
    seq(|ms|, k requires 0 <= k < |ms| => U.FromV040(ms[k]))
  }

  /** The media array the 0.4.0 library writes maps to its entries in the current form, with no error. */
  lemma V040MediaArray(ms: seq<M040.Media>)
    requires forall k :: 0 <= k < |ms| ==> |ms[k].path| > 0
    ensures MapResult(Some(JArray(M040.MediaItems(ms)))) == (FromV040All(ms), [])
  {
    var items := M040.MediaItems(ms);
    var rs := U.Conversions(ConvertLegacy, items);
    forall k | 0 <= k < |rs| ensures rs[k] == Ok(U.FromV040(ms[k])) {
      assert rs[k] == ConvertLegacy(k, items[k]) && items[k] == M040.MediaJson(ms[k]);
      V040EntryConverts(k, ms[k]);
    }
    ConversionErrsEmpty(rs);
    forall k | 0 <= k < |rs| ensures U.SlotsOf(rs)[k] == FromV040All(ms)[k] {
      U.SlotsOfAt(rs, k);
    }
    assert U.SlotsOf(rs) == FromV040All(ms);
  }

  /** The version and media members of a manifest the 0.4.0 library writes. */
  lemma V040ManifestMembers(m: M040.Manifest)
    requires m.media.Some?
    ensures var doc := Some(M040.ManifestJson(m));
      Get(doc, ["version"]) == Some(JString(m.version)) &&
      Get(doc, ["media"]) == Some(JArray(M040.MediaItems(m.media.value)))
  {
    var head := OmitEmpty("generator", m.generator);
    var rest := [("media", JArray(M040.MediaItems(m.media.value))), ("version", JString(m.version))];
    U.MemberAppend(head, rest, "version");
    U.MemberAppend(head, rest, "media");
    assert "generator"[0] != "version"[0] && "generator"[0] != "media"[0] && "media"[0] != "version"[0];
    assert Member(rest, "version") == Member(rest[1..], "version");
    assert ["version"][1..] == [] && ["media"][1..] == [];
  }

  /** The text "0.4.0" breaks out as 0.4.0. */
  lemma Semver040()
    ensures Semver("0.4.0") == [0, 4, 0]
  {
    assert NatToString(0) == "0" && NatToString(4) == "4";
    assert "" + NatToString(0) + "." + NatToString(4) + "." + NatToString(0) == "0.4.0";
    SemverRoundTrip("", 0, 4, 0);
  }

  /**
   * A manifest the 0.4.0 library wrote, with media, is upgraded as format 0.4.0: its entries
   * are read back with all four digests, and the only errors are those of checking them.
   */
  lemma V040ManifestUpgrades(env: Env, genConfig: Config, m: M040.Manifest, force: bool)
    requires m.version == M040.ManifestFormatVer && m.media.Some?
    requires forall k :: 0 <= k < |m.media.value| ==> |m.media.value[k].path| > 0
    ensures DispatchErrs(env, genConfig, M040.ManifestJson(m).members, force) ==
      SliceErrs(env, AllConfig.(dir := genConfig.dir), FromV040All(m.media.value))
  {
    V040ManifestMembers(m);
    Semver040();
    V040MediaArray(m.media.value);
    assert Some(JObject(M040.ManifestJson(m).members)) == Some(M040.ManifestJson(m));
    assert Dispatch([0, 4, 0], force) == Some((AllConfig, false));
  }

  // ---------------------------------------------------------------- the directories

  /**
   * What upgrading one directory returns: by `medhash.json` when it exists, else by `sums.txt`
   * when that exists (with `v010` as written), else the error of looking for `sums.txt`.
   */
  function DirRun(env: Env, fromJson: Bytes -> Result<seq<(string, Json)>, Error>, config: Config,
                  ignores: seq<string>, force: bool, genWrite: GenWrite, dir: string): LegacyRun {
    var c := config.(dir := dir);
    if env.join(dir, DefaultManifestName) !in env.fs then
      var sums := env.join(dir, "sums.txt");
      if sums !in env.fs then LegacyRun([NotExistError("stat", sums)], false)
      else V010RunAsWritten(env, c, ignores, genWrite)
    else JsonRun(env, fromJson, c, ignores, force, genWrite)
  }

  /** The body of the directory loop of `Execute`. */
  method UpgradeDir(env: Env, fromJson: Bytes -> Result<seq<(string, Json)>, Error>, config: Config,
                    ignores: seq<string>, force: bool, genWrite: GenWrite, dir: string) returns (r: LegacyRun)
    ensures r == DirRun(env, fromJson, config, ignores, force, genWrite, dir)
  {
    var c := config.(dir := dir);
    if env.join(dir, DefaultManifestName) !in env.fs {
      var sums := env.join(dir, "sums.txt");
      if sums !in env.fs {
        r := LegacyRun([NotExistError("stat", sums)], false);
      } else {
        r := V010AsWritten(env, c, ignores, genWrite);
      }
    } else {
      r := UpgradeJson(env, fromJson, c, ignores, force, genWrite);
    }
  }

  /** Whether `dir` is upgraded from `sums.txt`: it has no `medhash.json`. */
  predicate FromSums(env: Env, dir: string) {
    env.join(dir, DefaultManifestName) !in env.fs
  }

  /**
   * A directory reports no error exactly when a new manifest was generated for it, generating
   * and writing it reported nothing and, for a directory upgraded from `sums.txt`, every entry
   * checked clean. As written, a directory upgraded from `sums.txt` gets a new manifest
   * whenever `sums.txt` can be read, whatever its checks found.
   */
  lemma DirRunClean(env: Env, fromJson: Bytes -> Result<seq<(string, Json)>, Error>, config: Config,
                    ignores: seq<string>, force: bool, genWrite: GenWrite, dir: string)
    ensures var r := DirRun(env, fromJson, config, ignores, force, genWrite, dir);
      |r.errs| == 0 <==>
        r.generated && |genWrite(config.(dir := dir), ignores)| == 0 &&
        (FromSums(env, dir) ==> SumsChecks(env, dir) == Ok([]))
    ensures var r := DirRun(env, fromJson, config, ignores, force, genWrite, dir);
      FromSums(env, dir) ==> (r.generated <==> SumsChecks(env, dir).Ok?)
  {
    var c := config.(dir := dir);
    if FromSums(env, dir) {
      var sums := env.join(dir, "sums.txt");
      if sums in env.fs {
        V010AsWrittenRun(env, c, ignores, genWrite);
      } else {
        assert ReadAll(env, sums).Fail?;
      }
    } else {
      JsonAllOrNothing(env, fromJson, c, ignores, force, genWrite);
    }
  }

  /** Whether upgrading `dir` reports an error. */
  predicate DirFailed(env: Env, fromJson: Bytes -> Result<seq<(string, Json)>, Error>, config: Config,
                      ignores: seq<string>, force: bool, genWrite: GenWrite, dir: string) {
    |DirRun(env, fromJson, config, ignores, force, genWrite, dir).errs| > 0
  }

  /** Whether upgrading one of `dirs` reports an error. */
  predicate AnyFailed(env: Env, fromJson: Bytes -> Result<seq<(string, Json)>, Error>, config: Config,
                      ignores: seq<string>, force: bool, genWrite: GenWrite, dirs: seq<string>) {
    AnyOf(dir => DirFailed(env, fromJson, config, ignores, force, genWrite, dir), dirs)
  }

  /** Some directory fails exactly when one of them reports an error. */
  lemma AnyFailedIff(env: Env, fromJson: Bytes -> Result<seq<(string, Json)>, Error>, config: Config,
                      ignores: seq<string>, force: bool, genWrite: GenWrite, dirs: seq<string>)
    ensures AnyFailed(env, fromJson, config, ignores, force, genWrite, dirs) <==>
      exists k :: 0 <= k < |dirs| && DirFailed(env, fromJson, config, ignores, force, genWrite, dirs[k])
  {
    AnyOfIff(dir => DirFailed(env, fromJson, config, ignores, force, genWrite, dir), dirs);
  }

  /** The directory loop of `Execute`: every directory upgraded in turn; the status is 1 exactly when one failed. */
  method UpgradeDirs(env: Env, fromJson: Bytes -> Result<seq<(string, Json)>, Error>, config: Config,
                     ignores: seq<string>, force: bool, genWrite: GenWrite, dirs: seq<string>) returns (status: int)
    ensures status == 1 <==> AnyFailed(env, fromJson, config, ignores, force, genWrite, dirs)
    ensures status == 0 <==> !AnyFailed(env, fromJson, config, ignores, force, genWrite, dirs)
  {
    status := 0;
    for i := 0 to |dirs|
      invariant status == 0 || status == 1
      invariant status == 1 <==> AnyFailed(env, fromJson, config, ignores, force, genWrite, dirs[..i])
    {
      AnyOfStep(dir => DirFailed(env, fromJson, config, ignores, force, genWrite, dir), dirs, i);
      var r := UpgradeDir(env, fromJson, config, ignores, force, genWrite, dirs[i]);
      if |r.errs| > 0 {
        status := 1;
      }
    }
    assert dirs[..|dirs|] == dirs;
  }

  /** The `upgrade` subcommand: its arguments, which `Execute` completes before upgrading. */
  class UpgradeCmd {
    var dirs: seq<string>
    var ignores: seq<string>
    const force: bool
    const flags: CmdFlags

    constructor (dirs: seq<string>, ignores: seq<string>, force: bool, flags: CmdFlags)
      ensures this.dirs == dirs && this.ignores == ignores && this.force == force && this.flags == flags
    {
      this.dirs := dirs;
      this.ignores := ignores;
      this.force := force;
      this.flags := flags;
    }

    /**
     * `Execute`: without directories the working directory is upgraded, and when it cannot be
     * found the status is 1 and nothing else happens; otherwise the manifest's name joins the
     * ignore list, every directory is upgraded, and the status is 1 exactly when one of them
     * reported an error.
     */
    method Execute(env: Env, cwd: Result<string, Error>, fromJson: Bytes -> Result<seq<(string, Json)>, Error>,
                   genWrite: GenWrite) returns (status: int)
      modifies this
      ensures |old(dirs)| == 0 && cwd.Fail? ==> status == 1 && dirs == old(dirs) && ignores == old(ignores)
      ensures |old(dirs)| > 0 || cwd.Ok? ==>
        dirs == (if |old(dirs)| == 0 then [cwd.value] else old(dirs)) &&
        ignores == U.WithManifestIgnored(old(ignores)) &&
        (status == 1 <==> AnyFailed(env, fromJson, SelectConfig(flags), ignores, force, genWrite, dirs)) &&
        (status == 0 <==> !AnyFailed(env, fromJson, SelectConfig(flags), ignores, force, genWrite, dirs))
    {
      var config := ConfigOf(flags);
      if |dirs| < 1 {
        if cwd.Fail? {
          status := 1;
          return;
        }
        dirs := dirs + [cwd.value];
      }
      ignores := U.AugmentIgnores(ignores);
      status := UpgradeDirs(env, fromJson, config, ignores, force, genWrite, dirs);
    }
  }
}
