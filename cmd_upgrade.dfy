/**
 * `upgrade` of the current command-line tool: turns a manifest of an older format (the
 * `sums.txt` of format 0.1.0, or a JSON manifest of formats 0.2.0 to 0.5.0) into a current one.
 * The old manifest is read, its media are checked against the files with the algorithms that
 * format stored, and only when every check passes is a new manifest generated.
 *
 * Generating (`gen.GenFunc`: walking the directory and writing the manifest) is the parameter
 * `gen`, which gives its error; each outcome records whether it was invoked. `objx.FromJSON`
 * is the parameter `fromJson`.
 */
module Upgrade {
  import opened Outcomes
  import opened GoErrors
  import opened GoLib
  import opened Platform
  import opened MedhashTypes
  import opened MedhashHash
  import opened CmdErrors
  import opened Medhash
  import opened Chk
  import opened JsonValue
  import M040 = Medhash040

  const CurrentSpec: string := "0.5.0"

  /** The algorithms each old format stored, and so the ones its media are checked with. */
  const V010ChkConfig: Config := Flags(false, false, false, true, false, false)
  const V020ChkConfig: Config := Flags(false, false, false, true, false, false)
  const V030ChkConfig: Config := Flags(false, false, false, true, true, true)
  const V040ChkConfig: Config := AllConfig
  const V050ChkConfig: Config := AllConfig

  /** `GenFunc(config, ignores)`: the error of generating a current manifest. */
  type Generator = (Config, seq<string>) -> Option<Error>

  /** What an upgrade returns, and whether it went as far as generating. */
  datatype Run = Run(err: Option<Error>, generated: bool)

  // ---------------------------------------------------------------- the ignore list

  /** The ignore list with the manifest's own name, added only when missing. */
  function WithManifestIgnored(ignores: seq<string>): seq<string> {
    if DefaultManifestName in ignores then ignores else ignores + [DefaultManifestName]
  }

  /** The ignore-list loop of `UpgradeAction`. */
  method AugmentIgnores(ignores: seq<string>) returns (r: seq<string>)
    ensures r == WithManifestIgnored(ignores)
  {
    var manifestIgnored := false;
    for i := 0 to |ignores|
      invariant manifestIgnored <==> DefaultManifestName in ignores[..i]
    {
      if ignores[i] == DefaultManifestName {
        manifestIgnored := true;
      }
      assert ignores[..i + 1] == ignores[..i] + [ignores[i]];
    }
    assert ignores[..|ignores|] == ignores;
    r := ignores;
    if !manifestIgnored {
      r := r + [DefaultManifestName];
    }
  }

  /** The list always ends up ignoring the manifest, keeps every given pattern, and adds nothing else. */
  lemma WithManifestIgnoredProps(ignores: seq<string>)
    ensures DefaultManifestName in WithManifestIgnored(ignores)
    ensures WithManifestIgnored(ignores)[..|ignores|] == ignores
    ensures |WithManifestIgnored(ignores)| == |ignores| + (if DefaultManifestName in ignores then 0 else 1)
    ensures WithManifestIgnored(WithManifestIgnored(ignores)) == WithManifestIgnored(ignores)
  {
  }

  /** The algorithm flags `UpgradeAction` generates with. */
  function UpgradeConfig(all: bool, default: bool, xxh3: bool, sha512: bool, sha3: bool, sha256: bool,
                         sha1: bool, md5: bool): Config {
    if all then AllConfig
    else if default then DefaultConfig
    else Flags(xxh3, sha512, sha3, sha256, sha1, md5)
  }

  /** Without a preset, exactly the algorithms asked for are enabled. */
  lemma UpgradeConfigFlags(all: bool, default: bool, xxh3: bool, sha512: bool, sha3: bool, sha256: bool,
                           sha1: bool, md5: bool)
    ensures var c := UpgradeConfig(all, default, xxh3, sha512, sha3, sha256, sha1, md5);
      (all ==> forall a :: Flag(c, a)) &&
      (!all && default ==> forall a :: Flag(c, a) <==> a == XXH3) &&
      (!all && !default ==> c.xxh3 == xxh3 && c.sha512 == sha512 && c.sha3 == sha3 &&
                            c.sha256 == sha256 && c.sha1 == sha1 && c.md5 == md5)
  {
    PresetConfigs();
  }

  // ---------------------------------------------------------------- format 0.1.0

  /** One line of `sums.txt`: a path and its SHA-256 digest, separated by white space. */
  function LegacyLine(line: string): Option<Media> {
    var f := Fields(line);
    if |f| < 2 then None else Some(Media(f[0], EmptyHash.(sha256 := f[1])))
  }

  /** The media of `sums.txt`, one per line with at least two fields, in order. */
  function LegacyMedia(lines: seq<string>): seq<Media> {
    if |lines| == 0 then []
    else
      var m := LegacyLine(lines[|lines| - 1]);
      LegacyMedia(lines[..|lines| - 1]) + (if m.Some? then [m.value] else [])
  }

  /** The parsing loop of `upgradeV010`. */
  method ParseLegacy(lines: seq<string>) returns (media: seq<Media>)
    ensures media == LegacyMedia(lines)
  {
    media := [];
    for i := 0 to |lines|
      invariant media == LegacyMedia(lines[..i])
    {
      var legacyMedia := Fields(lines[i]);
      assert lines[..i + 1][..i] == lines[..i];
      if |legacyMedia| < 1 {
        continue;
      } else if |legacyMedia| < 2 {
        continue;
      }
      media := media + [Media(legacyMedia[0], EmptyHash.(sha256 := legacyMedia[1]))];
    }
    assert lines[..|lines|] == lines;
  }

  /** A line "path  digest" (any white space between) gives exactly that entry, with only SHA-256 set. */
  lemma LegacyLineParses(path: string, sep: string, digest: string)
    requires |path| > 0 && NoSpace(path) && |digest| > 0 && NoSpace(digest)
    requires |sep| > 0 && forall k :: 0 <= k < |sep| ==> IsSpace(sep[k])
    ensures LegacyLine(path + sep + digest) == Some(Media(path, EmptyHash.(sha256 := digest)))
  {
    FieldsOfTwo(path, sep, digest);
  }

  /** Lines that each parse give their entries, in order. */
  lemma {:induction false} LegacyMediaOfLines(lines: seq<string>, entries: seq<Media>)
    requires |lines| == |entries|
    requires forall k :: 0 <= k < |lines| ==> LegacyLine(lines[k]) == Some(entries[k])
    ensures LegacyMedia(lines) == entries
  {
    if |lines| > 0 {
      var n := |lines| - 1;
      var init, last := lines[..n], entries[..n];
      assert LegacyMedia(init) == last by {
        assert forall k :: 0 <= k < n ==> init[k] == lines[k] && last[k] == entries[k];
        LegacyMediaOfLines(init, last);
      }
      assert LegacyLine(lines[n]) == Some(entries[n]);
      assert entries == last + [entries[n]];
    }
  }

  /** A line with fewer than two fields (blank, or one word) adds no entry. */
  lemma ShortLineSkipped(lines: seq<string>, line: string)
    requires |Fields(line)| < 2
    ensures LegacyMedia(lines + [line]) == LegacyMedia(lines)
  {
    assert (lines + [line])[..|lines|] == lines;
  }

  /** The outcome of `upgradeV010`. */
  function V010Outcome(env: Env, genConfig: Config, ignores: seq<string>, gen: Generator): Run {
    var chkConfig := V010ChkConfig.(dir := genConfig.dir);
    match ReadAll(env, env.join(chkConfig.dir, "sums.txt"))
    case Fail(e) => Run(Some(e), false)
    case Ok(content) =>
      var media := LegacyMedia(Split(BytesToString(content), "\n"));
      var chkErrs := Join(AllMediaErrs(env, chkConfig, [], media));
      if chkErrs.Some? then Run(Join(Flatten([None, chkErrs])), false)
      else Run(Join(Flatten([None, gen(genConfig, ignores + ["sums.txt"])])), true)
  }

  /** `upgradeV010`. */
  method UpgradeV010(env: Env, genConfig: Config, ignores: seq<string>, gen: Generator) returns (r: Run)
    ensures r == V010Outcome(env, genConfig, ignores, gen)
  {
    var chkConfig := V010ChkConfig.(dir := genConfig.dir);
    var legacyPath := env.join(chkConfig.dir, "sums.txt");
    var legacyManifest := ReadAll(env, legacyPath);
    if legacyManifest.Fail? {
      return Run(Some(legacyManifest.error), false);
    }
    var ignores' := ignores + ["sums.txt"];
    var legacyMedias := Split(BytesToString(legacyManifest.value), "\n");
    var media := ParseLegacy(legacyMedias);
    var chkErrs := ChkManifest(env, chkConfig, media);
    if chkErrs.Some? {
      var errs := JoinErrors([None, chkErrs]);
      return Run(errs, false);
    }
    var errs := JoinErrors([None, gen(genConfig, ignores')]);
    r := Run(errs, true);
  }

  /**
   * All or nothing: a new manifest is generated exactly when `sums.txt` is read and every one
   * of its entries checks clean; otherwise the joined check failures are returned.
   */
  lemma V010AllOrNothing(env: Env, genConfig: Config, ignores: seq<string>, gen: Generator,
                          chkConfig: Config, file: Result<Bytes, Error>, media: seq<Media>)
    requires chkConfig == V010ChkConfig.(dir := genConfig.dir)
    requires file == ReadAll(env, env.join(chkConfig.dir, "sums.txt"))
    requires file.Ok? ==> media == LegacyMedia(Split(BytesToString(file.value), "\n"))
    ensures var r := V010Outcome(env, genConfig, ignores, gen);
      (r.generated <==> file.Ok? && forall i :: 0 <= i < |media| ==> CheckOutcome(env, chkConfig, media[i]).None?) &&
      (file.Fail? ==> r.err == Some(file.error)) &&
      (file.Ok? && !r.generated ==> r.err == Join(AllMediaErrs(env, chkConfig, [], media)) && r.err.Some?)
  {
    if file.Ok? {
      var chkErrs := Join(AllMediaErrs(env, chkConfig, [], media));
      assert chkErrs.None? <==> forall i :: 0 <= i < |media| ==> CheckOutcome(env, chkConfig, media[i]).None? by {
        AllCheckedNoPatterns(env, chkConfig, media);
      }
      assert Join(Flatten([None, chkErrs])) == chkErrs by {
        RejoinJoined(AllMediaErrs(env, chkConfig, [], media));
      }
    }
  }

  // ---------------------------------------------------------------- JSON media

  /** The `hashErr` of a digest field that is neither a string nor absent. */
  function FieldErr(alg: string, i: nat, data: Option<Json>): Error {
    Leaf("unexpected " + alg + " for media " + IntToString(i) + ": " + ShowData(data))
  }

  /** `convertStrField`: a string is copied, nil or absent gives "", anything else is an error. */
  function ConvertStrField(i: nat, field: string, source: Option<Json>): (r: Result<string, Error>)
    ensures r.Ok? <==> IsStr(source) || IsNil(source)
    ensures r.Ok? && source.Some? && source.value.JString? ==> r.value == source.value.s
    ensures r.Ok? && IsNil(source) ==> r.value == ""
    ensures r.Fail? ==> r.error == FieldErr(field, i, source)
  {
    if !IsStr(source) && !IsNil(source) then Fail(FieldErr(field, i, source))
    else Ok(Str(source))
  }

  function ErrOf(r: Result<string, Error>): Option<Error> {
    if r.Ok? then None else Some(r.error)
  }

  /** The zero `Media`, which a slot keeps when its element cannot be converted. */
  const ZeroMedia: Media := Media("", EmptyHash)

  /**
   * The digest fields `mapToManifest` converts, in order: the name its error messages use and
   * the key of the `hash` object it reads.
   */
  function DigestFields(sha3_256Key: string): seq<(string, string)> {
    [("xxh3", "xxh3"), ("sha512", "sha512"), ("sha3", "sha3"), ("sha3_256", sha3_256Key),
     ("sha256", "sha256"), ("sha1", "sha1"), ("md5", "md5")]
  }

  /** The error of converting each of `fields` of the `hash` value `h`, nil for a field that converts. */
  function FieldErrs(i: nat, h: Option<Json>, fields: seq<(string, string)>): (r: seq<Option<Error>>)
    ensures |r| == |fields|
  {
    if |fields| == 0 then []
    else [ErrOf(ConvertStrField(i, fields[0].0, Get(h, [fields[0].1])))] + FieldErrs(i, h, fields[1..])
  }

  /** The digest errors of one element, in the order `mapToManifest` converts the fields. */
  function HashErrs(i: nat, h: Option<Json>, sha3_256Key: string): seq<Option<Error>> {
    FieldErrs(i, h, DigestFields(sha3_256Key))
  }

  /** Each field error is nil or a plain error; it is nil exactly when the field is convertible. */
  lemma {:induction false} FieldErrsAt(i: nat, h: Option<Json>, fields: seq<(string, string)>, j: nat)
    requires j < |fields|
    ensures var e := FieldErrs(i, h, fields)[j];
      (e.None? <==> Convertible(Get(h, [fields[j].1]))) && (e.None? || e.value.Leaf?)
  {
    if j > 0 {
      FieldErrsAt(i, h, fields[1..], j - 1);
    }
  }

  /** The digests of one element once every field converted: each field's string, "" when absent. */
  function HashOfJson(h: Option<Json>, sha3_256Key: string): Hash {
    Hash(Str(Get(h, ["xxh3"])), Str(Get(h, ["sha512"])), Str(Get(h, ["sha256"])), Str(Get(h, ["sha3"])),
         Str(Get(h, [sha3_256Key])), Str(Get(h, ["sha1"])), Str(Get(h, ["md5"])))
  }

  /**
   * One element of the `media` array as `mapToManifest` converts it, reading the deprecated
   * SHA3-256 digest from the key `sha3_256Key` of its `hash` object.
   */
  function ConvertMediaWith(i: nat, v: Json, sha3_256Key: string): Result<Media, Error> {
    if !v.JObject? then Fail(Leaf("unknown media " + IntToString(i) + ": " + TypeName(v) + " " + Show(v)))
    else
      var path := Get(Some(v), ["path"]);
      if |Str(path)| == 0 then Fail(Leaf("unexpected path for media " + IntToString(i) + ": " + ShowData(path)))
      else
        var h := Get(Some(v), ["hash"]);
        var hashErrs := Join(Flatten(HashErrs(i, h, sha3_256Key)));
        if hashErrs.Some? then Fail(hashErrs.value)
        else Ok(Media(Str(path), HashOfJson(h, sha3_256Key)))
  }

  /** The digest errors are plain, so joining them is `errors.Join`: none, or a non-empty join. */
  lemma HashErrsJoin(i: nat, h: Option<Json>, sha3_256Key: string)
    ensures Join(Flatten(HashErrs(i, h, sha3_256Key))) == Join(HashErrs(i, h, sha3_256Key))
  {
    var errs := HashErrs(i, h, sha3_256Key);
    forall j | 0 <= j < |errs| ensures errs[j].None? || errs[j].value.Leaf? {
      FieldErrsAt(i, h, DigestFields(sha3_256Key), j);
    }
    JoinErrorsPlain(errs);
  }

  /**
   * A converted element has a non-empty path, and its digests are the element's strings; a
   * failed one has a plain error naming it, or the non-empty join of its digest errors.
   */
  lemma ConvertMediaShape(i: nat, v: Json, sha3_256Key: string)
    ensures var r := ConvertMediaWith(i, v, sha3_256Key);
      (r.Ok? ==> |r.value.path| > 0 && r.value.hash == HashOfJson(Get(Some(v), ["hash"]), sha3_256Key)) &&
      (r.Fail? ==> !(r.error.Joined? && |r.error.errs| == 0))
  {
  }

  /** The key the current format stores the deprecated SHA3-256 digest under (its JSON tag `sha3-256`). */
  const Sha3_256Key: string := "sha3-256"

  /** The key `mapToManifest` reads the deprecated SHA3-256 digest from (`hash.sha3_256`). */
  const Sha3_256KeyAsWritten: string := "sha3_256"

  /** The conversion of one element, reading the SHA3-256 digest from the key the manifests use. */
  function ConvertMedia(i: nat, v: Json): Result<Media, Error> {
    ConvertMediaWith(i, v, Sha3_256Key)
  }

  /** The conversion of one element exactly as `mapToManifest` is written. */
  function ConvertMediaAsWritten(i: nat, v: Json): Result<Media, Error> {
    ConvertMediaWith(i, v, Sha3_256KeyAsWritten)
  }

  /** A conversion of one element of the `media` array, given its index. */
  type Converter = (nat, Json) -> Result<Media, Error>

  /** The conversion of every element, by index. */
  function Conversions(convert: Converter, items: seq<Json>): seq<Result<Media, Error>> {
    seq(|items|, k requires 0 <= k < |items| => convert(k, items[k]))
  }

  /** What one conversion adds to the accumulated errors: nothing, or its error unwrapped. */
  function ResultErrs(c: Result<Media, Error>): seq<Option<Error>> {
    if c.Ok? then [] else UnwrapJoinedErrors(Some(c.error))
  }

  /** What the conversions add to the accumulated errors, in order. */
  function ResultsErrs(rs: seq<Result<Media, Error>>): seq<Option<Error>> {
    if |rs| == 0 then [] else ResultsErrs(rs[..|rs| - 1]) + ResultErrs(rs[|rs| - 1])
  }

  /** The slot of a conversion: the converted entry, or the zero entry when conversion failed. */
  function Slot(c: Result<Media, Error>): Media {
    if c.Ok? then c.value else ZeroMedia
  }

  /** The slots of the conversions, in order. */
  function SlotsOf(rs: seq<Result<Media, Error>>): (r: seq<Media>)
    ensures |r| == |rs|
  {
    if |rs| == 0 then [] else SlotsOf(rs[..|rs| - 1]) + [Slot(rs[|rs| - 1])]
  }

  lemma {:induction false} SlotsOfAt(rs: seq<Result<Media, Error>>, k: nat)
    requires k < |rs|
    ensures SlotsOf(rs)[k] == Slot(rs[k])
  {
    if k < |rs| - 1 {
      SlotsOfAt(rs[..|rs| - 1], k);
    }
  }

  /** The outcome of `mapToManifest` converting each element with `convert`: the media table and the joined errors. */
  function MapOutcomeWith(legacyMedias: Option<Json>, convert: Converter): (seq<Media>, Option<Error>) {
    if !IsInterSlice(legacyMedias) then ([], Some(Leaf("invalid media array: " + ShowData(legacyMedias))))
    else
      var rs := Conversions(convert, legacyMedias.value.items);
      (SlotsOf(rs), Join(ResultsErrs(rs)))
  }

  /**
   * The outcome of `mapToManifest` as written, reading the SHA3-256 digest from `hash.sha3_256`:
   * what the version upgrades below map the media with.
   */
  function MapOutcome(legacyMedias: Option<Json>): (seq<Media>, Option<Error>) {
    MapOutcomeWith(legacyMedias, ConvertMediaAsWritten)
  }

  /** The error of conversion `i`, if any, joined to those of the conversions before it. */
  method NoteConversion(errs: Option<Error>, ghost acc: seq<Option<Error>>, c: Result<Media, Error>, i: nat,
                        ghost rs: seq<Result<Media, Error>>)
    returns (errs': Option<Error>, ghost acc': seq<Option<Error>>)
    requires i < |rs| && rs[i] == c
    requires acc == ResultsErrs(rs[..i]) && errs == Join(acc)
    ensures acc' == ResultsErrs(rs[..i + 1]) && errs' == Join(acc')
  {
    assert rs[..i + 1][..i] == rs[..i];
    errs', acc' := errs, acc;
    if c.Fail? {
      errs', acc' := JoinOne(errs, acc, Some(c.error));
    }
  }

  /** Slot `i` filled with the converted entry when the conversion succeeded; left as it is otherwise. */
  method StoreSlot(converted: array<Media>, i: nat, c: Result<Media, Error>, ghost rs: seq<Result<Media, Error>>)
    requires i < converted.Length && i < |rs| && rs[i] == c
    requires converted[..i] == SlotsOf(rs[..i])
    requires forall k :: i <= k < converted.Length ==> converted[k] == ZeroMedia
    modifies converted
    ensures converted[..i + 1] == SlotsOf(rs[..i + 1])
    ensures forall k :: i < k < converted.Length ==> converted[k] == ZeroMedia
  {
    if c.Ok? {
      converted[i] := c.value;
    }
    assert rs[..i + 1][..i] == rs[..i];
    assert converted[..i + 1] == converted[..i] + [Slot(c)];
  }

  /**
   * `mapToManifest`: one slot per element, filled by index; a failing element is skipped with its
   * error joined. The element conversion is a parameter, so that the loop serves the conversion as
   * written and the corrected one alike.
   */
  method MapToManifest(legacyMedias: Option<Json>, convert: Converter) returns (media: seq<Media>, errs: Option<Error>)
    ensures (media, errs) == MapOutcomeWith(legacyMedias, convert)
  {
    if !IsInterSlice(legacyMedias) {
      return [], Some(Leaf("invalid media array: " + ShowData(legacyMedias)));
    }
    var legacyMeds := legacyMedias.value.items;
    ghost var rs := Conversions(convert, legacyMeds);
    var converted := new Media[|legacyMeds|](_ => ZeroMedia);
    errs := None;
    ghost var acc: seq<Option<Error>> := [];
    for i := 0 to |legacyMeds|
      invariant converted[..i] == SlotsOf(rs[..i])
      invariant forall k :: i <= k < |legacyMeds| ==> converted[k] == ZeroMedia
      invariant acc == ResultsErrs(rs[..i]) && errs == Join(acc)
    {
      var c := convert(i, legacyMeds[i]);
      assert rs[i] == c;
      errs, acc := NoteConversion(errs, acc, c, i, rs);
      StoreSlot(converted, i, c, rs);
    }
    assert rs[..|rs|] == rs;
    assert converted[..] == converted[..|rs|];
    media := converted[..];
  }

  /**
   * The mapping reports no error exactly when the media value is an array whose every element
   * converts; then the table has one entry per element, in order, each with a non-empty path.
   */
  lemma MapCleanIff(legacyMedias: Option<Json>)
    ensures var (media, errs) := MapOutcome(legacyMedias);
      (errs.None? <==> (IsInterSlice(legacyMedias) &&
        forall k :: 0 <= k < |legacyMedias.value.items| ==> ConvertMediaAsWritten(k, legacyMedias.value.items[k]).Ok?)) &&
      (errs.None? ==> (|media| == |legacyMedias.value.items| &&
        forall k :: 0 <= k < |media| ==>
          Ok(media[k]) == ConvertMediaAsWritten(k, legacyMedias.value.items[k]) && |media[k].path| > 0))
  {
    if IsInterSlice(legacyMedias) {
      var items := legacyMedias.value.items;
      var rs := Conversions(ConvertMediaAsWritten, items);
      forall k | 0 <= k < |rs|
        ensures (rs[k].Fail? ==> !(rs[k].error.Joined? && |rs[k].error.errs| == 0)) &&
          (rs[k].Ok? ==> |rs[k].value.path| > 0)
      {
        ConvertMediaShape(k, items[k], Sha3_256KeyAsWritten);
      }
      forall k | 0 <= k < |rs| ensures SlotsOf(rs)[k] == Slot(rs[k]) && rs[k] == ConvertMediaAsWritten(k, items[k]) {
        SlotsOfAt(rs, k);
      }
      ResultsErrsClean(rs);
      var errs := Join(ResultsErrs(rs));
      assert errs.None? <==> |NonNil(ResultsErrs(rs))| == 0;
      assert errs.None? <==> forall k :: 0 <= k < |rs| ==> rs[k].Ok?;
    }
  }

  /** The conversions add no error exactly when every one succeeded. */
  lemma {:induction false} ResultsErrsClean(rs: seq<Result<Media, Error>>)
    requires forall k :: 0 <= k < |rs| && rs[k].Fail? ==> !(rs[k].error.Joined? && |rs[k].error.errs| == 0)
    ensures |NonNil(ResultsErrs(rs))| == 0 <==> forall k :: 0 <= k < |rs| ==> rs[k].Ok?
  {
    if |rs| > 0 {
      var init, last := rs[..|rs| - 1], rs[|rs| - 1];
      assert |NonNil(ResultsErrs(init))| == 0 <==> forall k :: 0 <= k < |init| ==> init[k].Ok? by {
        ResultsErrsClean(init);
      }
      assert |NonNil(ResultErrs(last))| == 0 <==> last.Ok? by {
        ResultErrsClean(last);
      }
      assert |NonNil(ResultsErrs(rs))| == |NonNil(ResultsErrs(init))| + |NonNil(ResultErrs(last))| by {
        NonNilAppend(ResultsErrs(init), ResultErrs(last));
      }
      assert forall k :: 0 <= k < |init| ==> init[k] == rs[k];
    }
  }

  /** One conversion adds no error exactly when it succeeded. */
  lemma ResultErrsClean(c: Result<Media, Error>)
    requires c.Fail? ==> !(c.error.Joined? && |c.error.errs| == 0)
    ensures |NonNil(ResultErrs(c))| == 0 <==> c.Ok?
  {
  }

  /** A media value that is not an array is one error, and nothing is mapped. */
  lemma NotAnArray(legacyMedias: Option<Json>)
    requires !IsInterSlice(legacyMedias)
    ensures MapOutcome(legacyMedias) == ([], Some(Leaf("invalid media array: " + ShowData(legacyMedias))))
  {
  }

  // ---------------------------------------------------------------- the current JSON encoding

  /** The `hash` object the current format writes for `h`, members in key order. */
  function HashJson(h: Hash): Json {
    JObject(OmitEmpty("md5", h.md5) + OmitEmpty("sha1", h.sha1) + OmitEmpty("sha256", h.sha256) +
            OmitEmpty("sha3", h.sha3) + OmitEmpty("sha3-256", h.sha3_256) +
            OmitEmpty("sha512", h.sha512) + OmitEmpty("xxh3", h.xxh3))
  }

  /** A media entry as the current format writes it. */
  function MediaJson(m: Media): Json {
    JObject([("hash", HashJson(m.hash)), ("path", JString(m.path))])
  }

  lemma {:induction false} MemberAppend(a: seq<(string, Json)>, b: seq<(string, Json)>, key: string)
    ensures Member(a + b, key) == if Member(a, key).Some? then Member(a, key) else Member(b, key)
  {
    if |a| > 0 {
      assert (a + b)[0] == a[0] && (a + b)[1..] == a[1..] + b;
      MemberAppend(a[1..], b, key);
    } else {
      assert a + b == b;
    }
  }

  /** The digest read back from the `hash` object under `key`. */
  lemma DigestLookup(h: Hash, key: string)
    requires key in {"md5", "sha1", "sha256", "sha3", "sha3-256", "sha512", "xxh3"}
    ensures var v := Get(Some(HashJson(h)), [key]);
      var want := match key
        case "md5" => h.md5 case "sha1" => h.sha1 case "sha256" => h.sha256 case "sha3" => h.sha3
        case "sha3-256" => h.sha3_256 case "sha512" => h.sha512 case _ => h.xxh3;
      (|want| == 0 ==> v.None?) && (|want| > 0 ==> v == Some(JString(want)))
  {
    var m1, m2, m3 := OmitEmpty("md5", h.md5), OmitEmpty("sha1", h.sha1), OmitEmpty("sha256", h.sha256);
    var m4, m5 := OmitEmpty("sha3", h.sha3), OmitEmpty("sha3-256", h.sha3_256);
    var m6, m7 := OmitEmpty("sha512", h.sha512), OmitEmpty("xxh3", h.xxh3);
    MemberAppend(m1 + m2 + m3 + m4 + m5 + m6, m7, key);
    MemberAppend(m1 + m2 + m3 + m4 + m5, m6, key);
    MemberAppend(m1 + m2 + m3 + m4, m5, key);
    MemberAppend(m1 + m2 + m3, m4, key);
    MemberAppend(m1 + m2, m3, key);
    MemberAppend(m1, m2, key);
    assert [key][1..] == [];
  }

  /** The `hash` object holds no member under `sha3_256`, whatever the digests. */
  lemma NoUnderscoreKey(h: Hash)
    ensures Get(Some(HashJson(h)), [Sha3_256KeyAsWritten]).None?
  {
    var m1, m2, m3 := OmitEmpty("md5", h.md5), OmitEmpty("sha1", h.sha1), OmitEmpty("sha256", h.sha256);
    var m4, m5 := OmitEmpty("sha3", h.sha3), OmitEmpty("sha3-256", h.sha3_256);
    var m6, m7 := OmitEmpty("sha512", h.sha512), OmitEmpty("xxh3", h.xxh3);
    var key := Sha3_256KeyAsWritten;
    MemberAppend(m1 + m2 + m3 + m4 + m5 + m6, m7, key);
    MemberAppend(m1 + m2 + m3 + m4 + m5, m6, key);
    MemberAppend(m1 + m2 + m3 + m4, m5, key);
    MemberAppend(m1 + m2 + m3, m4, key);
    MemberAppend(m1 + m2, m3, key);
    MemberAppend(m1, m2, key);
    assert [key][1..] == [];
  }

  /** A digest field `convertStrField` accepts: a string, or absent/null. */
  predicate Convertible(v: Option<Json>) {
    IsStr(v) || IsNil(v)
  }

  /** Every digest field of the `hash` value `h` is convertible. */
  predicate DigestsConvertible(h: Option<Json>, sha3_256Key: string) {
    forall j :: 0 <= j < |DigestFields(sha3_256Key)| ==> Convertible(Get(h, [DigestFields(sha3_256Key)[j].1]))
  }

  /** A `hash` value whose digests are all strings or absent converts without error. */
  lemma StringDigestsConvert(i: nat, h: Option<Json>, sha3_256Key: string)
    requires DigestsConvertible(h, sha3_256Key)
    ensures Join(Flatten(HashErrs(i, h, sha3_256Key))).None?
  {
    HashErrsJoin(i, h, sha3_256Key);
    var errs := HashErrs(i, h, sha3_256Key);
    forall j | 0 <= j < |errs| ensures errs[j].None? {
      FieldErrsAt(i, h, DigestFields(sha3_256Key), j);
    }
  }

  /** A digest written under `key` reads back as a convertible field holding the digest. */
  lemma DigestReadBack(h: Hash, key: string, want: string)
    requires key in {"md5", "sha1", "sha256", "sha3", "sha3-256", "sha512", "xxh3"}
    requires want == match key
        case "md5" => h.md5 case "sha1" => h.sha1 case "sha256" => h.sha256 case "sha3" => h.sha3
        case "sha3-256" => h.sha3_256 case "sha512" => h.sha512 case _ => h.xxh3
    ensures Convertible(Get(Some(HashJson(h)), [key])) && Str(Get(Some(HashJson(h)), [key])) == want
  {
    DigestLookup(h, key);
  }

  /** Every digest of the written `hash` object reads back as itself, the missing alias key as "". */
  lemma DigestsReadBack(h: Hash)
    ensures DigestsConvertible(Some(HashJson(h)), Sha3_256Key)
    ensures DigestsConvertible(Some(HashJson(h)), Sha3_256KeyAsWritten)
    ensures HashOfJson(Some(HashJson(h)), Sha3_256Key) == h
    ensures HashOfJson(Some(HashJson(h)), Sha3_256KeyAsWritten) == h.(sha3_256 := "")
  {
    DigestReadBack(h, "md5", h.md5);
    DigestReadBack(h, "sha1", h.sha1);
    DigestReadBack(h, "sha256", h.sha256);
    DigestReadBack(h, "sha3", h.sha3);
    DigestReadBack(h, "sha3-256", h.sha3_256);
    DigestReadBack(h, "sha512", h.sha512);
    DigestReadBack(h, "xxh3", h.xxh3);
    NoUnderscoreKey(h);
    forall key | key in [Sha3_256Key, Sha3_256KeyAsWritten]
      ensures DigestsConvertible(Some(HashJson(h)), key)
    {
      var fields := DigestFields(key);
      forall j | 0 <= j < |fields| ensures Convertible(Get(Some(HashJson(h)), [fields[j].1])) {
        assert j == 0 || j == 1 || j == 2 || j == 3 || j == 4 || j == 5 || j == 6;
      }
    }
  }

  /** The path and `hash` members of a written entry. */
  lemma MediaJsonMembers(m: Media)
    ensures Get(Some(MediaJson(m)), ["path"]) == Some(JString(m.path))
    ensures Get(Some(MediaJson(m)), ["hash"]) == Some(HashJson(m.hash))
  {
    var ms := MediaJson(m).members;
    assert "hash"[0] != "path"[0];
    assert Member(ms, "path") == Member(ms[1..], "path");
    assert ms[1..][0] == ("path", JString(m.path));
    assert ["path"][1..] == [];
    assert ["hash"][1..] == [];
  }

  /** Reading back a media entry the current format wrote gives the entry itself. */
  lemma MediaRoundTrip(i: nat, m: Media)
    requires |m.path| > 0
    ensures ConvertMedia(i, MediaJson(m)) == Ok(m)
  {
    MediaJsonMembers(m);
    DigestsReadBack(m.hash);
    StringDigestsConvert(i, Some(HashJson(m.hash)), Sha3_256Key);
  }

  /**
   * As written, reading back an entry drops its SHA3-256 digest: `mapToManifest` looks under
   * `sha3_256`, a key no manifest has.
   */
  lemma MediaRoundTripAsWritten(i: nat, m: Media)
    requires |m.path| > 0
    ensures ConvertMediaAsWritten(i, MediaJson(m)) == Ok(m.(hash := m.hash.(sha3_256 := "")))
  {
    MediaJsonMembers(m);
    DigestsReadBack(m.hash);
    StringDigestsConvert(i, Some(HashJson(m.hash)), Sha3_256KeyAsWritten);
  }

  /** A format 0.4.0 entry stores its SHA3-256 digest only under `sha3-256`; as written it is lost. */
  lemma Sha3DigestLost()
    ensures var m := Media("a", EmptyHash.(sha3_256 := "ab"));
      ConvertMediaAsWritten(0, MediaJson(m)) != Ok(m) && ConvertMedia(0, MediaJson(m)) == Ok(m)
  {
    var m := Media("a", EmptyHash.(sha3_256 := "ab"));
    MediaRoundTripAsWritten(0, m);
    MediaRoundTrip(0, m);
  }

  /** A format 0.4.0 entry in the current form: its four digests kept, the others empty. */
  function FromV040(m: M040.Media): Media {
    Media(m.path, EmptyHash.(sha256 := m.hash.sha256, sha3_256 := m.hash.sha3_256, sha1 := m.hash.sha1, md5 := m.hash.md5))
  }

  /**
   * An entry the 0.4.0 library wrote converts to the same entry with all four digests; as
   * written, `mapToManifest` drops its SHA3-256 digest.
   */
  lemma V040MediaReadBack(i: nat, m: M040.Media)
    requires |m.path| > 0
    ensures ConvertMedia(i, M040.MediaJson(m)) == Ok(FromV040(m))
    ensures ConvertMediaAsWritten(i, M040.MediaJson(m)) == Ok(FromV040(m).(hash := FromV040(m).hash.(sha3_256 := "")))
  {
    assert M040.HashJson(m.hash) == HashJson(FromV040(m).hash);
    MediaRoundTrip(i, FromV040(m));
    MediaRoundTripAsWritten(i, FromV040(m));
  }

  // ---------------------------------------------------------------- checking and versions

  /** `chkManifest` (and the check loop of `upgradeV010`): every entry checked, failures joined. */
  method ChkManifest(env: Env, config: Config, media: seq<Media>) returns (errs: Option<Error>)
    ensures errs == Join(AllMediaErrs(env, config, [], media))
  {
    errs := None;
    ghost var acc: seq<Option<Error>> := [];
    for i := 0 to |media|
      invariant acc == AllMediaErrs(env, config, [], media[..i]) && errs == Join(acc)
    {
      assert media[..i + 1][..i] == media[..i];
      var err := CheckMedia(env, config, media[i]);
      if err.Some? {
        errs, acc := JoinOne(errs, acc, err);
      }
    }
    assert media[..|media|] == media;
  }

  /** The number of entries whose check fails. */
  function Failures(env: Env, config: Config, media: seq<Media>): nat {
    if |media| == 0 then 0
    else Failures(env, config, media[..|media| - 1]) + (if CheckOutcome(env, config, media[|media| - 1]).Some? then 1 else 0)
  }

  /** No early exit: the joined error holds one member per failing entry. */
  lemma {:induction false} ChkManifestCountsAll(env: Env, config: Config, media: seq<Media>)
    ensures |NonNil(AllMediaErrs(env, config, [], media))| == Failures(env, config, media)
  {
    if |media| > 0 {
      var init := media[..|media| - 1];
      ChkManifestCountsAll(env, config, init);
      NonNilAppend(AllMediaErrs(env, config, [], init), MediaErrs(env, config, [], media[|media| - 1]));
    }
  }

  /** The configuration each supported JSON format is checked with; `None` for any other version. */
  function ChkConfigFor(version: string): Option<Config> {
    if version == "0.2.0" then Some(V020ChkConfig)
    else if version == "0.3.0" then Some(V030ChkConfig)
    else if version == "0.4.0" then Some(V040ChkConfig)
    else if version == "0.5.0" then Some(V050ChkConfig)
    else None
  }

  /** `expectVersion`. */
  function ExpectVersion(expected: string, actual: Option<Json>): (r: Option<Error>)
    ensures r.None? <==> Str(actual) == expected
  {
    if Str(actual) != expected then Some(Leaf("unexpected version: " + ShowData(actual))) else None
  }

  /** The outcome of `upgradeV020` to `upgradeV050`: version, then `force` for the current format, then mapping, then checks. */
  function VersionOutcome(env: Env, expected: string, chkConfig: Config, genConfig: Config,
                          legacy: seq<(string, Json)>, force: bool): Option<Error> {
    var doc := Some(JObject(legacy));
    var versionErr := ExpectVersion(expected, Get(doc, ["version"]));
    if versionErr.Some? then versionErr
    else if expected == CurrentSpec && !force then Some(Leaf("manifest v0.5.0 is the current spec"))
    else
      var (media, mapErrs) := MapOutcome(Get(doc, ["media"]));
      var errs := Join(Flatten([None, mapErrs]));
      if errs.Some? then errs
      else Join(Flatten([None, Join(AllMediaErrs(env, chkConfig.(dir := genConfig.dir), [], media))]))
  }

  /**
   * A 0.4.0 manifest saved before any media was added holds `"media": null`; upgrading it
   * fails with the invalid media array error and checks nothing.
   */
  lemma V040NilMediaRejected(env: Env, config: M040.MedhashTypes.Config, genConfig: Config, force: bool)
    ensures var legacy := M040.ManifestJson(M040.NewWithConfig(config)).members;
      var e := Leaf("invalid media array: <nil>");
      VersionOutcome(env, "0.4.0", V040ChkConfig, genConfig, legacy, force) == Some(Joined(e.msg, [e]))
  {
    var legacy := M040.ManifestJson(M040.NewWithConfig(config)).members;
    var doc := Some(JObject(legacy));
    var e := Leaf("invalid media array: <nil>");
    M040.NewManifestJson(config);
    assert doc == Some(M040.ManifestJson(M040.NewWithConfig(config)));
    assert Get(doc, ["version"]) == Some(JString("0.4.0"));
    assert ExpectVersion("0.4.0", Get(doc, ["version"])).None?;
    assert "0.4.0" != CurrentSpec;
    NotAnArray(Some(JNull));
    assert Get(doc, ["media"]) == Some(JNull);
    assert "invalid media array: " + ShowData(Some(JNull)) == e.msg;
    assert MapOutcome(Get(doc, ["media"])).1 == Some(e);
    JoinErrorsNilFirst(Some(e));
    assert NonNil([Some(e)]) == [e];
    assert UnwrapJoinedErrors(Some(e)) == [Some(e)];
  }

  /** `upgradeV020` to `upgradeV050`, which differ only in the expected version and check configuration. */
  method UpgradeVersion(env: Env, expected: string, chkFlags: Config, genConfig: Config,
                        legacy: seq<(string, Json)>, force: bool) returns (errs: Option<Error>)
    ensures errs == VersionOutcome(env, expected, chkFlags, genConfig, legacy, force)
  {
    var chkConfig := chkFlags.(dir := genConfig.dir);
    var doc := Some(JObject(legacy));
    var err := ExpectVersion(expected, Get(doc, ["version"]));
    if err.Some? {
      return err;
    }
    if expected == CurrentSpec && !force {
      return Some(Leaf("manifest v0.5.0 is the current spec"));
    }
    var media, mapErrs := MapToManifest(Get(doc, ["media"]), ConvertMediaAsWritten);
    errs := JoinErrors([None, mapErrs]);
    if errs.Some? {
      return errs;
    }
    var chkErrs := ChkManifest(env, chkConfig, media);
    errs := JoinErrors([None, chkErrs]);
  }

  method UpgradeV020(env: Env, genConfig: Config, legacy: seq<(string, Json)>, force: bool) returns (errs: Option<Error>)
    ensures errs == VersionOutcome(env, "0.2.0", V020ChkConfig, genConfig, legacy, force)
  {
    errs := UpgradeVersion(env, "0.2.0", V020ChkConfig, genConfig, legacy, force);
  }

  method UpgradeV030(env: Env, genConfig: Config, legacy: seq<(string, Json)>, force: bool) returns (errs: Option<Error>)
    ensures errs == VersionOutcome(env, "0.3.0", V030ChkConfig, genConfig, legacy, force)
  {
    errs := UpgradeVersion(env, "0.3.0", V030ChkConfig, genConfig, legacy, force);
  }

  method UpgradeV040(env: Env, genConfig: Config, legacy: seq<(string, Json)>, force: bool) returns (errs: Option<Error>)
    ensures errs == VersionOutcome(env, "0.4.0", V040ChkConfig, genConfig, legacy, force)
  {
    errs := UpgradeVersion(env, "0.4.0", V040ChkConfig, genConfig, legacy, force);
  }

  method UpgradeV050(env: Env, genConfig: Config, legacy: seq<(string, Json)>, force: bool) returns (errs: Option<Error>)
    ensures errs == VersionOutcome(env, "0.5.0", V050ChkConfig, genConfig, legacy, force)
  {
    errs := UpgradeVersion(env, "0.5.0", V050ChkConfig, genConfig, legacy, force);
  }

  /** The version switch of `upgradeJSON`: the upgrade of a supported format, or "unexpected version". */
  function DispatchOutcome(env: Env, genConfig: Config, legacy: seq<(string, Json)>, force: bool): Option<Error> {
    var version := Get(Some(JObject(legacy)), ["version"]);
    match ChkConfigFor(Str(version))
    case None => Some(Leaf("unexpected version: " + ShowData(version)))
    case Some(c) => VersionOutcome(env, Str(version), c, genConfig, legacy, force)
  }

  /** The version switch of `upgradeJSON`. */
  method Dispatch(env: Env, genConfig: Config, legacy: seq<(string, Json)>, force: bool) returns (err: Option<Error>)
    ensures err == DispatchOutcome(env, genConfig, legacy, force)
  {
    var version := Get(Some(JObject(legacy)), ["version"]);
    var v := Str(version);
    if v == "0.2.0" {
      err := UpgradeV020(env, genConfig, legacy, force);
    } else if v == "0.3.0" {
      err := UpgradeV030(env, genConfig, legacy, force);
    } else if v == "0.4.0" {
      err := UpgradeV040(env, genConfig, legacy, force);
    } else if v == "0.5.0" {
      err := UpgradeV050(env, genConfig, legacy, force);
    } else {
      err := Some(Leaf("unexpected version: " + ShowData(version)));
    }
  }

  /** The outcome of `upgradeJSON`. */
  function JsonOutcome(env: Env, fromJson: Bytes -> Result<seq<(string, Json)>, Error>, genConfig: Config,
                       ignores: seq<string>, force: bool, gen: Generator): Run {
    match ReadAll(env, env.join(genConfig.dir, DefaultManifestName))
    case Fail(e) => Run(Some(e), false)
    case Ok(content) =>
      match fromJson(content)
      case Fail(e) => Run(Some(e), false)
      case Ok(legacy) =>
        var errs := Join(Flatten([None, DispatchOutcome(env, genConfig, legacy, force)]));
        if errs.Some? then Run(errs, false)
        else Run(Join(Flatten([None, gen(genConfig, ignores)])), true)
  }

  /** `upgradeJSON`. */
  method UpgradeJson(env: Env, fromJson: Bytes -> Result<seq<(string, Json)>, Error>, genConfig: Config,
                     ignores: seq<string>, force: bool, gen: Generator) returns (r: Run)
    ensures r == JsonOutcome(env, fromJson, genConfig, ignores, force, gen)
  {
    var legacyPath := env.join(genConfig.dir, DefaultManifestName);
    var legacyFile := ReadAll(env, legacyPath);
    if legacyFile.Fail? {
      return Run(Some(legacyFile.error), false);
    }
    var legacyManifest := fromJson(legacyFile.value);
    if legacyManifest.Fail? {
      return Run(Some(legacyManifest.error), false);
    }
    var err := Dispatch(env, genConfig, legacyManifest.value, force);
    var errs := JoinErrors([None, err]);
    if errs.Some? {
      return Run(errs, false);
    }
    errs := JoinErrors([None, gen(genConfig, ignores)]);
    r := Run(errs, true);
  }

  /** Only formats 0.2.0 to 0.5.0 are upgraded; any other version is an error and nothing is generated. */
  lemma UnexpectedVersion(env: Env, fromJson: Bytes -> Result<seq<(string, Json)>, Error>, genConfig: Config,
                          ignores: seq<string>, force: bool, gen: Generator)
    requires ReadAll(env, env.join(genConfig.dir, DefaultManifestName)).Ok?
    requires var parsed := fromJson(ReadAll(env, env.join(genConfig.dir, DefaultManifestName)).value);
      parsed.Ok? && Str(Get(Some(JObject(parsed.value)), ["version"])) !in {"0.2.0", "0.3.0", "0.4.0", "0.5.0"}
    ensures var r := JsonOutcome(env, fromJson, genConfig, ignores, force, gen);
      var version := Get(Some(JObject(fromJson(ReadAll(env, env.join(genConfig.dir, DefaultManifestName)).value).value)), ["version"]);
      !r.generated && r.err == Join([Some(Leaf("unexpected version: " + ShowData(version)))])
  {
    var version := Get(Some(JObject(fromJson(ReadAll(env, env.join(genConfig.dir, DefaultManifestName)).value).value)), ["version"]);
    var e := Some(Leaf("unexpected version: " + ShowData(version)));
    JoinErrorsNilFirst(e);
    JoinErrorsNilFirst(Join(UnwrapJoinedErrors(e)));
  }

  /** The current format is not upgraded unless forced; its media are not even mapped. */
  lemma CurrentNotForced(env: Env, chkConfig: Config, genConfig: Config, legacy: seq<(string, Json)>)
    requires Str(Get(Some(JObject(legacy)), ["version"])) == CurrentSpec
    ensures VersionOutcome(env, CurrentSpec, chkConfig, genConfig, legacy, false) ==
      Some(Leaf("manifest v0.5.0 is the current spec"))
  {
  }

  /**
   * All or nothing for JSON manifests: a new manifest is generated exactly when the version is
   * supported (and, for the current format, forced), the media map cleanly, and every mapped
   * entry checks clean.
   */
  lemma JsonAllOrNothing(env: Env, genConfig: Config, legacy: seq<(string, Json)>, force: bool)
    requires var v := Str(Get(Some(JObject(legacy)), ["version"])); ChkConfigFor(v).Some?
    ensures var v := Str(Get(Some(JObject(legacy)), ["version"]));
      var chkConfig := ChkConfigFor(v).value.(dir := genConfig.dir);
      var (media, mapErrs) := MapOutcome(Get(Some(JObject(legacy)), ["media"]));
      VersionOutcome(env, v, ChkConfigFor(v).value, genConfig, legacy, force).None? <==>
        (v != CurrentSpec || force) && mapErrs.None? &&
        forall i :: 0 <= i < |media| ==> CheckOutcome(env, chkConfig, media[i]).None?
  {
    var v := Str(Get(Some(JObject(legacy)), ["version"]));
    var chkConfig := ChkConfigFor(v).value.(dir := genConfig.dir);
    var (media, mapErrs) := MapOutcome(Get(Some(JObject(legacy)), ["media"]));
    JoinErrorsNilFirst(mapErrs);
    if mapErrs.Some? {
      assert |NonNil(UnwrapJoinedErrors(mapErrs))| > 0;
    }
    AllCheckedNoPatterns(env, chkConfig, media);
    RejoinJoined(AllMediaErrs(env, chkConfig, [], media));
  }

  /** `upgradeJSON` generates exactly when the manifest is read and parsed and its version's upgrade succeeds. */
  lemma JsonGeneratesIff(env: Env, fromJson: Bytes -> Result<seq<(string, Json)>, Error>, genConfig: Config,
                         ignores: seq<string>, force: bool, gen: Generator)
    ensures var r := JsonOutcome(env, fromJson, genConfig, ignores, force, gen);
      var file := ReadAll(env, env.join(genConfig.dir, DefaultManifestName));
      r.generated <==> (file.Ok? && fromJson(file.value).Ok? &&
        DispatchOutcome(env, genConfig, fromJson(file.value).value, force).None?)
  {
    var file := ReadAll(env, env.join(genConfig.dir, DefaultManifestName));
    if file.Ok? && fromJson(file.value).Ok? {
      var e := DispatchOutcome(env, genConfig, fromJson(file.value).value, force);
      JoinErrorsNilFirst(e);
      if e.Some? {
        assert |NonNil(UnwrapJoinedErrors(e))| > 0;
      }
    }
  }

  // ---------------------------------------------------------------- the directories

  /** What upgrading one directory returns: by `medhash.json` if present, else by `sums.txt`, else an error. */
  function DirOutcome(env: Env, fromJson: Bytes -> Result<seq<(string, Json)>, Error>, config: Config,
                      ignores: seq<string>, force: bool, gen: Generator, dir: string): Option<Error> {
    var conf := config.(dir := dir);
    if env.join(dir, DefaultManifestName) !in env.fs then
      if env.join(dir, "sums.txt") !in env.fs then Some(Leaf("no manifest.json or sums.txt found in " + dir))
      else V010Outcome(env, conf, ignores, gen).err
    else JsonOutcome(env, fromJson, conf, ignores, force, gen).err
  }

  /** What the directory loop joins. */
  function AllDirErrs(env: Env, fromJson: Bytes -> Result<seq<(string, Json)>, Error>, config: Config,
                      ignores: seq<string>, force: bool, gen: Generator, dirs: seq<string>): seq<Option<Error>> {
    if |dirs| == 0 then []
    else
      AllDirErrs(env, fromJson, config, ignores, force, gen, dirs[..|dirs| - 1]) +
      UnwrapJoinedErrors(DirOutcome(env, fromJson, config, ignores, force, gen, dirs[|dirs| - 1]))
  }

  /** One turn of the directory loop: the upgrade the files present in `dir` call for. */
  method UpgradeDir(env: Env, fromJson: Bytes -> Result<seq<(string, Json)>, Error>, config: Config,
                    ignores: seq<string>, force: bool, gen: Generator, dir: string) returns (err: Option<Error>)
    ensures err == DirOutcome(env, fromJson, config, ignores, force, gen, dir)
  {
    var conf := config.(dir := dir);
    if env.join(dir, DefaultManifestName) !in env.fs {
      if env.join(dir, "sums.txt") !in env.fs {
        err := Some(Leaf("no manifest.json or sums.txt found in " + dir));
      } else {
        var r := UpgradeV010(env, conf, ignores, gen);
        err := r.err;
      }
    } else {
      var r := UpgradeJson(env, fromJson, conf, ignores, force, gen);
      err := r.err;
    }
  }

  /**
   * The body of `UpgradeAction` after flag parsing: the directories (the working directory
   * `cwd` when none is given) upgraded in turn, every failure joined; the exit status is 1
   * exactly when something failed.
   */
  method UpgradeDirs(env: Env, fromJson: Bytes -> Result<seq<(string, Json)>, Error>, config: Config,
                     ignores: seq<string>, force: bool, gen: Generator, args: seq<string>,
                     cwd: Result<string, Error>) returns (status: int, errs: Option<Error>)
    ensures |args| == 0 && cwd.Fail? ==> status == 1 && errs == Some(Wrap("cannot get working directory: " + cwd.error.msg, cwd.error))
    ensures |args| > 0 || cwd.Ok? ==>
      var dirs := if |args| > 0 then args else [cwd.value];
      errs == Join(AllDirErrs(env, fromJson, config, WithManifestIgnored(ignores), force, gen, dirs)) &&
      (status == 1 <==> errs.Some?) && (status == 0 <==> errs.None?)
  {
    var dirs := args;
    if |dirs| < 1 {
      if cwd.Fail? {
        return 1, Some(Wrap("cannot get working directory: " + cwd.error.msg, cwd.error));
      }
      dirs := dirs + [cwd.value];
    }
    var ignores' := AugmentIgnores(ignores);
    errs := None;
    ghost var acc: seq<Option<Error>> := [];
    for i := 0 to |dirs|
      invariant acc == AllDirErrs(env, fromJson, config, ignores', force, gen, dirs[..i]) && errs == Join(acc)
    {
      assert dirs[..i + 1][..i] == dirs[..i];
      var err := UpgradeDir(env, fromJson, config, ignores', force, gen, dirs[i]);
      errs, acc := JoinOne(errs, acc, err);
    }
    assert dirs[..|dirs|] == dirs;
    status := if errs.Some? then 1 else 0;
  }
}
