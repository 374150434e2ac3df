# medhash-tools in Dafny

This project models the core of medhash-tools. Medhash-tools records the digests of every media file in a directory in a JSON manifest (`medhash.json`). It can later check the files against that manifest, sign and verify the manifest, and upgrade manifests written by older releases. The repository mixes several revisions of the code, and each revision is its own module here:

- `MedhashTypes`, `MedhashHash`, `MediaOrder`, `MedhashSignature` and `Medhash` model the current library (format 0.6.0):
  - `medhash/hash.go`: digest generation and checking. The check narrows the configuration to the digests actually stored, treats SHA3 and SHA3-256 as one algorithm, and reports a mismatch.
  - `medhash/media.go`: the manifest's media table. `Manifest` is a class whose invariant `Valid` is that the media are sorted by path. A new manifest is sorted, and `Add` (append, then stable sort) leaves the table sorted whatever it held before. A manifest built from decoded data may hold an unsorted table; lookup is a binary search whose exact result is promised on a sorted table.
  - `medhash/manifest.go`: the constructors and preset configurations.
  - `medhash/signature.go`: the Ed25519 and minisign signature orchestration.
- `Medhash050` models the 0.5.0 library: `medhash/genhash.go`, `medhash/chkhash.go` and `medhash/sign.go`. `Medhash040` models the 0.4.0 library: `medhash/medhash.go`.
- `Chk` and `Upgrade` model the current `chk` and `upgrade` commands: `cmd/chk/chk.go` and `cmd/upgrade/upgrade.go`.
- `LegacyChk` and `LegacyUpgrade` model the older command layer: `cmd/chk.go` and `cmd/upgrade.go`, including its semantic-version comparison.
- `CmdErrors` models the error flattening of `cmd/error.go`.
- `SrcData`, `SrcMedhash` and `SrcUpgrade` model the first tools under `src/`. Among them is the `sha256sum`-style upgrade of `src/medhash-upgrade`.
- `Color` models the removal of ANSI SGR escapes of ECMA-48 (`ESC [ n m`) in `color/color.go`.
- `BenchArgs` and `BenchSummary` model the benchmark's argument parser and Markdown table renderer: `_bench/args.go` and `_bench/summary.go`.
- `TestOptions` models the option maps of the test cases: `testcommon/options.go`.

Support modules:

- `Outcomes`, `GoErrors` and `GoLib` hold the Go library behaviour the code relies on: results, error values with `errors.Join`, and string helpers.
- `Platform` holds the file system as a map from path to entry, and one uninterpreted digest function per algorithm. SHA-1, SHA-256 and SHA-512 of FIPS 180-4, SHA3-256 of FIPS 202, MD5 of RFC 1321, and XXH3-64 are covered; each digest is stored as the lower-case base16 text of section 8 of RFC 4648.
- `JsonValue` holds loosely typed JSON values.
- `Sequences` holds generic sequence lemmas.

The members that model whole commands follow the code as written. Where the code looks wrong (see "## Findings"), the corrected definition and its intended property are stated beside the as-written one, and the commands keep calling the as-written one.

Code that updates state step by step is written as methods with loops and invariants. Each such method is proved equal to a specification function, and the properties are proved about those functions. Pure code is written as functions and lemmas.

## Model

| member | source | states |
|---|---|---|
| BenchArgs.WrapInt64 | _bench/args.go:215 | the product stored in the `int64` size is always in the `int64` range, and a value already in range is unchanged |
| BenchArgs.WrapOnce | _bench/args.go:215 | a product just past the largest `int64` wraps around by exactly 2^64 |
| BenchArgs.ParseSize | _bench/args.go:182-218 | a parsed size is always a value of the `int64` size type |
| BenchArgs.ParseSizeEmpty | _bench/args.go:186-188 | worked example: the empty size is the error "unknown size: " |
| BenchArgs.AtoiDigits | _bench/args.go:211 | a string of decimal digits whose value fits in an `int64` converts to that value |
| BenchArgs.ScaleUnits | _bench/size.go:9-13 | "K", "M" and "G" multiply by 1024, 1024² and 1024³; any other final character multiplies by 1 |
| BenchArgs.ParseSizeUnit | _bench/args.go:190-217 | a number followed by "K", "M" or "G" is that many KiB, MiB or GiB, wrapped to `int64`; when the product fits it is exact |
| BenchArgs.ParseSizeBytes | _bench/args.go:202-205 | a number without a unit suffix is that many bytes |
| BenchArgs.ParseSizeRejects | _bench/args.go:207-214 | a bare unit is the conversion error of the empty string, and a lower-case unit makes the whole string fail to convert |
| BenchArgs.ParseSizeOverflow | _bench/args.go:215 | 2^33 GiB is one more than the largest `int64` and wraps to the smallest |
| BenchArgs.Args.constructor | _bench/args.go:13-19 | a new `Args` is the zero value: no count, size, report or commands |
| BenchArgs.Args.ParseOptions | _bench/args.go:67-177 | the fields after `parse` are the final state of the walk over the arguments, from no commands; on an error the values set before it stay |
| BenchArgs.Args.Parse | _bench/args.go:52-64 | fewer than two arguments is "missing arguments" and changes nothing; otherwise the arguments after the program name are parsed, and a request for help exits |
| BenchArgs.HelpStops | _bench/args.go:123-125 | "--help" or "-h" stops parsing with `ErrHelp`, keeping the state reached |
| BenchArgs.PlainArguments | _bench/args.go:76-78 | an empty argument is skipped (lines 76-78), and an argument naming no option is appended to the current command's arguments |
| BenchArgs.WalkCommands | _bench/args.go:147-174 | parsing only ever appends commands: those collected are kept, each has a command line and each but the last has a label |
| BenchArgs.LabelStep | _bench/args.go:147-155 | "--label" or "-l" first keeps the current command when it has both a command and a label, then labels the next one |
| BenchArgs.CmdStep | _bench/args.go:157-165 | "--cmd" or "-c" first keeps the current command when it has both a command and a label, then sets the next one's command line |
| BenchArgs.WalkNext | _bench/args.go:123-169 | each option moves the walk forward by the steps its value takes, setting the count, size, report, label, command or argument it names |
| BenchArgs.TypicalOptions | _bench/args.go:80-117 | worked example: long and short option spellings name the same options |
| BenchArgs.TypicalCommandLine | _bench/args.go:67-177 | worked example: "--label a --cmd x y -l b -c z" gives the commands (a, x, [y]) and (b, z, []) with no error |
| BenchSummary.ColumnWidths | _bench/summary.go:15-23 | the array of widths holds, for each column of the header, the length of its longest cell over all rows |
| BenchSummary.ColWidthIsMax | _bench/summary.go:17-23 | a column's width bounds every cell in it and is 0 or the length of one of its cells |
| BenchSummary.PadRow | _bench/summary.go:27-35 | each cell of a row is followed by spaces up to one more than its column's width |
| BenchSummary.PadWidth | _bench/summary.go:32-34 | a padded cell keeps its text, is one longer than the column's width, and the rest is spaces |
| BenchSummary.RuleRow | _bench/summary.go:40-46 | under each column of the header, one more dash than the column's width |
| BenchSummary.GenTable | _bench/summary.go:14-53 | the result is the Markdown rendering of the table: the header line, the separator line, then each row's line, joined by newlines |
| BenchSummary.Summary | _bench/summary.go:9-11 | the table under a "# Summary" heading and a blank line, followed by a newline |
| BenchSummary.Lines | _bench/summary.go:25-50 | the table has one line per row plus one separator line |
| BenchSummary.FullRowLength | _bench/summary.go:37-48 | a row with as many cells as the header is exactly as long as the separator |
| BenchSummary.EqualLineLengths | _bench/summary.go:25-50 | when every row has as many cells as the header, all lines of the table have the same length |
| BenchSummary.OneSeparator | _bench/summary.go:37-48 | exactly one line, the second, starts with "\|-"; every other line starts with "\| " |
| BenchSummary.NoTrailingNewline | _bench/summary.go:52 | the table ends with the closing "\|" of its last line, with no newline after it |
| Chk.RunChk | cmd/chk/chk.go:133-231 | the error `chk` returns is that of reading or parsing the manifest, of the signature gate, or the join of the media loop's failures |
| Chk.ReconcileSidecar | cmd/chk/chk.go:158-179 | the manifest's minisign signature becomes the reconciled one, or the sidecar error is returned and the configuration is unchanged |
| Chk.CheckAll | cmd/chk/chk.go:192-230 | the loop's error joins, entry by entry in order, the pattern errors and check failures of every media entry |
| Chk.CheckEntry | cmd/chk/chk.go:195-227 | one round adds exactly that entry's pattern errors and, when it is selected, its check failure to the accumulated errors |
| Chk.JoinOne | cmd/chk/chk.go:204 | joining one more error extends the flat list of errors by that error's members, and the joined value is the join of the list |
| Chk.MatchLoop | cmd/chk/chk.go:197-218 | the pattern loop adds the errors of the patterns tried before the first match, and skips the entry exactly when no pattern matches |
| Chk.TryPattern | cmd/chk/chk.go:200-213 | one pattern: a failing pattern's error is joined and the next tried; a match ends the loop |
| Chk.RemainingStep | cmd/chk/chk.go:200-213 | after one pattern, the errors met so far and the patterns left still account for the whole loop's result |
| Chk.NoSchemeNoGate | cmd/chk/chk.go:147-155 | with neither Ed25519 nor minisign enabled, the manifest is used as parsed, with no signature or sidecar consulted |
| Chk.MissingSidecarIsNoError | cmd/chk/chk.go:160-166 | a sidecar that does not exist is not an error, and the manifest is unchanged |
| Chk.UnreadableSidecarIsError | cmd/chk/chk.go:160-164 | a sidecar that exists but cannot be read is the error "cannot check for minisign sidecar file at" the sidecar's path |
| Chk.BlankSignatureAdoptsSidecar | cmd/chk/chk.go:168-171 | a blank embedded minisign signature adopts the trimmed sidecar text |
| Chk.DifferingSidecarStops | cmd/chk/chk.go:172-179 | two different non-blank signatures are the "differs from sidecar file" error, before verification and before any entry is checked |
| Chk.VerifyFailureStops | cmd/chk/chk.go:182-186 | a failed verification is what `chk` returns, and no entry is checked |
| Chk.ManifestFailureStops | cmd/chk/chk.go:134-144 | a manifest that cannot be read or parsed is the result, and nothing else is looked at |
| Chk.UnmatchedSkipped | cmd/chk/chk.go:197-218 | an entry that no pattern matches and no pattern fails on adds nothing: it is skipped |
| Chk.NoMatch | cmd/chk/chk.go:200-213 | when every pattern answers "no match", the loop meets no error and selects nothing |
| Chk.PatternErrorThenNext | cmd/chk/chk.go:201-207 | a pattern that fails is reported, and the next pattern is still tried |
| Chk.MatchedEntryChecked | cmd/chk/chk.go:209-227 | the first matching pattern selects the entry, which is checked after the errors of the patterns before it |
| Chk.FirstMatch | cmd/chk/chk.go:209-212 | when pattern k is the first to match, the patterns after it are not tried |
| Chk.AllCheckedNoPatterns | cmd/chk/chk.go:192-230 | without patterns the loop reports nothing exactly when every entry checks clean: a failure neither stops the loop nor hides another |
| Chk.MediaCheckedNoPatterns | cmd/chk/chk.go:221-227 | without patterns, one entry adds an error exactly when its check fails |
| CmdErrors.UnwrapJoinedErrors | cmd/error.go:20-28 | a joined error gives its members, a single wrap gives its inner error, and a plain error gives itself; nil gives no non-nil error |
| CmdErrors.JoinErrors | cmd/error.go:8-14 | the result is `errors.Join` over the arguments' unwrapped lists, concatenated in argument order |
| CmdErrors.FlattenMembers | cmd/error.go:9-13 | the errors joined are exactly the arguments' members in order: nils dropped, joins replaced by their members, wraps by their inner error |
| CmdErrors.JoinErrorsNil | cmd/error.go:5-14 | the result is nil exactly when every argument is nil or an empty join, so in particular with no arguments |
| CmdErrors.JoinErrorsPlain | cmd/error.go:9-13 | on plain errors the result is `errors.Join` of the arguments: nils dropped, order kept |
| CmdErrors.MembersCount | cmd/error.go:10-12 | flattening keeps the number of leaf errors |
| CmdErrors.JoinErrorsCount | cmd/error.go:8-27 | the joined error holds as many leaf errors as the arguments, and unwrapping it again gives a flat list with that many |
| CmdErrors.JoinStep | cmd/error.go:8-14 | joining an accumulated join with one more error is the join of the accumulated list extended by that error's unwrapped list |
| CmdErrors.JoinErrorsNilFirst | cmd/error.go:8-14 | joining nil with an error is the join of that error's unwrapped list |
| CmdErrors.RejoinJoined | cmd/error.go:8-14 | joining nil with a join gives back that join itself |
| LegacyChk.MatchPatterns | cmd/chk.go:98-119 | the entry is skipped exactly when no pattern matches its path, and the errors kept are those of the patterns tried before the first match |
| LegacyChk.CheckEntry | cmd/chk.go:95-134 | one entry adds its pattern errors and, when it is selected, its check error ("invalid hash for" the joined path when the digests disagree) |
| LegacyChk.RunChk | cmd/chk.go:80-138 | a manifest that cannot be read or decoded is a single error with no check; otherwise the errors are those of the entries, in order |
| LegacyChk.EntryErrsClean | cmd/chk.go:98-134 | an entry reports nothing exactly when no pattern tried before the first match failed and, unless skipped, its check passes; an unmatched entry is not checked |
| LegacyChk.EntriesErrsClean | cmd/chk.go:95-135 | the entries report nothing exactly when each of them reports nothing |
| LegacyChk.GeneratedMediaCheck | cmd/chk.go:122-125 | media whose digests were generated from the files check clean when no patterns are given |
| LegacyChk.AnyFailedIff | cmd/chk.go:50-75 | the status is due to a failure exactly when checking one of the directories reports an error |
| LegacyChk.ChkDirs | cmd/chk.go:50-75 | each directory is checked with its own manifest path, `Manifest` when given and dir/medhash.json otherwise; the status is 1 exactly when one of them reported an error |
| LegacyChk.ChkCmd.constructor | cmd/chk.go:14-21 | the command holds the directories, manifest, file patterns and algorithm flags it is given |
| LegacyChk.ChkCmd.Execute | cmd/chk.go:23-78 | without directories the working directory is checked, and if it cannot be found the status is 1; otherwise the status is 1 exactly when some directory failed the 0.5.0 `ChkHash`, which compares the stored SHA3-256, SHA-256, SHA-1 and MD5 digests whatever the selected configuration enables |
| LegacyUpgrade.DigitEnd | cmd/upgrade.go:451 | a run of digits that starts at a position ends inside the text, at or after that position |
| LegacyUpgrade.Skip | cmd/upgrade.go:451 | an optional character is skipped when present and not otherwise, staying inside the text |
| LegacyUpgrade.MatchAt | cmd/upgrade.go:451 | the version pattern matches at every position, ending inside the text, with exactly three groups |
| LegacyUpgrade.ParseComponents | cmd/upgrade.go:459-466 | every component text becomes its integer, or 0 when it does not parse |
| LegacyUpgrade.BreakoutSemver | cmd/upgrade.go:450-469 | the three numbers are the parsed replacements of groups 1, 2 and 3 over the whole text |
| LegacyUpgrade.DigitEndIs | cmd/upgrade.go:451 | a maximal run of digits ends exactly where the first non-digit is |
| LegacyUpgrade.DigitsParse | cmd/upgrade.go:462 | a run of digits parses to the number it stands for |
| LegacyUpgrade.MatchAtEnd | cmd/upgrade.go:451 | at the end of the text the pattern matches the empty string |
| LegacyUpgrade.ReplaceWhole | cmd/upgrade.go:455-457 | when the first match covers the whole text, each replacement is that match's group |
| LegacyUpgrade.MatchOfParts | cmd/upgrade.go:451 | an optional "v" and three dot-separated digit runs are matched whole, the runs being the groups |
| LegacyUpgrade.MatchWellFormed | cmd/upgrade.go:451-457 | the first match of "X.Y.Z" or "vX.Y.Z" is the whole text with groups X, Y and Z |
| LegacyUpgrade.WellFormedSemver | cmd/upgrade.go:450-469 | a well-formed version, with or without "v", breaks out as the numbers its digit runs stand for |
| LegacyUpgrade.SemverRoundTrip | cmd/upgrade.go:450-469 | formatting three numbers as a version and breaking it out gives the numbers back |
| LegacyUpgrade.EmptySemver | cmd/upgrade.go:450-469 | an empty version breaks out as 0.0.0 |
| LegacyUpgrade.LexLessTriple | cmd/upgrade.go:428-446 | on triples the lexicographic order compares first, then second, then third components |
| LegacyUpgrade.CompareTriples | cmd/upgrade.go:424-447 | the comparison is 1, -1 or 0; 0 exactly on equal triples, -1 exactly when the first is lexicographically smaller, 1 exactly when larger |
| LegacyUpgrade.CompareSemverOrder | cmd/upgrade.go:424-447 | comparing versions is reflexive, antisymmetric in sign, and 0 exactly when they break out alike |
| LegacyUpgrade.ConfigOf | cmd/upgrade.go:27-39 | the configuration is the one selected from the flags |
| LegacyUpgrade.SelectConfigFlags | cmd/upgrade.go:29-39 | `all` enables every algorithm; algorithms named explicitly are taken as given with SHA-512 off; otherwise `default` enables XXH3 alone; with none of these, nothing is enabled |
| LegacyUpgrade.ConvertLegacyIff | cmd/upgrade.go:325-381 | an element converts exactly when it is an object with a non-empty path and four digests that are strings or missing; the entry then holds that path and those digests and nothing else; a failure is one error |
| LegacyUpgrade.GetTwo | cmd/upgrade.go:345 | a dotted two-key lookup goes through the first key's value |
| LegacyUpgrade.V040EntryConverts | cmd/upgrade.go:325-381 | an entry written by the 0.4.0 library converts back to the same entry with all four digests |
| LegacyUpgrade.ConversionErrsEmpty | cmd/upgrade.go:325-382 | there are no conversion errors exactly when every element converted |
| LegacyUpgrade.MapToMedia | cmd/upgrade.go:316-385 | the loop fills one slot per element by index, and reports the errors of the elements that fail |
| LegacyUpgrade.MapResultSlots | cmd/upgrade.go:316-385 | a non-array value is an error; an array gives one slot per element, the converted entry or the zero entry, and no error exactly when every element converts |
| LegacyUpgrade.ChkMedia | cmd/upgrade.go:402-420 | the error is the check's own error, else "invalid hash for" the joined path when the digests disagree, else none |
| LegacyUpgrade.MediaErrIff | cmd/upgrade.go:402-420 | an entry checks clean exactly when its file is readable and each compared digest is empty or equal to the file's; otherwise the read error or the mismatch error |
| LegacyUpgrade.ChkMediaSlice | cmd/upgrade.go:388-399 | every entry is checked in order, carrying on after a failure, and each failure's error is kept |
| LegacyUpgrade.SliceErrsEmpty | cmd/upgrade.go:388-399 | checking a slice gives no error exactly when every entry checks clean |
| LegacyUpgrade.CheckSumsLines | cmd/upgrade.go:124-150 | the lines are split into fields, lines of fewer than two fields are skipped, and the entries of the rest are checked with their SHA-256 digest |
| LegacyUpgrade.V010AsWritten | cmd/upgrade.go:104-164 | as written: an unreadable file is one error; otherwise the check errors are followed by those of generating and writing, and a manifest is always generated |
| LegacyUpgrade.V010 | cmd/upgrade.go:104-164 | as intended: check errors stop the upgrade before generating; with none, only the generate-and-write errors are returned |
| LegacyUpgrade.V010GeneratesDespiteFailures | cmd/upgrade.go:123-161 | with one failing entry the as-written upgrade still generates a manifest, while the intended one does not and returns the check errors |
| LegacyUpgrade.V010AllOrNothing | cmd/upgrade.go:104-164 | a manifest is generated exactly when `sums.txt` is read and every entry checks clean, then returning only the generate-and-write errors; otherwise at least one error |
| LegacyUpgrade.V010AsWrittenRun | cmd/upgrade.go:104-164 | as written, a manifest is generated exactly when `sums.txt` can be read, and the errors are the check failures followed by the generate-and-write errors; an unreadable file is its one error |
| LegacyUpgrade.SumsChecksClean | cmd/upgrade.go:111-150 | the checks of a readable `sums.txt` report nothing exactly when every entry checks clean |
| LegacyUpgrade.UpgradeVersion | cmd/upgrade.go:221-313 | an error unless the version is the expected one; an error when 0.5.0 is not forced; else the mapping errors followed by the check errors of every slot |
| LegacyUpgrade.UpgradeV020 | cmd/upgrade.go:221-241 | format 0.2.0 is checked, under the SHA-256-only configuration of lines 223-227, by the 0.5.0 `ChkHash`, which compares every stored SHA3-256, SHA-256, SHA-1 and MD5 digest and never XXH3 or SHA-512, whatever the configuration enables |
| LegacyUpgrade.UpgradeV030 | cmd/upgrade.go:244-266 | format 0.3.0 is checked, under the SHA-256, SHA-1 and MD5 configuration of lines 246-252, by the 0.5.0 `ChkHash`, which compares every stored SHA3-256, SHA-256, SHA-1 and MD5 digest and never XXH3 or SHA-512, whatever the configuration enables |
| LegacyUpgrade.UpgradeV040 | cmd/upgrade.go:269-284 | format 0.4.0 is checked, under the all-algorithms configuration, by the 0.5.0 `ChkHash`, which compares every stored SHA3-256, SHA-256, SHA-1 and MD5 digest and never XXH3 or SHA-512, whatever the configuration enables |
| LegacyUpgrade.UpgradeV050 | cmd/upgrade.go:291-313 | format 0.5.0 is refused unless forced, then checked, under the all-algorithms configuration, by the 0.5.0 `ChkHash`, which compares every stored SHA3-256, SHA-256, SHA-1 and MD5 digest and never XXH3 or SHA-512, whatever the configuration enables |
| LegacyUpgrade.VersionErrsClean | cmd/upgrade.go:221-313 | a version upgrade reports nothing exactly when the version matches, the format is not gated, the media value is an array whose every element converts, and every slot checks clean |
| LegacyUpgrade.DispatchVersion | cmd/upgrade.go:184-204 | the broken-out version selects the upgrade for 0.2.0 to 0.5.0; any other is the "unexpected version" error |
| LegacyUpgrade.UpgradeJson | cmd/upgrade.go:167-218 | a read or parse failure is one error and nothing is generated; otherwise the version's errors stop the upgrade, and without them the generate-and-write errors are returned |
| LegacyUpgrade.JsonAllOrNothing | cmd/upgrade.go:167-218 | a manifest is generated exactly when the file is read and parsed and its upgrade reports nothing, then returning only the generate-and-write errors; otherwise at least one error |
| LegacyUpgrade.UnsupportedVersion | cmd/upgrade.go:184-204 | a version that is none of 0.2.0 to 0.5.0, or is empty, is rejected with the one error naming it, and 0.5.0 unforced with the "current spec" error |
| LegacyUpgrade.FromV040All | cmd/upgrade.go:316-385 | the 0.4.0 entries in the current form, one per entry |
| LegacyUpgrade.V040MediaArray | cmd/upgrade.go:316-385 | the media array the 0.4.0 library writes maps back to its entries with no error |
| LegacyUpgrade.V040ManifestMembers | cmd/upgrade.go:182 | a manifest of the 0.4.0 library exposes its version and media array under those keys |
| LegacyUpgrade.Semver040 | cmd/upgrade.go:193 | "0.4.0" breaks out as 0.4.0 |
| LegacyUpgrade.V040ManifestUpgrades | cmd/upgrade.go:184-284 | a 0.4.0 manifest with media is upgraded as 0.4.0, its errors being only those of checking its entries, under the all-algorithms configuration, by the 0.5.0 `ChkHash` (stored SHA3-256, SHA-256, SHA-1 and MD5 compared) |
| LegacyUpgrade.UpgradeDir | cmd/upgrade.go:65-97 | a directory with a JSON manifest takes the JSON path; without one, a missing `sums.txt` is one not-exist error and a present one takes the 0.1.0 path as written |
| LegacyUpgrade.DirRunClean | cmd/upgrade.go:65-97 | a directory reports no error exactly when a manifest was generated, generating and writing reported nothing and, when upgraded from `sums.txt`, every entry checked clean; from `sums.txt` a manifest is generated exactly when the file can be read, whatever the checks found |
| LegacyUpgrade.AnyFailedIff | cmd/upgrade.go:65-98 | some directory fails exactly when one of them reports an error |
| LegacyUpgrade.UpgradeDirs | cmd/upgrade.go:65-100 | every directory is upgraded and the status is 1 exactly when one of them failed, 0 otherwise |
| LegacyUpgrade.UpgradeCmd.constructor | cmd/upgrade.go:17-24 | the command holds its directories, ignore patterns, force flag and algorithm flags |
| LegacyUpgrade.UpgradeCmd.Execute | cmd/upgrade.go:26-101 | no directories and no working directory gives status 1 and no change; otherwise the working directory is used when none is given, the manifest's name joins the ignores, and the status is 1 exactly when a directory failed |
| Upgrade.AugmentIgnores | cmd/upgrade/upgrade.go:100-111 | the ignore list after the loop is the given one with the manifest's name added when missing |
| Upgrade.WithManifestIgnoredProps | cmd/upgrade/upgrade.go:100-111 | the list ignores the manifest, keeps every given pattern in order, grows by one only when the name was missing, and a second pass changes nothing |
| Upgrade.UpgradeConfigFlags | cmd/upgrade/upgrade.go:74-87 | `all` enables every algorithm; otherwise `default` enables XXH3 alone; otherwise exactly the algorithms asked for are enabled |
| Upgrade.ParseLegacy | cmd/upgrade/upgrade.go:179-195 | the parsed entries are those of the lines with at least two fields, in line order |
| Upgrade.LegacyLineParses | cmd/upgrade/upgrade.go:180-194 | a line "path digest", any white space between, gives exactly that entry with only its SHA-256 digest set |
| Upgrade.LegacyMediaOfLines | cmd/upgrade/upgrade.go:179-195 | lines that each parse give their entries, in order |
| Upgrade.ShortLineSkipped | cmd/upgrade/upgrade.go:181-186 | a line with fewer than two fields adds no entry |
| Upgrade.UpgradeV010 | cmd/upgrade/upgrade.go:155-215 | the outcome is the read error, or the joined check failures with nothing generated, or the generator's error after generating with `sums.txt` ignored |
| Upgrade.V010AllOrNothing | cmd/upgrade/upgrade.go:155-215 | a manifest is generated exactly when `sums.txt` is read and every entry checks clean; an unreadable file returns its read error; otherwise the joined check failures, at least one |
| Upgrade.ConvertStrField | cmd/upgrade/upgrade.go:431-437 | a field converts exactly when it is a string or nil/absent, giving the string or ""; otherwise the error naming algorithm, index and data |
| Upgrade.FieldErrs | cmd/upgrade/upgrade.go:397-405 | one error slot per digest field |
| Upgrade.FieldErrsAt | cmd/upgrade/upgrade.go:397-405 | each field's slot is nil exactly when the field is a string or absent, and otherwise a plain error |
| Upgrade.HashErrsJoin | cmd/upgrade/upgrade.go:397-405 | joining the digest errors after flattening is the same as joining them directly |
| Upgrade.ConvertMediaShape | cmd/upgrade/upgrade.go:380-411 | a converted element has a non-empty path and the digests read from its `hash` object; a failure is never an empty join |
| Upgrade.SlotsOf | cmd/upgrade/upgrade.go:376-378 | one slot per conversion |
| Upgrade.SlotsOfAt | cmd/upgrade/upgrade.go:410 | slot k is the converted entry when conversion k succeeded and the zero entry otherwise |
| Upgrade.NoteConversion | cmd/upgrade/upgrade.go:383-408 | after element i the joined error covers the conversions up to and including i |
| Upgrade.StoreSlot | cmd/upgrade/upgrade.go:410 | slot i is filled from conversion i, the earlier slots are kept and the later ones stay zero |
| Upgrade.MapToManifest | cmd/upgrade/upgrade.go:369-414 | the array filled by index and the joined errors agree with the mapping of the media value |
| Upgrade.MapCleanIff | cmd/upgrade/upgrade.go:369-414 | the mapping as written, with SHA3-256 read from `hash.sha3_256`, has no error exactly when the value is an array whose every element converts; then the table has one entry per element, in order, each with a non-empty path |
| Upgrade.ResultsErrsClean | cmd/upgrade/upgrade.go:380-411 | the conversions add no error exactly when every one succeeded |
| Upgrade.ResultErrsClean | cmd/upgrade/upgrade.go:380-411 | one conversion adds no error exactly when it succeeded |
| Upgrade.NotAnArray | cmd/upgrade/upgrade.go:370-373 | a media value that is not an array maps to nothing, with the "invalid media array" error |
| Upgrade.DigestLookup | cmd/upgrade/upgrade.go:397-405 | in the written `hash` object, an empty digest is absent and any other is stored as a string under its key |
| Upgrade.NoUnderscoreKey | cmd/upgrade/upgrade.go:401 | the written `hash` object has nothing under `sha3_256` |
| Upgrade.StringDigestsConvert | cmd/upgrade/upgrade.go:397-409 | a `hash` value whose digests are all strings or absent converts without error |
| Upgrade.DigestReadBack | cmd/upgrade/upgrade.go:397-405 | a digest written under its key reads back as itself |
| Upgrade.DigestsReadBack | cmd/upgrade/upgrade.go:397-405 | read back under `sha3-256`, the written `hash` object gives the hash itself; read under `sha3_256`, as written, it loses the SHA3-256 digest |
| Upgrade.MediaJsonMembers | cmd/upgrade/upgrade.go:389-401 | a written entry exposes its path and its `hash` object |
| Upgrade.MediaRoundTrip | cmd/upgrade/upgrade.go:380-411 | as corrected, reading back an entry the current format wrote gives the entry itself |
| Upgrade.MediaRoundTripAsWritten | cmd/upgrade/upgrade.go:380-411 | as written, reading back an entry gives it with an empty SHA3-256 digest |
| Upgrade.Sha3DigestLost | cmd/upgrade/upgrade.go:401 | an entry with SHA3-256 digest "ab" does not survive the as-written conversion, and does survive the corrected one |
| Upgrade.V040MediaReadBack | cmd/upgrade/upgrade.go:380-411 | a 0.4.0 entry converts to the same entry with all four digests; as written its SHA3-256 digest is dropped |
| Upgrade.ChkManifest | cmd/upgrade/upgrade.go:417-429 | every entry is checked and the failures are joined in order |
| Upgrade.ChkManifestCountsAll | cmd/upgrade/upgrade.go:417-429 | the joined error holds exactly one member per failing entry: no early exit |
| Upgrade.ExpectVersion | cmd/upgrade/upgrade.go:361-367 | no error exactly when the version string equals the expected one |
| Upgrade.V040NilMediaRejected | cmd/upgrade/upgrade.go:308-327 | a 0.4.0 manifest saved with null media fails with the "invalid media array: <nil>" error alone |
| Upgrade.UpgradeVersion | cmd/upgrade/upgrade.go:262-359 | the version error, else the "current spec" error for unforced 0.5.0, else the errors of the mapping as written, else the joined check failures of the mapped entries |
| Upgrade.UpgradeV020 | cmd/upgrade/upgrade.go:262-282 | format 0.2.0 is checked with SHA-256 alone (media mapped as written, so a stored SHA3-256 digest is never compared) |
| Upgrade.UpgradeV030 | cmd/upgrade/upgrade.go:285-305 | format 0.3.0 is checked with SHA-256, SHA-1 and MD5 (media mapped as written, so a stored SHA3-256 digest is never compared) |
| Upgrade.UpgradeV040 | cmd/upgrade/upgrade.go:308-328 | format 0.4.0 is checked with every algorithm (media mapped as written, so a stored SHA3-256 digest is never compared) |
| Upgrade.UpgradeV050 | cmd/upgrade/upgrade.go:335-359 | format 0.5.0 is refused unless forced, then checked with every algorithm (media mapped as written, so a stored SHA3-256 digest is never compared) |
| Upgrade.Dispatch | cmd/upgrade/upgrade.go:231-251 | the version string selects the as-written upgrade for 0.2.0 to 0.5.0; any other gives the "unexpected version" error |
| Upgrade.UpgradeJson | cmd/upgrade/upgrade.go:217-259 | a read or parse failure is returned as is; the errors of the version's upgrade as written stop the upgrade; otherwise the generator's error |
| Upgrade.UnexpectedVersion | cmd/upgrade/upgrade.go:249-254 | a version outside 0.2.0 to 0.5.0 gives the "unexpected version" error and generates nothing |
| Upgrade.CurrentNotForced | cmd/upgrade/upgrade.go:344-346 | an unforced 0.5.0 manifest gives the "current spec" error |
| Upgrade.JsonAllOrNothing | cmd/upgrade/upgrade.go:262-359 | a supported version's upgrade succeeds exactly when it is not unforced 0.5.0, the media map cleanly as written and every mapped entry checks clean |
| Upgrade.JsonGeneratesIff | cmd/upgrade/upgrade.go:217-259 | a manifest is generated exactly when the file is read and parsed and its version's upgrade, as written, succeeds |
| Upgrade.UpgradeDir | cmd/upgrade/upgrade.go:121-139 | a directory with `medhash.json` takes the JSON path as written; else one with `sums.txt` takes the 0.1.0 path; else the "no manifest.json or sums.txt" error |
| Upgrade.UpgradeDirs | cmd/upgrade/upgrade.go:89-151 | no directories and no working directory is the wrapped error with status 1; otherwise the joined errors of every directory, and status 1 exactly when there is one |
| Color.SgrLen | color/color.go:42 | the length of the match at the start of the text is 0, 4 or 5; a positive one covers exactly ESC '[', one or two digits and 'm'; 0 means no such sequence starts there |
| Color.CleanString | color/color.go:75-78 | the cleaned text is never longer than the input |
| Color.CleanSubsequence | color/color.go:75-78 | the cleaned text is the input with characters deleted and none added or reordered |
| Color.CleanPlain | color/color.go:75-78 | text without ESC passes through unchanged ahead of what follows |
| Color.NoEscUnchanged | color/color.go:75-78 | text without ESC is left unchanged |
| Color.CleanSgr | color/color.go:42-78 | one whole colour sequence at the front is deleted |
| Color.CodesAreSgr | color/color.go:11-42 | each of the package's colour and style constants is a sequence the pattern matches |
| Color.ThreeDigitsKept | color/color.go:42 | a sequence with three digits is not matched and stays |
| Color.SinglePass | color/color.go:75-78 | the text is scanned once: a sequence formed by a deletion is kept |
| Color.StyledClean | color/color.go:75-78 | words without ESC, each preceded by a colour code, come out as the words alone |
| Color.Payload | color/color_test.go:10-14 | the test payload is the four coloured words followed by a reset and a newline |
| Color.PayloadClean | color/color_test.go:26-34 | the test payload cleans to "This is a test\n", so no ESC remains |
| Color.CleanAgrees | color/color.go:70-73 | cleaning bytes agrees with cleaning the text with the same character codes |
| MedhashTypes.PresetConfigs | medhash/manifest.go:6-24 | the default preset enables XXH3 alone, the all preset every algorithm, the legacy preset SHA3, SHA-256, SHA-1 and MD5 |
| MedhashHash.HashOfFields | medhash/hash.go:20-94 | a generated digest field is filled exactly when its algorithm is enabled, holding that algorithm's digest; the SHA3 alias equals the SHA3 field |
| MedhashHash.GenHash | medhash/hash.go:21-94 | an unreadable file gives its read error; otherwise the entry has the given path and the digests of the enabled algorithms |
| MedhashHash.NarrowOnlyClears | medhash/hash.go:103-120 | narrowing only disables: an algorithm stays enabled exactly when it was and a digest is stored for it (SHA3 or its alias for SHA3); directory and manifest name are kept |
| MedhashHash.LastOfAppend | medhash/hash.go:127-155 | the last report of two runs of comparisons is the second run's when it has one, the first's otherwise |
| MedhashHash.NarrowConfig | medhash/hash.go:103-120 | the configuration after the six clearing steps is the narrowed one |
| MedhashHash.CompareSha3 | medhash/hash.go:133-146 | the SHA3 step replaces the previous report exactly when the stored and recomputed SHA3 digests, with their fallbacks, differ |
| MedhashHash.CompareDigests | medhash/hash.go:127-155 | the report is the last mismatch in the order XXH3, SHA-512, SHA3, SHA-256, SHA-1, MD5 |
| MedhashHash.CompareField | medhash/hash.go:127-155 | one step replaces the previous report exactly when its enabled algorithm's digests differ |
| MedhashHash.LastOfStep | medhash/hash.go:127-155 | one more comparison keeps the last report, or replaces it with its own mismatch |
| MedhashHash.ChkHash | medhash/hash.go:100-158 | the error is the read error of the file, else the last mismatch under the narrowed configuration, else none |
| MedhashHash.EmptyStoredNeverFails | medhash/hash.go:103-120 | an algorithm with no stored digest is never compared |
| MedhashHash.NothingStoredNothingFails | medhash/hash.go:100-158 | an entry with no stored digest reports no mismatch |
| MedhashHash.ReportedIsLastMismatch | medhash/hash.go:127-155 | nothing is reported exactly when no algorithm mismatches; an MD5 mismatch is always the one reported; any report is some algorithm's mismatch |
| MedhashHash.LastMismatchWitness | medhash/hash.go:127-155 | the algorithm whose mismatch is reported, found from the end of the order |
| MedhashHash.TamperDetected | medhash/hash.go:100-158 | a stored digest of an enabled algorithm that differs from the file's digest is always reported |
| MedhashHash.TamperDetectedSha3 | medhash/hash.go:133-146 | a changed SHA3 digest, stored under `sha3` or its alias, is reported too |
| MedhashHash.GenerateThenCheck | medhash/hash.go:20-158 | digests generated under any configuration check clean against the same content under any configuration |
| MediaOrder.MediaCmpOrder | medhash/media.go:70-73 | comparing paths is 0 exactly on equal paths, antisymmetric, total and transitive |
| MediaOrder.MediaCmpStrict | medhash/media.go:70-73 | a non-strict step followed by a strict one is strict |
| MediaOrder.InsertPermutes | medhash/media.go:51-53 | inserting one entry adds exactly that entry |
| MediaOrder.InsertSorted | medhash/media.go:51-53 | inserting into a sorted table keeps it sorted |
| MediaOrder.InsertWithPath | medhash/media.go:46-53 | the entries of each path keep their order, the inserted one after those of its path |
| MediaOrder.WithPathSnoc | medhash/media.go:46-53 | appending an entry appends it to the entries of its path only |
| MediaOrder.InsertAt | medhash/media.go:51-53 | an entry goes after the last entry not greater than it |
| MediaOrder.SortStableSorted | medhash/media.go:46-53 | the stable sort is sorted by path |
| MediaOrder.SortStablePermutes | medhash/media.go:46-53 | the stable sort is a permutation of its input |
| MediaOrder.SortStableKeepsOrder | medhash/media.go:46-50 | entries of equal path keep their insertion order |
| MediaOrder.SortStableOfSorted | medhash/media.go:46-53 | a sorted table is left as it is |
| MediaOrder.AppendThenSort | medhash/media.go:24-33 | appending to a sorted table and sorting inserts the entry after those of its path |
| MediaOrder.WithPathLast | medhash/media.go:46-53 | the last entry is the last of its path |
| MediaOrder.WithPathMember | medhash/media.go:46-53 | a path with entries occurs in the table |
| MediaOrder.LastIsGreatest | medhash/media.go:46-53 | in a sorted table every path with entries is not greater than the last one |
| MediaOrder.SameLast | medhash/media.go:46-53 | two sorted tables with the same entries per path end alike |
| MediaOrder.SameInits | medhash/media.go:46-53 | dropping a shared last entry keeps the same entries per path |
| MediaOrder.NonEmptyTogether | medhash/media.go:46-53 | tables with the same entries per path are empty together |
| MediaOrder.SortedSamePathsEqual | medhash/media.go:46-53 | sorted tables with the same entries per path, in the same order, are equal |
| MediaOrder.StableSortUnique | medhash/media.go:46-53 | any sorted table with the input's entries per path in the input's order is the stable sort |
| MediaOrder.FirstWithPath | medhash/media.go:55-68 | the first index holding a path, or none when no entry has it |
| Medhash.WithManifestName | medhash/manifest.go:39-42 | an empty manifest name becomes "medhash.json", a given one is kept, nothing else changes |
| Medhash.MediaErrOrNil | medhash/media.go:75-97 | nil stays nil; an error is wrapped, keeps the original as its cause and is prefixed by the joined path |
| Medhash.MediaErrIs | medhash/media.go:85-87 | the wrapped error still matches what the original matched |
| Medhash.CheckMedia | medhash/media.go:16-20 | the error of checking the entry, wrapped with its path |
| Medhash.InsertInto | medhash/media.go:51-53 | one insertion step of the stable sort |
| Medhash.SortStableSeq | medhash/media.go:51-53 | the insertion sort gives the stable sort |
| Medhash.Manifest.constructor | medhash/manifest.go:27-33 | the manifest holds its version, generator, media, configuration and signature |
| Medhash.Manifest.Add | medhash/media.go:22-34 | an unreadable file returns its error and leaves the table; otherwise the new entry is appended and the table sorted stably, so it is sorted afterwards; a sorted table stays sorted either way; nothing else changes |
| Medhash.Manifest.SortMedia | medhash/media.go:46-53 | the table becomes its stable sort, which is sorted, and nothing else changes |
| Medhash.Manifest.SearchMedia | medhash/media.go:55-68 | a found entry is in the table with that path; otherwise "media ... not in manifest"; on a sorted table the first entry of that path is found exactly when there is one |
| Medhash.Manifest.Check | medhash/media.go:36-44 | an absent path is the not-in-manifest error; otherwise the wrapped check error of an entry with that path, the first one on a sorted table |
| Medhash.Manifest.StripSignature | medhash/signature.go:15-21 | a new manifest with the same data and configuration and no signatures |
| Medhash.Manifest.Ed25519Sign | medhash/signature.go:47-64 | the Ed25519 signature of the stripped manifest is stored, or the error returned with the signature unchanged |
| Medhash.Manifest.MinisignSign | medhash/signature.go:91-121 | the minisign signature of the stripped manifest is stored, or the error returned with the signature unchanged |
| Medhash.Manifest.Sign | medhash/signature.go:23-33 | each enabled scheme signs in turn and their errors are joined; nothing but the signature changes |
| Medhash.Manifest.Ed25519Verify | medhash/signature.go:66-89 | the error of verifying the Ed25519 signature over the stripped manifest |
| Medhash.Manifest.MinisignVerify | medhash/signature.go:123-151 | the error of verifying the minisign signature over the stripped manifest |
| Medhash.Manifest.Verify | medhash/signature.go:35-45 | the joined errors of the enabled schemes |
| Medhash.SearchMediaFound | medhash/media.go:59-68 | where binary search stops, on a sorted table, is the first entry of the path when there is one |
| Medhash.SortedLe | medhash/media.go:46-53 | in a sorted table an earlier entry is not greater than a later one |
| Medhash.NewWithConfig | medhash/manifest.go:39-51 | a fresh, sorted, empty manifest of format 0.6.0 with no signature, the manifest name defaulted, and no error |
| Medhash.New | medhash/manifest.go:35-37 | the same with the default preset |
| Medhash.AddedEntry | medhash/media.go:22-34 | after adding, the table is one entry longer, sorted, a permutation with the new entry, inserted after its equals when it was sorted |
| MedhashSignature.RecoverErr | medhash/signature.go:153-179 | nil stays nil, an error is returned as is, any other value becomes an error with its text |
| MedhashSignature.StrippedIgnoresSignature | medhash/signature.go:15-21 | the stripped manifest does not depend on the signatures, has none, and keeps every other field |
| MedhashSignature.NothingEnabled | medhash/signature.go:23-45 | with no scheme enabled, signing changes nothing and neither signing nor verifying reports an error |
| MedhashSignature.BothErrorsJoined | medhash/signature.go:35-45 | when both schemes fail, both errors are reported, Ed25519's first |
| MedhashSignature.MalformedBeforePrimitive | medhash/signature.go:67-71 | a signature that is not hex is reported as malformed, wrapping the decoding error, whatever the primitive would do |
| MedhashSignature.WrongSizeIsBadSignature | medhash/signature.go:84-86 | a hex signature of the wrong size is a bad signature under a well-formed key |
| MedhashSignature.BadPublicKeyIsError | medhash/signature.go:78-88 | a public key of the wrong size panics, and the panic is reported as an error |
| MedhashSignature.Ed25519SignOutcome | medhash/signature.go:48-64 | a private key of the wrong size is reported and leaves the signature; a good one stores 128 lower-case hex digits |
| MedhashSignature.SignThenVerify | medhash/signature.go:23-151 | signing with matching key pairs reports nothing, and verifying the signed manifest then succeeds |
| Medhash050.ChkHash | medhash/chkhash.go:11-44 | the answer is not valid with the read error, or whether the four compared digests equal the recomputed ones, with no error |
| Medhash050.ChkHashValidIff | medhash/chkhash.go:11-44 | a readable file is valid, with no error, exactly when each compared digest is empty or equal to the file's; an unreadable one is not valid and gives its error |
| Medhash050.UncomparedIgnored | medhash/chkhash.go:17-41 | the XXH3, SHA-512 and `sha3` fields are never checked: changing them changes nothing |
| Medhash050.TamperDetected050 | medhash/chkhash.go:17-41 | a stored compared digest that differs from the file's makes the entry not valid, with no error |
| Medhash050.GenerateThenCheck050 | medhash/genhash.go:25-103 | digests generated under any configuration check valid against the same file |
| Medhash050.KeyRoundTrip | medhash/sign.go:28-57 | decoding an encoded key gives the key and its kind back |
| Medhash050.DecodeKeyKinds | medhash/sign.go:42-57 | input without a PEM block decodes to no key, not private; a key is private exactly when its block has the private type |
| Medhash050.Sign | medhash/sign.go:59-85 | the result is the one of signing the stripped manifest |
| Medhash050.Verify | medhash/sign.go:87-126 | the result is the one of verifying the stored signature against the stripped manifest |
| Medhash050.SignKeepsManifest | medhash/sign.go:59-85 | a manifest is returned exactly when there is no error, and stripped it is the input stripped |
| Medhash050.SignEd25519050 | medhash/sign.go:70-79 | a 64-byte private key stores 128 lower-case hex digits; any other key fails with the bad private key error and no manifest |
| Medhash050.VerifyErrorKinds | medhash/sign.go:101-122 | an empty signature is the no-signature error, a non-hex one the malformed-signature error with the hex error, a bad public key its error, and a wrong-size signature is not valid with no error |
| Medhash050.VerifyDisabled | medhash/sign.go:91-126 | with Ed25519 disabled every manifest that serialises is valid |
| Medhash050.SignThenVerify050 | medhash/sign.go:59-126 | signing with a 64-byte private key succeeds, and the signed manifest verifies under the matching public key |
| Medhash040.NewIsLegacyConfig | medhash/medhash.go:20-35 | a new manifest enables SHA3, SHA-256, SHA-1 and MD5, and not XXH3 or SHA-512 |
| Medhash040.MediaItems | medhash/medhash.go:11-17 | one JSON item per entry |
| Medhash040.NewManifestJson | medhash/medhash.go:11-35 | a new manifest writes as version "0.4.0" with null media and nothing else |
| SrcData.GenHash | src/data/genhash.go:14-64 | the result is a hash exactly when the file can be read, and then it holds the hex SHA256, SHA1 and MD5 digests of the file's content |
| SrcData.ChkHashMeaning | src/data/chkhash.go:4-16 | the check passes exactly when the file is readable and all three stored digests equal, as text, the digests of its content |
| SrcData.GeneratedChecks | src/data/chkhash.go:4-16 | digests just generated from a file check as valid against that file |
| SrcData.UnreadableFails | src/data/chkhash.go:5-9 | a missing or non-regular file never checks, whatever digests are stored |
| SrcData.SingleFieldTamper | src/data/chkhash.go:11-13 | replacing any one of the three digests of a valid entry by a different string makes the check fail |
| SrcMedhash.New | src/medhash/medhash.go:20-22 | a new manifest has the current format version "0.4.0", no generator and nil media |
| SrcMedhash.NewAgreesWithLibrary | src/medhash/medhash.go:20-22 | the tools' new manifest has the same version, generator and nil media as the 0.4.0 library's new manifest |
| SrcMedhash.FmtError | src/medhash/medhash.go:36-44 | the result is nil exactly when the error is nil, and otherwise a plain error |
| SrcMedhash.FmtErrorText | src/medhash/medhash.go:36-44 | the formatted text is "medhash: " followed by the original text unchanged, nine characters longer |
| SrcMedhash.GenHash | src/medhash/genhash.go:41-79 | an entry is produced exactly when the file can be read; it carries the path and all four digests of the content; otherwise the read error is returned prefixed once |
| SrcMedhash.ChkHash | src/medhash/chkhash.go:11-25 | an error comes back exactly when the file cannot be read, with the result false and the read error prefixed twice; otherwise the result is true exactly when SHA256, SHA1 and MD5 match and SHA3-256 matches or is empty |
| SrcMedhash.GeneratedChecks | src/medhash/chkhash.go:11-25 | an entry just generated from a file checks as valid with no error |
| SrcMedhash.MissingFileText | src/medhash/chkhash.go:12-15 | a missing file gives the error "medhash: medhash: open <path>: no such file or directory" |
| SrcMedhash.TamperedEntry | src/medhash/chkhash.go:17-24 | a changed SHA256, SHA1 or MD5, or a changed non-empty SHA3-256, makes a valid entry invalid without an error; an emptied SHA3-256 keeps it valid |
| SrcUpgrade.StripDotSlashCases | src/medhash-upgrade/handleupgradeV010.go:38-40 | a leading "./" is dropped when something follows it; a bare "./" and a path without that prefix are kept |
| SrcUpgrade.SplitWithout | src/medhash-upgrade/handleupgradeV010.go:32 | a string without the separator splits into itself alone |
| SrcUpgrade.LineWithoutSeparator | src/medhash-upgrade/handleupgradeV010.go:32-34 | a line without two consecutive spaces, an empty line included, is ignored |
| SrcUpgrade.SumsLine | src/medhash-upgrade/handleupgradeV010.go:32-40 | a `sha256sum` line of a digest, two spaces and a path gives that path, "./" dropped, with that digest |
| SrcUpgrade.ParseAndHash | src/medhash-upgrade/handleupgradeV010.go:30-73 | the loop's kept entries and failure count equal the first pass defined line by line over all lines |
| SrcUpgrade.FirstPassStep | src/medhash-upgrade/handleupgradeV010.go:31-73 | the pass over one more line is the pass over the lines before it extended by that line's step |
| SrcUpgrade.CheckAll | src/medhash-upgrade/handleupgradeV010.go:82-104 | the loop checks every entry without stopping and counts exactly the entries that fail the check |
| SrcUpgrade.HandleUpgradeV010 | src/medhash-upgrade/handleupgradeV010.go:16-132 | the error returned and the manifest handed to the writer equal the handler's outcome function |
| SrcUpgrade.HandleUpgradeV020AsWritten | src/medhash-upgrade/handleupgradeV020.go:15-76 | the error returned and the manifest handed to the writer equal the outcome of the handler as written, decoding error ignored |
| SrcUpgrade.HandleUpgradeV020 | src/medhash-upgrade/handleupgradeV020.go:15-76 | the same handler with the decoding error returned before anything is checked or written |
| SrcUpgrade.RejectedZero | src/medhash-upgrade/handleupgradeV020.go:31-55 | the failure count is zero exactly when every entry passes the check |
| SrcUpgrade.CheckFailuresZero | src/medhash-upgrade/handleupgradeV010.go:82-109 | no sanity check fails exactly when every entry checks against its file |
| SrcUpgrade.FirstPassClean | src/medhash-upgrade/handleupgradeV010.go:31-78 | the first pass counts no failure exactly when every line is ignored or kept |
| SrcUpgrade.FailedStep | src/medhash-upgrade/handleupgradeV010.go:55-61 | the last line adds one failure when its file is unreadable or its SHA256 differs, and none otherwise |
| SrcUpgrade.NoLineFailsStep | src/medhash-upgrade/handleupgradeV010.go:31-73 | no line fails exactly when no earlier line fails and the last one does not |
| SrcUpgrade.FirstPassEntries | src/medhash-upgrade/handleupgradeV010.go:31-73 | without failures, one entry per parsed line in order, with the line's path, the legacy SHA256 and the digests generated from the file |
| SrcUpgrade.SecondPassRedundant | src/medhash-upgrade/handleupgradeV010.go:82-109 | the sanity check of what the first pass kept never fails |
| SrcUpgrade.V010AllOrNothing | src/medhash-upgrade/handleupgradeV010.go:16-132 | a manifest is written exactly when `sums.txt` is readable and no line fails; it carries the tool's version and the kept entries; a failing line gives "media integrity" and no write |
| SrcUpgrade.V020AllOrNothing | src/medhash-upgrade/handleupgradeV020.go:15-76 | with the decoding error checked, a manifest is written exactly when the file reads, decodes and every entry checks; it is the decoded media under version "0.3.0" |
| SrcUpgrade.V020OverwritesUndecodable | src/medhash-upgrade/handleupgradeV020.go:23-26 | as written, an undecodable `medhash.json` is replaced by an empty 0.3.0 manifest; with the error checked, that error is returned and nothing is written |
| SrcUpgrade.V020AgreeWhenDecoded | src/medhash-upgrade/handleupgradeV020.go:15-76 | when the manifest cannot be read or decodes without error, the handler as written and as corrected give the same outcome: ignoring the decoding error is their only difference |
| TestOptions.Options.Raw | testcommon/options.go:51-53 | the stored value for a present key, nil for a missing one |
| TestOptions.Options.Bool | testcommon/options.go:25-31 | true exactly when the key is present and holds the bool true; a missing key or another type reads as false |
| TestOptions.Options.Str | testcommon/options.go:33-41 | a stored string is returned as is; a missing key or nil gives ""; any other value gives its `%v` rendering |
| TestOptions.Options.StrSlice | testcommon/options.go:43-49 | a stored slice of strings is returned as is; anything else gives an empty slice |
| TestOptions.NewOptions | testcommon/options.go:55-62 | the options hold the value under the key and no other key |
| TestOptions.MergeOptions | testcommon/options.go:64-77 | the merged map equals the specification merge of the options in order, whatever order each map's entries are copied in |
| TestOptions.MergedKeys | testcommon/options.go:64-77 | a key is in the merge exactly when some merged option has it |
| TestOptions.MergedLastWins | testcommon/options.go:66 | a key takes the value of the last option that has it |
| TestOptions.NewOptionsReadBack | testcommon/options.go:10-62 | each accessor reads back the bool, string or slice stored by NewOptions, and the matching type test holds |
| TestOptions.AbsentKey | testcommon/options.go:10-49 | a missing key reads as false, "" and an empty slice, and no type test holds for it |
| TestOptions.WrongType | testcommon/options.go:25-49 | a value of another type reads as false or an empty slice, while Str prints it: a bool as "true", a slice as "[a b]" |
| TestOptions.MergedFlags | testcommon/options.go:56-77 | flags set by separate options are all true in their merge, and a third flag is not |

## Left out

- File contents, directory walking and writing: files are a map from path to entry, and a read fails only when the path is missing or is not a regular file. `os.Stat` is modelled only as far as it tells that a file does not exist.
- The digest algorithms, Ed25519, minisign, PEM and hex decoding internals: they are uninterpreted functions, with only the properties the program relies on stated as requirements. Only the error classification around them is modelled: malformed, bad signature, bad key and missing signature.
- JSON encoding and decoding (`encoding/json`, `objx`), `filepath.Join`, `filepath.Match`, `os.Getwd`, `packageinfo.Version`, the minisign clock, and manifest generation and writing (`GenFunc`, `WriteFunc`): each is a parameter of the member that uses it.
- JSON numbers are integers: the program never reads a number out of a manifest, it only prints one in an error message.
- Printing, progress output, colour output, `os.Exit` and the terminal check behind `nonTtyClean`: they change nothing the program computes.
- The directory loop of the current `chk` command (cmd/chk/chk.go:102-131): it is command-line wiring around `chk`, which is modelled, as are the scheme and key options before it.
- Key generation and storage, prompting and the command builders: these are user-interface layers.
- The digest wrappers of the first tools (src/data/genhash.go, src/medhash/genhash.go): they read the file once per algorithm. Over a file system that is a value, every pass sees the same content, so they are modelled as one read.
- A nil `*Hash` inside a media entry of the first tools: every entry carries a hash. A nil and an empty media slice of the current manifest are not distinguished either.
- A manifest of format 0.6.0 is given a `Signature` field, which medhash/signature.go and medhash/sign.go use. The `Manifest` struct of medhash/manifest.go, as it stands in this revision, does not declare it.
- The `ChkHash(config, media)` that cmd/upgrade.go and cmd/chk.go call is not part of this model: its file is not among the sources modelled. Both commands use `ChkHash` of medhash/chkhash.go (the 0.5.0 library) with the directory of the configuration. That function takes only the directory, so the algorithm flags each command or version upgrade selects are not honoured: every stored SHA3-256, SHA-256, SHA-1 and MD5 digest is compared, and XXH3 and SHA-512 never are.
- BenchArgs.Args.ParseOptions: requires `ValuesPresent`, that is, no value option is the last argument; there Go indexes past the end of the slice and panics.
- BenchSummary.GenTable: requires `WellShaped`, a non-empty table with no row longer than its header, which Go would otherwise index past. Widths are counted in characters where Go counts bytes; the two agree on ASCII cells.
- TestOptions.Options.Str: the `%v` text of a value of an unlisted type is carried by the value itself (`Other`), since `fmt` is not modelled.
- TestOptions.MergeOptions: maps are values, so the fresh map shares nothing with its inputs by construction, and "inputs unchanged" needs no proof.
- Help printing in the benchmark's `Parse`: the model records only that the program exits.

## Findings

| source | as written | input that shows it | evidently intended | confidence | as-written member | corrected member |
|---|---|---|---|---|---|---|
| cmd/upgrade/upgrade.go:401 | the SHA3-256 digest of a media entry is read from the key path `hash.sha3_256` | a 0.4.0 or 0.5.0 manifest whose entry stores `"sha3-256": "<digest>"`: the upgraded entry has an empty SHA3-256, so that digest is never checked | read the key `sha3-256` that manifests are written with | high, not executed | Upgrade.MediaRoundTripAsWritten | Upgrade.MediaRoundTrip |
| cmd/upgrade.go:123-155 | in `v010` the check failures go into `errs`, but the generation gate tests `chkErrs`, which is never filled | a `sums.txt` whose only line names a file with a different SHA256: the new manifest is still generated and written | generate nothing when any legacy entry fails its check | high, not executed | LegacyUpgrade.V010GeneratesDespiteFailures | LegacyUpgrade.V010AllOrNothing |
| src/medhash-upgrade/handleupgradeV020.go:24 | the error of `json.Unmarshal` is discarded | a `medhash.json` holding `{` (a syntax error): the zero manifest passes the check with no media and is written as an empty 0.3.0 manifest | return the decoding error and write nothing | high, not executed | SrcUpgrade.V020OverwritesUndecodable | SrcUpgrade.V020AllOrNothing |
