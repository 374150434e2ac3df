/**
 * The command line of the benchmark program (_bench/args.go): an iteration count, a payload
 * size with an optional binary unit, a report path, and the commands to benchmark, each with a
 * label and its own arguments.
 *
 * `Size` is an `int64`; multiplying by the unit wraps around as Go's integer arithmetic does.
 * Printing the help text is left out; where `Parse` prints it and exits, `exits` is true.
 * A value option given as the last argument makes Go index past the end of the slice and
 * panic; the parsing members require that this does not happen (`ValuesPresent`).
 */
module BenchArgs {
  import opened Outcomes
  import opened GoErrors
  import opened GoLib

  const ErrHelp: Error := Leaf("print help message")

  const KiB: int := 1024
  const MiB: int := 1024 * KiB
  const GiB: int := 1024 * MiB

  /** An `int64` result of arithmetic that may leave the range: the value modulo 2^64, in range. */
  function WrapInt64(x: int): (r: int)
    ensures Int64Min <= r <= Int64Max
    ensures Int64Min <= x <= Int64Max ==> r == x
  {
    if Int64Min <= x <= Int64Max then x else (x - Int64Min) % 0x1_0000_0000_0000_0000 + Int64Min
  }

  /** Just past the top of the range, the value wraps once. */
  lemma WrapOnce(x: int)
    requires Int64Max < x <= Int64Max + 0x1_0000_0000_0000_0000
    ensures WrapInt64(x) == x - 0x1_0000_0000_0000_0000
  {
    var y := x - Int64Min;
    assert 0x1_0000_0000_0000_0000 <= y < 2 * 0x1_0000_0000_0000_0000;
    assert y % 0x1_0000_0000_0000_0000 == y - 0x1_0000_0000_0000_0000;
  }

  /** The error of `strconv.Atoi` for `s`: a `*NumError` whose `Unwrap` is the cause. */
  function AtoiError(s: string, e: NumError): Error {
    var cause := if e == ErrSyntax then "invalid syntax" else "value out of range";
    Wrap("strconv.Atoi: parsing " + Quote(s) + ": " + cause, Leaf(cause))
  }

  /** Whether a final character names a unit: "K", "M" or "G". */
  predicate IsUnit(u: char) {
    u == 'K' || u == 'M' || u == 'G'
  }

  /** `n` times the multiplier of the final character `u`: KiB, MiB or GiB, and 1 (bytes) for any other character. */
  function Scale(u: char, n: int): int {
    if u == 'K' then 1024 * n else if u == 'M' then 1048576 * n else if u == 'G' then 1073741824 * n else n
  }

  /**
   * `parseSize`: an error for the empty string; otherwise, with a final "K", "M" or "G", the
   * integer before it times 1024, 1024² or 1024³, and without one the whole string as a
   * number of bytes.
   */
  function ParseSize(size: string): (r: Result<int, Error>)
    ensures r.Ok? ==> Int64Min <= r.value <= Int64Max
  {
    if |size| < 1 then Fail(Leaf("unknown size: " + size))
    else
      var unit := size[|size| - 1];
      var operandStr := if IsUnit(unit) then size[..|size| - 1] else size;
      match Atoi(operandStr)
      case Fail(e) => Fail(AtoiError(operandStr, e))
      case Ok(operand) => Ok(WrapInt64(Scale(unit, operand)))
  }

  /** A command to benchmark; `name` is its `Label`. */
  datatype Cmd = Cmd(name: string, cmd: string, args: seq<string>)

  const NoCmd: Cmd := Cmd("", "", [])

  /** What an argument asks for. */
  datatype Op = Help | Count | SizeOp | Report | CmdOp | Label | NoOp

  /** The option an argument names: "--name" or "-letter"; anything else is `NoOp`. */
  function OpOf(a: string): Op {
    if |a| > 2 && a[..2] == "--" then
      var name := a[2..];
      if name == "help" then Help
      else if name == "count" then Count
      else if name == "size" then SizeOp
      else if name == "report" then Report
      else if name == "cmd" then CmdOp
      else if name == "label" then Label
      else NoOp
    else if |a| > 1 && a[..1] == "-" then
      var name := a[1..];
      if name == "h" then Help
      else if name == "q" then Count
      else if name == "s" then SizeOp
      else if name == "r" then Report
      else if name == "c" then CmdOp
      else if name == "l" then Label
      else NoOp
    else NoOp
  }

  /** Whether an option takes the next argument as its value. */
  predicate TakesValue(op: Op) {
    op == Count || op == SizeOp || op == Report || op == CmdOp || op == Label
  }

  /**
   * Whether parsing from position `i` on finds the value of every value option it reaches
   * (parsing stops at help and at a count or size that does not parse).
   */
  predicate ValuesPresent(args: seq<string>, i: nat)
    decreases |args| - i
  {
    if i >= |args| then true
    else if |args[i]| < 1 then ValuesPresent(args, i + 1)
    else
      var op := OpOf(args[i]);
      if op == Help then true
      else if !TakesValue(op) then ValuesPresent(args, i + 1)
      else
        i + 1 < |args| &&
        (if op == Count && Atoi(args[i + 1]).Fail? then true
         else if op == SizeOp && ParseSize(args[i + 1]).Fail? then true
         else ValuesPresent(args, i + 2))
  }

  /** The parser's state: the fields of `Args` and the command being collected. */
  datatype Parsed = Parsed(count: int, size: int, report: string, cmds: seq<Cmd>, cur: Cmd)

  /** Before a new command or label: the current command is kept, and a new one started, once it has both. */
  function Push(p: Parsed): Parsed {
    if |p.cur.cmd| > 0 && |p.cur.name| > 0 then p.(cmds := p.cmds + [p.cur], cur := NoCmd) else p
  }

  /** At the end: the current command is kept when it has a command. */
  function Finish(p: Parsed): Parsed {
    if |p.cur.cmd| > 0 then p.(cmds := p.cmds + [p.cur]) else p
  }

  /** `parse` from position `i` on: the final state and the error that stopped it, if any. */
  function Walk(args: seq<string>, i: nat, p: Parsed): (Parsed, Option<Error>)
    requires ValuesPresent(args, i)
    decreases |args| - i
  {
    if i >= |args| then (Finish(p), None)
    else if |args[i]| < 1 then Walk(args, i + 1, p)
    else
      match OpOf(args[i])
      case Help => (p, Some(ErrHelp))
      case Count =>
        (match Atoi(args[i + 1])
         case Fail(e) => (p, Some(AtoiError(args[i + 1], e)))
         case Ok(q) => Walk(args, i + 2, p.(count := q)))
      case SizeOp =>
        (match ParseSize(args[i + 1])
         case Fail(e) => (p, Some(e))
         case Ok(s) => Walk(args, i + 2, p.(size := s)))
      case Report => Walk(args, i + 2, p.(report := args[i + 1]))
      case Label => Walk(args, i + 2, Push(p).(cur := Push(p).cur.(name := args[i + 1])))
      case CmdOp => Walk(args, i + 2, Push(p).(cur := Push(p).cur.(cmd := args[i + 1])))
      case NoOp => Walk(args, i + 1, p.(cur := p.cur.(args := p.cur.args + [args[i]])))
  }

  /** The parameters of the benchmark. */
  class Args {
    var count: int
    var payloadSize: int
    var report: string
    var cmds: seq<Cmd>

    /** The zero value. */
    constructor ()
      ensures count == 0 && payloadSize == 0 && report == "" && cmds == []
    {
      count := 0;
      payloadSize := 0;
      report := "";
      cmds := [];
    }

    /**
     * `parse`: the fields become the final state of the walk over `args` from the current
     * count, size and report, with no commands; on an error, what was set before it stays.
     */
    method ParseOptions(args: seq<string>) returns (err: Option<Error>)
      requires ValuesPresent(args, 0)
      modifies this
      ensures var r := Walk(args, 0, Parsed(old(count), old(payloadSize), old(report), [], NoCmd));
        err == r.1 && count == r.0.count && payloadSize == r.0.size && report == r.0.report && cmds == r.0.cmds
    {
      ghost var start := Parsed(count, payloadSize, report, [], NoCmd);
      var c := NoCmd;
      cmds := [];
      var i := 0;
      while i < |args|
        invariant 0 <= i <= |args|
        invariant ValuesPresent(args, i)
        invariant Walk(args, i, Parsed(count, payloadSize, report, cmds, c)) == Walk(args, 0, start)
        decreases |args| - i
      {
        ghost var p := Parsed(count, payloadSize, report, cmds, c);
        var a := args[i];
        if |a| < 1 {
          WalkNext(args, i, p);
          i := i + 1;
          continue;
        }
        var op := OpOf(a);
        if op != Help {
          WalkNext(args, i, p);
        }
        if op == Help {
          return Some(ErrHelp);
        } else if op == Count {
          var q := Atoi(args[i + 1]);
          if q.Fail? {
            return Some(AtoiError(args[i + 1], q.error));
          }
          count := q.value;
          i := i + 1;
        } else if op == SizeOp {
          var s := ParseSize(args[i + 1]);
          if s.Fail? {
            return Some(s.error);
          }
          payloadSize := s.value;
          i := i + 1;
        } else if op == Report {
          report := args[i + 1];
          i := i + 1;
        } else if op == Label {
          if |c.cmd| > 0 && |c.name| > 0 {
            cmds := cmds + [c];
            c := NoCmd;
          }
          c := c.(name := args[i + 1]);
          i := i + 1;
        } else if op == CmdOp {
          if |c.cmd| > 0 && |c.name| > 0 {
            cmds := cmds + [c];
            c := NoCmd;
          }
          c := c.(cmd := args[i + 1]);
          i := i + 1;
        } else {
          c := c.(args := c.args + [a]);
        }
        i := i + 1;
      }
      if |c.cmd| > 0 {
        cmds := cmds + [c];
      }
      err := None;
    }

    /**
     * `Parse`: fewer than two arguments is the error "missing arguments" and changes nothing;
     * otherwise the arguments after the program name are parsed, and when that asks for help
     * the program prints it and exits.
     */
    method Parse(args: seq<string>) returns (err: Option<Error>, exits: bool)
      requires |args| < 2 || ValuesPresent(args[1..], 0)
      modifies this
      ensures |args| < 2 ==> err == Some(Leaf("missing arguments")) && !exits && unchanged(this)
      ensures |args| >= 2 ==>
        var r := Walk(args[1..], 0, Parsed(old(count), old(payloadSize), old(report), [], NoCmd));
        err == r.1 && count == r.0.count && payloadSize == r.0.size && report == r.0.report && cmds == r.0.cmds &&
        exits == (r.1.Some? && Is(r.1.value, ErrHelp))
    {
      if |args| < 2 {
        return Some(Leaf("missing arguments")), false;
      }
      err := ParseOptions(args[1..]);
      exits := err.Some? && Is(err.value, ErrHelp);
    }
  }

  // ---------------------------------------------------------------- properties

  /** The empty size is an error. */
  lemma ParseSizeEmpty()
    ensures ParseSize("") == Fail(Leaf("unknown size: "))
  {
    assert "unknown size: " + "" == "unknown size: ";
  }

  /** `Atoi` of a string of digits in range is its value. */
  lemma AtoiDigits(digits: string)
    requires 0 < |digits| && AllDigits(digits) && DigitsValue(digits) <= Int64Max
    ensures Atoi(digits) == Ok(DigitsValue(digits))
  {
    assert digits[0] != '-' && digits[0] != '+';
  }

  /** The unit constants are the powers of 1024 that `Scale` multiplies by. */
  lemma ScaleUnits(n: int)
    ensures Scale('K', n) == KiB * n && Scale('M', n) == MiB * n && Scale('G', n) == GiB * n
    ensures forall u :: !IsUnit(u) ==> Scale(u, n) == n
  {
  }

  /**
   * A number followed by "K", "M" or "G" is that many KiB, MiB or GiB. The product wraps
   * around when it leaves the `int64` range.
   */
  lemma ParseSizeUnit(digits: string, u: char)
    requires 0 < |digits| && AllDigits(digits) && DigitsValue(digits) <= Int64Max
    requires IsUnit(u)
    ensures ParseSize(digits + [u]) == Ok(WrapInt64(Scale(u, DigitsValue(digits))))
    ensures Scale(u, DigitsValue(digits)) <= Int64Max ==> ParseSize(digits + [u]) == Ok(Scale(u, DigitsValue(digits)))
  {
    var s := digits + [u];
    assert s[|s| - 1] == u && s[..|s| - 1] == digits;
    assert Atoi(digits) == Ok(DigitsValue(digits)) by { AtoiDigits(digits); }
  }

  /** A number without a unit is that many bytes. */
  lemma ParseSizeBytes(digits: string)
    requires 0 < |digits| && AllDigits(digits) && DigitsValue(digits) <= Int64Max
    ensures ParseSize(digits) == Ok(DigitsValue(digits))
  {
    assert !IsUnit(digits[|digits| - 1]) by { assert IsDigit(digits[|digits| - 1]); }
    assert Atoi(digits) == Ok(DigitsValue(digits)) by { AtoiDigits(digits); }
  }

  /** A bare unit, and a number with a lower-case unit, fail with the error of `Atoi`. */
  lemma ParseSizeRejects(digits: string, u: char)
    requires AllDigits(digits)
    requires IsUnit(u)
    ensures ParseSize([u]) == Fail(AtoiError("", ErrSyntax))
    ensures var lower := (u as int + 32) as char;
      ParseSize(digits + [lower]) == Fail(AtoiError(digits + [lower], ErrSyntax))
  {
    assert [u][..0] == "";
    var lower := (u as int + 32) as char;
    var s := digits + [lower];
    assert s[|s| - 1] == lower && !IsDigit(lower);
    assert s[0] != '-' && s[0] != '+';
    assert !AllDigits(s);
  }

  /** 2^33 GiB is 2^63 bytes, one more than the largest `int64`: the size wraps to the smallest. */
  lemma ParseSizeOverflow()
    ensures ParseSize(NatToString(8589934592) + "G") == Ok(Int64Min)
  {
    ParseSizeUnit(NatToString(8589934592), 'G');
    assert Scale('G', 8589934592) == 0x8000_0000_0000_0000;
    WrapOnce(0x8000_0000_0000_0000);
  }

  /** "--help" or "-h" stops parsing with `ErrHelp`, keeping the state reached. */
  lemma HelpStops(args: seq<string>, i: nat, p: Parsed)
    requires i < |args| && (args[i] == "--help" || args[i] == "-h")
    ensures ValuesPresent(args, i) && Walk(args, i, p) == (p, Some(ErrHelp))
  {
    var a := args[i];
    if a == "--help" {
      assert a[..2] == "--" && a[2..] == "help";
    } else {
      assert a[..1] == "-" && a[1..] == "h";
    }
  }

  /** An empty argument is skipped; an argument naming no option goes to the current command's arguments. */
  lemma PlainArguments(args: seq<string>, i: nat, p: Parsed)
    requires i < |args| && ValuesPresent(args, i)
    requires |args[i]| == 0 || OpOf(args[i]) == NoOp
    ensures |args[i]| == 0 ==> Walk(args, i, p) == Walk(args, i + 1, p)
    ensures |args[i]| > 0 ==> Walk(args, i, p) == Walk(args, i + 1, p.(cur := p.cur.(args := p.cur.args + [args[i]])))
  {
  }

  /** Every command has a command line and a label. */
  predicate Complete(cmds: seq<Cmd>) {
    forall k :: 0 <= k < |cmds| ==> |cmds[k].cmd| > 0 && |cmds[k].name| > 0
  }

  /** `r` keeps `cmds` in front, every command in it has a command line, and every one but the last a label. */
  predicate Extends(cmds: seq<Cmd>, r: seq<Cmd>) {
    |cmds| <= |r| && r[..|cmds|] == cmds &&
    (forall k :: 0 <= k < |r| ==> |r[k].cmd| > 0) &&
    (forall k :: 0 <= k < |r| - 1 ==> |r[k].name| > 0)
  }

  /**
   * Commands are only ever added: the result keeps the commands already collected, every
   * command in it has a command line, and every one but the last has a label.
   */
  lemma {:induction false} WalkCommands(args: seq<string>, i: nat, p: Parsed)
    requires ValuesPresent(args, i)
    requires Complete(p.cmds)
    ensures Extends(p.cmds, Walk(args, i, p).0.cmds)
    decreases |args| - i
  {
    if i >= |args| {
      assert Walk(args, i, p).0 == Finish(p);
      assert (p.cmds + [p.cur])[..|p.cmds|] == p.cmds;
    } else if |args[i]| == 0 {
      WalkCommands(args, i + 1, p);
    } else {
      var a := args[i];
      match OpOf(a)
      case Help =>
      case Count =>
        if Atoi(args[i + 1]).Ok? {
          var q := p.(count := Atoi(args[i + 1]).value);
          WalkCommands(args, i + 2, q);
        }
      case SizeOp =>
        if ParseSize(args[i + 1]).Ok? {
          var q := p.(size := ParseSize(args[i + 1]).value);
          WalkCommands(args, i + 2, q);
        }
      case Report =>
        var q := p.(report := args[i + 1]);
        assert Walk(args, i, p) == Walk(args, i + 2, q);
        WalkCommands(args, i + 2, q);
      case Label =>
        var q := Push(p);
        var q' := q.(cur := q.cur.(name := args[i + 1]));
        assert Walk(args, i, p) == Walk(args, i + 2, q');
        PushPrefix(p);
        WalkCommands(args, i + 2, q');
        ExtendsTrans(p.cmds, q.cmds, Walk(args, i + 2, q').0.cmds);
      case CmdOp =>
        var q := Push(p);
        var q' := q.(cur := q.cur.(cmd := args[i + 1]));
        assert Walk(args, i, p) == Walk(args, i + 2, q');
        PushPrefix(p);
        WalkCommands(args, i + 2, q');
        ExtendsTrans(p.cmds, q.cmds, Walk(args, i + 2, q').0.cmds);
      case NoOp =>
        var q := p.(cur := p.cur.(args := p.cur.args + [a]));
        assert Walk(args, i, p) == Walk(args, i + 1, q);
        WalkCommands(args, i + 1, q);
    }
  }

  lemma ExtendsTrans(a: seq<Cmd>, b: seq<Cmd>, c: seq<Cmd>)
    requires |a| <= |b| && b[..|a|] == a && Extends(b, c)
    ensures Extends(a, c)
  {
    assert c[..|a|] == c[..|b|][..|a|];
  }

  lemma PushPrefix(p: Parsed)
    requires Complete(p.cmds)
    ensures |p.cmds| <= |Push(p).cmds| && Push(p).cmds[..|p.cmds|] == p.cmds && Complete(Push(p).cmds)
  {
    assert (p.cmds + [p.cur])[..|p.cmds|] == p.cmds;
  }

  /** "--label" or "-l" first keeps the current command when it is complete, then names the next one. */
  lemma LabelStep(args: seq<string>, i: nat, p: Parsed)
    requires i + 1 < |args| && |args[i]| > 0 && OpOf(args[i]) == Label && ValuesPresent(args, i)
    ensures ValuesPresent(args, i + 2)
    ensures Walk(args, i, p) == Walk(args, i + 2, Push(p).(cur := Push(p).cur.(name := args[i + 1])))
  {
  }

  /** "--cmd" or "-c" first keeps the current command when it is complete, then sets the next one's command line. */
  lemma CmdStep(args: seq<string>, i: nat, p: Parsed)
    requires i + 1 < |args| && |args[i]| > 0 && OpOf(args[i]) == CmdOp && ValuesPresent(args, i)
    ensures ValuesPresent(args, i + 2)
    ensures Walk(args, i, p) == Walk(args, i + 2, Push(p).(cur := Push(p).cur.(cmd := args[i + 1])))
  {
  }

  /** One step of `parse` at an argument that is not a request for help, by its option. */
  lemma WalkNext(args: seq<string>, i: nat, p: Parsed)
    requires i < |args| && ValuesPresent(args, i)
    requires |args[i]| > 0 ==> OpOf(args[i]) != Help
    ensures |args[i]| == 0 ==> ValuesPresent(args, i + 1) && Walk(args, i, p) == Walk(args, i + 1, p)
    ensures |args[i]| > 0 && TakesValue(OpOf(args[i])) ==> i + 1 < |args|
    ensures |args[i]| > 0 && OpOf(args[i]) == Count && Atoi(args[i + 1]).Ok? ==>
      ValuesPresent(args, i + 2) && Walk(args, i, p) == Walk(args, i + 2, p.(count := Atoi(args[i + 1]).value))
    ensures |args[i]| > 0 && OpOf(args[i]) == SizeOp && ParseSize(args[i + 1]).Ok? ==>
      ValuesPresent(args, i + 2) && Walk(args, i, p) == Walk(args, i + 2, p.(size := ParseSize(args[i + 1]).value))
    ensures |args[i]| > 0 && OpOf(args[i]) == Report ==>
      ValuesPresent(args, i + 2) && Walk(args, i, p) == Walk(args, i + 2, p.(report := args[i + 1]))
    ensures |args[i]| > 0 && OpOf(args[i]) == Label ==>
      ValuesPresent(args, i + 2) &&
      Walk(args, i, p) == Walk(args, i + 2, Push(p).(cur := Push(p).cur.(name := args[i + 1])))
    ensures |args[i]| > 0 && OpOf(args[i]) == CmdOp ==>
      ValuesPresent(args, i + 2) &&
      Walk(args, i, p) == Walk(args, i + 2, Push(p).(cur := Push(p).cur.(cmd := args[i + 1])))
    ensures |args[i]| > 0 && OpOf(args[i]) == NoOp ==>
      ValuesPresent(args, i + 1) &&
      Walk(args, i, p) == Walk(args, i + 1, p.(cur := p.cur.(args := p.cur.args + [args[i]])))
  {
  }

  /** The options of the typical command line below. */
  lemma TypicalOptions(args: seq<string>)
    requires args == ["--label", "a", "--cmd", "x", "y", "-l", "b", "-c", "z"]
    ensures OpOf(args[0]) == Label && OpOf(args[2]) == CmdOp && OpOf(args[4]) == NoOp
    ensures OpOf(args[5]) == Label && OpOf(args[7]) == CmdOp
  {
    assert OpOf(args[0]) == Label by { assert args[0][..2] == "--" && args[0][2..] == "label"; }
    assert OpOf(args[2]) == CmdOp by { assert args[2][..2] == "--" && args[2][2..] == "cmd"; }
    assert OpOf(args[5]) == Label by { assert args[5][..1] == "-" && args[5][1..] == "l"; }
    assert OpOf(args[7]) == CmdOp by { assert args[7][..1] == "-" && args[7][1..] == "c"; }
  }

  /** Every value option of the typical command line below has its value. */
  lemma TypicalValuesPresent(args: seq<string>)
    requires args == ["--label", "a", "--cmd", "x", "y", "-l", "b", "-c", "z"]
    ensures ValuesPresent(args, 9) && ValuesPresent(args, 7) && ValuesPresent(args, 5)
    ensures ValuesPresent(args, 4) && ValuesPresent(args, 2) && ValuesPresent(args, 0)
  {
    TypicalOptions(args);
    assert ValuesPresent(args, 9);
    assert ValuesPresent(args, 7);
    assert ValuesPresent(args, 5);
    assert ValuesPresent(args, 4);
    assert ValuesPresent(args, 2);
  }

  /**
   * A typical command line: two labelled commands, the first with an argument of its own. The
   * count, size and report keep their values.
   */
  lemma TypicalCommandLine(args: seq<string>, p: Parsed)
    requires args == ["--label", "a", "--cmd", "x", "y", "-l", "b", "-c", "z"]
    requires p.cmds == [] && p.cur == NoCmd
    ensures ValuesPresent(args, 0)
    ensures Walk(args, 0, p) == (p.(cmds := [Cmd("a", "x", ["y"]), Cmd("b", "z", [])], cur := Cmd("b", "z", [])), None)
  {
    TypicalOptions(args);
    TypicalValuesPresent(args);
    var p5 := p.(cmds := [Cmd("a", "x", ["y"])], cur := Cmd("b", "z", []));
    var p4 := p.(cmds := [Cmd("a", "x", ["y"])], cur := Cmd("b", "", []));
    var p3 := p.(cur := Cmd("a", "x", ["y"]));
    var p2 := p.(cur := Cmd("a", "x", []));
    var p1 := p.(cur := Cmd("a", "", []));
    assert Walk(args, 9, p5) == (Finish(p5), None);
    assert Finish(p5).cmds == [Cmd("a", "x", ["y"]), Cmd("b", "z", [])] by {
      assert [Cmd("a", "x", ["y"])] + [Cmd("b", "z", [])] == [Cmd("a", "x", ["y"]), Cmd("b", "z", [])];
    }
    assert Walk(args, 7, p4) == Walk(args, 9, p5) by {
      CmdStep(args, 7, p4);
    }
    assert Walk(args, 5, p3) == Walk(args, 7, p4) by {
      assert Push(p3) == p.(cmds := [Cmd("a", "x", ["y"])], cur := NoCmd) by {
        assert [] + [Cmd("a", "x", ["y"])] == [Cmd("a", "x", ["y"])];
      }
      LabelStep(args, 5, p3);
    }
    assert Walk(args, 4, p2) == Walk(args, 5, p3) by {
      assert [] + [args[4]] == ["y"];
    }
    assert Walk(args, 2, p1) == Walk(args, 4, p2) by {
      CmdStep(args, 2, p1);
    }
    assert Walk(args, 0, p) == Walk(args, 2, p1) by {
      LabelStep(args, 0, p);
    }
  }
}
