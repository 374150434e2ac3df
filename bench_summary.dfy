/**
 * The summary the benchmark program writes (_bench/summary.go): a Markdown table whose
 * columns are padded to the widest cell, under a "# Summary" heading.
 *
 * The first row is the header, and the separator line follows it. A row with fewer cells than
 * the header gets a shorter line; a row with more makes Go index past the end of the widths
 * and panic, which `WellShaped` rules out. Widths are counted in characters, where Go counts
 * the bytes of each cell.
 */
module BenchSummary {
  import opened GoLib

  /** The rows of a table, each a sequence of cells. */
  type Table = seq<seq<string>>

  /** A non-empty table none of whose rows has more cells than the first. */
  predicate WellShaped(tbl: Table) {
    |tbl| > 0 && forall i :: 0 <= i < |tbl| ==> |tbl[i]| <= |tbl[0]|
  }

  /** The width of column `j` over `rows`: the longest cell found there, scanning the rows in order. */
  function ColWidth(rows: Table, j: nat): nat {
    if |rows| == 0 then 0
    else
      var w := ColWidth(rows[..|rows| - 1], j);
      var last := rows[|rows| - 1];
      if j < |last| && |last[j]| > w then |last[j]| else w
  }

  /** The widths of the first `n` columns. */
  function Widths(tbl: Table, n: nat): (w: seq<nat>)
    ensures |w| == n
  {
    seq(n, j requires 0 <= j < n => ColWidth(tbl, j))
  }

  /** `n` copies of `c`. */
  function Repeat(c: char, n: nat): string {
    if n == 0 then "" else Repeat(c, n - 1) + [c]
  }

  /** How many spaces follow a cell in a column of width `w`: enough to reach `w + 1`. */
  function PadCount(cell: string, w: int): nat {
    if w + 1 > |cell| then w + 1 - |cell| else 0
  }

  function Pad(cell: string, w: int): string {
    cell + Repeat(' ', PadCount(cell, w))
  }

  function PadCells(row: seq<string>, widths: seq<int>): (r: seq<string>)
    requires |row| <= |widths|
    ensures |r| == |row|
  {
    seq(|row|, j requires 0 <= j < |row| => Pad(row[j], widths[j]))
  }

  /** The dashes under the first `n` columns: one more than each column's width. */
  function Rules(widths: seq<int>, n: nat): (r: seq<string>)
    requires n <= |widths|
    ensures |r| == n
  {
    seq(n, j requires 0 <= j < n => Repeat('-', if widths[j] + 1 > 0 then widths[j] + 1 else 0))
  }

  /** A row: "| ", the padded cells joined by "| ", and a closing "|". */
  function RowLine(row: seq<string>, widths: seq<int>): string
    requires |row| <= |widths|
  {
    "| " + JoinStrings(PadCells(row, widths), "| ") + "|"
  }

  /** The separator: "|-", the dashes of each column joined by "|-", and a closing "|". */
  function RuleLine(widths: seq<int>, n: nat): string
    requires n <= |widths|
  {
    "|-" + JoinStrings(Rules(widths, n), "|-") + "|"
  }

  /** The lines of the table: the header, the separator, then the other rows. */
  function Lines(tbl: Table): (r: seq<string>)
    requires WellShaped(tbl)
    ensures |r| == |tbl| + 1
  {
    var n := |tbl[0]|;
    var w := Widths(tbl, n);
    [RowLine(tbl[0], w), RuleLine(w, n)] + seq(|tbl| - 1, i requires 0 <= i < |tbl| - 1 => RowLine(tbl[i + 1], w))
  }

  /** The table as text: its lines joined by newlines. */
  function Markdown(tbl: Table): string
    requires WellShaped(tbl)
  {
    JoinStrings(Lines(tbl), "\n")
  }

  /** The first loop of `GenTable`: the width of each column of the header, over all rows. */
  method ColumnWidths(tbl: Table) returns (length: array<int>)
    requires WellShaped(tbl)
    ensures fresh(length) && length[..] == Widths(tbl, |tbl[0]|)
  {
    var n := |tbl[0]|;
    length := new int[n](_ => 0);
    var i := 0;
    while i < |tbl|
      invariant 0 <= i <= |tbl|
      invariant forall j :: 0 <= j < n ==> length[j] == ColWidth(tbl[..i], j)
    {
      var row := tbl[i];
      assert tbl[..i + 1][..i] == tbl[..i];
      var j := 0;
      while j < |row|
        invariant 0 <= j <= |row| <= n
        invariant forall k :: 0 <= k < j ==> length[k] == ColWidth(tbl[..i + 1], k)
        invariant forall k :: j <= k < n ==> length[k] == ColWidth(tbl[..i], k)
      {
        if |row[j]| > length[j] {
          length[j] := |row[j]|;
        }
        j := j + 1;
      }
      i := i + 1;
    }
    assert tbl[..|tbl|] == tbl;
  }

  /** The cells of one row, each followed by spaces up to one more than its column's width. */
  method PadRow(row: seq<string>, length: array<int>) returns (cells: seq<string>)
    requires |row| <= length.Length
    ensures cells == PadCells(row, length[..])
  {
    var line := new string[|row|](_ => "");
    var j := 0;
    while j < |row|
      invariant 0 <= j <= |row|
      invariant forall k :: 0 <= k < j ==> line[k] == Pad(row[k], length[k])
    {
      var col := row[j];
      line[j] := col;
      var s := 0;
      while s < length[j] - |col| + 1
        invariant 0 <= s <= PadCount(col, length[j])
        invariant line[j] == col + Repeat(' ', s)
        invariant forall k :: 0 <= k < j ==> line[k] == Pad(row[k], length[k])
      {
        line[j] := line[j] + " ";
        s := s + 1;
      }
      j := j + 1;
    }
    cells := line[..];
  }

  /** The dashes under the first `n` columns, one more than each column's width. */
  method RuleRow(n: nat, length: array<int>) returns (rules: seq<string>)
    requires n <= length.Length
    ensures rules == Rules(length[..], n)
  {
    var line := new string[n](_ => "");
    var j := 0;
    while j < n
      invariant 0 <= j <= n
      invariant forall k :: 0 <= k < j ==> line[k] == Rules(length[..], n)[k]
      invariant forall k :: j <= k < n ==> line[k] == ""
    {
      var s := 0;
      while s < length[j] + 1
        invariant 0 <= s && (s <= length[j] + 1 || s == 0)
        invariant line[j] == Repeat('-', s)
        invariant forall k :: 0 <= k < j ==> line[k] == Rules(length[..], n)[k]
        invariant forall k :: j < k < n ==> line[k] == ""
      {
        line[j] := line[j] + "-";
        s := s + 1;
      }
      j := j + 1;
    }
    rules := line[..];
  }

  /**
   * `GenTable`: the widths are found first, then each row is padded and the separator
   * written after the first.
   */
  method GenTable(tbl: Table) returns (r: string)
    requires WellShaped(tbl)
    ensures r == Markdown(tbl)
  {
    var length := ColumnWidths(tbl);
    ghost var w := length[..];
    ghost var lines := Lines(tbl);
    var mdTbl: seq<string> := [];
    var i := 0;
    while i < |tbl|
      invariant 0 <= i <= |tbl|
      invariant length[..] == w
      invariant i == 0 ==> mdTbl == []
      invariant i > 0 ==> mdTbl == lines[..i + 1]
    {
      var row := tbl[i];
      var line := PadRow(row, length);
      if i == 0 {
        var rule := RuleRow(|row|, length);
        mdTbl := mdTbl + ["| " + JoinStrings(line, "| ") + "|"];
        mdTbl := mdTbl + ["|-" + JoinStrings(rule, "|-") + "|"];
        assert mdTbl == [RowLine(tbl[0], w), RuleLine(w, |row|)];
      } else {
        assert lines[i + 1] == RowLine(row, w);
        assert lines[..i + 2] == lines[..i + 1] + [lines[i + 1]];
        mdTbl := mdTbl + ["| " + JoinStrings(line, "| ") + "|"];
      }
      i := i + 1;
    }
    assert lines[..|tbl| + 1] == lines;
    r := JoinStrings(mdTbl, "\n");
  }

  /** `Summary`: the table under a "# Summary" heading, followed by a newline. */
  method Summary(tbl: Table) returns (r: string)
    requires WellShaped(tbl)
    ensures r == "# Summary\n\n" + Markdown(tbl) + "\n"
  {
    var t := GenTable(tbl);
    r := "# Summary\n\n" + t + "\n";
  }

  // ---------------------------------------------------------------- properties

  /** A column's width bounds every cell in it, and is 0 or the length of one of them. */
  lemma {:induction false} ColWidthIsMax(rows: Table, j: nat)
    ensures forall i :: 0 <= i < |rows| && j < |rows[i]| ==> |rows[i][j]| <= ColWidth(rows, j)
    ensures ColWidth(rows, j) == 0 || exists i :: 0 <= i < |rows| && j < |rows[i]| && |rows[i][j]| == ColWidth(rows, j)
  {
    if |rows| > 0 {
      var init := rows[..|rows| - 1];
      ColWidthIsMax(init, j);
      assert forall i :: 0 <= i < |init| ==> rows[i] == init[i];
    }
  }

  lemma RepeatShape(c: char, n: nat)
    ensures |Repeat(c, n)| == n && forall k :: 0 <= k < n ==> Repeat(c, n)[k] == c
  {
    if n > 0 {
      RepeatShape(c, n - 1);
    }
  }

  /** A cell no wider than its column is padded with spaces to one more than the width. */
  lemma PadWidth(cell: string, w: int)
    requires |cell| <= w
    ensures |Pad(cell, w)| == w + 1 && Pad(cell, w)[..|cell|] == cell
    ensures forall k :: |cell| <= k < w + 1 ==> Pad(cell, w)[k] == ' '
  {
    RepeatShape(' ', PadCount(cell, w));
  }

  /** Joining parts of the same lengths with separators of the same length gives texts of the same length. */
  lemma {:induction false} JoinSameLength(a: seq<string>, b: seq<string>, sa: string, sb: string)
    requires |a| == |b| && |sa| == |sb|
    requires forall k :: 0 <= k < |a| ==> |a[k]| == |b[k]|
    ensures |JoinStrings(a, sa)| == |JoinStrings(b, sb)|
  {
    if |a| > 1 {
      JoinSameLength(a[1..], b[1..], sa, sb);
    }
  }

  /** The padded cells of a full row are as long as the dashes of the separator. */
  lemma FullRowLength(tbl: Table, i: nat)
    requires WellShaped(tbl) && i < |tbl| && |tbl[i]| == |tbl[0]|
    ensures |RowLine(tbl[i], Widths(tbl, |tbl[0]|))| == |RuleLine(Widths(tbl, |tbl[0]|), |tbl[0]|)|
  {
    var n := |tbl[0]|;
    var w := Widths(tbl, n);
    forall j | 0 <= j < n
      ensures |PadCells(tbl[i], w)[j]| == |Rules(w, n)[j]|
    {
      ColWidthIsMax(tbl, j);
      PadWidth(tbl[i][j], w[j]);
      RepeatShape('-', w[j] + 1);
    }
    JoinSameLength(PadCells(tbl[i], w), Rules(w, n), "| ", "|-");
  }

  /** When every row has as many cells as the header, all lines of the table have the same length. */
  lemma EqualLineLengths(tbl: Table)
    requires WellShaped(tbl)
    requires forall i :: 0 <= i < |tbl| ==> |tbl[i]| == |tbl[0]|
    ensures forall k :: 0 <= k < |Lines(tbl)| ==> |Lines(tbl)[k]| == |Lines(tbl)[1]|
  {
    forall k | 0 <= k < |Lines(tbl)|
      ensures |Lines(tbl)[k]| == |Lines(tbl)[1]|
    {
      if k == 0 {
        FullRowLength(tbl, 0);
      } else if k > 1 {
        FullRowLength(tbl, k - 1);
      }
    }
  }

  /** Exactly one line, the second, is the separator: it alone starts with "|-"; every row starts with "| ". */
  lemma OneSeparator(tbl: Table)
    requires WellShaped(tbl)
    ensures forall k :: 0 <= k < |Lines(tbl)| ==> (Lines(tbl)[k][..2] == "|-" <==> k == 1)
  {
    var n := |tbl[0]|;
    var w := Widths(tbl, n);
    var lines := Lines(tbl);
    forall k | 0 <= k < |lines|
      ensures lines[k][..2] == "|-" <==> k == 1
    {
      if k == 1 {
        assert lines[k] == "|-" + (JoinStrings(Rules(w, n), "|-") + "|");
      } else {
        var row := if k == 0 then tbl[0] else tbl[k - 1];
        assert lines[k] == "| " + (JoinStrings(PadCells(row, w), "| ") + "|");
        assert lines[k][1] == ' ';
      }
    }
  }

  /** The last part ends a join. */
  lemma {:induction false} JoinEnds(parts: seq<string>, sep: string)
    requires |parts| > 0
    ensures var j := JoinStrings(parts, sep);
      |parts[|parts| - 1]| <= |j| && j[|j| - |parts[|parts| - 1]|..] == parts[|parts| - 1]
  {
    if |parts| > 1 {
      JoinEnds(parts[1..], sep);
      var rest := JoinStrings(parts[1..], sep);
      assert JoinStrings(parts, sep) == (parts[0] + sep) + rest;
    }
  }

  /** The table ends with the closing "|" of its last line: there is no newline after it. */
  lemma NoTrailingNewline(tbl: Table)
    requires WellShaped(tbl)
    ensures |Markdown(tbl)| > 0 && Markdown(tbl)[|Markdown(tbl)| - 1] == '|'
  {
    var lines := Lines(tbl);
    JoinEnds(lines, "\n");
    var last := lines[|lines| - 1];
    assert last[|last| - 1] == '|';
  }
}
