/**
 * Stripping terminal colours (color/color.go): `CleanString` and `Clean` delete the Select
 * Graphic Rendition sequences of ECMA-48, ESC '[' followed by one or two decimal digits and
 * 'm', which is what the package's regular expression matches.
 *
 * `ReplaceAll` with an empty replacement deletes the leftmost matches, one after another, each
 * search starting where the previous match ended. No match is empty, so this is a scan from
 * the left that drops a sequence where one starts and keeps the character otherwise.
 */
module Color {
  import opened GoLib

  const Esc: char := '\U{001B}'

  const Black: string := "\U{001B}[30m"
  const White: string := "\U{001B}[97m"
  const Red: string := "\U{001B}[31m"
  const Green: string := "\U{001B}[32m"
  const Yellow: string := "\U{001B}[33m"
  const Blue: string := "\U{001B}[34m"
  const Magenta: string := "\U{001B}[35m"
  const Cyan: string := "\U{001B}[36m"
  const Gray: string := "\U{001B}[90m"
  const LightRed: string := "\U{001B}[91m"
  const LightGreen: string := "\U{001B}[92m"
  const LightYellow: string := "\U{001B}[93m"
  const LightBlue: string := "\U{001B}[94m"
  const LightMagenta: string := "\U{001B}[95m"
  const LightCyan: string := "\U{001B}[96m"
  const LightGray: string := "\U{001B}[37m"
  const Reset: string := "\U{001B}[0m"
  const Bold: string := "\U{001B}[1m"
  const Underline: string := "\U{001B}[4m"
  const NoUnderline: string := "\U{001B}[24m"
  const ReverseText: string := "\U{001B}[7m"
  const PositiveText: string := "\U{001B}[27m"

  /** The package's colour and style codes. */
  const Codes: seq<string> := [Black, White, Red, Green, Yellow, Blue, Magenta, Cyan, Gray, LightRed, LightGreen,
    LightYellow, LightBlue, LightMagenta, LightCyan, LightGray, Reset, Bold, Underline, NoUnderline, ReverseText,
    PositiveText]

  /** Whether `t` is one whole sequence the pattern matches: ESC '[', one or two digits, 'm'. */
  predicate IsSgr(t: string) {
    (|t| == 4 || |t| == 5) && t[0] == Esc && t[1] == '[' && t[|t| - 1] == 'm' &&
    forall i :: 2 <= i < |t| - 1 ==> IsDigit(t[i])
  }

  /** The length of the match at the start of `s`, 0 when there is none. */
  function SgrLen(s: string): (n: nat)
    ensures n == 0 || n == 4 || n == 5
    ensures n > 0 ==> n <= |s| && IsSgr(s[..n])
    ensures n == 0 ==> forall k :: 4 <= k <= 5 && k <= |s| ==> !IsSgr(s[..k])
  {
    if |s| >= 4 && s[0] == Esc && s[1] == '[' && IsDigit(s[2]) then
      if IsDigit(s[3]) then (if |s| >= 5 && s[4] == 'm' then 5 else 0)
      else if s[3] == 'm' then 4 else 0
    else 0
  }

  /** `CleanString`: `s` with every match deleted. */
  function CleanString(s: string): (r: string)
    ensures |r| <= |s|
    decreases |s|
  {
    if |s| == 0 then ""
    else if SgrLen(s) > 0 then CleanString(s[SgrLen(s)..])
    else [s[0]] + CleanString(s[1..])
  }

  /** Whether `a` is `b` with some characters deleted. */
  predicate Subsequence(a: string, b: string)
    decreases |b|
  {
    |a| == 0 || (|b| > 0 && ((a[0] == b[0] && Subsequence(a[1..], b[1..])) || Subsequence(a, b[1..])))
  }

  lemma {:induction false} SubsequenceDrop(a: string, b: string, n: nat)
    requires n <= |b| && Subsequence(a, b[n..])
    ensures Subsequence(a, b)
    decreases n
  {
    if n > 0 {
      assert b[1..][n - 1..] == b[n..];
      SubsequenceDrop(a, b[1..], n - 1);
    }
  }

  /** The result only deletes: it is a subsequence of the input. */
  lemma {:induction false} CleanSubsequence(s: string)
    ensures Subsequence(CleanString(s), s)
    decreases |s|
  {
    if |s| > 0 {
      if SgrLen(s) > 0 {
        CleanSubsequence(s[SgrLen(s)..]);
        SubsequenceDrop(CleanString(s), s, SgrLen(s));
      } else {
        CleanSubsequence(s[1..]);
        assert ([s[0]] + CleanString(s[1..]))[1..] == CleanString(s[1..]);
      }
    }
  }

  /** Text without ESC passes through, and in front of anything it is kept as it is. */
  lemma {:induction false} CleanPlain(w: string, t: string)
    requires forall i :: 0 <= i < |w| ==> w[i] != Esc
    ensures CleanString(w + t) == w + CleanString(t)
    decreases |w|
  {
    if |w| > 0 {
      assert (w + t)[1..] == w[1..] + t;
      CleanPlain(w[1..], t);
      assert [w[0]] + (w[1..] + CleanString(t)) == w + CleanString(t);
    } else {
      assert w + t == t;
    }
  }

  /** A string containing no ESC is returned unchanged. */
  lemma NoEscUnchanged(s: string)
    requires forall i :: 0 <= i < |s| ==> s[i] != Esc
    ensures CleanString(s) == s
  {
    CleanPlain(s, "");
    assert s + "" == s;
  }

  /** A sequence the pattern matches is deleted wherever it starts. */
  lemma CleanSgr(c: string, t: string)
    requires IsSgr(c)
    ensures CleanString(c + t) == CleanString(t)
  {
    var s := c + t;
    assert s[..|c|] == c;
    assert s[|c|..] == t;
    if |c| == 4 {
      assert !IsDigit(c[3]);
    }
  }

  /** Each of the package's codes is one such sequence. */
  lemma CodesAreSgr()
    ensures forall k :: 0 <= k < |Codes| ==> IsSgr(Codes[k])
  {
  }

  /** Three or more digits do not match, so such a sequence stays. */
  lemma ThreeDigitsKept(t: string)
    ensures CleanString("\U{001B}[100m" + t) == "\U{001B}[100m" + CleanString(t)
  {
    var s := "\U{001B}[100m" + t;
    assert SgrLen(s) == 0;
    assert s[1..] == "[100m" + t;
    CleanPlain("[100m", t);
  }

  /**
   * One pass only: deleting a sequence can bring an ESC next to the rest of another, and the
   * sequence so formed is kept.
   */
  lemma SinglePass()
    ensures CleanString("\U{001B}" + Bold + "[1m") == Bold
  {
    var s := "\U{001B}" + Bold + "[1m";
    assert SgrLen(s) == 0;
    assert s[1..] == Bold + "[1m";
    CleanSgr(Bold, "[1m");
    NoEscUnchanged("[1m");
  }

  /** Words each preceded by a code: `codes[0] + words[0] + codes[1] + words[1] + ...`. */
  function Styled(codes: seq<string>, words: seq<string>): string
    requires |codes| == |words|
  {
    if |codes| == 0 then "" else codes[0] + (words[0] + Styled(codes[1..], words[1..]))
  }

  /** Text coloured with matching codes between words without ESC comes out as the words alone. */
  lemma {:induction false} StyledClean(codes: seq<string>, words: seq<string>)
    requires |codes| == |words|
    requires forall k :: 0 <= k < |codes| ==> IsSgr(codes[k])
    requires forall k, i :: 0 <= k < |words| && 0 <= i < |words[k]| ==> words[k][i] != Esc
    ensures CleanString(Styled(codes, words)) == Concat(words)
  {
    if |codes| > 0 {
      var rest := Styled(codes[1..], words[1..]);
      StyledClean(codes[1..], words[1..]);
      CleanSgr(codes[0], words[0] + rest);
      CleanPlain(words[0], rest);
    }
  }

  /** The colours and words of the package's test payload. */
  const PayloadCodes: seq<string> := [Blue, Green, Magenta, Gray, Reset]
  const PayloadWords: seq<string> := ["This ", "is ", "a ", "test", "\n"]

  /** The test payload: each word preceded by its colour, ending in a reset. */
  function Payload(): (r: string)
    ensures r == Blue + "This " + Green + "is " + Magenta + "a " + Gray + "test" + Reset + "\n"
  {
    var r := Styled(PayloadCodes, PayloadWords);
    assert Styled(PayloadCodes[4..], PayloadWords[4..]) == Reset + "\n";
    assert Styled(PayloadCodes[3..], PayloadWords[3..]) == Gray + "test" + Reset + "\n";
    assert Styled(PayloadCodes[2..], PayloadWords[2..]) == Magenta + "a " + Gray + "test" + Reset + "\n";
    assert Styled(PayloadCodes[1..], PayloadWords[1..]) ==
      Green + "is " + Magenta + "a " + Gray + "test" + Reset + "\n";
    r
  }

  lemma PayloadWordsPlain()
    ensures Concat(PayloadWords) == "This is a test\n"
    ensures forall k, i :: 0 <= k < |PayloadWords| && 0 <= i < |PayloadWords[k]| ==> PayloadWords[k][i] != Esc
  {
    assert Concat(PayloadWords[4..]) == "\n";
    assert Concat(PayloadWords[3..]) == "test\n";
    assert Concat(PayloadWords[2..]) == "a test\n";
    assert Concat(PayloadWords[1..]) == "is a test\n";
  }

  /** The coloured text of the package's tests comes out as its plain words, without any ESC. */
  lemma PayloadClean()
    ensures CleanString(Payload()) == "This is a test\n"
  {
    PayloadWordsPlain();
    assert forall k :: 0 <= k < |PayloadCodes| ==> IsSgr(PayloadCodes[k]);
    StyledClean(PayloadCodes, PayloadWords);
  }

  // ---------------------------------------------------------------- bytes

  /** The length of the match at the start of `b`, 0 when there is none. */
  function SgrLenBytes(b: Bytes): nat {
    if |b| >= 4 && b[0] == 27 && b[1] == 91 && 48 <= b[2] <= 57 then
      if 48 <= b[3] <= 57 then (if |b| >= 5 && b[4] == 109 then 5 else 0)
      else if b[3] == 109 then 4 else 0
    else 0
  }

  /** `Clean`: `b` with every match deleted. */
  function Clean(b: Bytes): Bytes
    decreases |b|
  {
    if |b| == 0 then []
    else if 0 < SgrLenBytes(b) <= |b| then Clean(b[SgrLenBytes(b)..])
    else [b[0]] + Clean(b[1..])
  }

  lemma BytesToStringSuffix(b: Bytes, n: nat)
    requires n <= |b|
    ensures BytesToString(b)[n..] == BytesToString(b[n..])
  {
  }

  lemma BytesToStringAppend(a: Bytes, b: Bytes)
    ensures BytesToString(a + b) == BytesToString(a) + BytesToString(b)
  {
    var s, t, u := BytesToString(a + b), BytesToString(a), BytesToString(b);
    forall i | 0 <= i < |s|
      ensures s[i] == (t + u)[i]
    {
      if i < |a| {
        assert s[i] as int == (a + b)[i] as int == a[i] as int == t[i] as int;
      } else {
        assert s[i] as int == (a + b)[i] as int == b[i - |a|] as int == u[i - |a|] as int;
      }
    }
  }

  /** `Clean` on bytes agrees with `CleanString` on the text with the same character codes. */
  lemma {:induction false} CleanAgrees(b: Bytes)
    ensures BytesToString(Clean(b)) == CleanString(BytesToString(b))
    decreases |b|
  {
    var s := BytesToString(b);
    if |b| > 0 {
      assert SgrLenBytes(b) == SgrLen(s);
      if SgrLen(s) > 0 {
        BytesToStringSuffix(b, SgrLen(s));
        CleanAgrees(b[SgrLen(s)..]);
      } else {
        BytesToStringSuffix(b, 1);
        CleanAgrees(b[1..]);
        BytesToStringAppend([b[0]], Clean(b[1..]));
      }
    }
  }
}
