/**
 * The parts of Go's standard library whose exact behaviour the program relies on:
 * byte strings, `encoding/hex`, `strings` (Compare, Split, Join, Fields, TrimSpace, HasPrefix),
 * `strconv` (Atoi, Itoa, Quote) and the white-space test of package `unicode`.
 *
 * Go strings are byte strings; here they are sequences of characters. Comparing characters by
 * code point orders strings exactly as comparing their UTF-8 bytes does, so `Compare` below
 * agrees with Go's `strings.Compare`.
 */
module GoLib {
  import opened Outcomes
  import opened Sequences

  newtype uint8 = x: int | 0 <= x < 256

  type Bytes = seq<uint8>

  const Int64Max: int := 0x7fff_ffff_ffff_ffff
  const Int64Min: int := -0x8000_0000_0000_0000

  // ---------------------------------------------------------------- encoding/hex

  const HexDigits: string := "0123456789abcdef"

  /** A digit `hex.EncodeToString` produces: one of `HexDigits`. */
  predicate IsLowerHexDigit(c: char) {
    '0' <= c <= '9' || 'a' <= c <= 'f'
  }

  predicate IsLowerHex(s: string) {
    forall i :: 0 <= i < |s| ==> IsLowerHexDigit(s[i])
  }

  /** `hex.EncodeToString`: two lower-case digits per byte, high nibble first. */
  function HexEncode(b: Bytes): (s: string)
    ensures |s| == 2 * |b|
    ensures IsLowerHex(s)
  {
    if |b| == 0 then ""
    else [HexDigits[b[0] / 16], HexDigits[b[0] % 16]] + HexEncode(b[1..])
  }

  /** The value of one hexadecimal digit; `hex.DecodeString` accepts both cases. */
  function HexValue(c: char): Option<uint8> {
    if '0' <= c <= '9' then Some((c as int - '0' as int) as uint8)
    else if 'a' <= c <= 'f' then Some((c as int - 'a' as int + 10) as uint8)
    else if 'A' <= c <= 'F' then Some((c as int - 'A' as int + 10) as uint8)
    else None
  }

  /** The errors of `hex.DecodeString`: `InvalidByteError` and `ErrLength`. */
  datatype HexError = InvalidByte(c: char) | OddLength

  /** The text of a `hex.DecodeString` error. */
  function HexErrorMessage(e: HexError): string {
    match e
    case OddLength => "encoding/hex: odd length hex string"
    case InvalidByte(c) => "encoding/hex: invalid byte: " + RuneLiteral(c)
  }

  /** `%#U` formatting of a character: "U+0067 'g'"; only ASCII is shown in quoted form here. */
  function RuneLiteral(c: char): string {
    "U+" + PadHex(UpperHex(c as int)) + (if ' ' <= c <= '~' then " '" + [c] + "'" else "")
  }

  /** Upper-case hexadecimal digits of a number, without leading zeros. */
  function UpperHex(n: nat): (s: string)
    ensures |s| > 0
  {
    var d := "0123456789ABCDEF"[n % 16];
    if n < 16 then [d] else UpperHex(n / 16) + [d]
  }

  /** Left-pads with zeros to at least four digits, as `%04X` does. */
  function PadHex(s: string): (r: string)
    decreases 4 - |s|
  {
    if |s| >= 4 then s else PadHex("0" + s)
  }

  /**
   * `hex.DecodeString`: digit pairs are decoded left to right; the first invalid digit met is
   * reported, and an odd length is reported only when the digits before it are valid.
   */
  function HexDecode(s: string): (r: Result<Bytes, HexError>)
    ensures r.Ok? ==> |s| == 2 * |r.value|
    ensures r.Fail? && r.error.InvalidByte? ==> r.error.c in s && HexValue(r.error.c).None?
  {
    if |s| == 0 then Ok([])
    else if |s| == 1 then (if HexValue(s[0]).None? then Fail(InvalidByte(s[0])) else Fail(OddLength))
    else
      var hi, lo, rest := HexValue(s[0]), HexValue(s[1]), HexDecode(s[2..]);
      if hi.None? then Fail(InvalidByte(s[0]))
      else if lo.None? then Fail(InvalidByte(s[1]))
      else if rest.Fail? then rest
      else Ok([(hi.value as int * 16 + lo.value as int) as uint8] + rest.value)
  }

  lemma HexDigitValue(k: uint8)
    requires k < 16
    ensures HexValue(HexDigits[k]) == Some(k)
  {
  }

  lemma HexDigitInverse(c: char)
    requires IsLowerHexDigit(c)
    ensures HexValue(c).Some? && HexValue(c).value < 16 && HexDigits[HexValue(c).value] == c
  {
  }

  /** Decoding a string that starts with two digits decodes them into one byte. */
  lemma HexDecodePair(c0: char, c1: char, t: string, hi: uint8, lo: uint8, rest: Bytes)
    requires HexValue(c0) == Some(hi) && HexValue(c1) == Some(lo) && HexDecode(t) == Ok(rest)
    ensures HexDecode([c0, c1] + t) == Ok([(hi as int * 16 + lo as int) as uint8] + rest)
  {
    assert ([c0, c1] + t)[2..] == t;
  }

  lemma HexEncodeCons(x: uint8, rest: Bytes)
    ensures HexEncode([x] + rest) == [HexDigits[x / 16], HexDigits[x % 16]] + HexEncode(rest)
  {
    assert ([x] + rest)[1..] == rest;
  }

  lemma {:induction false} HexRoundTrip(b: Bytes)
    ensures HexDecode(HexEncode(b)) == Ok(b)
  {
    if |b| > 0 {
      var hi, lo := b[0] / 16, b[0] % 16;
      var t := HexEncode(b[1..]);
      HexRoundTrip(b[1..]);
      HexDigitValue(hi);
      HexDigitValue(lo);
      HexDecodePair(HexDigits[hi], HexDigits[lo], t, hi, lo, b[1..]);
      assert (hi as int * 16 + lo as int) as uint8 == b[0];
      assert [b[0]] + b[1..] == b;
    }
  }

  /** Two lower-case digits in front of a canonical encoding give a canonical encoding. */
  lemma HexPairCanonical(c0: char, c1: char, t: string)
    requires IsLowerHexDigit(c0) && IsLowerHexDigit(c1)
    requires HexDecode(t).Ok? && HexEncode(HexDecode(t).value) == t
    ensures HexDecode([c0, c1] + t).Ok? && HexEncode(HexDecode([c0, c1] + t).value) == [c0, c1] + t
  {
    HexDigitInverse(c0);
    HexDigitInverse(c1);
    var hi := HexValue(c0).value;
    var lo := HexValue(c1).value;
    var rest := HexDecode(t).value;
    HexDecodePair(c0, c1, t, hi, lo, rest);
    PairEncode(hi, lo, rest);
  }

  /** The byte made of two hexadecimal digits is encoded as those two digits. */
  lemma PairEncode(hi: uint8, lo: uint8, rest: Bytes)
    requires hi < 16 && lo < 16
    ensures HexEncode([(hi as int * 16 + lo as int) as uint8] + rest) == [HexDigits[hi], HexDigits[lo]] + HexEncode(rest)
  {
    var v := (hi as int * 16 + lo as int) as uint8;
    assert v / 16 == hi && v % 16 == lo;
    HexEncodeCons(v, rest);
  }

  /** A string made of lower-case hexadecimal digits is decoded to the bytes it encodes. */
  lemma {:induction false} HexDecodeCanonical(s: string)
    requires IsLowerHex(s) && |s| % 2 == 0
    ensures HexDecode(s).Ok? && HexEncode(HexDecode(s).value) == s
  {
    if |s| > 0 {
      var t := s[2..];
      assert IsLowerHex(t) by {
        forall i | 0 <= i < |t| ensures IsLowerHexDigit(t[i]) {
          assert t[i] == s[i + 2];
        }
      }
      HexDecodeCanonical(t);
      assert IsLowerHexDigit(s[0]) && IsLowerHexDigit(s[1]);
      HexPairCanonical(s[0], s[1], t);
      assert s == [s[0], s[1]] + t;
    }
  }

  // ---------------------------------------------------------------- strings

  /** `strings.Compare`: -1, 0 or 1 by lexicographic order. */
  function Compare(a: string, b: string): (r: int)
    ensures r == 0 <==> a == b
    ensures r in {-1, 0, 1}
  {
    if |a| == 0 && |b| == 0 then 0
    else if |a| == 0 then -1
    else if |b| == 0 then 1
    else if a[0] < b[0] then -1
    else if a[0] > b[0] then 1
    else (assert a == [a[0]] + a[1..] && b == [b[0]] + b[1..]; Compare(a[1..], b[1..]))
  }

  lemma {:induction false} CompareAntisymmetric(a: string, b: string)
    ensures Compare(a, b) == -Compare(b, a)
  {
    if |a| > 0 && |b| > 0 && a[0] == b[0] {
      CompareAntisymmetric(a[1..], b[1..]);
    }
  }

  lemma {:induction false} CompareTransitive(a: string, b: string, c: string)
    requires Compare(a, b) <= 0 && Compare(b, c) <= 0
    ensures Compare(a, c) <= 0
  {
    if |a| > 0 && |b| > 0 && |c| > 0 && a[0] == b[0] == c[0] {
      CompareTransitive(a[1..], b[1..], c[1..]);
    }
  }

  /** `strings.HasPrefix`. */
  predicate HasPrefix(s: string, prefix: string) {
    |prefix| <= |s| && s[..|prefix|] == prefix
  }

  /** `strings.Join`. */
  function JoinStrings(parts: seq<string>, sep: string): string {
    if |parts| == 0 then ""
    else if |parts| == 1 then parts[0]
    else parts[0] + sep + JoinStrings(parts[1..], sep)
  }

  predicate OccursAt(s: string, sep: string, i: nat) {
    i + |sep| <= |s| && s[i..i + |sep|] == sep
  }

  predicate Contains(s: string, sep: string) {
    exists i: nat | i <= |s| :: OccursAt(s, sep, i)
  }

  /** `strings.Index` from position `from` on: the first occurrence of `sep` at or after it. */
  function IndexFrom(s: string, sep: string, from: nat): (r: Option<nat>)
    requires |sep| > 0
    ensures r.Some? ==> from <= r.value && OccursAt(s, sep, r.value)
    ensures r.Some? ==> forall j: nat :: from <= j < r.value ==> !OccursAt(s, sep, j)
    ensures r.None? ==> forall j: nat :: from <= j ==> !OccursAt(s, sep, j)
    decreases |s| - from
  {
    if from + |sep| > |s| then None
    else if s[from..from + |sep|] == sep then Some(from)
    else IndexFrom(s, sep, from + 1)
  }

  /** `strings.Split` with a non-empty separator: the text between successive occurrences. */
  function Split(s: string, sep: string): (parts: seq<string>)
    requires |sep| > 0
    ensures |parts| >= 1
    ensures forall k :: 0 <= k < |parts| ==> !Contains(parts[k], sep)
    decreases |s|
  {
    match IndexFrom(s, sep, 0)
    case None => [s]
    case Some(i) =>
      assert !Contains(s[..i], sep) by {
        forall j: nat | OccursAt(s[..i], sep, j) ensures false {
          assert s[j..j + |sep|] == s[..i][j..j + |sep|];
          assert OccursAt(s, sep, j);
        }
      }
      [s[..i]] + Split(s[i + |sep|..], sep)
  }

  /** Joining the pieces of `Split` with the separator gives back the string. */
  lemma {:induction false} SplitJoin(s: string, sep: string)
    requires |sep| > 0
    ensures JoinStrings(Split(s, sep), sep) == s
    decreases |s|
  {
    match IndexFrom(s, sep, 0)
    case None =>
    case Some(i) =>
      var rest := s[i + |sep|..];
      SplitJoin(rest, sep);
      SplitAt(s, sep, i);
      JoinCons(s[..i], Split(rest, sep), sep);
  }

  /** Where the first separator is found, `Split` cuts: the text before it, then the rest split. */
  lemma SplitAt(s: string, sep: string, i: nat)
    requires |sep| > 0 && IndexFrom(s, sep, 0) == Some(i)
    ensures Split(s, sep) == [s[..i]] + Split(s[i + |sep|..], sep)
    ensures s == s[..i] + sep + s[i + |sep|..]
  {
    assert s == s[..i] + sep + s[i + |sep|..] by {
      assert OccursAt(s, sep, i);
      assert s[i..i + |sep|] == sep;
    }
  }

  lemma JoinCons(x: string, tail: seq<string>, sep: string)
    requires |tail| > 0
    ensures JoinStrings([x] + tail, sep) == x + sep + JoinStrings(tail, sep)
  {
    assert ([x] + tail)[1..] == tail;
  }

  /** `unicode.IsSpace`. */
  predicate IsSpace(c: char) {
    c == '\t' || c == '\n' || c == '\U{000B}' || c == '\U{000C}' || c == '\r' || c == ' ' ||
    c == '\U{0085}' || c == '\U{00A0}' || c == '\U{1680}' || ('\U{2000}' <= c <= '\U{200A}') ||
    c == '\U{2028}' || c == '\U{2029}' || c == '\U{202F}' || c == '\U{205F}' || c == '\U{3000}'
  }

  predicate NoSpace(s: string) {
    forall i :: 0 <= i < |s| ==> !IsSpace(s[i])
  }

  /** The characters of `s` that are not white space, in order. */
  function NonSpace(s: string): (r: string)
    ensures NoSpace(r)
  {
    if |s| == 0 then "" else (if IsSpace(s[0]) then "" else [s[0]]) + NonSpace(s[1..])
  }

  /** Length of the leading run of white space. */
  function SpaceRun(s: string): (n: nat)
    ensures n <= |s| && (n < |s| ==> !IsSpace(s[n]))
    ensures forall i :: 0 <= i < n ==> IsSpace(s[i])
  {
    if |s| == 0 || !IsSpace(s[0]) then 0 else 1 + SpaceRun(s[1..])
  }

  /** Length of the leading run of non-space characters. */
  function WordRun(s: string): (n: nat)
    ensures n <= |s| && (n < |s| ==> IsSpace(s[n]))
    ensures forall i :: 0 <= i < n ==> !IsSpace(s[i])
  {
    if |s| == 0 || IsSpace(s[0]) then 0 else 1 + WordRun(s[1..])
  }

  function Concat(parts: seq<string>): string {
    if |parts| == 0 then "" else parts[0] + Concat(parts[1..])
  }

  /** `strings.Fields`: the maximal runs of non-space characters. */
  function Fields(s: string): (r: seq<string>)
    ensures forall k :: 0 <= k < |r| ==> |r[k]| > 0 && NoSpace(r[k])
    decreases |s|
  {
    var t := s[SpaceRun(s)..];
    if |t| == 0 then []
    else
      var n := WordRun(t);
      [t[..n]] + Fields(t[n..])
  }

  lemma {:induction false} SpaceRunIs(s: string, n: nat)
    requires n <= |s| && (forall i :: 0 <= i < n ==> IsSpace(s[i])) && (n < |s| ==> !IsSpace(s[n]))
    ensures SpaceRun(s) == n
  {
    if n > 0 {
      SpaceRunIs(s[1..], n - 1);
    }
  }

  lemma {:induction false} WordRunIs(s: string, n: nat)
    requires n <= |s| && (forall i :: 0 <= i < n ==> !IsSpace(s[i])) && (n < |s| ==> IsSpace(s[n]))
    ensures WordRun(s) == n
  {
    if n > 0 {
      WordRunIs(s[1..], n - 1);
    }
  }

  /** A word followed by white space and the rest: the word is the first field. */
  lemma FieldsOfWord(a: string, rest: string)
    requires |a| > 0 && NoSpace(a) && (|rest| > 0 ==> IsSpace(rest[0]))
    ensures Fields(a + rest) == [a] + Fields(rest)
  {
    var s := a + rest;
    SpaceRunIs(s, 0);
    assert s[0..] == s;
    WordRunIs(s, |a|);
    assert s[..|a|] == a && s[|a|..] == rest;
  }

  /** Leading white space is not part of any field. */
  lemma FieldsOfSpace(sp: string, rest: string)
    requires forall k :: 0 <= k < |sp| ==> IsSpace(sp[k])
    requires |rest| > 0 ==> !IsSpace(rest[0])
    ensures Fields(sp + rest) == Fields(rest)
  {
    var s := sp + rest;
    SpaceRunIs(s, |sp|);
    assert s[|sp|..] == rest;
    SpaceRunIs(rest, 0);
    assert rest[0..] == rest;
  }

  /** Two words separated by white space are two fields. */
  lemma FieldsOfTwo(a: string, sep: string, b: string)
    requires |a| > 0 && NoSpace(a) && |b| > 0 && NoSpace(b)
    requires |sep| > 0 && forall k :: 0 <= k < |sep| ==> IsSpace(sep[k])
    ensures Fields(a + sep + b) == [a, b]
  {
    assert Fields(b) == [b] by {
      FieldsOfWord(b, "");
      assert b + "" == b;
      assert Fields("") == [];
    }
    assert Fields(sep + b) == [b] by {
      FieldsOfSpace(sep, b);
    }
    assert Fields(a + (sep + b)) == [a] + [b] by {
      FieldsOfWord(a, sep + b);
    }
    AppendAssoc(a, sep, b);
  }

  lemma NonSpaceAppend(a: string, b: string)
    ensures NonSpace(a + b) == NonSpace(a) + NonSpace(b)
  {
    if |a| > 0 {
      assert (a + b)[1..] == a[1..] + b;
    } else {
      assert a + b == b;
    }
  }

  lemma NonSpaceOfSpaces(s: string)
    requires forall i :: 0 <= i < |s| ==> IsSpace(s[i])
    ensures NonSpace(s) == ""
  {
  }

  lemma NonSpaceOfWord(s: string)
    requires NoSpace(s)
    ensures NonSpace(s) == s
  {
  }

  /** The fields together hold exactly the non-space characters of the string. */
  lemma {:induction false} FieldsConcat(s: string)
    ensures Concat(Fields(s)) == NonSpace(s)
    decreases |s|
  {
    var k := SpaceRun(s);
    var t := s[k..];
    SpacesThen(s, k);
    if |t| > 0 {
      var n := WordRun(t);
      assert t == t[..n] + t[n..];
      NonSpaceAppend(t[..n], t[n..]);
      NonSpaceOfWord(t[..n]);
      FieldsConcat(t[n..]);
      ConcatCons(t[..n], Fields(t[n..]));
    }
  }

  /** Leading white space adds nothing to the non-space characters. */
  lemma SpacesThen(s: string, k: nat)
    requires k <= |s| && forall i :: 0 <= i < k ==> IsSpace(s[i])
    ensures NonSpace(s) == NonSpace(s[k..])
  {
    assert s == s[..k] + s[k..];
    NonSpaceAppend(s[..k], s[k..]);
    NonSpaceOfSpaces(s[..k]);
  }

  lemma ConcatCons(w: string, rest: seq<string>)
    ensures Concat([w] + rest) == w + Concat(rest)
  {
    assert ([w] + rest)[1..] == rest;
  }

  /** `strings.TrimSpace`: `s` without its leading and trailing white space. */
  function TrimSpace(s: string): (r: string)
    ensures |r| == 0 || (!IsSpace(r[0]) && !IsSpace(r[|r| - 1]))
    ensures exists i, j :: (0 <= i <= j <= |s| && r == s[i..j] &&
      (forall k :: 0 <= k < i ==> IsSpace(s[k])) && (forall k :: j <= k < |s| ==> IsSpace(s[k])))
  {
    var i := SpaceRun(s);
    var j := TrailingEnd(s, i);
    s[i..j]
  }

  /** The end of `s` once its trailing white space (after position `lo`) is removed. */
  function TrailingEnd(s: string, lo: nat): (j: nat)
    requires lo <= |s|
    requires lo < |s| ==> !IsSpace(s[lo])
    ensures lo <= j <= |s|
    ensures j > lo ==> !IsSpace(s[j - 1])
    ensures j == lo ==> lo == |s|
    ensures forall k :: j <= k < |s| ==> IsSpace(s[k])
    decreases |s|
  {
    if |s| == lo then lo
    else if IsSpace(s[|s| - 1]) then TrailingEnd(s[..|s| - 1], lo)
    else |s|
  }

  // ---------------------------------------------------------------- strconv

  predicate IsDigit(c: char) {
    '0' <= c <= '9'
  }

  predicate AllDigits(s: string) {
    forall i :: 0 <= i < |s| ==> IsDigit(s[i])
  }

  /** The number a string of decimal digits denotes. */
  function DigitsValue(s: string): (n: nat)
    requires AllDigits(s)
  {
    if |s| == 0 then 0 else DigitsValue(s[..|s| - 1]) * 10 + (s[|s| - 1] as int - '0' as int)
  }

  datatype NumError = ErrSyntax | ErrRange

  /**
   * `strconv.Atoi` on a 64-bit platform: an optional sign and at least one decimal digit;
   * a value outside the int64 range is a range error.
   */
  function Atoi(s: string): (r: Result<int, NumError>)
    ensures r.Ok? ==> Int64Min <= r.value <= Int64Max
    ensures r.Ok? ==> |s| > 0
  {
    var neg := |s| > 0 && s[0] == '-';
    var digits := if |s| > 0 && (s[0] == '-' || s[0] == '+') then s[1..] else s;
    if |digits| == 0 || !AllDigits(digits) then Fail(ErrSyntax)
    else
      var mag: int := DigitsValue(digits);
      var v := if neg then -mag else mag;
      if v < Int64Min || Int64Max < v then Fail(ErrRange) else Ok(v)
  }

  /** The decimal digits of a natural number (`strconv.Itoa`, `%d`). */
  function NatToString(n: nat): (s: string)
    ensures |s| > 0 && AllDigits(s)
    ensures DigitsValue(s) == n
  {
    var d := ['0' + ((n % 10) as char)];
    if n < 10 then d else NatToString(n / 10) + d
  }

  function IntToString(n: int): string {
    if n < 0 then "-" + NatToString(-n) else NatToString(n)
  }

  /** Formatting a number in range and parsing it back with `Atoi` gives the number. */
  lemma AtoiIntToString(n: int)
    requires Int64Min <= n <= Int64Max
    ensures Atoi(IntToString(n)) == Ok(n)
  {
    if n < 0 {
      assert IntToString(n)[1..] == NatToString(-n);
    }
  }

  /**
   * `strconv.Quote` for the texts this program quotes: double quotes around the text, with
   * '"', '\\', and the control characters escaped.
   */
  function Quote(s: string): string {
    "\"" + QuoteBody(s) + "\""
  }

  function QuoteBody(s: string): string {
    if |s| == 0 then ""
    else EscapeChar(s[0]) + QuoteBody(s[1..])
  }

  function EscapeChar(c: char): string {
    if c == '"' then "\\\""
    else if c == '\\' then "\\\\"
    else if c == '\n' then "\\n"
    else if c == '\t' then "\\t"
    else if c == '\U{0007}' then "\\a"
    else if c == '\U{0008}' then "\\b"
    else if c == '\U{000C}' then "\\f"
    else if c == '\U{000B}' then "\\v"
    else if c == '\r' then "\\r"
    else if c < ' ' || c == '\U{007F}' then
      "\\x" + [HexDigits[(c as int) / 16], HexDigits[(c as int) % 16]]
    else [c]
  }

  /** `strings.ToUpper` on ASCII letters. */
  function ToUpper(s: string): (r: string)
    ensures |r| == |s|
  {
    if |s| == 0 then ""
    else [if 'a' <= s[0] <= 'z' then (s[0] as int - 32) as char else s[0]] + ToUpper(s[1..])
  }

  /** `string(b)`: the text whose characters have the codes of the bytes of `b` (exact for ASCII). */
  function BytesToString(b: Bytes): (s: string)
    ensures |s| == |b|
    ensures forall i :: 0 <= i < |b| ==> s[i] as int == b[i] as int
  {
    if |b| == 0 then "" else [b[0] as int as char] + BytesToString(b[1..])
  }
}
