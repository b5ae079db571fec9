/**
 * `StarWarsInfo/Integrations/Swapi/SwapiFieldParser.cs`: the conversions of
 * SWAPI's text fields.  A null marker gives null; otherwise every character
 * but the ASCII digits and `.` is stripped and the rest goes to .NET's
 * `int.Parse`, `decimal.Parse` or `ulong.Parse` (en-US culture), which may
 * throw.  A thrown exception is the `Err` of a `Parsed` result.
 */
module SwapiFieldParser {
  import opened Wrappers
  import opened Strings

  /** The exceptions the .NET parsers throw. */
  datatype ParseError = FormatException | OverflowException

  type Parsed<T> = Result<T, ParseError>

  const Int32Min: int := -0x8000_0000
  const Int32Max: int := 0x7FFF_FFFF
  const UInt64Max: int := 0xFFFF_FFFF_FFFF_FFFF
  /** `decimal.MaxValue`, 2^96 - 1. */
  const DecimalMax: int := 0xFFFF_FFFF_FFFF_FFFF_FFFF_FFFF

  /** A .NET `decimal` as the parser builds it: `unscaled / 10^scale`, the scale being the number of fraction digits. */
  datatype Decimal = Decimal(unscaled: nat, scale: nat)

  /** `char.IsWhiteSpace`: the Unicode white-space characters. */
  predicate IsWhiteSpace(c: char) {
    ('\U{0009}' <= c <= '\U{000D}') || c == ' ' || c == '\U{0085}' || c == '\U{00A0}' || c == '\U{1680}'
    || ('\U{2000}' <= c <= '\U{200A}') || c == '\U{2028}' || c == '\U{2029}' || c == '\U{202F}'
    || c == '\U{205F}' || c == '\U{3000}'
  }

  /** `string.IsNullOrWhiteSpace`. */
  predicate IsNullOrWhiteSpace(text: Option<string>) {
    text.None? || forall i :: 0 <= i < |text.value| ==> IsWhiteSpace(text.value[i])
  }

  /** `TextIsNull`: null, blank, or exactly `unknown` or `n/a` (case-sensitive). */
  predicate TextIsNull(text: Option<string>) {
    IsNullOrWhiteSpace(text) || text == Some("unknown") || text == Some("n/a")
  }

  /** What the regex `[^\d\.]` leaves in place. */
  predicate IsNumeric(c: char) {
    IsDigit(c) || c == '.'
  }

  predicate AllNumeric(s: string) {
    forall i :: 0 <= i < |s| ==> IsNumeric(s[i])
  }

  /** `RemoveNonNumerics`: `Regex.Replace(text, "[^\d\.]", "")`. */
  function RemoveNonNumerics(text: string): (r: string)
    ensures AllNumeric(r)
    ensures |r| <= |text|
    decreases |text|
  {
    if |text| == 0 then ""
    else (if IsNumeric(text[0]) then [text[0]] else []) + RemoveNonNumerics(text[1..])
  }

  /** Stripping distributes over concatenation: it keeps each part's numerics, in order. */
  lemma {:induction false} RemoveNonNumericsConcat(a: string, b: string)
    ensures RemoveNonNumerics(a + b) == RemoveNonNumerics(a) + RemoveNonNumerics(b)
    decreases |a|
  {
    if |a| > 0 {
      assert (a + b)[0] == a[0];
      assert (a + b)[1..] == a[1..] + b;
      RemoveNonNumericsConcat(a[1..], b);
    } else {
      assert a + b == b;
    }
  }

  /** A text of digits and points is left as it is. */
  lemma {:induction false} RemoveNonNumericsKeeps(text: string)
    requires AllNumeric(text)
    ensures RemoveNonNumerics(text) == text
    decreases |text|
  {
    if |text| > 0 {
      RemoveNonNumericsKeeps(text[1..]);
      assert text == [text[0]] + text[1..];
    }
  }

  /** A text without digits or points is removed entirely. */
  lemma {:induction false} RemoveNonNumericsDrops(text: string)
    requires forall i :: 0 <= i < |text| ==> !IsNumeric(text[i])
    ensures RemoveNonNumerics(text) == ""
    decreases |text|
  {
    if |text| > 0 {
      RemoveNonNumericsDrops(text[1..]);
    }
  }

  /** Stripping twice is stripping once. */
  lemma RemoveNonNumericsIdempotent(text: string)
    ensures RemoveNonNumerics(RemoveNonNumerics(text)) == RemoveNonNumerics(text)
  {
    RemoveNonNumericsKeeps(RemoveNonNumerics(text));
  }

  /** A character survives exactly when it is in the text and is a digit or a point. */
  lemma {:induction false} RemoveNonNumericsMembers(text: string, c: char)
    ensures c in RemoveNonNumerics(text) <==> c in text && IsNumeric(c)
    decreases |text|
  {
    if |text| > 0 {
      RemoveNonNumericsMembers(text[1..], c);
      assert text == [text[0]] + text[1..];
    }
  }

  function DigitValue(c: char): (d: nat)
    requires IsDigit(c)
    ensures d < 10
  {
    c as int - '0' as int
  }

  /** The number a digit string denotes, most significant digit first. */
  function DigitsValue(s: string): nat
    requires AllDigits(s)
    decreases |s|
  {
    if |s| == 0 then 0 else DigitsValue(s[..|s| - 1]) * 10 + DigitValue(s[|s| - 1])
  }

  /** Digits are read positionally: a digit string followed by more digits. */
  lemma {:induction false} DigitsValueConcat(a: string, b: string)
    requires AllDigits(a) && AllDigits(b)
    ensures AllDigits(a + b)
    ensures DigitsValue(a + b) == DigitsValue(a) * Pow10(|b|) + DigitsValue(b)
    decreases |b|
  {
    AllDigitsConcat(a, b);
    if |b| > 0 {
      var b', c := b[..|b| - 1], b[|b| - 1];
      assert (a + b)[..|a + b| - 1] == a + b';
      assert (a + b)[|a + b| - 1] == c;
      DigitsValueConcat(a, b');
      assert DigitsValue(a + b) == DigitsValue(a + b') * 10 + DigitValue(c);
      assert DigitsValue(b) == DigitsValue(b') * 10 + DigitValue(c);
      ShiftDigit(DigitsValue(a), Pow10(|b'|), DigitsValue(b'), DigitValue(c));
    } else {
      assert a + b == a;
    }
  }

  lemma AllDigitsConcat(a: string, b: string)
    requires AllDigits(a) && AllDigits(b)
    ensures AllDigits(a + b)
  {
    forall i | 0 <= i < |a + b| ensures IsDigit((a + b)[i]) {
      if i < |a| { assert (a + b)[i] == a[i]; } else { assert (a + b)[i] == b[i - |a|]; }
    }
  }

  /** Appending a digit: one more factor of ten on the high part. */
  lemma ShiftDigit(x: nat, p: nat, y: nat, d: nat)
    ensures (x * p + y) * 10 + d == x * (10 * p) + (y * 10 + d)
  {
  }

  function Pow10(n: nat): (p: nat)
    ensures p >= 1
  {
    if n == 0 then 1 else 10 * Pow10(n - 1)
  }

  /** Leading zeros do not change the value. */
  lemma LeadingZeros(z: string, s: string)
    requires forall i :: 0 <= i < |z| ==> z[i] == '0'
    requires AllDigits(s)
    ensures AllDigits(z + s) && DigitsValue(z + s) == DigitsValue(s)
  {
    ZerosValue(z);
    DigitsValueConcat(z, s);
  }

  lemma {:induction false} ZerosValue(z: string)
    requires forall i :: 0 <= i < |z| ==> z[i] == '0'
    ensures AllDigits(z) && DigitsValue(z) == 0
    decreases |z|
  {
    if |z| > 0 {
      ZerosValue(z[..|z| - 1]);
    }
  }

  /** `String(n)` read back as digits is `n`. */
  lemma {:induction false} DigitsOfNatToString(n: nat)
    ensures DigitsValue(NatToString(n)) == n
    decreases n
  {
    if n >= 10 {
      DigitsOfNatToString(n / 10);
      var s := NatToString(n);
      assert s[..|s| - 1] == NatToString(n / 10);
    }
    DigitCharValue(n % 10);
  }

  lemma DigitCharValue(d: nat)
    requires d < 10
    ensures DigitValue(DigitChar(d)) == d
  {
  }

  /** The white space `int.Parse` skips around the number: tab to carriage return, and space. */
  predicate IsParseWhite(c: char) {
    ('\U{0009}' <= c <= '\U{000D}') || c == ' '
  }

  /** The text without leading and trailing parse white space. */
  function TrimParseWhite(s: string): (r: string)
    ensures |r| <= |s|
    ensures |r| > 0 ==> !IsParseWhite(r[0]) && !IsParseWhite(r[|r| - 1])
    decreases |s|
  {
    if |s| == 0 then ""
    else if IsParseWhite(s[0]) then TrimParseWhite(s[1..])
    else if IsParseWhite(s[|s| - 1]) then TrimParseWhite(s[..|s| - 1])
    else s
  }

  /**
   * `Parse` with `NumberStyles.Integer` into the range `[lo, hi]`: optional
   * surrounding white space, an optional sign, one or more ASCII digits.
   * A format error takes precedence over an overflow.
   */
  function ParseInteger(s: string, lo: int, hi: int): Parsed<int> {
    var t := TrimParseWhite(s);
    var signed := |t| > 0 && (t[0] == '-' || t[0] == '+');
    var digits := if signed then t[1..] else t;
    if |digits| == 0 || !AllDigits(digits) then Err(FormatException)
    else
      var n: int := DigitsValue(digits);
      var v := if signed && t[0] == '-' then -n else n;
      if v < lo || hi < v then Err(OverflowException) else Ok(v)
  }

  /** `int.Parse`. */
  function ParseInt32(s: string): (r: Parsed<int>)
    ensures r.Ok? ==> Int32Min <= r.value <= Int32Max
  {
    ParseInteger(s, Int32Min, Int32Max)
  }

  /** `ulong.Parse`. */
  function ParseUInt64(s: string): (r: Parsed<int>)
    ensures r.Ok? ==> 0 <= r.value <= UInt64Max
  {
    ParseInteger(s, 0, UInt64Max)
  }

  /**
   * On a non-empty digit string both integer parsers give its value, or an
   * overflow past their maximum.
   */
  lemma ParseDigits(s: string)
    requires |s| > 0 && AllDigits(s)
    ensures ParseInt32(s) == if DigitsValue(s) <= Int32Max then Ok(DigitsValue(s)) else Err(OverflowException)
    ensures ParseUInt64(s) == if DigitsValue(s) <= UInt64Max then Ok(DigitsValue(s)) else Err(OverflowException)
  {
    UnsignedDigits(s, Int32Min, Int32Max);
    UnsignedDigits(s, 0, UInt64Max);
  }

  /** An unsigned digit string parses to its value when it is in range. */
  lemma UnsignedDigits(s: string, lo: int, hi: int)
    requires |s| > 0 && AllDigits(s) && lo <= 0
    ensures ParseInteger(s, lo, hi) == if DigitsValue(s) <= hi then Ok(DigitsValue(s)) else Err(OverflowException)
  {
    assert TrimParseWhite(s) == s;
  }

  /** A minus sign followed by digits parses to the negated value when it is in range. */
  lemma NegativeDigits(s: string, lo: int, hi: int)
    requires |s| > 1 && s[0] == '-' && AllDigits(s[1..]) && hi >= 0
    ensures ParseInteger(s, lo, hi) ==
      if -(DigitsValue(s[1..]) as int) >= lo then Ok(-(DigitsValue(s[1..]) as int)) else Err(OverflowException)
  {
    assert TrimParseWhite(s) == s;
  }

  lemma DropSign(t: string)
    ensures ("-" + t)[1..] == t
  {
  }

  /** `int.Parse(n.ToString())` is `n`. */
  lemma ParseInt32RoundTrip(n: int)
    requires Int32Min <= n <= Int32Max
    ensures ParseInt32(IntToString(n)) == Ok(n)
  {
    if n >= 0 {
      UnsignedRoundTrip(n);
    } else {
      NegativeRoundTrip(n);
    }
  }

  lemma UnsignedRoundTrip(n: nat)
    requires n <= Int32Max
    ensures ParseInteger(IntToString(n), Int32Min, Int32Max) == Ok(n)
  {
    var s := IntToString(n);
    DigitsOfNatToString(n);
    UnsignedDigits(s, Int32Min, Int32Max);
  }

  lemma NegativeRoundTrip(n: int)
    requires Int32Min <= n < 0
    ensures ParseInteger(IntToString(n), Int32Min, Int32Max) == Ok(n)
  {
    var s, m: nat := IntToString(n), -n;
    assert s == "-" + NatToString(m);
    DropSign(NatToString(m));
    DigitsOfNatToString(m);
    NegativeDigits(s, Int32Min, Int32Max);
  }

  /** The index of the first point of `s` at or after `k`, or -1. */
  function PointFrom(s: string, k: nat): (r: int)
    requires k <= |s|
    ensures r == -1 || (k <= r < |s| && s[r] == '.')
    ensures r == -1 ==> forall i :: k <= i < |s| ==> s[i] != '.'
    ensures r >= 0 ==> forall i :: k <= i < r ==> s[i] != '.'
    decreases |s| - k
  {
    if k == |s| then -1 else if s[k] == '.' then k else PointFrom(s, k + 1)
  }

  /** `decimal.Parse` of the text stripping leaves: digits with at most one point, and at least one digit. */
  function ParseStrippedDecimal(s: string): (r: Parsed<Decimal>)
    requires AllNumeric(s)
    ensures |s| == 0 ==> r == Err(FormatException)
    ensures r.Ok? ==> r.value.scale < |s|
  {
    var dot := PointFrom(s, 0);
    if dot < 0 then
      assert AllDigits(s);
      if |s| == 0 then Err(FormatException)
      else if DigitsValue(s) > DecimalMax then Err(OverflowException)
      else Ok(Decimal(DigitsValue(s), 0))
    else
      var whole, fraction := s[..dot], s[dot + 1..];
      if '.' in fraction || |whole| + |fraction| == 0 then Err(FormatException)
      else
        assert AllDigits(whole + fraction) by { PointSplit(s, dot); }
        if DigitsValue(whole) > DecimalMax then Err(OverflowException)
        else Ok(Decimal(DigitsValue(whole + fraction), |fraction|))
  }

  lemma PointSplit(s: string, dot: int)
    requires AllNumeric(s) && dot == PointFrom(s, 0) && dot >= 0
    requires '.' !in s[dot + 1..]
    ensures AllDigits(s[..dot] + s[dot + 1..])
  {
    var t := s[..dot] + s[dot + 1..];
    forall i | 0 <= i < |t| ensures IsDigit(t[i]) {
      if i < dot {
        assert t[i] == s[i];
      } else {
        assert t[i] == s[dot + 1..][i - dot];
      }
    }
  }

  /** `RawTextToIntNullable`. */
  function RawTextToIntNullable(rawText: string): (r: Parsed<Option<int>>)
    ensures TextIsNull(Some(rawText)) ==> r == Ok(None)
    ensures r.Ok? && r.value.Some? ==> Int32Min <= r.value.value <= Int32Max
  {
    if TextIsNull(Some(rawText)) then Ok(None)
    else
      var v :- ParseInt32(RemoveNonNumerics(rawText));
      Ok(Some(v))
  }

  /** `RawTextToDecimalNullable`. */
  function RawTextToDecimalNullable(rawText: string): (r: Parsed<Option<Decimal>>)
    ensures TextIsNull(Some(rawText)) ==> r == Ok(None)
  {
    if TextIsNull(Some(rawText)) then Ok(None)
    else
      var v :- ParseStrippedDecimal(RemoveNonNumerics(rawText));
      Ok(Some(v))
  }

  /** `RawTextToDecimal`: no null-marker check. */
  function RawTextToDecimal(rawText: string): Parsed<Decimal> {
    ParseStrippedDecimal(RemoveNonNumerics(rawText))
  }

  /** `RawTextToUlongNullable`. */
  function RawTextToUlongNullable(rawText: string): (r: Parsed<Option<int>>)
    ensures TextIsNull(Some(rawText)) ==> r == Ok(None)
    ensures r.Ok? && r.value.Some? ==> 0 <= r.value.value <= UInt64Max
  {
    if TextIsNull(Some(rawText)) then Ok(None)
    else
      var v :- ParseUInt64(RemoveNonNumerics(rawText));
      Ok(Some(v))
  }

  /** `s.TrimEnd(c)`: every trailing `c` removed. */
  function TrimEnd(s: string, c: char): (r: string)
    ensures |r| <= |s| && s[..|r|] == r
    ensures forall i :: |r| <= i < |s| ==> s[i] == c
    ensures |r| > 0 ==> r[|r| - 1] != c
    decreases |s|
  {
    if |s| > 0 && s[|s| - 1] == c then TrimEnd(s[..|s| - 1], c) else s
  }

  /** `s.Split(c)[^1]`: the text after the last `c`, or all of `s` when there is none. */
  function LastSegment(s: string, c: char): (r: string)
    ensures c !in r && |r| <= |s| && s[|s| - |r|..] == r
    ensures |r| < |s| ==> s[|s| - |r| - 1] == c
    decreases |s|
  {
    if |s| == 0 || s[|s| - 1] == c then ""
    else
      var t := LastSegment(s[..|s| - 1], c);
      SuffixSnoc(s, t);
      t + [s[|s| - 1]]
  }

  /** A suffix of all but the last character, extended by that character, is a suffix. */
  lemma SuffixSnoc(s: string, t: string)
    requires |s| > 0 && |t| <= |s| - 1 && s[..|s| - 1][|s| - 1 - |t|..] == t
    ensures s[|s| - (|t| + 1)..] == t + [s[|s| - 1]]
    ensures |t| + 1 < |s| ==> s[|s| - (|t| + 1) - 1] == s[..|s| - 1][|s| - 1 - |t| - 1]
  {
    assert s[|s| - (|t| + 1)..] == s[..|s| - 1][|s| - 1 - |t|..] + [s[|s| - 1]];
  }

  /** `RawUrlToId`: `int.Parse(url.TrimEnd('/').Split('/')[^1])`. */
  function RawUrlToId(url: string): (r: Parsed<int>)
    ensures r.Ok? ==> Int32Min <= r.value <= Int32Max
  {
    ParseInt32(LastSegment(TrimEnd(url, '/'), '/'))
  }

  /** The last segment is what follows the last separator. */
  lemma {:induction false} LastSegmentAfter(prefix: string, c: char, segment: string)
    requires c !in segment
    ensures LastSegment(prefix + [c] + segment, c) == segment
    decreases |segment|
  {
    var s := prefix + [c] + segment;
    if |segment| > 0 {
      var n := |segment| - 1;
      assert segment[n] in segment;
      assert s[..|s| - 1] == prefix + [c] + segment[..n];
      LastSegmentAfter(prefix, c, segment[..n]);
      assert segment[..n] + [segment[n]] == segment;
    } else {
      assert s == prefix + [c];
    }
  }

  /** Trailing separators are removed before the last segment is taken. */
  lemma {:induction false} TrimEndSlashes(s: string, c: char, n: nat)
    requires |s| == 0 || s[|s| - 1] != c
    ensures TrimEnd(s + Repeat(c, n), c) == s
    decreases n
  {
    if n > 0 {
      var t := s + Repeat(c, n);
      assert t[|t| - 1] == c;
      assert t[..|t| - 1] == s + Repeat(c, n - 1);
      TrimEndSlashes(s, c, n - 1);
    } else {
      assert s + Repeat(c, 0) == s;
    }
  }

  /**
   * A URL ending in `/` then a segment without `/`, then any number of
   * `/`, gives the segment parsed by `int.Parse`.
   */
  lemma UrlId(prefix: string, segment: string, slashes: nat)
    requires '/' !in segment && |segment| > 0
    ensures RawUrlToId(prefix + "/" + segment + Repeat('/', slashes)) == ParseInt32(segment)
  {
    var body := prefix + "/" + segment;
    TrimEndSlashes(body, '/', slashes);
    LastSegmentAfter(prefix, '/', segment);
  }

  /** `int.Parse` of a text of white space only is a format error. */
  lemma BlankFormatError(s: string)
    requires forall i :: 0 <= i < |s| ==> IsParseWhite(s[i])
    ensures ParseInt32(s) == Err(FormatException)
  {
    BlankTrims(s);
  }

  lemma {:induction false} BlankTrims(s: string)
    requires forall i :: 0 <= i < |s| ==> IsParseWhite(s[i])
    ensures TrimParseWhite(s) == ""
    decreases |s|
  {
    if |s| > 0 {
      BlankTrims(s[1..]);
    }
  }

  /** A blank URL, the empty one included, has no id: `RawUrlToId` throws a format error. */
  lemma BlankUrlThrows(url: string)
    requires forall i :: 0 <= i < |url| ==> IsParseWhite(url[i])
    ensures RawUrlToId(url) == Err(FormatException)
  {
    assert TrimEnd(url, '/') == url;
    var segment := LastSegment(url, '/');
    assert forall i :: 0 <= i < |url| ==> url[i] != '/';
    assert |segment| == |url|;
    BlankFormatError(segment);
  }

  /**
   * White space after the last `/` is the last segment, which `int.Parse`
   * refuses: trailing spaces after the final slash make the URL fail.
   */
  lemma TrailingBlankUrl(prefix: string, blank: string)
    requires |blank| > 0 && forall i :: 0 <= i < |blank| ==> blank[i] == ' '
    ensures RawUrlToId(prefix + "/" + blank) == Err(FormatException)
  {
    TrimEndSlashes(prefix + "/" + blank, '/', 0);
    assert prefix + "/" + blank + Repeat('/', 0) == prefix + "/" + blank;
    UrlId(prefix, blank, 0);
    BlankFormatError(blank);
  }

  /**
   * Every null marker gives null from the three nullable parsers, and no
   * exception.
   */
  lemma NullMarkersGiveNull(rawText: string)
    requires rawText == "" || rawText == "unknown" || rawText == "n/a" || (|rawText| > 0 && forall i :: 0 <= i < |rawText| ==> rawText[i] == ' ')
    ensures RawTextToIntNullable(rawText) == Ok(None)
    ensures RawTextToDecimalNullable(rawText) == Ok(None)
    ensures RawTextToUlongNullable(rawText) == Ok(None)
  {
  }

  /** The markers are case-sensitive: `Unknown` and `N/A` are not null. */
  lemma MarkersCaseSensitive(a: string, b: string)
    requires a == "Unknown" && b == "N/A"
    ensures !TextIsNull(Some(a)) && !TextIsNull(Some(b))
  {
    assert a[0] != ' ' && b[0] != ' ';
  }

  /**
   * The int parser succeeds exactly on the non-marker texts whose stripped
   * form is a non-empty digit string of value at most `int.MaxValue`, and
   * then gives that value.
   */
  lemma IntNullableOk(rawText: string, v: int)
    ensures RawTextToIntNullable(rawText) == Ok(Some(v)) <==>
      !TextIsNull(Some(rawText)) && |RemoveNonNumerics(rawText)| > 0 && AllDigits(RemoveNonNumerics(rawText)) &&
      DigitsValue(RemoveNonNumerics(rawText)) == v && v <= Int32Max
  {
    StrippedParse(RemoveNonNumerics(rawText));
  }

  /** On a stripped text the integer parsers see no white space and no sign: digits or a format error. */
  lemma StrippedParse(s: string)
    requires AllNumeric(s)
    ensures ParseInt32(s) ==
      if |s| == 0 || !AllDigits(s) then Err(FormatException)
      else if DigitsValue(s) <= Int32Max then Ok(DigitsValue(s)) else Err(OverflowException)
  {
    NumericUntrimmed(s);
    if |s| > 0 && AllDigits(s) {
      ParseDigits(s);
    }
  }

  /** A stripped text has nothing for `TrimParseWhite` to remove, and no sign. */
  lemma NumericUntrimmed(s: string)
    requires AllNumeric(s)
    ensures TrimParseWhite(s) == s
    ensures |s| > 0 ==> s[0] != '-' && s[0] != '+'
  {
    if |s| > 0 {
      assert IsNumeric(s[0]) && IsNumeric(s[|s| - 1]);
    }
  }

  /**
   * A point that survives stripping, or a text with no digit that is not a
   * null marker, makes the int and ulong parsers throw a format error.
   */
  lemma IntegerFormatErrors(rawText: string)
    requires !TextIsNull(Some(rawText))
    requires '.' in rawText || forall i :: 0 <= i < |rawText| ==> !IsDigit(rawText[i])
    ensures RawTextToIntNullable(rawText) == Err(FormatException)
    ensures RawTextToUlongNullable(rawText) == Err(FormatException)
  {
    var s := RemoveNonNumerics(rawText);
    NumericUntrimmed(s);
    if '.' in rawText {
      RemoveNonNumericsMembers(rawText, '.');
      var k :| 0 <= k < |s| && s[k] == '.';
      assert !IsDigit(s[k]);
    } else {
      RemoveNonNumericsDrops(rawText);
    }
  }

  /** A minus sign is stripped like any other character: `-` then digits parses as the digits. */
  lemma MinusStripped(digits: string)
    requires |digits| > 0 && AllDigits(digits)
    ensures RawTextToUlongNullable([('-' as char)] + digits) == RawTextToUlongNullable(digits)
    ensures RawTextToIntNullable([('-' as char)] + digits) == RawTextToIntNullable(digits)
  {
    var s := [('-' as char)] + digits;
    assert s[1..] == digits;
    assert RemoveNonNumerics(s) == RemoveNonNumerics(digits);
    NotMarker(s);
    NotMarker(digits);
  }

  /** A digit-free text that does not start like a null marker, such as `indefinite`, makes the int and ulong parsers throw. */
  lemma DigitFreeThrows(t: string)
    requires |t| > 0 && !IsWhiteSpace(t[0]) && t[0] != 'u' && t[0] != 'n'
    requires forall i :: 0 <= i < |t| ==> !IsDigit(t[i])
    ensures RawTextToIntNullable(t) == Err(FormatException)
    ensures RawTextToUlongNullable(t) == Err(FormatException)
  {
    NotMarker(t);
    IntegerFormatErrors(t);
  }

  /** A text starting with anything but white space, `u` or `n` is no null marker. */
  lemma NotMarker(t: string)
    requires |t| > 0 && !IsWhiteSpace(t[0]) && t[0] != 'u' && t[0] != 'n'
    ensures !TextIsNull(Some(t))
  {
    var unknown, na := "unknown", "n/a";
    assert unknown[0] == 'u' && na[0] == 'n';
  }

  /** Two points make every decimal parser throw a format error. */
  lemma TwoPointsFormatError(s: string, i: nat, j: nat)
    requires AllNumeric(s) && i < j < |s| && s[i] == '.' && s[j] == '.'
    ensures ParseStrippedDecimal(s) == Err(FormatException)
  {
    var dot := PointFrom(s, 0);
    assert dot <= i;
    assert s[dot + 1..][j - dot - 1] == '.';
  }

  /** Digits, a point and digits: the value is exact, its scale the number of fraction digits. */
  lemma DecimalWithPoint(whole: string, fraction: string)
    requires AllDigits(whole) && AllDigits(fraction) && |whole| + |fraction| > 0
    requires DigitsValue(whole) <= DecimalMax
    ensures AllDigits(whole + fraction)
    ensures ParseStrippedDecimal(whole + "." + fraction) == Ok(Decimal(DigitsValue(whole + fraction), |fraction|))
  {
    var s := whole + "." + fraction;
    assert s[|whole|] == '.';
    assert forall i :: 0 <= i < |whole| ==> s[i] == whole[i];
    assert PointFrom(s, 0) == |whole|;
    assert s[..|whole|] == whole;
    assert s[|whole| + 1..] == fraction;
    assert forall k :: 0 <= k < |fraction| ==> fraction[k] != '.';
    DigitsValueConcat(whole, fraction);
  }

  /** Digits alone: the value, scale 0. */
  lemma DecimalWithoutPoint(digits: string)
    requires AllDigits(digits) && |digits| > 0 && DigitsValue(digits) <= DecimalMax
    ensures ParseStrippedDecimal(digits) == Ok(Decimal(DigitsValue(digits), 0))
  {
    assert PointFrom(digits, 0) == -1;
  }

  /** Without a null-marker check, `RawTextToDecimal` throws on `unknown`, where the nullable parser gives null. */
  lemma UnknownDecimal(rawText: string)
    requires rawText == "unknown"
    ensures RawTextToDecimal(rawText) == Err(FormatException)
    ensures RawTextToDecimalNullable(rawText) == Ok(None)
  {
    RemoveNonNumericsDrops(rawText);
  }

  /** A character that is neither a digit nor a point, between two parts, is dropped. */
  lemma StripBetween(a: string, x: char, b: string)
    requires !IsNumeric(x)
    ensures RemoveNonNumerics(a + [x] + b) == RemoveNonNumerics(a) + RemoveNonNumerics(b)
  {
    var ax := a + [x];
    RemoveNonNumericsConcat(ax, b);
    RemoveNonNumericsConcat(a, [x]);
    RemoveNonNumericsDrops([x]);
    assert RemoveNonNumerics(ax) == RemoveNonNumerics(a);
  }

  /** A text with a digit in it is no null marker. */
  lemma DigitNotMarker(t: string, k: nat)
    requires k < |t| && IsDigit(t[k])
    ensures !TextIsNull(Some(t))
  {
    var unknown, na := "unknown", "n/a";
    assert !IsWhiteSpace(t[k]);
    assert forall i :: 0 <= i < |unknown| ==> !IsDigit(unknown[i]);
    assert forall i :: 0 <= i < |na| ==> !IsDigit(na[i]);
  }

  /**
   * A text whose digits and points reduce to the decimal form of `n` gives
   * `n` from the int parser when `n` fits.
   */
  lemma StrippedToNat(rawText: string, n: nat)
    requires RemoveNonNumerics(rawText) == NatToString(n) && n <= Int32Max
    ensures RawTextToIntNullable(rawText) == Ok(Some(n))
  {
    DigitsOfNatToString(n);
    StrippedDigits(rawText, NatToString(n));
  }

  /** A text whose digits and points reduce to a digit string `m` gives the value of `m` when it fits. */
  lemma StrippedDigits(rawText: string, m: string)
    requires RemoveNonNumerics(rawText) == m && |m| > 0 && AllDigits(m)
    ensures RawTextToIntNullable(rawText) ==
      if DigitsValue(m) <= Int32Max then Ok(Some(DigitsValue(m))) else Err(OverflowException)
  {
    RemoveNonNumericsMembers(rawText, m[0]);
    assert m[0] in m;
    var k :| 0 <= k < |rawText| && rawText[k] == m[0];
    DigitNotMarker(rawText, k);
    ParseDigits(m);
  }

  /** Thousands separators are dropped (`"1,234"` is 1234). */
  lemma ThousandsSeparator(x: string, y: string)
    requires |x| > 0 && AllDigits(x) && AllDigits(y)
    ensures AllDigits(x + y)
    ensures RawTextToIntNullable(x + "," + y) ==
      if DigitsValue(x + y) <= Int32Max then Ok(Some(DigitsValue(x + y))) else Err(OverflowException)
    ensures RawTextToUlongNullable(x + "," + y) ==
      if DigitsValue(x + y) <= UInt64Max then Ok(Some(DigitsValue(x + y))) else Err(OverflowException)
  {
    DigitsValueConcat(x, y);
    var t := x + "," + y;
    StripBetween(x, ',', y);
    assert t == x + [','] + y;
    RemoveNonNumericsKeeps(x);
    RemoveNonNumericsKeeps(y);
    assert t[0] == x[0];
    DigitNotMarker(t, 0);
    ParseDigits(x + y);
  }

  /** Digits and points between two texts without any are all that stripping keeps. */
  lemma StripAround(a: string, m: string, b: string)
    requires forall i :: 0 <= i < |a| ==> !IsNumeric(a[i])
    requires forall i :: 0 <= i < |b| ==> !IsNumeric(b[i])
    requires AllNumeric(m)
    ensures RemoveNonNumerics(a + m + b) == m
  {
    RemoveNonNumericsConcat(a + m, b);
    RemoveNonNumericsConcat(a, m);
    RemoveNonNumericsDrops(a);
    RemoveNonNumericsDrops(b);
    RemoveNonNumericsKeeps(m);
  }

  /** Surrounding spaces and leading zeros are dropped (`"  007  "` is 7). */
  lemma PaddedNumber(n: nat, before: nat, zeros: nat, after: nat)
    requires n <= Int32Max
    ensures RawTextToIntNullable(Repeat(' ', before) + Repeat('0', zeros) + NatToString(n) + Repeat(' ', after)) == Ok(Some(n))
  {
    var ds := NatToString(n);
    var z := Repeat('0', zeros);
    DigitsOfNatToString(n);
    LeadingZeros(z, ds);
    StripAround(Repeat(' ', before), z + ds, Repeat(' ', after));
    RegroupMiddle(Repeat(' ', before), z, ds, Repeat(' ', after));
    StrippedDigits(Repeat(' ', before) + (z + ds) + Repeat(' ', after), z + ds);
  }

  lemma RegroupMiddle<T>(a: seq<T>, z: seq<T>, m: seq<T>, b: seq<T>)
    ensures a + z + m + b == a + (z + m) + b
  {
  }

  /** A caption without digits or points before the number is dropped (`"speed: 9000"` is 9000). */
  lemma LabelledNumber(caption: string, n: nat)
    requires forall i :: 0 <= i < |caption| ==> !IsNumeric(caption[i])
    requires n <= Int32Max
    ensures RawTextToIntNullable(caption + NatToString(n)) == Ok(Some(n))
  {
    StripAround(caption, NatToString(n), "");
    assert caption + NatToString(n) + "" == caption + NatToString(n);
    StrippedToNat(caption + NatToString(n), n);
  }

  lemma StripCurrency(caption: string, x: string, y: string, fraction: string)
    requires forall i :: 0 <= i < |caption| ==> !IsNumeric(caption[i])
    requires AllDigits(x) && AllDigits(y) && AllDigits(fraction)
    ensures RemoveNonNumerics(caption + x + "," + y + "." + fraction) == (x + y) + "." + fraction
  {
    var tail := y + "." + fraction;
    RegroupTail(caption + x + ",", y, ".", fraction);
    StripBetween(caption + x, ',', tail);
    StripAround(caption, x, "");
    DropEmpty(caption + x);
    NumericFraction(y, fraction);
    RemoveNonNumericsKeeps(tail);
    RegroupTail(x, y, ".", fraction);
  }

  lemma RegroupTail<T>(p: seq<T>, y: seq<T>, q: seq<T>, f: seq<T>)
    ensures p + y + q + f == p + (y + q + f)
  {
  }

  lemma DropEmpty<T>(p: seq<T>)
    ensures p + [] == p
  {
  }

  /** Digits, a decimal point and digits again are all kept by the stripping regex. */
  lemma NumericFraction(y: string, fraction: string)
    requires AllDigits(y) && AllDigits(fraction)
    ensures AllNumeric(y + "." + fraction)
  {
    var tail := y + "." + fraction;
    forall i | 0 <= i < |tail| ensures IsNumeric(tail[i]) {
      if i < |y| { assert tail[i] == y[i]; }
      else if i > |y| { assert tail[i] == fraction[i - |y| - 1]; }
    }
  }

  /**
   * A currency caption, one thousands separator and a fraction:
   * `"$1,234.50"` is 1234.50 and `"credits: $99,999.99"` is 99999.99.
   */
  lemma CurrencyAmount(caption: string, x: string, y: string, fraction: string)
    requires forall i :: 0 <= i < |caption| ==> !IsNumeric(caption[i])
    requires AllDigits(x) && AllDigits(y) && AllDigits(fraction) && |x| > 0
    requires AllDigits(x + y) && DigitsValue(x + y) <= DecimalMax
    ensures AllDigits(x + y + fraction)
    ensures RawTextToDecimal(caption + x + "," + y + "." + fraction) ==
      Ok(Decimal(DigitsValue(x + y + fraction), |fraction|))
    ensures RawTextToDecimalNullable(caption + x + "," + y + "." + fraction) ==
      Ok(Some(Decimal(DigitsValue(x + y + fraction), |fraction|)))
  {
    var t := caption + x + "," + y + "." + fraction;
    StripCurrency(caption, x, y, fraction);
    DecimalWithPoint(x + y, fraction);
    assert t[|caption|] == x[0];
    DigitNotMarker(t, |caption|);
  }

  /** A unit after the digits is dropped (`"12kg"` and `"1 standard"` are 12 and 1), by either decimal parser. */
  lemma NumberWithUnit(digits: string, unit: string)
    requires forall i :: 0 <= i < |unit| ==> !IsNumeric(unit[i])
    requires |digits| > 0 && AllDigits(digits) && DigitsValue(digits) <= DecimalMax
    ensures RawTextToDecimal(digits + unit) == Ok(Decimal(DigitsValue(digits), 0))
    ensures RawTextToDecimalNullable(digits + unit) == Ok(Some(Decimal(DigitsValue(digits), 0)))
  {
    assert (digits + unit)[0] == digits[0];
    DigitNotMarker(digits + unit, 0);
    RemoveNonNumericsConcat(digits, unit);
    RemoveNonNumericsDrops(unit);
    RemoveNonNumericsKeeps(digits);
    assert RemoveNonNumerics(digits + unit) == digits;
    DecimalWithoutPoint(digits);
  }

  /** `ulong.Parse` reaches past `int.MaxValue`: 2^53 parses, where the int parser would overflow. */
  lemma UlongPastInt32(n: nat)
    requires Int32Max < n <= UInt64Max
    ensures RawTextToUlongNullable(NatToString(n)) == Ok(Some(n))
    ensures RawTextToIntNullable(NatToString(n)) == Err(OverflowException)
  {
    var s := NatToString(n);
    DigitsOfNatToString(n);
    RemoveNonNumericsKeeps(s);
    DigitNotMarker(s, 0);
    ParseDigits(s);
  }
}
