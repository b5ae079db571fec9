/**
 * `StarWarsClient/src/utils/DataTableCellFormat.ts`: cell formatters and the
 * header text of a column.  Locale-dependent number and date rendering is
 * passed in as functions; what the model fixes is the type guards, the
 * date-pattern substitution and the header transformation.
 */
module DataTableCellFormat {
  import opened Wrappers
  import opened Js
  import opened Strings

  /** `RowData`. */
  type RowData = Record

  /** `formatNumber`: `toLocaleString` with at most `decimals` fraction digits (0 when not given), then the suffix (`''` when not given). */
  function FormatNumber(row: RowData, prop: string, decimals: Option<int>, suffix: Option<string>,
                        toLocale: (Number, int) -> string): (r: string)
    ensures !IsNumber(Prop(row, prop)) ==> r == ""
    ensures IsNumber(Prop(row, prop)) ==> r == toLocale(Prop(row, prop).n, decimals.GetOr(0)) + suffix.GetOr("")
  {
    var value := Prop(row, prop);
    if value.Num? then toLocale(value.n, decimals.GetOr(0)) + suffix.GetOr("") else ""
  }

  /** `formatDateAsLocal`: `toLocaleDateString` of a Date, `''` otherwise. */
  function FormatDateAsLocal(row: RowData, prop: string, toLocaleDate: JsDate -> string): (r: string)
    ensures !Prop(row, prop).DateV? ==> r == ""
    ensures Prop(row, prop).DateV? ==> r == toLocaleDate(Prop(row, prop).d)
  {
    var value := Prop(row, prop);
    if value.DateV? then toLocaleDate(value.d) else ""
  }

  /** `formatPercentage`: `toFixed(decimals)` and a percent sign; `decimals` defaults to 1 when not given. */
  function FormatPercentage(row: RowData, prop: string, decimals: Option<int>, toFixed: (Number, int) -> string): (r: string)
    ensures !IsNumber(Prop(row, prop)) ==> r == ""
    ensures IsNumber(Prop(row, prop)) ==> r == toFixed(Prop(row, prop).n, decimals.GetOr(1)) + "%"
    ensures IsNumber(Prop(row, prop)) ==> |r| > 0 && r[|r| - 1] == '%'
  {
    var value := Prop(row, prop);
    if value.Num? then toFixed(value.n, decimals.GetOr(1)) + "%" else ""
  }

  /** `formatCurrency`: `toLocaleString` in currency style; the currency code defaults to `USD` when not given. */
  function FormatCurrency(row: RowData, prop: string, currency: Option<string>,
                          toCurrency: (Number, string) -> string): (r: string)
    ensures !IsNumber(Prop(row, prop)) ==> r == ""
    ensures IsNumber(Prop(row, prop)) ==> r == toCurrency(Prop(row, prop).n, currency.GetOr("USD"))
  {
    var value := Prop(row, prop);
    if value.Num? then toCurrency(value.n, currency.GetOr("USD")) else ""
  }

  const DefaultPattern: string := "yyyy-MM-dd HH:mm:ss"

  /** `n.toString()` of a getter result: an Invalid Date's getters give NaN. */
  function NumberText(n: Option<int>): string {
    match n
    case Some(x) => IntToString(x)
    case None => "NaN"
  }

  /** `.toString().padStart(2, '0')` of a getter result. */
  function TwoDigits(n: Option<int>): string {
    PadStart(NumberText(n), 2, '0')
  }

  function Year(d: JsDate): Option<int> { if d.ValidDate? then Some(d.year) else None }
  /** `getMonth() + 1`. */
  function Month(d: JsDate): Option<int> { if d.ValidDate? then Some(d.month0 + 1) else None }
  function Day(d: JsDate): Option<int> { if d.ValidDate? then Some(d.day) else None }
  function Hours(d: JsDate): Option<int> { if d.ValidDate? then Some(d.hours) else None }
  function Minutes(d: JsDate): Option<int> { if d.ValidDate? then Some(d.minutes) else None }
  function Seconds(d: JsDate): Option<int> { if d.ValidDate? then Some(d.seconds) else None }

  /** The chain of first-occurrence replacements, in the order yyyy, MM, dd, HH, mm, ss. */
  function ApplyPattern(d: JsDate, format: string): string {
    var s1 := ReplaceFirst(format, "yyyy", NumberText(Year(d)));
    var s2 := ReplaceFirst(s1, "MM", TwoDigits(Month(d)));
    var s3 := ReplaceFirst(s2, "dd", TwoDigits(Day(d)));
    var s4 := ReplaceFirst(s3, "HH", TwoDigits(Hours(d)));
    var s5 := ReplaceFirst(s4, "mm", TwoDigits(Minutes(d)));
    ReplaceFirst(s5, "ss", TwoDigits(Seconds(d)))
  }

  /** `formatDateCustom`. */
  function FormatDateCustom(row: RowData, prop: string, format: string): (r: string)
    ensures !Prop(row, prop).DateV? ==> r == ""
    ensures Prop(row, prop).DateV? ==> r == ApplyPattern(Prop(row, prop).d, format)
  {
    var value := Prop(row, prop);
    if !value.DateV? then "" else ApplyPattern(value.d, format)
  }

  /** The replacement chain with the six replacement texts given. */
  function ApplyTexts(format: string, y: string, mo: string, da: string, h: string, mi: string, se: string): string {
    var s1 := ReplaceFirst(format, "yyyy", y);
    var s2 := ReplaceFirst(s1, "MM", mo);
    var s3 := ReplaceFirst(s2, "dd", da);
    var s4 := ReplaceFirst(s3, "HH", h);
    var s5 := ReplaceFirst(s4, "mm", mi);
    ReplaceFirst(s5, "ss", se)
  }

  lemma ApplyPatternTexts(d: JsDate, format: string)
    ensures ApplyPattern(d, format) ==
      ApplyTexts(format, NumberText(Year(d)), TwoDigits(Month(d)), TwoDigits(Day(d)),
                 TwoDigits(Hours(d)), TwoDigits(Minutes(d)), TwoDigits(Seconds(d)))
  {
  }

  /** A step of the chain: `pat` follows a plain prefix, which cannot hold its first letter. */
  lemma PlainStep(a: string, pat: string, b: string, rep: string)
    requires PlainText(a) && |pat| > 0 && pat[0] in "yMdHms"
    ensures ReplaceFirst(a + pat + b, pat, rep) == a + rep + b
  {
    PlainNoLetter(a, pat[0]);
    ReplaceFirstAfter(a, pat, b, rep);
  }

  /** The default pattern as its tokens and separators. */
  lemma DefaultPatternPieces()
    ensures DefaultPattern == "" + ("yyyy" + ("-" + ("MM" + ("-" + ("dd" + (" " + ("HH" + (":" + ("mm" + (":" + ("ss" + "")))))))))))
  {
  }

  /**
   * A step of the chain when the next token follows a plain prefix `a`: the
   * result is again a plain prefix followed by the next token.
   */
  lemma ChainStep(a: string, pat: string, rep: string, sep: string, rest: string)
    requires PlainText(a) && PlainText(rep) && PlainText(sep) && |pat| > 0 && pat[0] in "yMdHms"
    ensures ReplaceFirst(a + (pat + (sep + rest)), pat, rep) == (a + rep + sep) + rest
    ensures PlainText(a + rep + sep)
  {
    Regroup(a, pat, sep + rest);
    PlainStep(a, pat, sep + rest, rep);
    PlainConcat(a, rep);
    PlainConcat(a + rep, sep);
  }

  lemma Regroup(a: string, b: string, c: string)
    ensures a + (b + c) == a + b + c
  {
  }

  lemma {:induction false} DefaultTextsLayout(y: string, mo: string, da: string, h: string, mi: string, se: string)
    requires PlainText(y) && PlainText(mo) && PlainText(da) && PlainText(h) && PlainText(mi)
    ensures ApplyTexts(DefaultPattern, y, mo, da, h, mi, se) ==
      y + "-" + mo + "-" + da + " " + h + ":" + mi + ":" + se
  {
    var t5 := "ss" + "";
    var t4 := "mm" + (":" + t5);
    var t3 := "HH" + (":" + t4);
    var t2 := "dd" + (" " + t3);
    var t1 := "MM" + ("-" + t2);
    DefaultPatternPieces();
    assert DefaultPattern == "" + ("yyyy" + ("-" + t1));
    var a1 := "";
    ChainStep(a1, "yyyy", y, "-", t1);
    var a2 := a1 + y + "-";
    ChainStep(a2, "MM", mo, "-", t2);
    var a3 := a2 + mo + "-";
    ChainStep(a3, "dd", da, " ", t3);
    var a4 := a3 + da + " ";
    ChainStep(a4, "HH", h, ":", t4);
    var a5 := a4 + h + ":";
    ChainStep(a5, "mm", mi, ":", t5);
    var a6 := a5 + mi + ":";
    assert a6 + t5 == a6 + "ss" + "";
    PlainStep(a6, "ss", "", se);
    var s1 := ReplaceFirst(DefaultPattern, "yyyy", y);
    assert s1 == a2 + t1;
    var s2 := ReplaceFirst(s1, "MM", mo);
    assert s2 == a3 + t2;
    var s3 := ReplaceFirst(s2, "dd", da);
    assert s3 == a4 + t3;
    var s4 := ReplaceFirst(s3, "HH", h);
    assert s4 == a5 + t4;
    var s5 := ReplaceFirst(s4, "mm", mi);
    assert s5 == a6 + t5;
    assert ApplyTexts(DefaultPattern, y, mo, da, h, mi, se) == a6 + se + "";
    LayoutConcat(y, mo, da, h, mi, se);
  }

  lemma LayoutConcat(y: string, mo: string, da: string, h: string, mi: string, se: string)
    ensures ((((("" + y + "-") + mo + "-") + da + " ") + h + ":") + mi + ":") + se + "" ==
      y + "-" + mo + "-" + da + " " + h + ":" + mi + ":" + se
  {
  }

  /**
   * With the default pattern the output is year, month, day, hours, minutes
   * and seconds in that layout, for every Date, valid or not; month to
   * seconds are padded to two characters and the year is not padded.
   */
  lemma DefaultPatternLayout(d: JsDate)
    ensures ApplyPattern(d, DefaultPattern) ==
      NumberText(Year(d)) + "-" + TwoDigits(Month(d)) + "-" + TwoDigits(Day(d)) + " " +
      TwoDigits(Hours(d)) + ":" + TwoDigits(Minutes(d)) + ":" + TwoDigits(Seconds(d))
  {
    NumberTextPlain(Year(d));
    NumberTextPlain(Month(d));
    NumberTextPlain(Day(d));
    NumberTextPlain(Hours(d));
    NumberTextPlain(Minutes(d));
    ApplyPatternTexts(d, DefaultPattern);
    DefaultTextsLayout(NumberText(Year(d)), TwoDigits(Month(d)), TwoDigits(Day(d)),
                       TwoDigits(Hours(d)), TwoDigits(Minutes(d)), TwoDigits(Seconds(d)));
  }

  /** Plain text: digits, `-`, space, `:` and the letters of `NaN`; no letter of a date token. */
  predicate PlainText(s: string) {
    forall i :: 0 <= i < |s| ==> IsDigit(s[i]) || s[i] in "-: Na"
  }

  lemma NumberTextPlain(n: Option<int>)
    ensures PlainText(NumberText(n))
    ensures PlainText(TwoDigits(n))
  {
    var t := NumberText(n);
    if n.Some? && n.value < 0 {
      assert t == "-" + NatToString(-n.value);
      forall i | 1 <= i < |t| ensures IsDigit(t[i]) {
        assert t[i] == t[1..][i - 1];
      }
    }
    var p := TwoDigits(n);
    if |t| < 2 {
      forall i | 0 <= i < |p| ensures IsDigit(p[i]) || p[i] in "-: Na" {
        if i >= 2 - |t| {
          assert p[i] == p[2 - |t|..][i - (2 - |t|)];
        }
      }
    }
  }

  lemma PlainConcat(a: string, b: string)
    requires PlainText(a) && PlainText(b)
    ensures PlainText(a + b)
  {
    assert forall i :: |a| <= i < |a + b| ==> (a + b)[i] == b[i - |a|];
  }

  lemma PlainNoLetter(a: string, c: char)
    requires PlainText(a) && c in "yMdHms"
    ensures c !in a
  {
  }

  lemma ExampleTexts(d: JsDate)
    requires d == ValidDate(2024, 2, 1, 10, 15, 0)
    ensures NumberText(Year(d)) == "2024"
    ensures TwoDigits(Month(d)) == "03" && TwoDigits(Day(d)) == "01" && TwoDigits(Hours(d)) == "10"
    ensures TwoDigits(Minutes(d)) == "15" && TwoDigits(Seconds(d)) == "00"
  {
    assert NatToString(2) == "2";
    assert NatToString(20) == "20";
    assert NatToString(202) == "202";
    assert NatToString(2024) == "2024";
    assert NumberText(Some(3)) == "3";
    assert NumberText(Some(1)) == "1";
    assert NatToString(10) == "10";
    assert NatToString(15) == "15";
    assert NumberText(Some(0)) == "0";
  }

  lemma LayoutLiteral(y: string, mo: string, da: string, h: string, mi: string, se: string)
    requires y == "2024" && mo == "03" && da == "01" && h == "10" && mi == "15" && se == "00"
    ensures y + "-" + mo + "-" + da + " " + h + ":" + mi + ":" + se == "2024-03-01 10:15:00"
  {
  }

  /** 1 March 2024, 10:15:00 local time renders as `2024-03-01 10:15:00`. */
  lemma DefaultPatternExample(d: JsDate)
    requires d == ValidDate(2024, 2, 1, 10, 15, 0)
    ensures ApplyPattern(d, DefaultPattern) == "2024-03-01 10:15:00"
  {
    DefaultPatternLayout(d);
    ExampleTexts(d);
    LayoutLiteral(NumberText(Year(d)), TwoDigits(Month(d)), TwoDigits(Day(d)),
                  TwoDigits(Hours(d)), TwoDigits(Minutes(d)), TwoDigits(Seconds(d)));
  }

  lemma NaNLayout(y: string, mo: string, da: string, h: string, mi: string, se: string)
    requires y == "NaN" && mo == "NaN" && da == "NaN" && h == "NaN" && mi == "NaN" && se == "NaN"
    ensures y + "-" + mo + "-" + da + " " + h + ":" + mi + ":" + se == "NaN-NaN-NaN NaN:NaN:NaN"
  {
  }

  /** An Invalid Date renders every component as `NaN`. */
  lemma InvalidDateExample(d: JsDate)
    requires d == InvalidDate
    ensures ApplyPattern(d, DefaultPattern) == "NaN-NaN-NaN NaN:NaN:NaN"
  {
    DefaultPatternLayout(d);
    assert TwoDigits(None) == "NaN";
    NaNLayout(NumberText(Year(d)), TwoDigits(Month(d)), TwoDigits(Day(d)),
              TwoDigits(Hours(d)), TwoDigits(Minutes(d)), TwoDigits(Seconds(d)));
  }

  /** A pattern with no token in it is returned as it is. */
  lemma TokenFreePattern(d: JsDate, format: string)
    requires forall i :: !IsAt(format, "yyyy", i)
    requires forall i :: !IsAt(format, "MM", i)
    requires forall i :: !IsAt(format, "dd", i)
    requires forall i :: !IsAt(format, "HH", i)
    requires forall i :: !IsAt(format, "mm", i)
    requires forall i :: !IsAt(format, "ss", i)
    ensures ApplyPattern(d, format) == format
  {
  }

  lemma RepeatedDayTexts(y: string, mo: string, da: string, h: string, mi: string, se: string)
    requires PlainText(da)
    ensures ApplyTexts("dd/dd", y, mo, da, h, mi, se) == da + "/dd"
  {
    var f := "dd/dd";
    TokenAbsent(f, "yyyy", y);
    TokenAbsent(f, "MM", mo);
    SecondDayKept(da);
    var s := da + "/dd";
    assert 'H' !in s && 'm' !in s && 's' !in s by {
      PlainNoLetter(da, 'H');
      PlainNoLetter(da, 'm');
      PlainNoLetter(da, 's');
      assert forall c :: c in s ==> c in da || c == '/' || c == 'd';
    }
    TokenAbsent(s, "HH", h);
    TokenAbsent(s, "mm", mi);
    TokenAbsent(s, "ss", se);
  }

  /** The first `dd` of `dd/dd` is the one replaced. */
  lemma SecondDayKept(da: string)
    ensures ReplaceFirst("dd/dd", "dd", da) == da + "/dd"
  {
    assert "dd/dd" == "" + "dd" + "/dd";
    ReplaceFirstAfter("", "dd", "/dd", da);
    assert "" + da + "/dd" == da + "/dd";
  }

  /** A token whose first letter does not occur is not replaced. */
  lemma TokenAbsent(s: string, pat: string, rep: string)
    requires |pat| > 0 && pat[0] !in s
    ensures ReplaceFirst(s, pat, rep) == s
  {
    AbsentFirstChar(s, pat);
  }

  /** Only the first occurrence of a token is replaced: `dd/dd` keeps its second `dd`. */
  lemma OnlyFirstOccurrence(d: JsDate)
    ensures ApplyPattern(d, "dd/dd") == TwoDigits(Day(d)) + "/dd"
  {
    NumberTextPlain(Day(d));
    ApplyPatternTexts(d, "dd/dd");
    RepeatedDayTexts(NumberText(Year(d)), TwoDigits(Month(d)), TwoDigits(Day(d)),
                     TwoDigits(Hours(d)), TwoDigits(Minutes(d)), TwoDigits(Seconds(d)));
  }

  lemma AbsentFirstChar(s: string, pat: string)
    requires |pat| > 0 && pat[0] !in s
    ensures forall i :: !IsAt(s, pat, i)
  {
    forall i ensures !IsAt(s, pat, i) {
      if 0 <= i && i + |pat| <= |s| {
        assert s[i..i + |pat|][0] == s[i];
      }
    }
  }

  /** `formatHeaderText`: `split('_')`, capitalise each piece, `join(' ')`. */
  function FormatHeaderText(field: string): string {
    Join(CapitalizeAll(Split(field, '_')), ' ')
  }

  function CapitalizeAll(parts: seq<string>): (r: seq<string>)
    ensures |r| == |parts|
    ensures forall i :: 0 <= i < |parts| ==> r[i] == Capitalize(parts[i])
  {
    seq(|parts|, i requires 0 <= i < |parts| => Capitalize(parts[i]))
  }

  /** The pieces as the header maps them when the first one is capitalised only if `cap`. */
  function CapitalizeRest(parts: seq<string>, cap: bool): seq<string> {
    if |parts| == 0 then []
    else [if cap then Capitalize(parts[0]) else parts[0]] + CapitalizeAll(parts[1..])
  }

  /**
   * The header character by character: `_` becomes a space, a character right
   * after `_` (or the first one when `cap`) is upper-cased, the rest is kept.
   */
  function HeaderChars(s: string, cap: bool): (r: string)
    ensures |r| == |s|
    decreases |s|
  {
    if |s| == 0 then ""
    else if s[0] == '_' then " " + HeaderChars(s[1..], true)
    else [if cap then AsciiUpper(s[0]) else s[0]] + HeaderChars(s[1..], false)
  }

  lemma {:induction false} HeaderOfPieces(s: string, cap: bool)
    ensures Join(CapitalizeRest(Split(s, '_'), cap), ' ') == HeaderChars(s, cap)
    decreases |s|
  {
    if |s| > 0 {
      if s[0] == '_' {
        HeaderOfPieces(s[1..], true);
        HeaderAfterSeparator(s, cap);
      } else {
        HeaderOfPieces(s[1..], false);
        HeaderInsideWord(s, cap);
      }
    }
  }

  /** A leading `_` opens an empty piece and makes the next character word-initial. */
  lemma HeaderAfterSeparator(s: string, cap: bool)
    requires |s| > 0 && s[0] == '_'
    requires Join(CapitalizeRest(Split(s[1..], '_'), true), ' ') == HeaderChars(s[1..], true)
    ensures Join(CapitalizeRest(Split(s, '_'), cap), ' ') == HeaderChars(s, cap)
  {
    var rest := Split(s[1..], '_');
    assert Split(s, '_') == [""] + rest;
    EmptyPieceFirst(rest, cap);
    CapitalizeAllFirst(rest);
    var q := [""] + CapitalizeAll(rest);
    assert q[1..] == CapitalizeAll(rest);
  }

  lemma EmptyPieceFirst(rest: seq<string>, cap: bool)
    ensures CapitalizeRest([""] + rest, cap) == [""] + CapitalizeAll(rest)
  {
    assert ([""] + rest)[1..] == rest;
  }

  /** Capitalising the first piece too is capitalising all of them. */
  lemma CapitalizeAllFirst(parts: seq<string>)
    requires |parts| > 0
    ensures CapitalizeRest(parts, true) == CapitalizeAll(parts)
  {
  }

  /** Any other leading character joins the first piece, upper-cased only when `cap`. */
  lemma HeaderInsideWord(s: string, cap: bool)
    requires |s| > 0 && s[0] != '_'
    requires Join(CapitalizeRest(Split(s[1..], '_'), false), ' ') == HeaderChars(s[1..], false)
    ensures Join(CapitalizeRest(Split(s, '_'), cap), ' ') == HeaderChars(s, cap)
  {
    var rest := Split(s[1..], '_');
    var first := [s[0]] + rest[0];
    assert Split(s, '_') == [first] + rest[1..];
    var g := if cap then AsciiUpper(s[0]) else s[0];
    var q := CapitalizeRest([first] + rest[1..], cap);
    assert (if cap then Capitalize(first) else first) == [g] + rest[0];
    assert CapitalizeAll(rest[1..]) == CapitalizeRest(rest, false)[1..];
    assert q == [[g] + CapitalizeRest(rest, false)[0]] + CapitalizeRest(rest, false)[1..];
    JoinHead(g, CapitalizeRest(rest, false), ' ');
  }

  /** The header equals the character-by-character description. */
  lemma FormatHeaderTextChars(field: string)
    ensures FormatHeaderText(field) == HeaderChars(field, true)
  {
    var parts := Split(field, '_');
    HeaderOfPieces(field, true);
    CapitalizeAllFirst(parts);
  }

  lemma {:induction false} HeaderCharsAt(s: string, cap: bool, i: nat)
    requires i < |s|
    ensures HeaderChars(s, cap)[i] ==
      if s[i] == '_' then ' '
      else if (i == 0 && cap) || (i > 0 && s[i - 1] == '_') then AsciiUpper(s[i])
      else s[i]
    decreases |s|
  {
    if i > 0 {
      HeaderCharsAt(s[1..], s[0] == '_', i - 1);
    }
  }

  /**
   * `formatHeaderText` keeps the length; every `_` becomes a space at the
   * same position; only a word-initial character changes, to its upper case.
   */
  lemma HeaderTextPointwise(field: string)
    ensures |FormatHeaderText(field)| == |field|
    ensures forall i :: 0 <= i < |field| ==> FormatHeaderText(field)[i] == HeaderCharAt(field, i)
  {
    FormatHeaderTextChars(field);
    forall i | 0 <= i < |field| ensures FormatHeaderText(field)[i] == HeaderCharAt(field, i) {
      HeaderCharsAt(field, true, i);
    }
  }

  /** Position `i` of the header: `_` becomes a space, a word-initial character is upper-cased, the rest is kept. */
  function HeaderCharAt(field: string, i: nat): char
    requires i < |field|
  {
    if field[i] == '_' then ' '
    else if i == 0 || field[i - 1] == '_' then AsciiUpper(field[i])
    else field[i]
  }

  lemma {:induction false} SplitWithoutSeparator(s: string, c: char)
    requires c !in s
    ensures Split(s, c) == [s]
    decreases |s|
  {
    if |s| > 0 {
      SplitWithoutSeparator(s[1..], c);
      assert s == [s[0]] + s[1..];
    }
  }

  /** `formatHeaderText` is idempotent. */
  lemma HeaderTextIdempotent(field: string)
    ensures FormatHeaderText(FormatHeaderText(field)) == FormatHeaderText(field)
  {
    var h := FormatHeaderText(field);
    HeaderTextPointwise(field);
    assert '_' !in h by {
      forall i | 0 <= i < |h| ensures h[i] != '_' {
        assert h[i] == HeaderCharAt(field, i);
      }
    }
    SplitWithoutSeparator(h, '_');
    assert CapitalizeAll([h]) == [Capitalize(h)];
    if |h| > 0 {
      assert Capitalize(h) == h;
    }
  }

  /** The header of `cost_in_credits` is `Cost In Credits`. */
  lemma HeaderTextExample(field: string)
    requires field == "cost_in_credits"
    ensures FormatHeaderText(field) == "Cost In Credits"
  {
    var w1, w2, w3 := "cost", "in", "credits";
    assert field == w1 + ['_'] + w2 + ['_'] + w3;
    HeaderOfThreeWords(w1, w2, w3);
    CapitalizedWords(w1, w2, w3);
    HeaderLiteral("Cost", "In", "Credits");
  }

  lemma CapitalizedWords(w1: string, w2: string, w3: string)
    requires w1 == "cost" && w2 == "in" && w3 == "credits"
    ensures Capitalize(w1) == "Cost" && Capitalize(w2) == "In" && Capitalize(w3) == "Credits"
  {
    assert AsciiUpper('c') == 'C' && AsciiUpper('i') == 'I';
    assert w1[1..] == "ost" && w2[1..] == "n" && w3[1..] == "redits";
  }

  lemma HeaderLiteral(c1: string, c2: string, c3: string)
    requires c1 == "Cost" && c2 == "In" && c3 == "Credits"
    ensures c1 + [' '] + c2 + [' '] + c3 == "Cost In Credits"
  {
  }

  /** Three `_`-separated words become their capitalised forms joined by spaces. */
  lemma HeaderOfThreeWords(w1: string, w2: string, w3: string)
    requires '_' !in w1 && '_' !in w2 && '_' !in w3
    ensures FormatHeaderText(w1 + ['_'] + w2 + ['_'] + w3) ==
      Capitalize(w1) + [' '] + Capitalize(w2) + [' '] + Capitalize(w3)
  {
    var field := w1 + ['_'] + w2 + ['_'] + w3;
    assert field == w1 + ['_'] + (w2 + ['_'] + w3);
    SplitAtSeparator(w1, '_', w2 + ['_'] + w3);
    SplitAtSeparator(w2, '_', w3);
    SplitWithoutSeparator(w3, '_');
    assert Split(field, '_') == [w1, w2, w3];
    var caps := CapitalizeAll([w1, w2, w3]);
    assert caps == [Capitalize(w1), Capitalize(w2), Capitalize(w3)];
    JoinThree(Capitalize(w1), Capitalize(w2), Capitalize(w3), ' ');
  }

  lemma JoinThree(a: string, b: string, c: string, sep: char)
    ensures Join([a, b, c], sep) == a + [sep] + b + [sep] + c
  {
    assert [a, b, c][1..] == [b, c];
    assert [b, c][1..] == [c];
    assert Join([c], sep) == c;
    assert Join([b, c], sep) == b + [sep] + c;
    assert a + [sep] + (b + [sep] + c) == a + [sep] + b + [sep] + c;
  }

  /** A separator after a piece without one ends that piece. */
  lemma {:induction false} SplitAtSeparator(a: string, c: char, rest: string)
    requires c !in a
    ensures Split(a + [c] + rest, c) == [a] + Split(rest, c)
    decreases |a|
  {
    var s := a + [c] + rest;
    if |a| == 0 {
      assert s[1..] == rest;
    } else {
      assert s[1..] == a[1..] + [c] + rest;
      SplitAtSeparator(a[1..], c, rest);
      assert [a[0]] + a[1..] == a;
    }
  }
}
