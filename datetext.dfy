/** The two textual date forms of the application: the canonical form
    "YYYY-MM-DD" that `strftime("%Y-%m-%d")` writes and `strptime(s,
    "%Y-%m-%d")` reads, and the localized display form "YYYY年MM月DD日";
    the marker stripping that turns the second into the first; and
    `format_date_for_input`, the template filter built on them. */
module DateText {
  import opened Wrappers
  import opened Calendar

  const YearMarker := '年'
  const MonthMarker := '月'
  const DayMarker := '日'

  // ---------------------------------------------------------------- digits

  predicate IsDigit(c: char) {
    '0' <= c <= '9'
  }

  predicate AllDigits(s: string) {
    forall i :: 0 <= i < |s| ==> IsDigit(s[i])
  }

  function DigitValue(c: char): int
    requires IsDigit(c)
  {
    c as int - '0' as int
  }

  function DigitChar(n: int): (c: char)
    requires 0 <= n <= 9
    ensures IsDigit(c) && DigitValue(c) == n
  {
    ('0' as int + n) as char
  }

  /** The decimal value of a string of ASCII digits, as `int(s)` reads it. */
  function Value(s: string): int
    requires AllDigits(s)
  {
    if s == [] then 0 else Value(s[..|s| - 1]) * 10 + DigitValue(s[|s| - 1])
  }

  /** `n` written with exactly two digits, zero-padded. */
  function Pad2(n: int): (s: string)
    requires 0 <= n < 100
    ensures |s| == 2 && AllDigits(s) && Value(s) == n
  {
    var s := [DigitChar(n / 10), DigitChar(n % 10)];
    ValueOfTwo(s);
    s
  }

  /** `n` written with exactly four digits, zero-padded. */
  function Pad4(n: int): (s: string)
    requires 0 <= n < 10000
    ensures |s| == 4 && AllDigits(s) && Value(s) == n
  {
    var hi := Pad2(n / 100);
    var lo := Pad2(n % 100);
    var s := hi + lo;
    ValueAppendTwo(hi, lo);
    s
  }

  // ---------------------------------------------------------------- formatting

  /** `date.strftime("%Y-%m-%d")`. */
  function Format(d: Date): string
    requires ValidDate(d)
  {
    Pad4(d.year) + "-" + Pad2(d.month) + "-" + Pad2(d.day)
  }

  /** Year, month and day texts written with the three markers. */
  function Localized(y: string, m: string, d: string): string {
    y + ([YearMarker] + (m + ([MonthMarker] + (d + [DayMarker]))))
  }

  /** `date.strftime("%Y年%m月%d日")`. */
  function Display(d: Date): string
    requires ValidDate(d)
  {
    Localized(Pad4(d.year), Pad2(d.month), Pad2(d.day))
  }

  // ---------------------------------------------------------------- splitting and stripping

  /** Python's `s.split(sep)`: the pieces between occurrences of `sep`. */
  function Split(s: string, sep: char): (parts: seq<string>)
    ensures |parts| >= 1
  {
    if s == [] then [""]
    else
      var rest := Split(s[1..], sep);
      if s[0] == sep then [""] + rest else [[s[0]] + rest[0]] + rest[1..]
  }

  /** `s.replace('年', '-').replace('月', '-').replace('日', '')`, which the
      source writes out at each place it accepts the localized form. */
  function StripMarkers(s: string): string {
    if s == [] then []
    else
      var c := s[0];
      (if c == YearMarker || c == MonthMarker then "-" else if c == DayMarker then "" else [c])
      + StripMarkers(s[1..])
  }

  // ---------------------------------------------------------------- parsing

  /** The text `%Y` accepts: exactly four digits. */
  predicate IsYearField(s: string) {
    |s| == 4 && AllDigits(s)
  }

  /** The text `%m` accepts: 1-9, 01-09 or 10-12. */
  predicate IsMonthField(s: string) {
    (|s| == 1 && '1' <= s[0] <= '9')
    || (|s| == 2 && s[0] == '0' && '1' <= s[1] <= '9')
    || (|s| == 2 && s[0] == '1' && '0' <= s[1] <= '2')
  }

  /** The text `%d` accepts: 1-9, 01-09, 10-29, 30, 31 or a space and 1-9. */
  predicate IsDayField(s: string) {
    (|s| == 1 && '1' <= s[0] <= '9')
    || (|s| == 2 && s[0] == '0' && '1' <= s[1] <= '9')
    || (|s| == 2 && (s[0] == '1' || s[0] == '2') && IsDigit(s[1]))
    || (|s| == 2 && s[0] == '3' && (s[1] == '0' || s[1] == '1'))
    || (|s| == 2 && s[0] == ' ' && '1' <= s[1] <= '9')
  }

  function MonthFieldValue(s: string): (m: int)
    requires IsMonthField(s)
    ensures 1 <= m <= 12
  {
    if |s| == 1 then DigitValue(s[0]) else 10 * DigitValue(s[0]) + DigitValue(s[1])
  }

  function DayFieldValue(s: string): (d: int)
    requires IsDayField(s)
    ensures 1 <= d <= 31
  {
    if |s| == 1 then DigitValue(s[0])
    else if s[0] == ' ' then DigitValue(s[1])
    else 10 * DigitValue(s[0]) + DigitValue(s[1])
  }

  /** `datetime.strptime(s, "%Y-%m-%d")`: `None` where it raises ValueError.
      The three fields hold no '-', so the format's pattern matches exactly
      when `s` splits into three fields of the accepted shapes; the date
      must then exist (year 0 and day 30 of February are refused). */
  function Strptime(s: string): (r: Option<Date>)
    ensures r.Some? ==> ValidDate(r.value)
  {
    var parts := Split(s, '-');
    if |parts| == 3 && IsYearField(parts[0]) && IsMonthField(parts[1]) && IsDayField(parts[2]) then
      var y, m, d := Value(parts[0]), MonthFieldValue(parts[1]), DayFieldValue(parts[2]);
      ValueBound(parts[0]);
      if y >= MinYear && d <= DaysInMonth(y, m) then Some(Date(y, m, d)) else None
    else None
  }

  /** The parse used wherever the source accepts either form: strip the
      markers if the year marker occurs, then `strptime`. */
  function ParseEither(s: string): (r: Option<Date>)
    ensures r.Some? ==> ValidDate(r.value)
  {
    Strptime(if YearMarker in s then StripMarkers(s) else s)
  }

  // ---------------------------------------------------------------- format_date_for_input

  function Zeros(n: nat): (s: string)
    ensures |s| == n && forall i :: 0 <= i < n ==> s[i] == '0'
  {
    if n == 0 then "" else "0" + Zeros(n - 1)
  }

  /** Python's `s.zfill(width)`: pad with zeros on the left, after a leading sign. */
  function ZFill(s: string, width: nat): (r: string)
    ensures |r| == if |s| >= width then |s| else width
  {
    if |s| >= width then s
    else if |s| > 0 && (s[0] == '+' || s[0] == '-') then [s[0]] + Zeros(width - |s|) + s[1..]
    else Zeros(width - |s|) + s
  }

  /** `format_date_for_input`: the localized form is rewritten without any
      calendar check; any other text is returned only if it parses. */
  function FormatDateForInput(s: string): string {
    if s == "" then ""
    else if YearMarker in s then
      var parts := Split(StripMarkers(s), '-');
      if |parts| == 3 then parts[0] + "-" + ZFill(parts[1], 2) + "-" + ZFill(parts[2], 2) else ""
    else if Strptime(s).Some? then s
    else ""
  }

  // ---------------------------------------------------------------- lemmas

  function Pow10(n: nat): (p: int)
    ensures p >= 1
  {
    if n == 0 then 1 else 10 * Pow10(n - 1)
  }

  lemma {:induction false} ValueBound(s: string)
    requires AllDigits(s)
    ensures 0 <= Value(s) < Pow10(|s|)
  {
    if s != [] {
      ValueBound(s[..|s| - 1]);
    }
  }

  lemma ValueOfTwo(s: string)
    requires |s| == 2 && AllDigits(s)
    ensures Value(s) == 10 * DigitValue(s[0]) + DigitValue(s[1])
  {
    var t := s[..1];
    assert t[..|t| - 1] == [];
    assert Value(t) == DigitValue(s[0]);
  }

  lemma ValueAppendTwo(a: string, b: string)
    requires AllDigits(a) && |b| == 2 && AllDigits(b)
    ensures AllDigits(a + b) && Value(a + b) == Value(a) * 100 + Value(b)
  {
    var s := a + b;
    assert s[..|s| - 1][..|s| - 2] == a;
    assert s[..|s| - 1] == a + [b[0]];
    ValueOfTwo(b);
  }

  lemma {:induction false} SplitWithout(a: string, sep: char)
    requires sep !in a
    ensures Split(a, sep) == [a]
  {
    if a != [] {
      SplitWithout(a[1..], sep);
      assert [a[0]] + a[1..] == a;
    }
  }

  lemma {:induction false} SplitAfter(a: string, sep: char, rest: string)
    requires sep !in a
    ensures Split(a + [sep] + rest, sep) == [a] + Split(rest, sep)
  {
    if a == [] {
      assert a + [sep] + rest == [sep] + rest;
    } else {
      assert (a + [sep] + rest)[1..] == a[1..] + [sep] + rest;
      SplitAfter(a[1..], sep, rest);
      assert [a[0]] + a[1..] == a;
    }
  }

  /** `a-b-c` splits into its three fields when none of them holds a dash. */
  lemma SplitThree(a: string, b: string, c: string)
    requires '-' !in a && '-' !in b && '-' !in c
    ensures Split(a + "-" + b + "-" + c, '-') == [a, b, c]
  {
    assert a + "-" + b + "-" + c == a + ['-'] + (b + ['-'] + c);
    SplitAfter(a, '-', b + ['-'] + c);
    SplitAfter(b, '-', c);
    SplitWithout(c, '-');
  }

  /** Every character of `s` other than the separator lies in one of its pieces. */
  lemma {:induction false} SplitKeepsChars(s: string, sep: char, c: char)
    requires c in s && c != sep
    ensures exists i :: 0 <= i < |Split(s, sep)| && c in Split(s, sep)[i]
  {
    var rest := Split(s[1..], sep);
    if s[0] == c {
      assert c in Split(s, sep)[0];
    } else {
      assert c in s[1..];
      SplitKeepsChars(s[1..], sep, c);
      var i :| 0 <= i < |rest| && c in rest[i];
      if s[0] != sep && i == 0 {
        assert c in Split(s, sep)[0];
      } else if s[0] != sep {
        assert Split(s, sep)[i] == rest[i];
      } else {
        assert Split(s, sep)[i + 1] == rest[i];
      }
    }
  }

  lemma {:induction false} StripAppend(a: string, b: string)
    ensures StripMarkers(a + b) == StripMarkers(a) + StripMarkers(b)
  {
    if a == [] {
      assert a + b == b;
    } else {
      assert (a + b)[1..] == a[1..] + b;
      StripAppend(a[1..], b);
    }
  }

  lemma {:induction false} StripDigits(a: string)
    requires AllDigits(a)
    ensures StripMarkers(a) == a
  {
    if a != [] {
      StripDigits(a[1..]);
    }
  }

  /** A canonical date text reads back as the date it was written from. */
  lemma ParseFormat(d: Date)
    requires ValidDate(d)
    ensures Strptime(Format(d)) == Some(d)
  {
    var y, m, dd := Pad4(d.year), Pad2(d.month), Pad2(d.day);
    assert '-' !in y && '-' !in m && '-' !in dd by {
      assert forall s: string :: AllDigits(s) ==> '-' !in s;
    }
    SplitThree(y, m, dd);
    ValueOfTwo(m);
    ValueOfTwo(dd);
  }

  /** Stripping the markers from the display form gives the canonical form. */
  lemma StripDisplay(d: Date)
    requires ValidDate(d)
    ensures StripMarkers(Display(d)) == Format(d)
  {
    StripLocalized(Pad4(d.year), Pad2(d.month), Pad2(d.day));
  }

  /** Both forms of a date parse back to it under the either-form parse. */
  lemma ParseEitherForms(d: Date)
    requires ValidDate(d)
    ensures ParseEither(Format(d)) == Some(d)
    ensures ParseEither(Display(d)) == Some(d)
  {
    ParseFormat(d);
    StripDisplay(d);
    assert YearMarker in Display(d) by {
      assert Display(d)[4] == YearMarker;
    }
    assert YearMarker !in Format(d) by {
      assert forall s: string :: AllDigits(s) ==> YearMarker !in s;
    }
  }

  /** The input filter turns a display date into its canonical form. */
  lemma InputFromDisplay(d: Date)
    requires ValidDate(d)
    ensures FormatDateForInput(Display(d)) == Format(d)
  {
    StripDisplay(d);
    ParseFormat(d);
    assert Display(d)[4] == YearMarker;
    var y, m, dd := Pad4(d.year), Pad2(d.month), Pad2(d.day);
    assert '-' !in y && '-' !in m && '-' !in dd by {
      assert forall s: string :: AllDigits(s) ==> '-' !in s;
    }
    SplitThree(y, m, dd);
  }

  lemma StripMonthDay(m: string, d: string)
    requires AllDigits(m) && AllDigits(d)
    ensures StripMarkers(m + ([MonthMarker] + (d + [DayMarker]))) == m + "-" + d
  {
    StripAppend(d, [DayMarker]);
    StripDigits(d);
    StripAppend([MonthMarker], d + [DayMarker]);
    StripAppend(m, [MonthMarker] + (d + [DayMarker]));
    StripDigits(m);
  }

  /** Stripping the markers from digits written in the localized slots. */
  lemma StripLocalized(y: string, m: string, d: string)
    requires AllDigits(y) && AllDigits(m) && AllDigits(d)
    ensures StripMarkers(Localized(y, m, d)) == y + "-" + m + "-" + d
  {
    var t3 := m + ([MonthMarker] + (d + [DayMarker]));
    StripMonthDay(m, d);
    StripAppend([YearMarker], t3);
    StripAppend(y, [YearMarker] + t3);
    StripDigits(y);
  }

  /** The localized branch does no calendar check: any digits in the three
      slots come out dash-separated, month and day padded to two places. */
  lemma InputLocalizedUnchecked(y: string, m: string, d: string)
    requires AllDigits(y) && AllDigits(m) && AllDigits(d)
    ensures FormatDateForInput(Localized(y, m, d)) == y + "-" + ZFill(m, 2) + "-" + ZFill(d, 2)
  {
    assert Localized(y, m, d)[|y|] == YearMarker;
    StripLocalized(y, m, d);
    assert '-' !in y && '-' !in m && '-' !in d by {
      assert forall t: string :: AllDigits(t) ==> '-' !in t;
    }
    SplitThree(y, m, d);
  }

  /** A text that parses holds no year marker. */
  lemma ParsedHasNoMarker(s: string)
    requires Strptime(s).Some?
    ensures YearMarker !in s
  {
    if YearMarker in s {
      SplitKeepsChars(s, '-', YearMarker);
    }
  }

  /** The input filter is idempotent on every result that is empty or parses
      (so on every input whose date exists). */
  lemma InputIdempotent(s: string)
    requires FormatDateForInput(s) == "" || Strptime(FormatDateForInput(s)).Some?
    ensures FormatDateForInput(FormatDateForInput(s)) == FormatDateForInput(s)
  {
    var r := FormatDateForInput(s);
    if r != "" {
      ParsedHasNoMarker(r);
    }
  }

  lemma {:induction false} ZFillDigits(s: string, width: nat)
    requires AllDigits(s)
    ensures AllDigits(ZFill(s, width))
  {
  }

  /** ... and only there: a localized input whose year is not four digits
      is rewritten to a non-empty text that the filter then rejects. */
  lemma InputNotIdempotentOnShortYear(y: string, m: string, d: string)
    requires AllDigits(y) && AllDigits(m) && AllDigits(d) && |y| != 4
    ensures FormatDateForInput(Localized(y, m, d)) != ""
    ensures FormatDateForInput(FormatDateForInput(Localized(y, m, d))) == ""
  {
    InputLocalizedUnchecked(y, m, d);
    var zm, zd := ZFill(m, 2), ZFill(d, 2);
    ZFillDigits(m, 2);
    ZFillDigits(d, 2);
    var r := y + "-" + zm + "-" + zd;
    assert r[|y|] == '-';
    assert '-' !in y && '-' !in zm && '-' !in zd && YearMarker !in r by {
      assert forall t: string :: AllDigits(t) ==> '-' !in t && YearMarker !in t;
    }
    SplitThree(y, zm, zd);
  }
}
