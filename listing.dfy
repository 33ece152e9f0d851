/** The snapshot file names of the data directory and the date list built
    from them by `get_available_dates`: which names count as snapshots, the
    date each one names, and the descending order of the list. */
module Listing {
  import opened Wrappers
  import opened Calendar
  import opened DateText

  const FilePrefix := "insights_"
  const FileSuffix := ".json"
  /** The undated snapshot, `DATA_FILE`. */
  const DefaultFile := "insights.json"

  /** The file name of the snapshot for date key `key`. */
  function DatedFile(key: string): string {
    FilePrefix + key + FileSuffix
  }

  /** One entry of the date list: the key and its display form. */
  datatype DateEntry = DateEntry(date: string, display: string)

  /** The entry listed for a date key that parses. */
  function EntryFor(key: string): DateEntry
    requires Strptime(key).Some?
  {
    DateEntry(key, Display(Strptime(key).value))
  }

  // ---------------------------------------------------------------- file names

  predicate HasAffixes(name: string) {
    && |name| >= |FilePrefix| + |FileSuffix|
    && name[..|FilePrefix|] == FilePrefix
    && name[|name| - |FileSuffix|..] == FileSuffix
  }

  /** The date a file name lists, with prefix and suffix stripped once. */
  function ListedDate(name: string): (r: Option<string>)
    ensures r.Some? ==> name == DatedFile(r.value) && Strptime(r.value).Some?
  {
    if HasAffixes(name) then
      var key := name[|FilePrefix|..|name| - |FileSuffix|];
      assert name == FilePrefix + key + FileSuffix;
      if Strptime(key).Some? then Some(key) else None
    else None
  }

  /** Every key that parses is listed for its own file and for no other. */
  lemma ListedDateOfFile(key: string, name: string)
    requires Strptime(key).Some?
    ensures ListedDate(DatedFile(key)) == Some(key)
    ensures ListedDate(name) == Some(key) <==> name == DatedFile(key)
  {
    var f := DatedFile(key);
    assert f[..|FilePrefix|] == FilePrefix;
    assert f[|f| - |FileSuffix|..] == FileSuffix;
    assert f[|FilePrefix|..|f| - |FileSuffix|] == key;
  }

  /** `s.replace(pat, '')`: every non-overlapping occurrence of `pat`,
      scanning from the left, removed. */
  function RemoveAll(s: string, pat: string): (r: string)
    requires pat != []
    ensures |r| <= |s|
    decreases |s|
  {
    if |s| < |pat| then s
    else if s[..|pat|] == pat then RemoveAll(s[|pat|..], pat)
    else [s[0]] + RemoveAll(s[1..], pat)
  }

  /** The date part as `get_available_dates` extracts it, with both
      affixes removed everywhere in the name. */
  function ListedDateAsWritten(name: string): (r: Option<string>)
    ensures r.Some? ==> HasAffixes(name) && Strptime(r.value).Some?
  {
    if HasAffixes(name) then
      var key := RemoveAll(RemoveAll(name, FilePrefix), FileSuffix);
      if Strptime(key).Some? then Some(key) else None
    else None
  }

  lemma {:induction false} RemoveAllAbsent(s: string, pat: string)
    requires pat != [] && pat[0] !in s
    ensures RemoveAll(s, pat) == s
    decreases |s|
  {
    if |s| >= |pat| {
      assert s[..|pat|][0] == s[0];
      RemoveAllAbsent(s[1..], pat);
      assert [s[0]] + s[1..] == s;
    }
  }

  lemma {:induction false} RemoveAllAfterAbsent(a: string, b: string, pat: string)
    requires pat != [] && pat[0] !in a
    ensures RemoveAll(a + b, pat) == a + RemoveAll(b, pat)
    decreases |a|
  {
    if a != [] {
      var s := a + b;
      if |s| >= |pat| {
        assert s[..|pat|][0] == a[0];
      }
      assert s[1..] == a[1..] + b;
      RemoveAllAfterAbsent(a[1..], b, pat);
      assert [a[0]] + a[1..] == a;
    } else {
      assert a + b == b;
    }
  }

  lemma RemoveAllLeading(s: string, pat: string)
    requires pat != []
    ensures RemoveAll(pat + s, pat) == RemoveAll(s, pat)
  {
    var t := pat + s;
    assert t[..|pat|] == pat && t[|pat|..] == s;
  }

  lemma FormatChars(d: Date, c: char)
    requires ValidDate(d) && c in Format(d)
    ensures IsDigit(c) || c == '-'
  {
    var y, m, dd := Pad4(d.year), Pad2(d.month), Pad2(d.day);
    var k :| 0 <= k < |Format(d)| && Format(d)[k] == c;
    assert Format(d) == y + "-" + m + "-" + dd;
  }

  /** A file "insights_<key>.json.json" is listed under the same key as
      "insights_<key>.json", although loading that key never reads it. */
  lemma DoubledSuffixListedAsWritten(d: Date)
    requires ValidDate(d)
    ensures var name := DatedFile(Format(d)) + FileSuffix;
      && name != DatedFile(Format(d))
      && ListedDateAsWritten(name) == Some(Format(d))
      && ListedDate(name) != Some(Format(d))
  {
    var key := Format(d);
    var name := DatedFile(key) + FileSuffix;
    var tail := key + (FileSuffix + FileSuffix);
    assert name == FilePrefix + tail;
    assert name[..|FilePrefix|] == FilePrefix;
    assert name[|name| - |FileSuffix|..] == FileSuffix;
    assert 'i' !in key by {
      if 'i' in key { FormatChars(d, 'i'); }
    }
    assert '.' !in key by {
      if '.' in key { FormatChars(d, '.'); }
    }
    assert 'i' !in FileSuffix + FileSuffix;
    RemoveAllLeading(tail, FilePrefix);
    RemoveAllAfterAbsent(key, FileSuffix + FileSuffix, FilePrefix);
    RemoveAllAbsent(FileSuffix + FileSuffix, FilePrefix);
    assert RemoveAll(name, FilePrefix) == tail;
    RemoveAllAfterAbsent(key, FileSuffix + FileSuffix, FileSuffix);
    RemoveAllLeading(FileSuffix, FileSuffix);
    RemoveAllLeading([], FileSuffix);
    assert FileSuffix + [] == FileSuffix;
    assert RemoveAll(tail, FileSuffix) == key + [];
    assert key + [] == key;
    ParseFormat(d);
    ListedDateOfFile(key, name);
  }

  /** A canonical key's own file is listed under that key as written too. */
  lemma CanonicalListedAsWritten(d: Date)
    requires ValidDate(d)
    ensures ListedDateAsWritten(DatedFile(Format(d))) == Some(Format(d))
  {
    var key := Format(d);
    var name := DatedFile(key);
    assert name == FilePrefix + (key + FileSuffix);
    assert name[..|FilePrefix|] == FilePrefix;
    assert name[|name| - |FileSuffix|..] == FileSuffix;
    assert 'i' !in key by {
      if 'i' in key { FormatChars(d, 'i'); }
    }
    assert '.' !in key by {
      if '.' in key { FormatChars(d, '.'); }
    }
    assert 'i' !in FileSuffix;
    RemoveAllLeading(key + FileSuffix, FilePrefix);
    RemoveAllAfterAbsent(key, FileSuffix, FilePrefix);
    RemoveAllAbsent(FileSuffix, FilePrefix);
    assert RemoveAll(name, FilePrefix) == key + FileSuffix;
    RemoveAllAfterAbsent(key, FileSuffix, FileSuffix);
    RemoveAllLeading([], FileSuffix);
    assert FileSuffix + [] == FileSuffix;
    assert key + [] == key;
    ParseFormat(d);
  }

  /** The entry the scan of `get_available_dates` appends for a name, as
      written: the key taken with `replace`, when it parses. */
  function EntryAsWritten(name: string): (r: Option<DateEntry>)
    ensures r.Some? <==> ListedDateAsWritten(name).Some?
    ensures r.Some? ==> && HasAffixes(name) && Strptime(r.value.date).Some?
                        && ListedDateAsWritten(name) == Some(r.value.date) && r.value == EntryFor(r.value.date)
  {
    match ListedDateAsWritten(name)
    case None => None
    case Some(key) => Some(EntryFor(key))
  }

  /** A loop over directory entries `names`, in listing order, appending
      what `f` gives for each name that gives something. */
  function Scan<T>(names: seq<string>, f: string -> Option<T>): (r: seq<T>)
    ensures |r| <= |names|
  {
    if names == [] then []
    else
      var rest := Scan(names[..|names| - 1], f);
      match f(names[|names| - 1])
      case None => rest
      case Some(x) => rest + [x]
  }

  /** Every scanned value comes from a name of the listing, and every name
      that gives a value contributes it. */
  lemma {:induction false} ScanSources<T>(names: seq<string>, f: string -> Option<T>)
    ensures forall k :: 0 <= k < |Scan(names, f)| ==>
      exists i :: 0 <= i < |names| && f(names[i]) == Some(Scan(names, f)[k])
    ensures forall i :: 0 <= i < |names| && f(names[i]).Some? ==> f(names[i]).value in Scan(names, f)
  {
    if names == [] {
      assert Scan(names, f) == [];
    } else {
      var last := |names| - 1;
      var init := names[..last];
      var rest := Scan(init, f);
      ScanSources(init, f);
      forall k | 0 <= k < |Scan(names, f)|
        ensures exists i :: 0 <= i < |names| && f(names[i]) == Some(Scan(names, f)[k])
      {
        if k < |rest| {
          var i :| 0 <= i < |init| && f(init[i]) == Some(rest[k]);
          assert names[i] == init[i];
        } else {
          assert f(names[last]) == Some(Scan(names, f)[k]);
        }
      }
      forall i | 0 <= i < |names| && f(names[i]).Some?
        ensures f(names[i]).value in Scan(names, f)
      {
        if i < last {
          assert names[i] == init[i];
        }
      }
    }
  }

  /** The scan of a listing cut in two is the two scans in order. */
  lemma {:induction false} ScanAppend<T>(a: seq<string>, b: seq<string>, f: string -> Option<T>)
    ensures Scan(a + b, f) == Scan(a, f) + Scan(b, f)
    decreases |b|
  {
    if b == [] {
      assert a + b == a;
    } else {
      var init := b[..|b| - 1];
      assert (a + b)[..|a + b| - 1] == a + init;
      assert (a + b)[|a + b| - 1] == b[|b| - 1];
      ScanAppend(a, init, f);
    }
  }

  /** A scan sorted newest first keeps exactly the scanned entries: each
      comes from a name of the listing, and each name that gives an entry
      is there. */
  lemma SortedScanSources(names: seq<string>, f: string -> Option<DateEntry>)
    ensures var r := SortDescending(Scan(names, f));
      && (forall k :: 0 <= k < |r| ==> exists i :: 0 <= i < |names| && f(names[i]) == Some(r[k]))
      && (forall i :: 0 <= i < |names| && f(names[i]).Some? ==> f(names[i]).value in r)
  {
    var s := Scan(names, f);
    var r := SortDescending(s);
    ScanSources(names, f);
    forall k | 0 <= k < |r|
      ensures exists i :: 0 <= i < |names| && f(names[i]) == Some(r[k])
    {
      assert r[k] in multiset(s);
      var j :| 0 <= j < |s| && s[j] == r[k];
    }
    forall i | 0 <= i < |names| && f(names[i]).Some?
      ensures f(names[i]).value in r
    {
      assert f(names[i]).value in multiset(s);
    }
  }

  /** Two names of the listing giving the same value put it in the scan
      twice. */
  lemma ScanTwice<T>(names: seq<string>, f: string -> Option<T>, i: int, j: int, x: T)
    requires 0 <= i < j < |names| && f(names[i]) == Some(x) && f(names[j]) == Some(x)
    ensures multiset(Scan(names, f))[x] >= 2
  {
    var front, back := names[..j], names[j..];
    assert names == front + back;
    ScanAppend(front, back, f);
    ScanSources(front, f);
    ScanSources(back, f);
    assert front[i] == names[i] && back[0] == names[j];
    assert multiset(Scan(names, f)) == multiset(Scan(front, f)) + multiset(Scan(back, f));
  }

  /** With both "insights_<key>.json" and "insights_<key>.json.json" in
      the directory, the date list as written holds the key's entry twice. */
  lemma DoubledSuffixListedTwice(d: Date, names: seq<string>)
    requires ValidDate(d)
    requires DatedFile(Format(d)) in names && DatedFile(Format(d)) + FileSuffix in names
    ensures multiset(SortDescending(Scan(names, EntryAsWritten)))[EntryFor(Format(d))] >= 2
  {
    var key := Format(d);
    var canonical, doubled := DatedFile(key), DatedFile(key) + FileSuffix;
    CanonicalListedAsWritten(d);
    DoubledSuffixListedAsWritten(d);
    var e := EntryAsWritten(canonical).value;
    assert EntryAsWritten(doubled) == Some(e);
    var i :| 0 <= i < |names| && names[i] == canonical;
    var j :| 0 <= j < |names| && names[j] == doubled;
    if i < j {
      ScanTwice(names, EntryAsWritten, i, j, e);
    } else {
      ScanTwice(names, EntryAsWritten, j, i, e);
    }
  }

  // ---------------------------------------------------------------- order

  /** Python's `<` on strings: code point by code point, a proper prefix
      first. */
  predicate StrLess(a: string, b: string) {
    if a == [] then b != []
    else if b == [] then false
    else if a[0] != b[0] then a[0] < b[0]
    else StrLess(a[1..], b[1..])
  }

  lemma {:induction false} StrLessIrreflexive(a: string)
    ensures !StrLess(a, a)
  {
    if a != [] { StrLessIrreflexive(a[1..]); }
  }

  lemma {:induction false} StrLessTransitive(a: string, b: string, c: string)
    requires StrLess(a, b) && StrLess(b, c)
    ensures StrLess(a, c)
  {
    if a != [] && b != [] && c != [] && a[0] == b[0] && b[0] == c[0] {
      StrLessTransitive(a[1..], b[1..], c[1..]);
    }
  }

  lemma {:induction false} StrLessTotal(a: string, b: string)
    requires a != b
    ensures StrLess(a, b) || StrLess(b, a)
  {
    if a != [] && b != [] && a[0] == b[0] {
      assert a == [a[0]] + a[1..] && b == [b[0]] + b[1..];
      StrLessTotal(a[1..], b[1..]);
    }
  }

  lemma {:induction false} StrLessAsymmetric(a: string, b: string)
    requires StrLess(a, b)
    ensures !StrLess(b, a)
  {
    if a != [] && b != [] && a[0] == b[0] {
      StrLessAsymmetric(a[1..], b[1..]);
    }
  }

  /** Newest first by the date text: no entry's date is below a later one's. */
  predicate DescendingByDate(s: seq<DateEntry>) {
    forall i, j :: 0 <= i < j < |s| ==> !StrLess(s[i].date, s[j].date)
  }

  predicate StrictlyDescending(s: seq<DateEntry>) {
    forall i, j :: 0 <= i < j < |s| ==> StrLess(s[j].date, s[i].date)
  }

  predicate DistinctDates(s: seq<DateEntry>) {
    forall i, j :: 0 <= i < j < |s| ==> s[i].date != s[j].date
  }

  /** `x` placed before the first entry whose date is not above its own. */
  function InsertDescending(x: DateEntry, s: seq<DateEntry>): (r: seq<DateEntry>)
    requires DescendingByDate(s)
    ensures multiset(r) == multiset(s) + multiset{x}
    ensures DescendingByDate(r)
  {
    if s == [] || !StrLess(x.date, s[0].date) then
      forall j | 0 <= j < |s|
        ensures !StrLess(x.date, s[j].date)
      {
        if j > 0 && StrLess(x.date, s[j].date) {
          if s[0].date == s[j].date {
          } else {
            StrLessTotal(s[0].date, s[j].date);
            StrLessAsymmetric(s[j].date, s[0].date);
            StrLessTransitive(x.date, s[j].date, s[0].date);
          }
        }
      }
      assert multiset([x] + s) == multiset{x} + multiset(s);
      [x] + s
    else
      var rest := InsertDescending(x, s[1..]);
      assert s == [s[0]] + s[1..];
      InsertBelow(x, s, rest);
      [s[0]] + rest
  }

  lemma InsertBelow(x: DateEntry, s: seq<DateEntry>, rest: seq<DateEntry>)
    requires s != [] && DescendingByDate(s) && StrLess(x.date, s[0].date)
    requires multiset(rest) == multiset(s[1..]) + multiset{x}
    requires DescendingByDate(rest)
    ensures DescendingByDate([s[0]] + rest)
  {
    forall j | 0 <= j < |rest|
      ensures !StrLess(s[0].date, rest[j].date)
    {
      assert rest[j] in multiset(rest);
      if rest[j] != x {
        assert rest[j] in multiset(s[1..]);
        var k :| 0 <= k < |s[1..]| && s[1..][k] == rest[j];
        assert s[k + 1] == rest[j];
      } else {
        StrLessAsymmetric(x.date, s[0].date);
      }
    }
  }

  /** `dates.sort(key=lambda x: x['date'], reverse=True)`: a stable sort,
      newest first. */
  function SortDescending(s: seq<DateEntry>): (r: seq<DateEntry>)
    ensures multiset(r) == multiset(s)
    ensures DescendingByDate(r)
  {
    if s == [] then []
    else
      assert s == [s[0]] + s[1..];
      InsertDescending(s[0], SortDescending(s[1..]))
  }

  /** Distinct dates come out strictly descending, so each once. */
  lemma {:induction false} SortDistinct(s: seq<DateEntry>)
    requires DistinctDates(s)
    ensures StrictlyDescending(SortDescending(s))
  {
    var r := SortDescending(s);
    forall i, j | 0 <= i < j < |r|
      ensures StrLess(r[j].date, r[i].date)
    {
      assert r[i] in multiset(s) && r[j] in multiset(s);
      var a :| 0 <= a < |s| && s[a] == r[i];
      var b :| 0 <= b < |s| && s[b] == r[j];
      if r[i].date == r[j].date {
        assert a == b;
        DuplicateCount(r, i, j);
        assert multiset(s)[s[a]] == 1 by { SingleCount(s, a); }
        assert false;
      }
      StrLessTotal(r[i].date, r[j].date);
    }
  }

  /** An entry at two positions occurs at least twice. */
  lemma DuplicateCount(r: seq<DateEntry>, i: int, j: int)
    requires 0 <= i < j < |r| && r[i] == r[j]
    ensures multiset(r)[r[i]] >= 2
  {
    assert r == r[..j] + r[j..];
    assert r[i] in r[..j];
    assert r[j..][0] == r[j];
  }

  /** In a sequence of distinct dates every entry occurs once. */
  lemma {:induction false} SingleCount(s: seq<DateEntry>, a: int)
    requires DistinctDates(s) && 0 <= a < |s|
    ensures multiset(s)[s[a]] == 1
    decreases |s|
  {
    if |s| > 1 {
      var last := |s| - 1;
      var init := s[..last];
      assert s == init + [s[last]];
      if a < last {
        SingleCount(init, a);
        assert s[a] != s[last];
      } else {
        assert s[a] !in init;
      }
    }
  }

  // ---------------------------------------------------------------- key order

  /** A digit string's value read from the front: the first digit weighted
      by the power of ten of the remaining length. */
  lemma {:induction false} ValueFront(s: string)
    requires AllDigits(s) && |s| >= 1
    ensures Value(s) == DigitValue(s[0]) * Pow10(|s| - 1) + Value(s[1..])
    decreases |s|
  {
    var n := |s|;
    if n == 1 {
      assert s[..0] == [] && s[1..] == [];
    } else {
      var t, u := s[..n - 1], s[1..];
      ValueFront(t);
      assert t[0] == s[0] && t[1..] == u[..|u| - 1] && u[|u| - 1] == s[n - 1];
      ShiftDigit(DigitValue(s[0]), Pow10(n - 2), Value(t[1..]), DigitValue(s[n - 1]));
    }
  }

  /** Appending a digit after a weighted leading digit. */
  lemma ShiftDigit(d: int, p: int, r: int, last: int)
    ensures (d * p + r) * 10 + last == d * (10 * p) + (r * 10 + last)
  {
  }

  /** A smaller leading digit outweighs any remainder below the weight. */
  lemma LeadingDigitDecides(da: int, db: int, ra: int, rb: int, p: int)
    requires 0 <= da < db && 0 <= ra < p && 0 <= rb < p
    ensures da * p + ra < db * p + rb
  {
    var k := db - da - 1;
    assert k >= 0 && p >= 0;
    assert k * p >= 0;
    assert db * p == da * p + k * p + p;
  }

  /** On digit strings of one length, string order is numeric order. */
  lemma {:induction false} DigitsOrder(a: string, b: string)
    requires AllDigits(a) && AllDigits(b) && |a| == |b|
    ensures StrLess(a, b) <==> Value(a) < Value(b)
    ensures a == b <==> Value(a) == Value(b)
    decreases |a|
  {
    if a != [] {
      ValueFront(a);
      ValueFront(b);
      ValueBound(a[1..]);
      ValueBound(b[1..]);
      var p := Pow10(|a| - 1);
      var da, db := DigitValue(a[0]), DigitValue(b[0]);
      var ra, rb := Value(a[1..]), Value(b[1..]);
      if a[0] < b[0] {
        LeadingDigitDecides(da, db, ra, rb, p);
      } else if b[0] < a[0] {
        LeadingDigitDecides(db, da, rb, ra, p);
      } else {
        DigitsOrder(a[1..], b[1..]);
        assert a == [a[0]] + a[1..] && b == [b[0]] + b[1..];
      }
    }
  }

  /** Strings compare by their first `|x|` characters first. */
  lemma {:induction false} StrLessConcat(x: string, y: string, r1: string, r2: string)
    requires |x| == |y|
    ensures StrLess(x + r1, y + r2) <==> StrLess(x, y) || (x == y && StrLess(r1, r2))
    decreases |x|
  {
    if x == [] {
      assert x + r1 == r1 && y + r2 == r2;
    } else {
      assert (x + r1)[0] == x[0] && (y + r2)[0] == y[0];
      assert (x + r1)[1..] == x[1..] + r1 && (y + r2)[1..] == y[1..] + r2;
      StrLessConcat(x[1..], y[1..], r1, r2);
      if x[0] == y[0] && x[1..] == y[1..] {
        assert x == [x[0]] + x[1..] && y == [y[0]] + y[1..];
      }
    }
  }

  /** Dates ordered by year, then month, then day. */
  predicate LexBefore(a: Date, b: Date) {
    || a.year < b.year
    || (a.year == b.year && a.month < b.month)
    || (a.year == b.year && a.month == b.month && a.day < b.day)
  }

  /** Year-month-day order is calendar order. */
  lemma LexBeforeOrdinal(a: Date, b: Date)
    requires WellFormed(a) && WellFormed(b) && LexBefore(a, b)
    ensures Ordinal(a) < Ordinal(b)
  {
    OrdinalWithinYear(a);
    OrdinalWithinYear(b);
    if a.year < b.year {
      DaysBeforeYearMonotone(a.year + 1, b.year);
    } else if a.month < b.month {
      MonthStep(a.year, a.month);
      DaysBeforeMonthMonotone(a.year, a.month + 1, b.month);
    }
  }

  /** Canonical keys compare as strings exactly as their dates compare. */
  lemma FormatOrder(a: Date, b: Date)
    requires ValidDate(a) && ValidDate(b)
    ensures StrLess(Format(a), Format(b)) <==> Ordinal(a) < Ordinal(b)
  {
    var ya, ma, da := Pad4(a.year), Pad2(a.month), Pad2(a.day);
    var yb, mb, db := Pad4(b.year), Pad2(b.month), Pad2(b.day);
    assert Format(a) == ya + ("-" + (ma + ("-" + da)));
    assert Format(b) == yb + ("-" + (mb + ("-" + db)));
    StrLessConcat(ya, yb, "-" + (ma + ("-" + da)), "-" + (mb + ("-" + db)));
    StrLessConcat("-", "-", ma + ("-" + da), mb + ("-" + db));
    StrLessConcat(ma, mb, "-" + da, "-" + db);
    StrLessConcat("-", "-", da, db);
    DigitsOrder(ya, yb);
    DigitsOrder(ma, mb);
    DigitsOrder(da, db);
    assert StrLess(Format(a), Format(b)) <==> LexBefore(a, b);
    if LexBefore(a, b) {
      LexBeforeOrdinal(a, b);
    } else if LexBefore(b, a) {
      LexBeforeOrdinal(b, a);
    }
  }

  /** A listing of canonical keys, strictly descending as strings, runs
      from the latest date to the earliest. */
  lemma CanonicalListingNewestFirst(s: seq<DateEntry>, i: int, j: int)
    requires StrictlyDescending(s) && 0 <= i < j < |s|
    requires Strptime(s[i].date).Some? && s[i].date == Format(Strptime(s[i].date).value)
    requires Strptime(s[j].date).Some? && s[j].date == Format(Strptime(s[j].date).value)
    ensures Ordinal(Strptime(s[j].date).value) < Ordinal(Strptime(s[i].date).value)
  {
    FormatOrder(Strptime(s[j].date).value, Strptime(s[i].date).value);
  }

  /** Python's strptime also accepts keys without zero padding, and on
      those the textual order is not the calendar order: in any year, a
      listing sorted newest first puts 30 September ahead of 1 October. */
  lemma UnpaddedKeysOrderedAsText(y: string)
    requires IsYearField(y) && Value(y) >= MinYear
    ensures Strptime(y + "-9-30") == Some(Date(Value(y), 9, 30))
    ensures Strptime(y + "-10-01") == Some(Date(Value(y), 10, 1))
    ensures StrLess(y + "-10-01", y + "-9-30")
    ensures Ordinal(Date(Value(y), 9, 30)) < Ordinal(Date(Value(y), 10, 1))
  {
    UnpaddedParts(y);
    StrLessConcat(y + "-", y + "-", "10-01", "9-30");
    assert y + "-10-01" == (y + "-") + "10-01";
    assert y + "-9-30" == (y + "-") + "9-30";
    StrLessIrreflexive(y + "-");
    LexBeforeOrdinal(Date(Value(y), 9, 30), Date(Value(y), 10, 1));
  }

  lemma UnpaddedParts(y: string)
    requires IsYearField(y)
    ensures Split(y + "-9-30", '-') == [y, "9", "30"]
    ensures Split(y + "-10-01", '-') == [y, "10", "01"]
  {
    SplitThree(y, "9", "30");
    SplitThree(y, "10", "01");
    assert y + "-" + "9" + "-" + "30" == y + "-9-30";
    assert y + "-" + "10" + "-" + "01" == y + "-10-01";
  }
}
