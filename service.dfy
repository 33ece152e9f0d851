/** The application object: the data directory as a store of snapshot files
    and the baseline template `DEFAULT_INSIGHTS`, whose item dates every
    synthesis rewrites in place; with the operations behind the HTTP routes:
    `load_insights`, the key derivation and write of `update_insights`, and
    `get_available_dates`. */
module Service {
  import opened Wrappers
  import opened Calendar
  import opened DateText
  import opened Insights
  import opened Processing
  import opened Synthesis
  import opened Listing

  /** A JSON document that is not an object, as `process_insights_data`
      tests it: a falsy value (null, false, 0, "" or []), a non-empty
      string, a non-empty array with the strings among its elements, or
      some other scalar (true or a number other than 0). */
  datatype OtherJson =
    | Falsy
    | NonEmptyText(text: string)
    | NonEmptyArray(strings: set<string>)
    | TruthyScalar

  /** What a file of the data directory holds: an object (a dataset),
      another JSON document, or bytes that do not parse as JSON. */
  datatype FileContent = Json(data: Dataset) | Other(value: OtherJson) | Unreadable

  /** What `load_insights` answers: a processed dataset, or a non-object
      document handed back unchanged. */
  datatype Answer = Digest(data: Dataset) | Verbatim(value: OtherJson)

  /** The item counts of the six baseline sections, in order. */
  const BaselineCounts: seq<nat> := [2, 2, 2, 13, 2, 4]

  /** The shape of `DEFAULT_INSIGHTS`: the six sections in order with their
      item counts. */
  predicate IsBaseline(t: Dataset) {
    && t.sections.Some?
    && Keys(t.sections.value) == SectionKeys
    && forall j :: 0 <= j < |SectionKeys| ==> |t.sections.value[j].section.items| == BaselineCounts[j]
  }

  /** Python's `sub in s`: `sub` starts at some position of `s`. */
  predicate Contains(s: string, sub: string)
    decreases |s|
  {
    sub <= s || (s != [] && Contains(s[1..], sub))
  }

  /** Whether the undated snapshot's `date` matches date key `key`: the key
      occurs in it, or it equals the key once its markers are replaced. A
      missing date reads as "". On a scalar `in` raises inside the `try`, so
      it does not match; on an array or object `in` is a membership test,
      and when it fails `replace` raises. */
  predicate DefaultMatches(key: string, field: DateField) {
    match field
    case Missing => Contains("", key) || StripMarkers("") == key
    case Text(t) => Contains(t, key) || StripMarkers(t) == key
    case Scalar => false
    case Container(members, _) => key in members
  }

  /** The date key `load_insights` settles on: the argument (today when
      absent) with markers stripped if it has a year marker, or today when
      that does not parse. */
  function LoadKey(dateArg: Option<string>, today: Date): (key: string)
    requires ValidDate(today)
    ensures Strptime(key).Some?
  {
    var s := StripIfLocalized(dateArg.GetOr(Format(today)));
    if Strptime(s).Some? then s
    else
      ParseFormat(today);
      Format(today)
  }

  /** Whether `process_insights_data` hands a non-object document back:
      a falsy one, or one where `'sections' not in data` holds. Otherwise
      the test raises (a scalar) or the later `data.copy()` or item
      assignment does (a string or array holding "sections"). */
  predicate ReturnedVerbatim(v: OtherJson) {
    match v
    case Falsy => true
    case NonEmptyText(s) => !Contains(s, "sections")
    case NonEmptyArray(strings) => "sections" !in strings
    case TruthyScalar => false
  }

  /** Whether `load_insights` answers date key `key` from a stored file:
      the dated snapshot when it reads, else the undated one when it reads
      and its date matches. */
  predicate ServedFromStore(files: map<string, FileContent>, key: string) {
    || (DatedFile(key) in files && files[DatedFile(key)].Json?)
    || (DatedFile(key) in files && files[DatedFile(key)].Other? && ReturnedVerbatim(files[DatedFile(key)].value))
    || (DefaultFile in files && files[DefaultFile].Json? && DefaultMatches(key, files[DefaultFile].data.date))
  }

  /** What `load_insights` returns, or `None` where synthesis raises. */
  function LoadSpec(files: map<string, FileContent>, baseline: Dataset, dateArg: Option<string>, today: Date,
                    hash: string -> nat, failed: set<int>, feedRaises: bool): Option<Answer>
    requires ValidDate(today) && baseline.sections.Some?
  {
    var key := LoadKey(dateArg, today);
    var dated := DatedFile(key);
    if dated in files && files[dated].Json? then
      Some(Digest(ProcessInsights(files[dated].data, Some(key), today, failed, feedRaises)))
    else if dated in files && files[dated].Other? && ReturnedVerbatim(files[dated].value) then
      Some(Verbatim(files[dated].value))
    else if DefaultFile in files && files[DefaultFile].Json? && DefaultMatches(key, files[DefaultFile].data.date) then
      Some(Digest(ProcessInsights(files[DefaultFile].data, Some(key), today, failed, feedRaises)))
    else
      var target := Strptime(key).value;
      match Synthesize(baseline, target, hash(Format(target)))
      case None => None
      case Some(generated) => Some(Digest(ProcessInsights(generated, Some(key), today, failed, feedRaises)))
  }

  /** The file `update_insights` writes for a payload date: a missing date
      is today's display form, and a text date names "insights_<date>.json"
      after marker stripping. On a scalar the `in` test raises, and on an
      array or object holding "年" the `replace` does; both fall back to
      the undated snapshot. Any other array or object names a file after
      its `str()` rendering. */
  function SaveFile(field: DateField, today: Date): string
    requires ValidDate(today)
  {
    match field
    case Missing => DatedFile(StripIfLocalized(Display(today)))
    case Text(s) => DatedFile(StripIfLocalized(s))
    case Scalar => DefaultFile
    case Container(members, rendering) => if [YearMarker] in members then DefaultFile else DatedFile(rendering)
  }

  class InsightsApp {
    /** The data directory: file name to content. */
    var files: map<string, FileContent>
    /** `DEFAULT_INSIGHTS`, shared by every synthesis. */
    var baseline: Dataset

    ghost predicate Valid()
      reads this
    {
      IsBaseline(baseline)
    }

    constructor (template: Dataset, store: map<string, FileContent>)
      requires IsBaseline(template)
      ensures Valid() && baseline == template && files == store
    {
      baseline := template;
      files := store;
    }

    /** `generate_daily_insights`: rewrites the template's item dates in
        place and returns the dated copy; `None` where a date falls before
        0001-01-01, with the dates written so far kept. */
    method GenerateDailyInsights(target: Date, seed: nat) returns (r: Option<Dataset>)
      requires Valid() && ValidDate(target)
      modifies this
      ensures Valid() && files == old(files)
      ensures r == Synthesize(old(baseline), target, seed)
      ensures SameExceptItemDates(old(baseline), baseline)
      ensures r.Some? ==> baseline == r.value.(date := old(baseline).date)
    {
      ghost var template := baseline;
      var entries, done := RedateEntries(baseline.sections.value, target, seed);
      baseline := baseline.(sections := Some(entries));
      SameShapeKeepsBaseline(template, baseline);
      if done {
        r := Some(Dataset(Text(Display(target)), Some(entries)));
      } else {
        r := None;
      }
    }

    /** `load_insights`: the dated snapshot, else the undated one when its
        date matches, else a synthesis for the key; each processed for the
        key. */
    method LoadInsights(dateArg: Option<string>, today: Date, hash: string -> nat, failed: set<int>, feedRaises: bool)
      returns (r: Option<Answer>)
      requires Valid() && ValidDate(today)
      modifies this
      ensures Valid() && files == old(files)
      ensures r == LoadSpec(old(files), old(baseline), dateArg, today, hash, failed, feedRaises)
      ensures SameExceptItemDates(old(baseline), baseline)
      ensures var key := LoadKey(dateArg, today);
        if ServedFromStore(old(files), key) then baseline == old(baseline)
        else
          var target := Strptime(key).value;
          var generated := Synthesize(old(baseline), target, hash(Format(target)));
          generated.Some? ==> baseline == generated.value.(date := old(baseline).date)
    {
      var key := ResolveKey(dateArg, today);
      var dated := DatedFile(key);
      if dated in files && files[dated].Json? {
        var p := ProcessInsightsData(files[dated].data, Some(key), today, failed, feedRaises);
        SameExceptItemDatesReflexive(baseline);
        return Some(Digest(p));
      }
      if dated in files && files[dated].Other? && ReturnedVerbatim(files[dated].value) {
        SameExceptItemDatesReflexive(baseline);
        return Some(Verbatim(files[dated].value));
      }
      if DefaultFile in files && files[DefaultFile].Json? && DefaultMatches(key, files[DefaultFile].data.date) {
        var p := ProcessInsightsData(files[DefaultFile].data, Some(key), today, failed, feedRaises);
        SameExceptItemDatesReflexive(baseline);
        return Some(Digest(p));
      }
      var target := Strptime(key).value;
      var generated := GenerateDailyInsights(target, hash(Format(target)));
      if generated.None? {
        return None;
      }
      var p := ProcessInsightsData(generated.value, Some(key), today, failed, feedRaises);
      r := Some(Digest(p));
    }

    /** `update_insights`: writes the payload to the file its date names;
        `writeOk` is whether the write succeeds. */
    method UpdateInsights(payload: Dataset, today: Date, writeOk: bool) returns (success: bool)
      requires Valid() && ValidDate(today)
      modifies this
      ensures Valid() && baseline == old(baseline)
      ensures success == writeOk
      ensures files == if writeOk then old(files)[SaveFile(payload.date, today) := Json(payload)] else old(files)
    {
      var name := match payload.date
        case Missing => DatedFile(StripIfLocalized(Display(today)))
        case Text(s) => DatedFile(if YearMarker in s then StripMarkers(s) else s)
        case Scalar => DefaultFile
        case Container(members, rendering) => if [YearMarker] in members then DefaultFile else DatedFile(rendering);
      if writeOk {
        files := files[name := Json(payload)];
      }
      success := writeOk;
    }

    /** `get_available_dates` as written, with the key taken by `replace`,
        for a directory listing `listing` of the store's names: every entry
        is `EntryAsWritten` of a stored name, and every stored name that
        gives an entry is listed; newest first.
        A key can be listed twice (`DoubledSuffixListedTwice`). */
    method GetAvailableDatesAsWritten(listing: seq<string>) returns (dates: seq<DateEntry>)
      requires forall name :: name in listing <==> name in files
      ensures dates == SortDescending(Scan(listing, EntryAsWritten))
      ensures forall k :: 0 <= k < |dates| ==> exists name :: name in files && EntryAsWritten(name) == Some(dates[k])
      ensures forall name :: name in files && EntryAsWritten(name).Some? ==> EntryAsWritten(name).value in dates
      ensures DescendingByDate(dates)
    {
      var found := ScanListingAsWritten(listing);
      dates := SortDescending(found);
      SortedScanSources(listing, EntryAsWritten);
      forall k | 0 <= k < |dates|
        ensures exists name :: name in files && EntryAsWritten(name) == Some(dates[k])
      {
        var i :| 0 <= i < |listing| && EntryAsWritten(listing[i]) == Some(dates[k]);
        assert listing[i] in files;
      }
      forall name | name in files && EntryAsWritten(name).Some?
        ensures EntryAsWritten(name).value in dates
      {
        var i :| 0 <= i < |listing| && listing[i] == name;
      }
    }

    /** `get_available_dates`: one entry per snapshot file whose name holds
        a date, newest first. */
    method GetAvailableDates() returns (dates: seq<DateEntry>)
      ensures forall k :: 0 <= k < |dates| ==>
        DatedFile(dates[k].date) in files && Strptime(dates[k].date).Some? && dates[k] == EntryFor(dates[k].date)
      ensures forall name :: name in files && ListedDate(name).Some? ==> EntryFor(ListedDate(name).value) in dates
      ensures StrictlyDescending(dates)
    {
      var found := CollectListed(files);
      dates := SortDescending(found);
      SortDistinct(found);
      forall k | 0 <= k < |dates|
        ensures dates[k] in found
      {
        assert dates[k] in multiset(found);
      }
      forall name | name in files && ListedDate(name).Some?
        ensures EntryFor(ListedDate(name).value) in dates
      {
        assert EntryFor(ListedDate(name).value) in multiset(found);
      }
    }
  }

  // ---------------------------------------------------------------- properties

  /** Both date forms name the same key: the canonical form as written, the
      display form once stripped. */
  lemma DateFormsKey(d: Date)
    requires ValidDate(d)
    ensures StripIfLocalized(Format(d)) == Format(d)
    ensures StripIfLocalized(Display(d)) == Format(d)
  {
    ParseFormat(d);
    ParsedHasNoMarker(Format(d));
    assert Display(d)[|Pad4(d.year)|] == YearMarker;
    StripDisplay(d);
  }

  /** The load key: a string that parses after stripping is kept as
      spelled, not reformatted; anything else, and no argument, is today. */
  lemma LoadKeyCases(dateArg: Option<string>, today: Date)
    requires ValidDate(today)
    ensures dateArg.None? ==> LoadKey(dateArg, today) == Format(today)
    ensures dateArg.Some? && Strptime(StripIfLocalized(dateArg.value)).Some? ==>
      LoadKey(dateArg, today) == StripIfLocalized(dateArg.value)
    ensures dateArg.Some? && Strptime(StripIfLocalized(dateArg.value)).None? ==>
      LoadKey(dateArg, today) == Format(today)
  {
    DateFormsKey(today);
    ParseFormat(today);
  }

  /** A date argument that does not parse loads exactly what no argument
      loads. */
  lemma InvalidDateLoadsToday(files: map<string, FileContent>, baseline: Dataset, s: string, today: Date,
                              hash: string -> nat, failed: set<int>, feedRaises: bool)
    requires ValidDate(today) && baseline.sections.Some?
    requires Strptime(StripIfLocalized(s)).None?
    ensures LoadSpec(files, baseline, Some(s), today, hash, failed, feedRaises)
         == LoadSpec(files, baseline, None, today, hash, failed, feedRaises)
  {
    LoadKeyCases(Some(s), today);
    LoadKeyCases(None, today);
  }

  /** A payload dated in either form is saved under the canonical key, and
      one without a date under today's. */
  lemma SaveFileForms(d: Date, today: Date)
    requires ValidDate(d) && ValidDate(today)
    ensures SaveFile(Text(Format(d)), today) == DatedFile(Format(d))
    ensures SaveFile(Text(Display(d)), today) == DatedFile(Format(d))
    ensures SaveFile(Missing, today) == DatedFile(Format(today))
  {
    DateFormsKey(d);
    DateFormsKey(today);
  }

  /** Any text date, even one that is not a date at all, names a dated
      file. The undated snapshot is reached by a scalar date, and by an
      array or object exactly when it holds "年". */
  lemma TextDateNeverDefault(s: string, members: set<string>, rendering: string, today: Date)
    requires ValidDate(today)
    ensures SaveFile(Text(s), today) != DefaultFile
    ensures SaveFile(Scalar, today) == DefaultFile
    ensures SaveFile(Container(members, rendering), today) == DefaultFile <==> [YearMarker] in members
    ensures [YearMarker] !in members ==> SaveFile(Container(members, rendering), today) == DatedFile(rendering)
  {
    var name := SaveFile(Text(s), today);
    assert name[|FilePrefix| - 1] == '_';
    assert DefaultFile[|FilePrefix| - 1] == '.';
    assert DatedFile(rendering)[|FilePrefix| - 1] == '_';
  }

  /** What `update_insights` saves for a date, `load_insights` returns for
      that date in either form, processed for the canonical key. */
  lemma SaveThenLoad(files: map<string, FileContent>, baseline: Dataset, payload: Dataset, d: Date, arg: string,
                     today: Date, hash: string -> nat, failed: set<int>, feedRaises: bool)
    requires ValidDate(d) && ValidDate(today) && baseline.sections.Some?
    requires payload.date == Text(Format(d)) || payload.date == Text(Display(d))
    requires arg == Format(d) || arg == Display(d)
    ensures var saved := files[SaveFile(payload.date, today) := Json(payload)];
      LoadSpec(saved, baseline, Some(arg), today, hash, failed, feedRaises)
        == Some(Digest(ProcessInsights(payload, Some(Format(d)), today, failed, feedRaises)))
  {
    SaveFileForms(d, today);
    DateFormsKey(d);
    ParseFormat(d);
    assert LoadKey(Some(arg), today) == Format(d);
  }

  /** With no dated snapshot, the undated one is served for its own date
      asked in canonical form, although it stores the display form. */
  lemma UndatedSnapshotServed(files: map<string, FileContent>, baseline: Dataset, d: Date, today: Date,
                              hash: string -> nat, failed: set<int>, feedRaises: bool)
    requires ValidDate(d) && ValidDate(today) && baseline.sections.Some?
    requires DatedFile(Format(d)) !in files
    requires DefaultFile in files && files[DefaultFile].Json? && files[DefaultFile].data.date == Text(Display(d))
    ensures LoadSpec(files, baseline, Some(Format(d)), today, hash, failed, feedRaises)
         == Some(Digest(ProcessInsights(files[DefaultFile].data, Some(Format(d)), today, failed, feedRaises)))
  {
    DateFormsKey(d);
    ParseFormat(d);
    assert LoadKey(Some(Format(d)), today) == Format(d);
    StripDisplay(d);
  }

  /** A dated snapshot holding a non-object document is answered with
      that document unchanged when `process_insights_data` hands it back;
      otherwise the load goes on as if the file were absent. */
  lemma NonObjectSnapshot(files: map<string, FileContent>, baseline: Dataset, v: OtherJson, d: Date, today: Date,
                          hash: string -> nat, failed: set<int>, feedRaises: bool)
    requires ValidDate(d) && ValidDate(today) && baseline.sections.Some?
    ensures var stored := files[DatedFile(Format(d)) := Other(v)];
      LoadSpec(stored, baseline, Some(Format(d)), today, hash, failed, feedRaises)
        == if ReturnedVerbatim(v) then Some(Verbatim(v))
           else LoadSpec(files - {DatedFile(Format(d))}, baseline, Some(Format(d)), today, hash, failed, feedRaises)
  {
    DateFormsKey(d);
    ParseFormat(d);
    assert LoadKey(Some(Format(d)), today) == Format(d);
    assert DefaultFile != DatedFile(Format(d)) by {
      assert DatedFile(Format(d))[|FilePrefix| - 1] == '_';
      assert DefaultFile[|FilePrefix| - 1] == '.';
    }
  }

  /** Loading does not depend on the dates synthesis left in the template:
      the same request gives the same answer before and after any load. */
  lemma LoadRepeatable(files: map<string, FileContent>, a: Dataset, b: Dataset, dateArg: Option<string>,
                       today: Date, hash: string -> nat, failed: set<int>, feedRaises: bool)
    requires ValidDate(today) && a.sections.Some? && SameExceptItemDates(a, b)
    ensures b.sections.Some?
    ensures LoadSpec(files, a, dateArg, today, hash, failed, feedRaises)
         == LoadSpec(files, b, dateArg, today, hash, failed, feedRaises)
  {
    var target := Strptime(LoadKey(dateArg, today)).value;
    var seed := hash(Format(target));
    SynthesisDeterministic(a, b, target, seed, seed);
  }

  /** With no snapshot on disk, every item of a non-expert section of the
      answer is a template item dated between two days before the
      requested date and that date. */
  lemma SynthesizedItemsNearTarget(baseline: Dataset, dateArg: Option<string>, today: Date, hash: string -> nat,
                                   failed: set<int>, feedRaises: bool, r: Dataset, j: int, i: int)
    requires ValidDate(today) && baseline.sections.Some?
    requires LoadSpec(map[], baseline, dateArg, today, hash, failed, feedRaises) == Some(Digest(r))
    requires r.sections.Some? && 0 <= j < |r.sections.value| && r.sections.value[j].key != ExpertsKey
    requires 0 <= i < |r.sections.value[j].section.items|
    ensures var target := Strptime(LoadKey(dateArg, today)).value;
      var item := r.sections.value[j].section.items[i];
      && ParseEither(item.date).Some?
      && Ordinal(target) - 2 <= Ordinal(ParseEither(item.date).value) <= Ordinal(target)
      && exists k :: 0 <= k < |baseline.sections.value[j].section.items|
           && SameExceptDate(item, baseline.sections.value[j].section.items[k])
  {
    var key := LoadKey(dateArg, today);
    var target := Strptime(key).value;
    var seed := hash(Format(target));
    var g := LoadFromEmptyStore(baseline, dateArg, today, hash, failed, feedRaises, r);
    var k := ProcessedItemFrom(g, key, today, failed, feedRaises, j, i);
    SynthesizedItems(baseline, target, seed, j, k);
  }

  /** With an empty store, an answer is the synthesis for the key,
      processed. */
  lemma LoadFromEmptyStore(baseline: Dataset, dateArg: Option<string>, today: Date, hash: string -> nat,
                           failed: set<int>, feedRaises: bool, r: Dataset)
    returns (g: Dataset)
    requires ValidDate(today) && baseline.sections.Some?
    requires LoadSpec(map[], baseline, dateArg, today, hash, failed, feedRaises) == Some(Digest(r))
    ensures var target := Strptime(LoadKey(dateArg, today)).value;
      && Synthesize(baseline, target, hash(Format(target))) == Some(g)
      && g.sections.Some?
      && r == ProcessInsights(g, Some(LoadKey(dateArg, today)), today, failed, feedRaises)
  {
    var target := Strptime(LoadKey(dateArg, today)).value;
    g := Synthesize(baseline, target, hash(Format(target))).value;
  }

  /** An item of a processed non-expert section comes from the same section
      before processing. */
  lemma ProcessedItemFrom(g: Dataset, key: string, today: Date, failed: set<int>, feedRaises: bool, j: int, i: int)
    returns (k: int)
    requires ValidDate(today) && g.sections.Some?
    requires 0 <= j < |g.sections.value| && g.sections.value[j].key != ExpertsKey
    requires 0 <= i < |ProcessInsights(g, Some(key), today, failed, feedRaises).sections.value[j].section.items|
    ensures 0 <= k < |g.sections.value[j].section.items|
    ensures ProcessInsights(g, Some(key), today, failed, feedRaises).sections.value[j].section.items[i]
         == g.sections.value[j].section.items[k]
  {
    var e := g.sections.value[j];
    var target := FilterTarget(Some(key), today);
    var shaped := ShapeSection(e.section.items, target);
    assert ProcessInsights(g, Some(key), today, failed, feedRaises).sections.value[j]
        == ProcessEntry(e, target, today, failed, feedRaises);
    ShapeSectionBounded(e.section.items, target);
    assert shaped[i] in multiset(e.section.items);
    k :| 0 <= k < |e.section.items| && e.section.items[k] == shaped[i];
  }

  // ---------------------------------------------------------------- helpers

  /** The date normalisation at the head of `load_insights`. */
  method ResolveKey(dateArg: Option<string>, today: Date) returns (key: string)
    requires ValidDate(today)
    ensures key == LoadKey(dateArg, today)
  {
    key := if dateArg.Some? then dateArg.value else Format(today);
    if YearMarker in key {
      key := StripMarkers(key);
    }
    if Strptime(key).None? {
      key := Format(today);
    }
  }

  /** The scan of `get_available_dates` as written, over the directory
      entries `listing` in the order `os.listdir` gives them. */
  method ScanListingAsWritten(listing: seq<string>) returns (found: seq<DateEntry>)
    ensures found == Scan(listing, EntryAsWritten)
  {
    found := [];
    var i := 0;
    while i < |listing|
      invariant 0 <= i <= |listing|
      invariant found == Scan(listing[..i], EntryAsWritten)
    {
      assert listing[..i + 1][..i] == listing[..i];
      var entry := EntryAsWritten(listing[i]);
      if entry.Some? {
        found := found + [entry.value];
      }
      i := i + 1;
    }
    assert listing[..i] == listing;
  }

  /** The corrected filename filter of `get_available_dates`, over the directory's
      names in an arbitrary order. */
  method CollectListed(files: map<string, FileContent>) returns (found: seq<DateEntry>)
    ensures forall k :: 0 <= k < |found| ==>
      DatedFile(found[k].date) in files && Strptime(found[k].date).Some? && found[k] == EntryFor(found[k].date)
    ensures forall name :: name in files && ListedDate(name).Some? ==> EntryFor(ListedDate(name).value) in found
    ensures DistinctDates(found)
  {
    var pending := files.Keys;
    ghost var seen: set<string> := {};
    found := [];
    while pending != {}
      invariant pending !! seen && pending + seen == files.Keys
      invariant ListsOnly(found, seen) && ListsAll(found, seen) && DistinctDates(found)
      decreases pending
    {
      var name :| name in pending;
      pending := pending - {name};
      var listed := ListedDate(name);
      ListsOnlyGrows(found, seen, name);
      if listed.Some? {
        ListsAllStep(found, seen, name, listed.value);
        DistinctStep(found, seen, name, listed.value);
        found := found + [EntryFor(listed.value)];
      } else {
        ListsAllSkip(found, seen, name);
      }
      seen := seen + {name};
    }
  }

  /** Every entry of `found` is the entry of a dated file among `names`. */
  predicate ListsOnly(found: seq<DateEntry>, names: set<string>) {
    forall k :: 0 <= k < |found| ==>
      DatedFile(found[k].date) in names && Strptime(found[k].date).Some? && found[k] == EntryFor(found[k].date)
  }

  /** Every dated file among `names` has its entry in `found`. */
  predicate ListsAll(found: seq<DateEntry>, names: set<string>) {
    forall name :: name in names && ListedDate(name).Some? ==> EntryFor(ListedDate(name).value) in found
  }

  lemma ListsOnlyGrows(found: seq<DateEntry>, seen: set<string>, name: string)
    requires ListsOnly(found, seen)
    ensures ListsOnly(found, seen + {name})
    ensures ListedDate(name).Some? ==> ListsOnly(found + [EntryFor(ListedDate(name).value)], seen + {name})
  {
  }

  lemma ListsAllStep(found: seq<DateEntry>, seen: set<string>, name: string, key: string)
    requires ListsAll(found, seen) && ListedDate(name) == Some(key)
    ensures ListsAll(found + [EntryFor(key)], seen + {name})
  {
    forall other | other in seen + {name} && ListedDate(other).Some?
      ensures EntryFor(ListedDate(other).value) in found + [EntryFor(key)]
    {
      if other != name {
        assert EntryFor(ListedDate(other).value) in found;
      }
    }
  }

  lemma ListsAllSkip(found: seq<DateEntry>, seen: set<string>, name: string)
    requires ListsAll(found, seen) && ListedDate(name).None?
    ensures ListsAll(found, seen + {name})
  {
  }

  /** A file not scanned before adds a date not listed before. */
  lemma DistinctStep(found: seq<DateEntry>, seen: set<string>, name: string, key: string)
    requires name !in seen && ListsOnly(found, seen) && DistinctDates(found) && ListedDate(name) == Some(key)
    ensures DistinctDates(found + [EntryFor(key)])
  {
    forall k | 0 <= k < |found|
      ensures found[k].date != key
    {
      assert DatedFile(found[k].date) in seen;
    }
  }

  /** A section's items with their dates rewritten in turn; `done` is false
      at the first item that overflows, with the items before it rewritten. */
  method RedateSection(items: seq<Item>, target: Date, seed: nat) returns (r: seq<Item>, done: bool)
    requires ValidDate(target)
    ensures |r| == |items|
    ensures forall i :: 0 <= i < |items| ==> SameExceptDate(r[i], items[i])
    ensures done <==> ItemsFit(|items|, target, seed)
    ensures done ==> r == RedateItems(items, target, seed)
  {
    r := items;
    var i := 0;
    while i < |items|
      invariant 0 <= i <= |items| == |r|
      invariant ItemsFit(i, target, seed)
      invariant forall k :: 0 <= k < i ==> r[k] == items[k].(date := Format(ItemDate(target, seed, k)))
      invariant forall k :: i <= k < |items| ==> r[k] == items[k]
    {
      var fits, itemDate := OffsetDate(target, seed, i);
      if !fits {
        return r, false;
      }
      r := r[i := items[i].(date := Format(itemDate))];
      var contentVariant := ContentVariant(seed, i);
      i := i + 1;
    }
    done := true;
  }

  /** The outer loop of `generate_daily_insights` over the template's
      sections: `done` is false where an item date overflows, and the
      sections re-dated before that keep their new dates. */
  method RedateEntries(entries: seq<SectionEntry>, target: Date, seed: nat)
    returns (out: seq<SectionEntry>, done: bool)
    requires ValidDate(target)
    ensures |out| == |entries|
    ensures forall k :: 0 <= k < |entries| ==> SameEntryExceptDates(entries[k], out[k])
    ensures done <==> !SectionsOverflow(entries, target, seed)
    ensures done ==> out == RedateSections(entries, target, seed)
  {
    out := entries;
    var j := 0;
    while j < |entries|
      invariant 0 <= j <= |entries| == |out|
      invariant forall k :: 0 <= k < j ==> ItemsFit(|entries[k].section.items|, target, seed)
      invariant forall k :: 0 <= k < j ==> out[k] == RedateEntry(entries[k], target, seed)
      invariant forall k :: j <= k < |entries| ==> out[k] == entries[k]
      invariant forall k :: 0 <= k < |entries| ==> SameEntryExceptDates(entries[k], out[k])
    {
      var redated;
      redated, done := RedateEntryInPlace(entries[j], target, seed);
      out := out[j := redated];
      if !done {
        var i :| 0 <= i < |entries[j].section.items| && OffsetOverflows(target, seed, i);
        assert SectionsOverflow(entries, target, seed);
        return;
      }
      j := j + 1;
    }
    done := true;
    NoOverflow(entries, target, seed);
    RedatedAll(entries, out, target, seed);
  }

  /** One pass of the outer loop of `generate_daily_insights`. */
  method RedateEntryInPlace(e: SectionEntry, target: Date, seed: nat) returns (r: SectionEntry, done: bool)
    requires ValidDate(target)
    ensures SameEntryExceptDates(e, r)
    ensures done <==> ItemsFit(|e.section.items|, target, seed)
    ensures done ==> r == RedateEntry(e, target, seed)
  {
    var items;
    items, done := RedateSection(e.section.items, target, seed);
    r := SectionEntry(e.key, e.section.(items := items));
  }

  lemma RedatedAll(entries: seq<SectionEntry>, redated: seq<SectionEntry>, target: Date, seed: nat)
    requires ValidDate(target) && !SectionsOverflow(entries, target, seed)
    requires |redated| == |entries|
    requires forall k :: 0 <= k < |entries| ==> redated[k] == RedateEntry(entries[k], target, seed)
    ensures redated == RedateSections(entries, target, seed)
  {
  }

  /** `date_obj - timedelta(days=days_offset)` for item `i`, or `fits`
      false where that raises OverflowError. */
  method OffsetDate(target: Date, seed: nat, i: nat) returns (fits: bool, d: Date)
    requires ValidDate(target)
    ensures fits <==> !OffsetOverflows(target, seed, i)
    ensures fits ==> d == ItemDate(target, seed, i)
  {
    var offset := (seed + i) % OffsetSpread;
    var n := Ordinal(target) - offset;
    if n < 1 {
      return false, target;
    }
    fits := true;
    d := if offset > 0 then FromOrdinal(n) else target;
  }

  lemma NoOverflow(entries: seq<SectionEntry>, target: Date, seed: nat)
    requires ValidDate(target)
    requires forall j :: 0 <= j < |entries| ==> ItemsFit(|entries[j].section.items|, target, seed)
    ensures !SectionsOverflow(entries, target, seed)
  {
  }

  lemma SameExceptItemDatesReflexive(a: Dataset)
    ensures SameExceptItemDates(a, a)
  {
  }

  lemma SameShapeKeepsBaseline(a: Dataset, b: Dataset)
    requires IsBaseline(a) && SameExceptItemDates(a, b)
    ensures IsBaseline(b)
  {
    var x, y := a.sections.value, b.sections.value;
    assert Keys(y) == Keys(x);
  }
}
