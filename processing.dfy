/** `process_insights_data`: every section of a dataset is cut down to its
    eight newest items; with a date, the items far from it are dropped first
    (unless that would drop them all); the expert section is replaced by a
    fresh expert feed. */
module Processing {
  import opened Wrappers
  import opened Calendar
  import opened DateText
  import opened Insights
  import opened Experts

  /** Items more than this many days from the requested date are dropped. */
  const ProximityDays := 3

  /** The date argument after the localized markers are stripped. */
  function StripIfLocalized(s: string): string {
    if YearMarker in s then StripMarkers(s) else s
  }

  /** The date the sections are filtered around, or `None` when the date
      argument is absent or empty (after stripping) and nothing is filtered.
      A date argument that does not parse falls back to `today`. */
  function FilterTarget(dateArg: Option<string>, today: Date): (t: Option<Date>)
    requires ValidDate(today)
    ensures t.Some? ==> ValidDate(t.value)
  {
    match dateArg
    case None => None
    case Some(s) =>
      if s == "" || StripIfLocalized(s) == "" then None
      else Some(Strptime(StripIfLocalized(s)).GetOr(today))
  }

  /** Whether the filter keeps an item: its date is at most three days from
      `target` either way, or does not parse at all. */
  predicate NearTarget(item: Item, target: Date)
    requires ValidDate(target)
  {
    match ParseEither(item.date)
    case None => true
    case Some(d) => -ProximityDays <= Ordinal(target) - Ordinal(d) <= ProximityDays
  }

  /** The items the proximity filter keeps, in order. */
  function ProximityFilter(items: seq<Item>, target: Date): (r: seq<Item>)
    requires ValidDate(target)
    ensures multiset(r) <= multiset(items)
    ensures forall i :: 0 <= i < |r| ==> NearTarget(r[i], target)
    ensures forall i :: 0 <= i < |items| && NearTarget(items[i], target) ==> items[i] in r
  {
    if items == [] then []
    else
      var rest := ProximityFilter(items[1..], target);
      var r := if NearTarget(items[0], target) then [items[0]] + rest else rest;
      assert items == [items[0]] + items[1..];
      forall i | 0 <= i < |items| && NearTarget(items[i], target)
        ensures items[i] in r
      {
        if i > 0 {
          assert items[i] == items[1..][i - 1];
        }
      }
      r
  }

  /** The items a section is shaped from: those the filter keeps, or all of
      them when it keeps none or does not run. */
  function ChosenItems(items: seq<Item>, target: Option<Date>): (chosen: seq<Item>)
    requires target.Some? ==> ValidDate(target.value)
    ensures multiset(chosen) <= multiset(items)
  {
    match target
    case None => items
    case Some(t) =>
      var kept := ProximityFilter(items, t);
      if kept != [] then kept else items
  }

  /** A non-expert section's items after processing. */
  function ShapeSection(items: seq<Item>, target: Option<Date>): seq<Item>
    requires target.Some? ==> ValidDate(target.value)
  {
    LimitItems(SortItemsByDate(ChosenItems(items, target)), MaxItems)
  }

  /** One section after processing. */
  function ProcessEntry(e: SectionEntry, target: Option<Date>, today: Date, failed: set<int>, feedRaises: bool)
    : SectionEntry
    requires ValidDate(today)
    requires target.Some? ==> ValidDate(target.value)
  {
    var items :=
      if e.key != ExpertsKey then ShapeSection(e.section.items, target)
      else if feedRaises then LimitItems(SortItemsByDate(e.section.items), MaxItems)
      else ExpertFeed(today, failed);
    SectionEntry(e.key, e.section.(items := items))
  }

  /** What `process_insights_data` returns. `failed` names the experts whose
      search raises; `feedRaises` stands for an exception escaping the whole
      expert search, which falls back to the section's own items. */
  function ProcessInsights(data: Dataset, dateArg: Option<string>, today: Date, failed: set<int>, feedRaises: bool)
    : Dataset
    requires ValidDate(today)
  {
    match data.sections
    case None => data
    case Some(entries) =>
      data.(sections := Some(ProcessEntries(entries, FilterTarget(dateArg, today), today, failed, feedRaises)))
  }

  /** Every section processed, in order. */
  function ProcessEntries(entries: seq<SectionEntry>, target: Option<Date>, today: Date, failed: set<int>,
                          feedRaises: bool): (r: seq<SectionEntry>)
    requires ValidDate(today)
    requires target.Some? ==> ValidDate(target.value)
    ensures |r| == |entries|
    ensures forall j :: 0 <= j < |entries| ==> r[j] == ProcessEntry(entries[j], target, today, failed, feedRaises)
  {
    seq(|entries|, j requires 0 <= j < |entries| => ProcessEntry(entries[j], target, today, failed, feedRaises))
  }

  lemma {:induction false} FilterAppend(items: seq<Item>, x: Item, target: Date)
    requires ValidDate(target)
    ensures ProximityFilter(items + [x], target)
         == ProximityFilter(items, target) + (if NearTarget(x, target) then [x] else [])
  {
    if items != [] {
      assert (items + [x])[1..] == items[1..] + [x];
      FilterAppend(items[1..], x, target);
    }
  }

  lemma FilterStep(items: seq<Item>, i: int, target: Date, keep: bool)
    requires ValidDate(target) && 0 <= i < |items|
    requires keep == NearTarget(items[i], target)
    ensures ProximityFilter(items[..i + 1], target)
         == ProximityFilter(items[..i], target) + (if keep then [items[i]] else [])
  {
    assert items[..i + 1] == items[..i] + [items[i]];
    FilterAppend(items[..i], items[i], target);
  }

  /** The filter loop of `process_insights_data`. */
  method FilterByProximity(items: seq<Item>, target: Date) returns (filtered: seq<Item>)
    requires ValidDate(target)
    ensures filtered == ProximityFilter(items, target)
  {
    filtered := [];
    var i := 0;
    while i < |items|
      invariant 0 <= i <= |items|
      invariant filtered == ProximityFilter(items[..i], target)
    {
      var keep := KeepsItem(items[i], target);
      FilterStep(items, i, target, keep);
      if keep {
        filtered := filtered + [items[i]];
      }
      i := i + 1;
    }
    assert items[..i] == items;
  }

  /** One test of the filter loop: the item's date, stripped if localized,
      within three days of the target, or not a date at all. */
  method KeepsItem(item: Item, target: Date) returns (keep: bool)
    requires ValidDate(target)
    ensures keep == NearTarget(item, target)
  {
    var text := item.date;
    if YearMarker in text {
      text := StripMarkers(text);
    }
    match Strptime(text) {
      case Some(d) =>
        var diff := Ordinal(target) - Ordinal(d);
        keep := -ProximityDays <= diff <= ProximityDays;
      case None =>
        keep := true;
    }
  }

  /** The opening of `process_insights_data`: the reference date
      (`current_date`) and whether the date argument asks for filtering. */
  method ReferenceDate(dateArg: Option<string>, today: Date) returns (filtering: bool, current: Date)
    requires ValidDate(today)
    ensures ValidDate(current)
    ensures filtering <==> FilterTarget(dateArg, today).Some?
    ensures filtering ==> current == FilterTarget(dateArg, today).value
  {
    current := today;
    filtering := false;
    if dateArg.Some? && dateArg.value != "" {
      var s := dateArg.value;
      if YearMarker in s {
        s := StripMarkers(s);
      }
      match Strptime(s) {
        case Some(d) => current := d;
        case None => current := today;
      }
      filtering := s != "";
    }
  }

  /** The body of `process_insights_data`'s loop over the sections. */
  method ProcessSection(e: SectionEntry, filtering: bool, current: Date, today: Date, failed: set<int>,
                        feedRaises: bool)
    returns (r: SectionEntry)
    requires ValidDate(today) && ValidDate(current)
    ensures r == ProcessEntry(e, if filtering then Some(current) else None, today, failed, feedRaises)
  {
    var items: seq<Item>;
    if e.key == ExpertsKey {
      if !feedRaises {
        items := SearchChineseAiExperts(today, failed);
      } else {
        items := LimitItems(SortItemsByDate(e.section.items), MaxItems);
      }
    } else {
      items := e.section.items;
      if filtering {
        var kept := FilterByProximity(items, current);
        if kept != [] {
          items := kept;
        }
      }
      items := LimitItems(SortItemsByDate(items), MaxItems);
    }
    r := SectionEntry(e.key, e.section.(items := items));
  }

  /** The loop of `process_insights_data` over the sections. */
  method ProcessSections(entries: seq<SectionEntry>, filtering: bool, current: Date, today: Date, failed: set<int>,
                         feedRaises: bool)
    returns (processed: seq<SectionEntry>)
    requires ValidDate(today) && ValidDate(current)
    ensures processed == ProcessEntries(entries, if filtering then Some(current) else None, today, failed, feedRaises)
  {
    ghost var expected := ProcessEntries(entries, if filtering then Some(current) else None, today, failed, feedRaises);
    processed := [];
    var j := 0;
    while j < |entries|
      invariant 0 <= j <= |entries|
      invariant processed == expected[..j]
    {
      var entry := ProcessSection(entries[j], filtering, current, today, failed, feedRaises);
      assert entry == expected[j];
      PrefixStep(expected, j);
      processed := processed + [entry];
      j := j + 1;
    }
  }

  lemma PrefixStep<T>(s: seq<T>, j: int)
    requires 0 <= j < |s|
    ensures s[..j + 1] == s[..j] + [s[j]]
  {
  }

  /** `process_insights_data`. */
  method ProcessInsightsData(data: Dataset, dateArg: Option<string>, today: Date, failed: set<int>, feedRaises: bool)
    returns (r: Dataset)
    requires ValidDate(today)
    ensures r == ProcessInsights(data, dateArg, today, failed, feedRaises)
  {
    if data.sections.None? {
      return data;
    }
    var entries := data.sections.value;
    var filtering, current := ReferenceDate(dateArg, today);
    var processed := ProcessSections(entries, filtering, current, today, failed, feedRaises);
    r := data.(sections := Some(processed));
  }

  // ---------------------------------------------------------------- properties

  lemma PrefixMultiset(s: seq<Item>, k: int)
    requires 0 <= k <= |s|
    ensures multiset(s[..k]) <= multiset(s)
  {
    assert s == s[..k] + s[k..];
  }

  /** A shaped section holds at most eight items, newest first, each taken
      from the section (none twice more than it occurred). */
  lemma ShapeSectionBounded(items: seq<Item>, target: Option<Date>)
    requires target.Some? ==> ValidDate(target.value)
    ensures |ShapeSection(items, target)| <= MaxItems
    ensures SortedByDate(ShapeSection(items, target))
    ensures multiset(ShapeSection(items, target)) <= multiset(items)
  {
    var sorted := SortItemsByDate(ChosenItems(items, target));
    var r := ShapeSection(items, target);
    assert r == sorted[..|r|];
    PrefixMultiset(sorted, |r|);
  }

  /** The filter fails open: if it would keep nothing, the section is
      shaped from all its items, so it is empty only if it was empty. */
  lemma ShapeSectionFailsOpen(items: seq<Item>, t: Date)
    requires ValidDate(t)
    requires ProximityFilter(items, t) == []
    ensures ShapeSection(items, Some(t)) == LimitItems(SortItemsByDate(items), MaxItems)
    ensures |ShapeSection(items, Some(t))| == (if |items| < MaxItems then |items| else MaxItems)
  {
  }

  /** When the filter keeps something, every item shown is near the date. */
  lemma ShapeSectionKeepsNear(items: seq<Item>, t: Date, i: int)
    requires ValidDate(t)
    requires ProximityFilter(items, t) != []
    requires 0 <= i < |ShapeSection(items, Some(t))|
    ensures NearTarget(ShapeSection(items, Some(t))[i], t)
  {
    var kept := ProximityFilter(items, t);
    var sorted := SortItemsByDate(kept);
    var r := ShapeSection(items, Some(t));
    assert r[i] == sorted[i];
    assert sorted[i] in multiset(kept);
  }

  /** Processing keeps the dataset's date and its sections' keys, titles and
      icons in order; a dataset without sections comes back unchanged. */
  lemma ProcessKeepsShape(data: Dataset, dateArg: Option<string>, today: Date, failed: set<int>, feedRaises: bool)
    requires ValidDate(today)
    ensures var r := ProcessInsights(data, dateArg, today, failed, feedRaises);
      && r.date == data.date
      && r.sections.Some? == data.sections.Some?
      && (data.sections.None? ==> r == data)
      && (data.sections.Some? ==>
            && Keys(r.sections.value) == Keys(data.sections.value)
            && forall j :: 0 <= j < |data.sections.value| ==>
                 && r.sections.value[j].section.title == data.sections.value[j].section.title
                 && r.sections.value[j].section.icon == data.sections.value[j].section.icon)
  {
  }

  /** Every processed section holds at most eight items, newest first. */
  lemma ProcessedSectionsBounded(data: Dataset, dateArg: Option<string>, today: Date, failed: set<int>,
                                 feedRaises: bool, j: int)
    requires ValidDate(today)
    requires data.sections.Some? && 0 <= j < |data.sections.value|
    ensures var r := ProcessInsights(data, dateArg, today, failed, feedRaises);
      && |r.sections.value[j].section.items| <= MaxItems
      && SortedByDate(r.sections.value[j].section.items)
  {
    var e := data.sections.value[j];
    var target := FilterTarget(dateArg, today);
    if e.key != ExpertsKey {
      ShapeSectionBounded(e.section.items, target);
    }
  }

  /** The expert section, unless its search raises, is the expert feed,
      whatever the section held before. */
  lemma ProcessedExpertSection(data: Dataset, dateArg: Option<string>, today: Date, failed: set<int>, j: int)
    requires ValidDate(today)
    requires data.sections.Some? && 0 <= j < |data.sections.value|
    requires data.sections.value[j].key == ExpertsKey
    ensures ProcessInsights(data, dateArg, today, failed, false).sections.value[j].section.items
         == ExpertFeed(today, failed)
  {
  }

  /** A date argument that parses (and holds no marker) is the filter target. */
  lemma FilterTargetOfParsed(s: string, d: Date, today: Date)
    requires ValidDate(today)
    requires Strptime(s) == Some(d)
    ensures FilterTarget(Some(s), today) == Some(d)
  {
    ParsedHasNoMarker(s);
  }
}
