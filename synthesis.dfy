/** `generate_daily_insights`: the dataset made for a date with no snapshot,
    from the baseline template, the date's display form and a seed derived
    from the date. This module holds the function the in-place method of
    `Service.InsightsApp` is proved against. */
module Synthesis {
  import opened Wrappers
  import opened Calendar
  import opened DateText
  import opened Insights

  /** The number of different day offsets an item can get. */
  const OffsetSpread := 3

  /** How many days item `i` is dated before the target: 0, 1 or 2. */
  function DaysOffset(seed: nat, i: nat): (k: nat)
    ensures k < OffsetSpread
  {
    (seed + i) % OffsetSpread
  }

  /** `(date_hash + i * 17) % 5`: computed by the source for every item and
      never used. */
  function ContentVariant(seed: nat, i: nat): nat {
    (seed + i * 17) % 5
  }

  /** Whether item `i`'s date would fall before 0001-01-01, where
      `date_obj - timedelta(days=...)` raises OverflowError. */
  predicate OffsetOverflows(target: Date, seed: nat, i: nat)
    requires ValidDate(target)
  {
    Ordinal(target) - DaysOffset(seed, i) < MinOrdinal
  }

  /** The date item `i` gets: the target itself for offset 0, otherwise
      that many days earlier. */
  function ItemDate(target: Date, seed: nat, i: nat): (d: Date)
    requires ValidDate(target) && !OffsetOverflows(target, seed, i)
    ensures ValidDate(d)
  {
    var offset := DaysOffset(seed, i);
    if offset > 0 then
      FromOrdinalBounded(Ordinal(target) - offset, target);
      FromOrdinal(Ordinal(target) - offset)
    else target
  }

  /** Whether none of the first `n` items overflows. */
  predicate ItemsFit(n: int, target: Date, seed: nat)
    requires ValidDate(target)
  {
    forall i :: 0 <= i < n ==> !OffsetOverflows(target, seed, i)
  }

  /** Whether any item of any section overflows. */
  predicate SectionsOverflow(entries: seq<SectionEntry>, target: Date, seed: nat)
    requires ValidDate(target)
  {
    exists j, i :: 0 <= j < |entries| && 0 <= i < |entries[j].section.items| && OffsetOverflows(target, seed, i)
  }

  /** A section's items with their dates rewritten, nothing else changed. */
  function RedateItems(items: seq<Item>, target: Date, seed: nat): (r: seq<Item>)
    requires ValidDate(target) && ItemsFit(|items|, target, seed)
  {
    seq(|items|, i requires 0 <= i < |items| => items[i].(date := Format(ItemDate(target, seed, i))))
  }

  function RedateEntry(e: SectionEntry, target: Date, seed: nat): SectionEntry
    requires ValidDate(target) && ItemsFit(|e.section.items|, target, seed)
  {
    SectionEntry(e.key, e.section.(items := RedateItems(e.section.items, target, seed)))
  }

  /** The template's sections after the loop of `generate_daily_insights`. */
  function RedateSections(entries: seq<SectionEntry>, target: Date, seed: nat): seq<SectionEntry>
    requires ValidDate(target) && !SectionsOverflow(entries, target, seed)
  {
    seq(|entries|, j requires 0 <= j < |entries| => RedateEntry(entries[j], target, seed))
  }

  /** What `generate_daily_insights` returns for a template with sections,
      or `None` where it raises OverflowError. */
  function Synthesize(template: Dataset, target: Date, seed: nat): Option<Dataset>
    requires ValidDate(target) && template.sections.Some?
  {
    var entries := template.sections.value;
    if SectionsOverflow(entries, target, seed) then None
    else Some(Dataset(Text(Display(target)), Some(RedateSections(entries, target, seed))))
  }

  /** Two items that differ at most in their dates. */
  predicate SameExceptDate(x: Item, y: Item) {
    x.(date := "") == y.(date := "")
  }

  /** Two sections that differ at most in their items' dates. */
  predicate SameEntryExceptDates(x: SectionEntry, y: SectionEntry) {
    && x.key == y.key
    && x.section.title == y.section.title
    && x.section.icon == y.section.icon
    && |x.section.items| == |y.section.items|
    && forall i :: 0 <= i < |x.section.items| ==> SameExceptDate(x.section.items[i], y.section.items[i])
  }

  /** Two datasets that differ at most in their items' dates. */
  predicate SameExceptItemDates(a: Dataset, b: Dataset) {
    && a.date == b.date
    && a.sections.Some? == b.sections.Some?
    && (a.sections.Some? ==>
          && |a.sections.value| == |b.sections.value|
          && forall j :: 0 <= j < |a.sections.value| ==>
               SameEntryExceptDates(a.sections.value[j], b.sections.value[j]))
  }

  // ---------------------------------------------------------------- properties

  /** Item `i`'s new date reads back as a day at most two days before the
      target and never after it. */
  lemma ItemDateWindow(target: Date, seed: nat, i: nat)
    requires ValidDate(target) && !OffsetOverflows(target, seed, i)
    ensures ParseEither(Format(ItemDate(target, seed, i))) == Some(ItemDate(target, seed, i))
    ensures Ordinal(ItemDate(target, seed, i)) == Ordinal(target) - DaysOffset(seed, i)
    ensures Ordinal(target) - 2 <= Ordinal(ItemDate(target, seed, i)) <= Ordinal(target)
  {
    ParseEitherForms(ItemDate(target, seed, i));
  }

  /** Overflow happens only for the first two days of the calendar. */
  lemma OverflowOnlyAtStart(target: Date, seed: nat, i: nat)
    requires ValidDate(target) && OffsetOverflows(target, seed, i)
    ensures target.year == MinYear && target.month == 1 && target.day <= 2
  {
    if target.year > MinYear {
      DaysBeforeYearMonotone(MinYear + 1, target.year);
      assert DaysBeforeYear(MinYear + 1) == DaysInYear(MinYear);
    }
    if target.month > 1 {
      DaysBeforeMonthMonotone(target.year, 2, target.month);
    }
  }

  /** A synthesized dataset carries the target's display date and the
      template's sections; each item differs from the template's only in
      its date, which is the target moved back by `(seed + i) % 3` days. */
  lemma SynthesizedItems(template: Dataset, target: Date, seed: nat, j: int, i: int)
    requires ValidDate(target) && template.sections.Some?
    requires Synthesize(template, target, seed).Some?
    requires 0 <= j < |template.sections.value|
    requires 0 <= i < |template.sections.value[j].section.items|
    ensures var g := Synthesize(template, target, seed).value;
      var e := template.sections.value[j];
      && g.date == Text(Display(target))
      && Keys(g.sections.value) == Keys(template.sections.value)
      && g.sections.value[j].section.title == e.section.title
      && |g.sections.value[j].section.items| == |e.section.items|
      && SameExceptDate(g.sections.value[j].section.items[i], e.section.items[i])
      && ParseEither(g.sections.value[j].section.items[i].date) == Some(ItemDate(target, seed, i))
      && Ordinal(target) - 2 <= Ordinal(ItemDate(target, seed, i)) <= Ordinal(target)
  {
    var e := template.sections.value[j];
    assert !OffsetOverflows(target, seed, i);
    ItemDateWindow(target, seed, i);
  }

  /** Synthesis is determined by the target and the seed's residue: neither
      the template's old item dates nor the seed beyond `% 3` matter. */
  lemma SynthesisDeterministic(a: Dataset, b: Dataset, target: Date, seedA: nat, seedB: nat)
    requires ValidDate(target) && a.sections.Some? && b.sections.Some?
    requires SameExceptItemDates(a, b)
    requires seedA % OffsetSpread == seedB % OffsetSpread
    ensures Synthesize(a, target, seedA) == Synthesize(b, target, seedB)
  {
    var x, y := a.sections.value, b.sections.value;
    assert forall i: nat :: DaysOffset(seedA, i) == DaysOffset(seedB, i);
    assert SectionsOverflow(x, target, seedA) == SectionsOverflow(y, target, seedB) by {
      if SectionsOverflow(x, target, seedA) {
        var j, i :| 0 <= j < |x| && 0 <= i < |x[j].section.items| && OffsetOverflows(target, seedA, i);
        assert OffsetOverflows(target, seedB, i);
      }
      if SectionsOverflow(y, target, seedB) {
        var j, i :| 0 <= j < |y| && 0 <= i < |y[j].section.items| && OffsetOverflows(target, seedB, i);
        assert OffsetOverflows(target, seedA, i);
      }
    }
    if !SectionsOverflow(x, target, seedA) {
      RedateAgrees(x, y, target, seedA, seedB);
    }
  }

  /** Sections equal but for item dates are re-dated alike by seeds that
      give the same offsets. */
  lemma RedateAgrees(x: seq<SectionEntry>, y: seq<SectionEntry>, target: Date, seedA: nat, seedB: nat)
    requires ValidDate(target)
    requires |x| == |y| && forall j :: 0 <= j < |x| ==> SameEntryExceptDates(x[j], y[j])
    requires seedA % OffsetSpread == seedB % OffsetSpread
    requires !SectionsOverflow(x, target, seedA) && !SectionsOverflow(y, target, seedB)
    ensures RedateSections(x, target, seedA) == RedateSections(y, target, seedB)
  {
    var rx, ry := RedateSections(x, target, seedA), RedateSections(y, target, seedB);
    forall j | 0 <= j < |x|
      ensures rx[j] == ry[j]
    {
      RedateEntryAgrees(x[j], y[j], target, seedA, seedB);
    }
    assert rx == ry;
  }

  /** One section of each, re-dated alike. */
  lemma RedateEntryAgrees(ex: SectionEntry, ey: SectionEntry, target: Date, seedA: nat, seedB: nat)
    requires ValidDate(target) && SameEntryExceptDates(ex, ey)
    requires seedA % OffsetSpread == seedB % OffsetSpread
    requires ItemsFit(|ex.section.items|, target, seedA) && ItemsFit(|ey.section.items|, target, seedB)
    ensures RedateEntry(ex, target, seedA) == RedateEntry(ey, target, seedB)
  {
    var ix, iy := RedateItems(ex.section.items, target, seedA), RedateItems(ey.section.items, target, seedB);
    forall i | 0 <= i < |ix|
      ensures ix[i] == iy[i]
    {
      assert DaysOffset(seedA, i) == DaysOffset(seedB, i);
      assert ItemDate(target, seedA, i) == ItemDate(target, seedB, i);
      assert SameExceptDate(ex.section.items[i], ey.section.items[i]);
    }
    assert ix == iy;
  }
}
