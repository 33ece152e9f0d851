/** The dataset served by the application, and the two list operations every
    section goes through: `sort_items_by_date` (newest first, unparseable
    dates last) and `limit_items` (a prefix). */
module Insights {
  import opened Wrappers
  import opened Calendar
  import opened DateText

  /** One news item. `date` is whatever text the item carries ("" when the
      key is absent), in either date form or neither. */
  datatype Item = Item(
    title: string,
    description: string,
    who: string,
    impact: string,
    date: string,
    source: string,
    highlight: bool)

  datatype Section = Section(title: string, icon: string, items: seq<Item>)

  /** One `section_key: section` pair of a dataset's `sections` object, in
      the object's order. */
  datatype SectionEntry = SectionEntry(key: string, section: Section)

  /** A dataset's top-level `date` member: absent, a string, a number,
      boolean or null (`Scalar`), or an array or object (`Container`).
      A container keeps the strings Python's `in` finds in it (the string
      elements of an array, the member names of an object) and `rendering`,
      the text `str()` gives it. */
  datatype DateField =
    | Missing
    | Text(text: string)
    | Scalar
    | Container(members: set<string>, rendering: string)

  /** A dataset document; `sections` is `None` when the document has no
      `sections` member. */
  datatype Dataset = Dataset(date: DateField, sections: Option<seq<SectionEntry>>)

  /** The six section keys of the baseline template, in its order. */
  const SectionKeys: seq<string> :=
    ["enterprise_ai", "ai_agents", "semiconductor", "gpu_computing", "ai_research", "ai_experts"]

  /** The section whose items are fetched afresh on every read. */
  const ExpertsKey := "ai_experts"

  function Keys(entries: seq<SectionEntry>): (ks: seq<string>)
    ensures |ks| == |entries|
    ensures forall j :: 0 <= j < |entries| ==> ks[j] == entries[j].key
  {
    if entries == [] then [] else [entries[0].key] + Keys(entries[1..])
  }

  // ---------------------------------------------------------------- sort_items_by_date

  /** The key of `datetime.min`, which unparseable dates sort by: it is the
      key of 0001-01-01. */
  const MinKey := MinOrdinal

  /** The sort key of an item: its date's ordinal, or `MinKey`. */
  function SortKey(item: Item): (k: int)
    ensures k >= MinKey
  {
    match ParseEither(item.date)
    case Some(d) =>
      FromOrdinalOrdinal(d);
      Ordinal(d)
    case None => MinKey
  }

  lemma MinKeyIsFirstDay()
    ensures WellFormed(Date(1, 1, 1)) && Ordinal(Date(1, 1, 1)) == MinKey
  {
  }

  /** `s` is in descending order of `key`. */
  predicate SortedBy(s: seq<Item>, key: Item -> int) {
    forall i, j :: 0 <= i < j < |s| ==> key(s[i]) >= key(s[j])
  }

  /** Newest first. */
  predicate SortedByDate(s: seq<Item>) {
    SortedBy(s, SortKey)
  }

  /** Places `x` in a list sorted descending by `key`, before the items whose
      key is not larger than its own, so that `x` stays ahead of its ties. */
  function InsertBy(x: Item, s: seq<Item>, key: Item -> int): (r: seq<Item>)
    requires SortedBy(s, key)
    ensures multiset(r) == multiset(s) + multiset{x}
    ensures |r| == |s| + 1
    ensures SortedBy(r, key)
  {
    if s == [] || key(s[0]) <= key(x) then [x] + s
    else
      var rest := InsertBy(x, s[1..], key);
      InsertBelowHead(x, s, rest, key);
      [s[0]] + rest
  }

  lemma InsertBelowHead(x: Item, s: seq<Item>, rest: seq<Item>, key: Item -> int)
    requires s != [] && SortedBy(s, key) && key(x) < key(s[0])
    requires multiset(rest) == multiset(s[1..]) + multiset{x}
    requires SortedBy(rest, key)
    ensures SortedBy([s[0]] + rest, key)
    ensures multiset([s[0]] + rest) == multiset(s) + multiset{x}
  {
    assert s == [s[0]] + s[1..];
    forall j | 0 <= j < |rest|
      ensures key(rest[j]) <= key(s[0])
    {
      assert rest[j] in multiset(rest);
      if rest[j] != x {
        assert rest[j] in multiset(s[1..]);
        var k :| 0 <= k < |s[1..]| && s[1..][k] == rest[j];
        assert s[k + 1] == rest[j];
      }
    }
  }

  /** Python's stable `sorted(items, key=key, reverse=True)`, as an
      insertion sort from the back of the list. */
  function SortDescendingBy(items: seq<Item>, key: Item -> int): (r: seq<Item>)
    ensures multiset(r) == multiset(items)
    ensures |r| == |items|
    ensures SortedBy(r, key)
  {
    if items == [] then []
    else
      assert items == [items[0]] + items[1..];
      InsertBy(items[0], SortDescendingBy(items[1..], key), key)
  }

  /** `sort_items_by_date`: newest first by `SortKey`. */
  function SortItemsByDate(items: seq<Item>): (r: seq<Item>)
    ensures multiset(r) == multiset(items)
    ensures |r| == |items|
    ensures SortedByDate(r)
  {
    SortDescendingBy(items, SortKey)
  }

  /** The items of `s` whose key is `k`, in order. */
  function WithKey(s: seq<Item>, key: Item -> int, k: int): seq<Item> {
    if s == [] then []
    else (if key(s[0]) == k then [s[0]] else []) + WithKey(s[1..], key, k)
  }

  lemma WithKeyCons(y: Item, t: seq<Item>, key: Item -> int, k: int)
    ensures WithKey([y] + t, key, k) == (if key(y) == k then [y] else []) + WithKey(t, key, k)
  {
    assert ([y] + t)[1..] == t;
  }

  lemma {:induction false} InsertKeepsTies(x: Item, s: seq<Item>, key: Item -> int, k: int)
    requires SortedBy(s, key)
    ensures WithKey(InsertBy(x, s, key), key, k)
         == (if key(x) == k then [x] else []) + WithKey(s, key, k)
  {
    if s == [] || key(s[0]) <= key(x) {
      WithKeyCons(x, s, key, k);
    } else {
      InsertKeepsTies(x, s[1..], key, k);
      TiesBelowHead(x, s, InsertBy(x, s[1..], key), key, k);
    }
  }

  lemma TiesBelowHead(x: Item, s: seq<Item>, rest: seq<Item>, key: Item -> int, k: int)
    requires s != [] && key(x) < key(s[0])
    requires WithKey(rest, key, k) == (if key(x) == k then [x] else []) + WithKey(s[1..], key, k)
    ensures WithKey([s[0]] + rest, key, k) == (if key(x) == k then [x] else []) + WithKey(s, key, k)
  {
    WithKeyCons(s[0], rest, key, k);
    WithKeyCons(s[0], s[1..], key, k);
    assert s == [s[0]] + s[1..];
  }

  /** The sort is stable: items with equal keys keep their input order. */
  lemma {:induction false} SortIsStable(items: seq<Item>, key: Item -> int, k: int)
    ensures WithKey(SortDescendingBy(items, key), key, k) == WithKey(items, key, k)
  {
    if items != [] {
      SortIsStable(items[1..], key, k);
      InsertKeepsTies(items[0], SortDescendingBy(items[1..], key), key, k);
      WithKeyCons(items[0], items[1..], key, k);
      assert items == [items[0]] + items[1..];
    }
  }

  /** Items whose date does not parse sink to the bottom: after one of them
      come only others like it, or items dated 0001-01-01 (which tie with
      `datetime.min`). */
  lemma UnparsedSinkToBottom(items: seq<Item>, i: int, j: int)
    requires 0 <= i < j < |items|
    requires ParseEither(SortItemsByDate(items)[i].date).None?
    ensures SortKey(SortItemsByDate(items)[j]) == MinKey
  {
    var r := SortItemsByDate(items);
    assert SortKey(r[i]) == MinKey;
    assert SortKey(r[i]) >= SortKey(r[j]);
  }

  /** When every item has the same key the sort changes nothing. */
  lemma {:induction false} SortKeepsEqualKeys(items: seq<Item>, key: Item -> int)
    requires forall i :: 0 <= i < |items| ==> key(items[i]) == key(items[0])
    ensures SortDescendingBy(items, key) == items
  {
    if items != [] {
      SortKeepsEqualKeys(items[1..], key);
      var rest := items[1..];
      assert rest == [] || key(rest[0]) <= key(items[0]);
      assert [items[0]] + rest == items;
    }
  }

  // ---------------------------------------------------------------- limit_items

  /** `limit_items`: `items[:max_items] if items else []`, with Python's
      slice rule for a negative bound (count from the end). */
  function LimitItems(items: seq<Item>, maxItems: int): (r: seq<Item>)
    ensures |r| <= |items| && r == items[..|r|]
    ensures maxItems >= 0 ==> |r| == (if |items| < maxItems then |items| else maxItems)
    ensures maxItems < 0 ==> |r| == (if |items| + maxItems > 0 then |items| + maxItems else 0)
  {
    if items == [] then []
    else if maxItems >= 0 then (if maxItems < |items| then items[..maxItems] else items)
    else if |items| + maxItems > 0 then items[..|items| + maxItems]
    else []
  }

  /** The number of items every processed section keeps at most. */
  const MaxItems := 8
}
