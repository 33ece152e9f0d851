# AI news digest — a Dafny model of its data core

The application serves a daily digest of AI news grouped into six sections:
enterprise AI, AI agents, semiconductors, compute and policy, AI research and
AI experts.
This project models the part of `app.py` that decides *which* digest
is served and *what shape* it has. That part covers:

- turning the dates users type (`2024-03-05` or `2024年03月05日`) into file keys
  and date-input values (`format_date_for_input`);
- sorting items newest first and capping each section at eight items
  (`sort_items_by_date`, `limit_items`);
- the placeholder expert feed (`generate_mock_expert_info`,
  `search_chinese_ai_experts`);
- the synthesis of a digest for a date that has none (`generate_daily_insights`);
- the per-section processing (`process_insights_data`): a ±3-day proximity filter,
  which falls back to the whole section when nothing is near, and the expert
  section, which is replaced by a fresh feed;
- the fallback chain of `load_insights`: the dated file, then the default file if
  its date matches, then synthesis;
- the file key that `update_insights` saves under;
- the newest-first date listing of `get_available_dates`, both as written
  (`GetAvailableDatesAsWritten`) and with the file-name bug listed under
  "Findings" corrected (`GetAvailableDates`).

Modules, one per file:

| module | file | models |
|---|---|---|
| `Wrappers` | wrappers.dfy | `Option` |
| `Calendar` | calendar.dfy | proleptic Gregorian dates, day ordinals (as Python's `toordinal`), `FromOrdinal` for date arithmetic |
| `DateText` | datetext.dfy | `strftime("%Y-%m-%d")`, `strftime("%Y年%m月%d日")`, `strptime(s, "%Y-%m-%d")`, the marker stripping, `zfill`, `format_date_for_input` |
| `Insights` | insights.dfy | items, sections, datasets; `sort_items_by_date`, `limit_items` |
| `Experts` | experts.dfy | the expert roster, `generate_mock_expert_info`, `search_chinese_ai_experts` |
| `Processing` | processing.dfy | `process_insights_data` |
| `Synthesis` | synthesis.dfy | the item re-dating of `generate_daily_insights` as a function of the template |
| `Listing` | listing.dfy | file names, the listed date of a file, the order of the listing |
| `Service` | service.dfy | the class `InsightsApp` holding the data directory and the shared default template, with `generate_daily_insights`, `load_insights`, `update_insights` and `get_available_dates` |

The data directory is a `map` from file name to content. The clock is a
`today` parameter. The MD5 seed is a function parameter `hash`. The
per-expert search failures are a set of roster indices (`failed`).
`feedRaises` stands for an exception escaping the whole expert search.
A write failure is a boolean `writeOk`. The directory order of `os.listdir`
is a parameter `listing`.

`generate_daily_insights` copies the module-level template `DEFAULT_INSIGHTS`
only shallowly, so it rewrites the item dates *of the template itself*. The
model keeps that template as the field `baseline` of `InsightsApp`, and
`GenerateDailyInsights` updates it in place. `LoadRepeatable` proves that
this mutation never changes an answer.

The model follows what the code does, also where that is easy to misread:

- The load key is the date string as typed, with 年/月 turned into `-` and 日 removed. It is
  not re-formatted: `2024年3月5日` looks for `insights_2024-3-5.json`, not
  `insights_2024-03-05.json` (`LoadKeyCases`).
- A payload whose `date` is text always names a dated file, even when that text is
  not a date. A number, boolean or null `date` falls back to the default file, and so
  does an array or object holding "年". Any other array or object names a file after its
  `str()` rendering (`TextDateNeverDefault`).
- On the default file, an array or object `date` matches a key exactly when the key is
  one of its elements or member names (`DefaultMatches`, inside `LoadSpec`).
- A dated file holding JSON that is not an object is answered as it is when it is falsy
  (`null`, `false`, `0`, `""`, `[]`), or a string or array without "sections". A truthy
  scalar, or a string or array holding "sections", makes `process_insights_data` raise, and
  the load goes on to the default file or synthesis (`NonObjectSnapshot`). The default
  file's `data.get` raises on any such document, so it never matches.
- The date list is sorted by its key *string*. For zero-padded keys this is date order
  (`FormatOrder`, `CanonicalListingNewestFirst`). For the unpadded keys that `strptime`
  also accepts, it is not (`UnpaddedKeysOrderedAsText`).
- The comment at app.py:476 says synthesis copies the template, but `.copy()` is shallow:
  synthesis rewrites the template's own item dates (see above).
- `format_date_for_input` is idempotent only when its first result parses or is empty.
  A localized date whose year does not have four digits is rewritten once and then
  refused (`InputNotIdempotentOnShortYear`).

## Model

| member | source | states |
|---|---|---|
| `Calendar.FromOrdinal` | app.py:492 | the date `n` days after 0000-12-31 is well formed and has ordinal `n` (the date arithmetic behind `date_obj - timedelta(days=…)`) |
| `Calendar.FromOrdinalOrdinal` | app.py:492 | going to the ordinal and back gives the same date |
| `Calendar.OrdinalInjective` | app.py:448 | two dates with one ordinal are the same date, so the sort key orders dates faithfully |
| `Calendar.FromOrdinalBounded` | app.py:492 | stepping back to an ordinal that is still at least 1 stays within years 1..9999 |
| `DateText.Strptime` | app.py:42 | a successful `strptime(s, "%Y-%m-%d")` yields a date of years 1..9999 that exists in the calendar |
| `DateText.ParseFormat` | app.py:470 | `strptime` reads back exactly the date that `strftime("%Y-%m-%d")` wrote |
| `DateText.ParseEitherForms` | app.py:445-448 | both the `YYYY-MM-DD` and the `YYYY年MM月DD日` rendering of a date parse back to that date |
| `DateText.StripDisplay` | app.py:32 | stripping the markers from the localized rendering gives the dashed rendering |
| `DateText.InputFromDisplay` | app.py:30-39 | the localized rendering of a date becomes its `YYYY-MM-DD` input value |
| `DateText.InputLocalizedUnchecked` | app.py:30-39 | any localized text of digit fields is rewritten with month and day zero-filled to two digits, and no calendar check is made |
| `DateText.InputIdempotent` | app.py:25-46 | applying the conversion twice equals applying it once, whenever the first result is empty or a valid date |
| `DateText.InputNotIdempotentOnShortYear` | app.py:30-43 | a localized date with a year that is not four digits is converted once and then refused on the second pass |
| `DateText.ParsedHasNoMarker` | app.py:40-43 | text that `strptime` accepts holds no 年, so it takes the verbatim branch |
| `Insights.SortKey` | app.py:441-452 | every sort key is at least the key of `datetime.min` |
| `Insights.MinKeyIsFirstDay` | app.py:452 | the `datetime.min` key is the key of 0001-01-01 |
| `Insights.SortItemsByDate` | app.py:439-454 | the sorted items are a permutation of the input, newest first |
| `Insights.InsertBy` | app.py:454 | inserting one item into a list sorted descending by a key keeps it sorted and adds exactly that item |
| `Insights.SortDescendingBy` | app.py:454 | `sorted(items, key=key, reverse=True)` returns a permutation of the items in descending key order |
| `Insights.SortIsStable` | app.py:454 | for any key, items with equal keys keep their input order, as Python's stable `sorted(..., reverse=True)` does |
| `Insights.UnparsedSinkToBottom` | app.py:450-452 | every item after an undatable item also has the minimum key: undatable items come last |
| `Insights.SortKeepsEqualKeys` | app.py:454 | a list whose items all share one key value comes back unchanged |
| `Insights.LimitItems` | app.py:457-459 | the result is the prefix of length `min(n, max)` (Python slice semantics, also for a negative bound) |
| `Experts.MockCount` | app.py:394 | the generator makes `min(max_results, 3)` items, and none for a negative count |
| `Experts.MockExpertInfo` | app.py:378-410 | item `i` is titled with the name and activity `i mod 5`, is by the expert, is dated today, and only the first is highlighted |
| `Experts.GenerateMockExpertInfo` | app.py:378-410 | the loop builds exactly the items of `MockExpertInfo` |
| `Experts.GatherFeed` | app.py:415-431 | every gathered item is dated today |
| `Experts.SearchChineseAiExperts` | app.py:413-436 | the loop over the first five experts, skipping failed ones, yields the sorted and capped feed |
| `Experts.ExpertFeedIsPrefix` | app.py:432-436 | the feed is the first `min(n, 8)` gathered items in gathering order |
| `Experts.GatherFeedSources` | app.py:418-430 | each gathered item comes from a searched expert whose search did not fail |
| `Experts.GatherFeedCount` | app.py:418-430 | whoever fails, two items are gathered for every expert that does not |
| `Experts.SurvivorItemsAt` | app.py:418-430 | whoever fails, the items of an expert that does not fail are gathered whole and in order, right after those of the earlier surviving experts |
| `Experts.SurvivorItemsLast` | app.py:418-427 | the items of a surviving expert close the list gathered up to that expert |
| `Experts.NonFailedContributes` | app.py:418-430 | whoever fails, every item of an expert that does not fail is gathered |
| `Experts.ExpertFeedItems` | app.py:413-436 | each feed item is dated today and comes from one of the first five experts that did not fail |
| `Experts.GatherFeedLength` | app.py:418-427 | with no failures, two items are gathered per expert |
| `Experts.GatherFeedAt` | app.py:418-427 | with no failures, gathered item `i` is mock item `i mod 2` of expert `i div 2` |
| `Experts.FeedWithoutFailures` | app.py:413-436 | with no failures the feed is exactly eight items, two from each of the first four experts, and the fifth expert is cut off |
| `Processing.FilterTarget` | app.py:522-531 | a filter date, when there is one, is a valid date |
| `Processing.FilterTargetOfParsed` | app.py:523-527 | a date argument that parses becomes the filter target |
| `Processing.ReferenceDate` | app.py:522-531 | filtering happens exactly when a date argument is given; the reference date is then its parse, else today |
| `Processing.ProximityFilter` | app.py:553-571 | the kept items are a sub-multiset of the input, all within 3 days of the target or undatable, and every such item is kept |
| `Processing.FilterAppend` | app.py:558-570 | filtering a list extended by one item extends the result by that item exactly when it is near |
| `Processing.FilterByProximity` | app.py:555-571 | the filtering loop computes `ProximityFilter` |
| `Processing.KeepsItem` | app.py:559-570 | an item is kept exactly when its date is undatable or within 3 days of the target |
| `Processing.ChosenItems` | app.py:572-574 | the chosen items are a sub-multiset of the section's items |
| `Processing.ProcessSection` | app.py:533-582 | one section is processed as `ProcessEntry` specifies: the expert feed, or its fallback, or filtered, sorted and capped items |
| `Processing.ProcessSections` | app.py:533-584 | the loop processes every section in order |
| `Processing.ProcessEntries` | app.py:533-582 | the processed sections correspond one-to-one and in order to the input sections |
| `Processing.ProcessInsightsData` | app.py:510-584 | the method computes `ProcessInsights` |
| `Processing.ShapeSectionBounded` | app.py:551-580 | every ordinary processed section holds at most 8 items, newest first, all drawn from the input |
| `Processing.ShapeSectionFailsOpen` | app.py:572-574 | when no item is near the target, the whole section is sorted and capped instead |
| `Processing.ShapeSectionKeepsNear` | app.py:553-580 | when some item is near, only near or undatable items are shown |
| `Processing.ProcessKeepsShape` | app.py:516-520 | processing keeps the date, the section keys, titles and icons, and returns data without sections unchanged |
| `Processing.ProcessedSectionsBounded` | app.py:533-582 | every processed section holds at most 8 items, newest first |
| `Processing.ProcessedExpertSection` | app.py:536-541 | the expert section is replaced by the fresh feed whenever the search does not raise |
| `Synthesis.DaysOffset` | app.py:488 | the offset is below 3 |
| `Synthesis.ItemDate` | app.py:486-494 | a re-dated item's date lies in years 1..9999 |
| `Synthesis.ItemDateWindow` | app.py:486-496 | item `i` is dated `(seed + i) mod 3` days before the target, so within the two days before it, and its text parses back |
| `Synthesis.OverflowOnlyAtStart` | app.py:490-492 | the subtraction can leave the calendar only for a target of 0001-01-01 or 0001-01-02 |
| `Synthesis.SynthesizedItems` | app.py:462-507 | the synthesized digest carries the localized target date and the template's sections, titles and item counts; each item differs from the template item only in its date, which lies in the window |
| `Synthesis.SynthesisDeterministic` | app.py:473-474 | templates that differ only in item dates, with seeds equal mod 3, give the same digest: same date, same content |
| `Listing.ListedDate` | app.py:705-710 | a listed key names a file `insights_<key>.json` and parses |
| `Listing.ListedDateOfFile` | app.py:705-710 | a file is listed under a key exactly when it is that key's dated file |
| `Listing.ListedDateAsWritten` | app.py:705-710 | as written, a listed key comes from a name with the prefix and suffix, and it parses |
| `Listing.DoubledSuffixListedAsWritten` | app.py:707 | as written, `insights_<key>.json.json` is listed under `<key>` although it is not that key's file |
| `Listing.CanonicalListedAsWritten` | app.py:705-710 | as written too, a canonical key's own file is listed under that key |
| `Listing.EntryAsWritten` | app.py:705-714 | a name gives an entry exactly when its key, taken with `replace`, parses; the name has the prefix and suffix, and the entry is that key with its localized rendering |
| `Listing.ScanSources` | app.py:702-714 | every scanned entry comes from a name of the listing, and every name that gives an entry contributes it |
| `Listing.ScanAppend` | app.py:702-714 | scanning a listing cut in two gives the two scans in order |
| `Listing.SortedScanSources` | app.py:702-719 | sorting the scan keeps exactly the entries that come from names of the listing |
| `Listing.ScanTwice` | app.py:702-714 | two names giving the same entry put it in the scan twice |
| `Listing.DoubledSuffixListedTwice` | app.py:702-719 | as written, with `insights_<key>.json` and `insights_<key>.json.json` both present, the date list holds the key's entry twice |
| `Listing.RemoveAllLeading` | app.py:707 | removing every occurrence drops a leading occurrence |
| `Listing.StrLessTransitive` | app.py:719 | the key order is transitive |
| `Listing.StrLessTotal` | app.py:719 | any two distinct keys are ordered |
| `Listing.StrLessAsymmetric` | app.py:719 | the key order is asymmetric |
| `Listing.InsertDescending` | app.py:719 | inserting an entry keeps the list descending and adds exactly that entry |
| `Listing.SortDescending` | app.py:719 | the sorted listing is a permutation, in descending key order |
| `Listing.SortDistinct` | app.py:719 | distinct keys are sorted strictly descending |
| `Listing.DigitsOrder` | app.py:719 | on digit strings of one length, string order is numeric order |
| `Listing.StrLessConcat` | app.py:719 | strings compare first on equal-length prefixes |
| `Listing.LexBeforeOrdinal` | app.py:718 | year-month-day order is calendar order |
| `Listing.FormatOrder` | app.py:718-719 | zero-padded keys compare as strings exactly as their dates compare |
| `Listing.CanonicalListingNewestFirst` | app.py:718-719 | a listing of zero-padded keys runs from the latest date to the earliest |
| `Listing.UnpaddedKeysOrderedAsText` | app.py:710-719 | `strptime` accepts unpadded keys, and on those the listing puts 30 September ahead of 1 October |
| `Service.LoadKey` | app.py:592-606 | the load key always parses |
| `Service.LoadKeyCases` | app.py:592-606 | no argument gives today; an argument that parses after marker stripping is kept as stripped; any other gives today |
| `Service.ResolveKey` | app.py:592-606 | the method computes `LoadKey` |
| `Service.InvalidDateLoadsToday` | app.py:604-606 | an unparsable date argument loads exactly what no argument loads |
| `Service.DateFormsKey` | app.py:598-600 | both renderings of a date give its `YYYY-MM-DD` key |
| `Service.SaveFileForms` | app.py:680-687 | a payload dated in either rendering is saved to that date's file; an undated one to today's file |
| `Service.TextDateNeverDefault` | app.py:680-689 | a text date always names a dated file; a scalar date falls back to the default file; an array or object does exactly when it holds "年", and otherwise names the file after its rendering |
| `Service.SaveThenLoad` | app.py:608-691 | after saving a dated payload, loading its date in either rendering serves that payload, processed |
| `Service.UndatedSnapshotServed` | app.py:620-629 | without a dated file, a default file carrying the date is served |
| `Service.NonObjectSnapshot` | app.py:608-617 | a dated file holding JSON that is not an object is answered unchanged when `process_insights_data` hands it back (falsy, or without "sections"); otherwise the load goes on as if the file were absent |
| `Service.LoadRepeatable` | app.py:587-637 | the template mutation by earlier synthesis never changes what a load returns |
| `Service.LoadFromEmptyStore` | app.py:633-637 | with no files, the digest is the synthesis for the key's date with the seed of its key, processed |
| `Service.ProcessedItemFrom` | app.py:573-580 | every item of an ordinary processed section is an item of the input section |
| `Service.SynthesizedItemsNearTarget` | app.py:633-637 | with no files, every item of an ordinary section is a template item re-dated into the two days before the requested date |
| `Service.SameShapeKeepsBaseline` | app.py:63-328 | re-dating items keeps the template's six sections and item counts |
| `Service.InsightsApp.constructor` | app.py:56-63 | the service starts with the given data directory and template |
| `Service.InsightsApp.GenerateDailyInsights` | app.py:462-507 | the result is `Synthesize` of the old template; the template changes only in item dates, and on success it holds the re-dated items |
| `Service.InsightsApp.LoadInsights` | app.py:587-637 | the result is `LoadSpec` of the old store and template; the store is unchanged; the template is unchanged when a stored file answers, and otherwise, on success, holds the items of the synthesized digest |
| `Service.InsightsApp.UpdateInsights` | app.py:674-696 | on a successful write, the payload is stored under `SaveFile` of its date; the template is untouched and the outcome reports the write |
| `Service.InsightsApp.GetAvailableDates` | app.py:699-720 | corrected listing (prefix and suffix stripped once): every listed key has its file in the store, parses and shows its localized rendering; every dated file is listed; keys are strictly descending |
| `Service.CollectListed` | app.py:702-716 | corrected scan: lists every dated file once and nothing else |
| `Service.InsightsApp.GetAvailableDatesAsWritten` | app.py:699-720 | listing as written, for the names in `os.listdir` order: the result is the scan sorted newest first; every entry comes from a stored file with the prefix and suffix whose key parses; every such file is listed; keys are non-increasing |
| `Service.ScanListingAsWritten` | app.py:702-716 | the loop appends, in listing order, the entry of each name whose key parses, as `Scan` does |
| `Service.RedateSection` | app.py:481-496 | the loop re-dates every item as `RedateItems` does, changes nothing but dates, and reports an overflow |
| `Service.RedateEntries` | app.py:481-505 | the loop re-dates every section as `RedateSections` does unless a date overflows, which it reports; sections change only in item dates |
| `Service.RedateEntryInPlace` | app.py:481-505 | one section is re-dated as `RedateEntry` does |
| `Service.OffsetDate` | app.py:486-494 | the offset date is computed when it stays in the calendar, and the overflow is reported otherwise |

## Left out

- Flask routing, CORS, templates, JSON (de)serialisation and HTTP status codes: the model works on
  decoded values; `UpdateInsights` returns the write outcome in place of the response body.
- Input and output: the data directory is a map from file name to content (`Json` for an object,
  `Other` for any other JSON document, `Unreadable`), so
  a missing data directory is an empty map and path separators inside keys are not interpreted.
- MD5: the seed is the parameter `hash`, applied to the `YYYY-MM-DD` key.
- The clock: `today` is a parameter, and one value is used for a whole request. `datetime.now()` is
  called per item in the source, so a request that crosses midnight is not modelled.
- `search_expert_info`: it always ends in the mock generator, so the model calls the generator directly;
  the `time.sleep` and the unreachable network branch are not modelled.
- `print` calls, `find_available_port`, `health_check`, `save_insights` (unused by the routes),
  the start-up code and the browser script.
- The literal text of `DEFAULT_INSIGHTS`: the template is any dataset with the six section keys and
  item counts 2, 2, 2, 13, 2, 4.
- `ContentVariant` is computed but, as in the source, never used.
- `Service.InsightsApp.UpdateInsights`: a payload that is not a JSON object (the 400 path) is not
  modelled, and a failed write leaves the store unchanged.
- `Service.InsightsApp.GenerateDailyInsights`: items are values, so the aliasing between the
  returned digest's items and the template's items is not modelled. Both hold the same dates after the call.
- `Service.DefaultMatches`: an array or object `date` is reduced to its string elements or member
  names, because `in` with a string key can match nothing else; how `str()` renders it
  (`Container.rendering`) is a parameter, not computed.
- `Service.InsightsApp.GetAvailableDatesAsWritten`: the order `os.listdir` gives is a parameter
  (`listing`); the model does not fix one.
- `DateText.Strptime`: only ASCII digits are accepted; Python's regex also takes other Unicode digits.
- `DateText.Format`: years below 1000 are written with four digits; the C library behind Python's
  `strftime` may write them unpadded.
- `Synthesis.Synthesize`: an `OverflowError` is modelled as `None`; the item dates already
  rewritten before it stay rewritten in the template, as in the source.

## Findings

| source | as written | input that shows it | evidently intended | confidence | as-written member | corrected member |
|---|---|---|---|---|---|---|
| app.py:707 | the listing takes the key by removing *every* `insights_` and `.json` from the file name | a file `insights_2024-01-01.json.json` is listed as `2024-01-01`, but loading `2024-01-01` never reads it; with `insights_2024-01-01.json` present too, the date is listed twice | strip the prefix and the suffix once, so a listed date always names its own file | medium, not executed | `Listing.ListedDateAsWritten`, `Service.InsightsApp.GetAvailableDatesAsWritten` (`Listing.DoubledSuffixListedAsWritten`, `Listing.DoubledSuffixListedTwice`) | `Listing.ListedDate`, `Service.InsightsApp.GetAvailableDates` (`Listing.ListedDateOfFile`) |
