/** The expert feed: `generate_mock_expert_info`, the placeholder items made
    for one expert, and `search_chinese_ai_experts`, which gathers them for
    the first five experts of the roster. The search itself
    (`search_expert_info`) always ends in the mock generator, so it is the
    mock generator here; an expert whose search raises is named in a set of
    roster indices. */
module Experts {
  import opened Calendar
  import opened DateText
  import opened Insights

  datatype Expert = Expert(name: string, company: string, keywords: seq<string>)

  /** `CHINESE_AI_EXPERTS`. */
  const Roster: seq<Expert> := [
    Expert("唐杰", "智谱AI", ["智谱AI", "唐杰", "开源AI", "ChatGLM"]),
    Expert("杨植麟", "月之暗面", ["月之暗面", "杨植麟", "Kimi", "多模态AI"]),
    Expert("周伯文", "上海AI实验室", ["上海AI实验室", "周伯文", "通用人工智能"]),
    Expert("林俊旸", "阿里巴巴", ["阿里巴巴", "林俊旸", "通义千问", "AI大模型"]),
    Expert("姚顺雨", "腾讯", ["腾讯", "姚顺雨", "混元", "AI技术"]),
    Expert("王小川", "百川智能", ["百川智能", "王小川", "AI模型"]),
    Expert("李彦宏", "百度", ["百度", "李彦宏", "文心一言", "AI"]),
    Expert("汤晓鸥", "商汤科技", ["商汤科技", "汤晓鸥", "计算机视觉", "AI"])
  ]

  /** The activity labels the mock items cycle through. */
  const ActivityTypes: seq<string> := ["发表主题演讲", "接受媒体专访", "发布技术观点", "参加行业峰会", "发布新产品"]

  /** At most this many items per call of the mock generator. */
  const MockCap := 3
  /** Only this many experts of the roster are searched. */
  const ExpertsSearched := 5
  /** Items asked for per expert. */
  const ItemsPerExpert := 2

  /** The fixed pieces of a placeholder item's text. */
  const TitleSeparator := "："
  const ExpertTag := "相关专家"
  const Recently := "近日"
  const ViewpointTail := "，分享了对人工智能发展趋势的见解。他表示，AI技术正在快速发展，未来将在多个领域产生深远影响。"
  const MockImpact := "分享AI发展趋势见解"
  const SourceTag := "官方/行业媒体"

  /** The keyword the mock text mentions: the expert's first keyword, or the name. */
  function LeadKeyword(name: string, keywords: seq<string>): string {
    if keywords != [] then keywords[0] else name
  }

  /** The `i`-th placeholder item for an expert, dated `today`. */
  function MockItem(name: string, keyword: string, i: nat, today: Date): Item
    requires ValidDate(today)
  {
    var activity := ActivityTypes[i % |ActivityTypes|];
    Item(
      title := name + TitleSeparator + activity,
      description := keyword + ExpertTag + name + Recently + activity + ViewpointTail,
      who := name,
      impact := MockImpact,
      date := Format(today),
      source := keyword + SourceTag,
      highlight := i == 0)
  }

  /** How many items `range(min(max_results, 3))` yields. */
  function MockCount(maxResults: int): (n: nat)
    ensures n <= MockCap
    ensures maxResults >= 0 ==> n == (if maxResults < MockCap then maxResults else MockCap)
    ensures maxResults < 0 ==> n == 0
  {
    if maxResults <= 0 then 0 else if maxResults < MockCap then maxResults else MockCap
  }

  /** The items the mock generator returns. */
  function MockExpertInfo(name: string, keywords: seq<string>, maxResults: int, today: Date): (r: seq<Item>)
    requires ValidDate(today)
    ensures |r| == MockCount(maxResults)
    ensures forall i :: 0 <= i < |r| ==>
      && r[i].title == name + TitleSeparator + ActivityTypes[i % |ActivityTypes|]
      && r[i].who == name
      && r[i].date == Format(today)
      && r[i].highlight == (i == 0)
  {
    seq(MockCount(maxResults), i requires 0 <= i => MockItem(name, LeadKeyword(name, keywords), i, today))
  }

  /** `generate_mock_expert_info`. */
  method GenerateMockExpertInfo(name: string, keywords: seq<string>, maxResults: int, today: Date)
    returns (results: seq<Item>)
    requires ValidDate(today)
    ensures results == MockExpertInfo(name, keywords, maxResults, today)
  {
    results := [];
    var keyword := if keywords != [] then keywords[0] else name;
    var n := if maxResults < MockCap then maxResults else MockCap;
    var i := 0;
    while i < n
      invariant 0 <= i <= (if n > 0 then n else 0)
      invariant |results| == i
      invariant forall j :: 0 <= j < i ==> results[j] == MockItem(name, keyword, j, today)
    {
      var activity := ActivityTypes[i % |ActivityTypes|];
      var item := Item(
        title := name + TitleSeparator + activity,
        description := keyword + ExpertTag + name + Recently + activity + ViewpointTail,
        who := name,
        impact := MockImpact,
        date := Format(today),
        source := keyword + SourceTag,
        highlight := i == 0);
      results := results + [item];
      i := i + 1;
    }
    assert |results| == MockCount(maxResults);
    assert keyword == LeadKeyword(name, keywords);
  }

  /** The items gathered from the first `k` roster experts, skipping those in `failed`. */
  function GatherFeed(k: nat, failed: set<int>, today: Date): (r: seq<Item>)
    requires k <= |Roster| && ValidDate(today)
    ensures forall i :: 0 <= i < |r| ==> r[i].date == Format(today)
  {
    if k == 0 then []
    else
      GatherFeed(k - 1, failed, today)
      + (if k - 1 in failed then []
         else MockExpertInfo(Roster[k - 1].name, Roster[k - 1].keywords, ItemsPerExpert, today))
  }

  /** What `search_chinese_ai_experts` returns. */
  function ExpertFeed(today: Date, failed: set<int>): seq<Item>
    requires ValidDate(today)
  {
    LimitItems(SortItemsByDate(GatherFeed(ExpertsSearched, failed, today)), MaxItems)
  }

  /** `search_chinese_ai_experts`: `failed` holds the roster indices whose
      search raises; each is skipped and the others are still gathered. */
  method SearchChineseAiExperts(today: Date, failed: set<int>) returns (r: seq<Item>)
    requires ValidDate(today)
    ensures r == ExpertFeed(today, failed)
  {
    var all: seq<Item> := [];
    var k := 0;
    while k < ExpertsSearched
      invariant 0 <= k <= ExpertsSearched
      invariant all == GatherFeed(k, failed, today)
    {
      if k !in failed {
        var expert := Roster[k];
        var items := GenerateMockExpertInfo(expert.name, expert.keywords, ItemsPerExpert, today);
        all := all + items;
      }
      k := k + 1;
    }
    r := LimitItems(SortItemsByDate(all), MaxItems);
  }

  // ---------------------------------------------------------------- properties

  /** The feed keeps the gathering order (every item carries today's date,
      so the sort has only ties) and is cut to eight items. */
  lemma ExpertFeedIsPrefix(today: Date, failed: set<int>)
    requires ValidDate(today)
    ensures var all := GatherFeed(ExpertsSearched, failed, today);
      && |ExpertFeed(today, failed)| == (if |all| < MaxItems then |all| else MaxItems)
      && ExpertFeed(today, failed) == all[..|ExpertFeed(today, failed)|]
  {
    var all := GatherFeed(ExpertsSearched, failed, today);
    SortKeepsEqualKeys(all, SortKey);
  }

  /** Every feed item is dated today and comes from one of the first five
      experts that did not fail. */
  lemma {:induction false} GatherFeedSources(k: nat, failed: set<int>, today: Date, i: int)
    requires k <= |Roster| && ValidDate(today)
    requires 0 <= i < |GatherFeed(k, failed, today)|
    ensures exists e :: 0 <= e < k && e !in failed && GatherFeed(k, failed, today)[i].who == Roster[e].name
  {
    var prev := GatherFeed(k - 1, failed, today);
    if i < |prev| {
      GatherFeedSources(k - 1, failed, today, i);
    } else {
      assert GatherFeed(k, failed, today)[i].who == Roster[k - 1].name;
    }
  }

  /** How many of the first `k` roster experts are not in `failed`. */
  function Survivors(k: nat, failed: set<int>): (n: nat)
    ensures n <= k
  {
    if k == 0 then 0 else Survivors(k - 1, failed) + (if k - 1 in failed then 0 else 1)
  }

  /** Whoever fails, every expert that does not contributes two items:
      the gathered list has two per surviving expert. */
  lemma {:induction false} GatherFeedCount(k: nat, failed: set<int>, today: Date)
    requires k <= |Roster| && ValidDate(today)
    ensures |GatherFeed(k, failed, today)| == ItemsPerExpert * Survivors(k, failed)
  {
    if k > 0 {
      GatherFeedCount(k - 1, failed, today);
    }
  }

  /** A failure skips only the failing expert: the items of an expert
      that does not fail sit, whole and in order, right after those of the
      surviving experts before it. */
  lemma {:induction false} SurvivorItemsAt(k: nat, failed: set<int>, today: Date, e: int)
    requires k <= |Roster| && ValidDate(today) && 0 <= e < k && e !in failed
    ensures ItemsPerExpert * Survivors(e + 1, failed) <= |GatherFeed(k, failed, today)|
    ensures GatherFeed(k, failed, today)[ItemsPerExpert * Survivors(e, failed)..ItemsPerExpert * Survivors(e + 1, failed)]
         == MockExpertInfo(Roster[e].name, Roster[e].keywords, ItemsPerExpert, today)
  {
    if e == k - 1 {
      SurvivorItemsLast(e, failed, today);
    } else {
      SurvivorItemsAt(k - 1, failed, today, e);
      var prev := GatherFeed(k - 1, failed, today);
      var extra := if k - 1 in failed then [] else MockExpertInfo(Roster[k - 1].name, Roster[k - 1].keywords, ItemsPerExpert, today);
      assert GatherFeed(k, failed, today) == prev + extra;
      PrefixSlice(prev, extra, ItemsPerExpert * Survivors(e, failed), ItemsPerExpert * Survivors(e + 1, failed),
                  MockExpertInfo(Roster[e].name, Roster[e].keywords, ItemsPerExpert, today));
    }
  }

  /** The items of a surviving expert close the list gathered up to it. */
  lemma SurvivorItemsLast(e: int, failed: set<int>, today: Date)
    requires 0 <= e < |Roster| && ValidDate(today) && e !in failed
    ensures ItemsPerExpert * Survivors(e + 1, failed) == |GatherFeed(e + 1, failed, today)|
    ensures GatherFeed(e + 1, failed, today)[ItemsPerExpert * Survivors(e, failed)..ItemsPerExpert * Survivors(e + 1, failed)]
         == MockExpertInfo(Roster[e].name, Roster[e].keywords, ItemsPerExpert, today)
  {
    var prev := GatherFeed(e, failed, today);
    var mine := MockExpertInfo(Roster[e].name, Roster[e].keywords, ItemsPerExpert, today);
    GatherFeedCount(e, failed, today);
    assert GatherFeed(e + 1, failed, today) == prev + mine;
    AppendSlice(prev, mine);
  }

  lemma AppendSlice(a: seq<Item>, b: seq<Item>)
    ensures (a + b)[|a|..|a| + |b|] == b
  {
  }

  lemma PrefixSlice(a: seq<Item>, b: seq<Item>, lo: int, hi: int, x: seq<Item>)
    requires 0 <= lo <= hi <= |a| && a[lo..hi] == x
    ensures (a + b)[lo..hi] == x
  {
    assert (a + b)[lo..hi] == a[lo..hi];
  }

  /** Every item of an expert that does not fail is gathered, whoever
      else fails. */
  lemma NonFailedContributes(k: nat, failed: set<int>, today: Date, e: int)
    requires k <= |Roster| && ValidDate(today) && 0 <= e < k && e !in failed
    ensures multiset(MockExpertInfo(Roster[e].name, Roster[e].keywords, ItemsPerExpert, today))
         <= multiset(GatherFeed(k, failed, today))
  {
    SurvivorItemsAt(k, failed, today, e);
    SliceMultiset(GatherFeed(k, failed, today), ItemsPerExpert * Survivors(e, failed), ItemsPerExpert * Survivors(e + 1, failed));
  }

  lemma SliceMultiset(s: seq<Item>, lo: int, hi: int)
    requires 0 <= lo <= hi <= |s|
    ensures multiset(s[lo..hi]) <= multiset(s)
  {
    assert s == s[..lo] + s[lo..hi] + s[hi..];
  }

  lemma ExpertFeedItems(today: Date, failed: set<int>, i: int)
    requires ValidDate(today)
    requires 0 <= i < |ExpertFeed(today, failed)|
    ensures ExpertFeed(today, failed)[i].date == Format(today)
    ensures exists e :: 0 <= e < ExpertsSearched && e !in failed && ExpertFeed(today, failed)[i].who == Roster[e].name
  {
    ExpertFeedIsPrefix(today, failed);
    GatherFeedSources(ExpertsSearched, failed, today, i);
  }

  lemma {:induction false} GatherFeedLength(k: nat, today: Date)
    requires k <= |Roster| && ValidDate(today)
    ensures |GatherFeed(k, {}, today)| == ItemsPerExpert * k
  {
    if k > 0 {
      GatherFeedLength(k - 1, today);
    }
  }

  lemma {:induction false} GatherFeedAt(k: nat, today: Date, i: int)
    requires k <= |Roster| && ValidDate(today)
    requires 0 <= i < ItemsPerExpert * k
    ensures |GatherFeed(k, {}, today)| == ItemsPerExpert * k
    ensures GatherFeed(k, {}, today)[i]
         == MockItem(Roster[i / 2].name, LeadKeyword(Roster[i / 2].name, Roster[i / 2].keywords), i % 2, today)
  {
    GatherFeedLength(k, today);
    GatherFeedLength(k - 1, today);
    if i < ItemsPerExpert * (k - 1) {
      GatherFeedAt(k - 1, today, i);
    } else {
      var e := Roster[k - 1];
      var mine := MockExpertInfo(e.name, e.keywords, ItemsPerExpert, today);
      assert GatherFeed(k, {}, today)[i] == mine[i - ItemsPerExpert * (k - 1)];
      assert i / 2 == k - 1 && i % 2 == i - ItemsPerExpert * (k - 1);
    }
  }

  /** With no failure the feed is the first two items of experts one to
      four: eight items, and the fifth expert searched is cut off entirely. */
  lemma FeedWithoutFailures(today: Date)
    requires ValidDate(today)
    ensures |ExpertFeed(today, {})| == MaxItems
    ensures forall i :: 0 <= i < MaxItems ==>
      ExpertFeed(today, {})[i]
        == MockItem(Roster[i / 2].name, LeadKeyword(Roster[i / 2].name, Roster[i / 2].keywords), i % 2, today)
    ensures forall i :: 0 <= i < MaxItems ==> ExpertFeed(today, {})[i].who != Roster[4].name
  {
    ExpertFeedIsPrefix(today, {});
    GatherFeedLength(ExpertsSearched, today);
    forall i | 0 <= i < MaxItems
      ensures ExpertFeed(today, {})[i]
        == MockItem(Roster[i / 2].name, LeadKeyword(Roster[i / 2].name, Roster[i / 2].keywords), i % 2, today)
      ensures ExpertFeed(today, {})[i].who != Roster[4].name
    {
      FeedItemWithoutFailures(today, i);
    }
  }

  lemma FeedItemWithoutFailures(today: Date, i: int)
    requires ValidDate(today) && 0 <= i < MaxItems
    requires |ExpertFeed(today, {})| == MaxItems
    requires ExpertFeed(today, {}) == GatherFeed(ExpertsSearched, {}, today)[..MaxItems]
    requires |GatherFeed(ExpertsSearched, {}, today)| == ExpertsSearched * ItemsPerExpert
    ensures ExpertFeed(today, {})[i]
      == MockItem(Roster[i / 2].name, LeadKeyword(Roster[i / 2].name, Roster[i / 2].keywords), i % 2, today)
    ensures ExpertFeed(today, {})[i].who != Roster[4].name
  {
    assert ExpertFeed(today, {})[i] == GatherFeed(ExpertsSearched, {}, today)[i];
    GatherFeedAt(ExpertsSearched, today, i);
    EarlierExpertsNamedApart(i / 2);
  }

  /** The first four experts' names differ from the fifth's. */
  lemma EarlierExpertsNamedApart(e: int)
    requires 0 <= e < 4
    ensures Roster[e].name != Roster[4].name
  {
    assert Roster[e].name[0] != Roster[4].name[0];
  }
}
