/** Aggregated statistics over a list of analyses: counts by severity and
    confidence, the most affected services, and a daily trend. */
module Stats {
  import opened Domain
  import opened Sorting

  const NANOSECONDS_PER_DAY := 86_400_000_000_000
  const SERVICE_TOP_N := 10

  datatype ServiceCount = ServiceCount(service: string, count: int)

  datatype TrendBucket = TrendBucket(start: Instant, count: int)

  datatype AnalysisStats = AnalysisStats(
    total: int,
    bySeverity: map<Severity, int>,
    byConfidence: map<Confidence, int>,
    topServices: seq<ServiceCount>,
    trend: seq<TrendBucket>)

  // ---------------------------------------------------------------------
  // Tallies
  // ---------------------------------------------------------------------

  /** The counter holds every key that occurs, with the number of its occurrences. */
  ghost predicate IsTally<K(!new)>(counts: map<K, int>, keys: seq<K>) {
    && (forall k :: k in counts <==> k in multiset(keys))
    && (forall k :: k in counts ==> counts[k] == multiset(keys)[k])
  }

  function Bump<K>(counts: map<K, int>, k: K): map<K, int> {
    counts[k := (if k in counts then counts[k] else 0) + 1]
  }

  lemma BumpTallies<K(!new)>(counts: map<K, int>, keys: seq<K>, k: K)
    requires IsTally(counts, keys)
    ensures IsTally(Bump(counts, k), keys + [k])
  {
  }

  lemma TallyUnique<K(!new)>(a: map<K, int>, b: map<K, int>, keys: seq<K>)
    requires IsTally(a, keys) && IsTally(b, keys)
    ensures a == b
  {
    assert a.Keys == b.Keys;
  }

  function Day(t: Instant): Instant {
    t - t % NANOSECONDS_PER_DAY
  }

  function Severities(items: seq<AnalysisResult>): seq<Severity> {
    if items == [] then []
    else
      var last := items[|items| - 1];
      Severities(items[..|items| - 1]) + (if last.severity != NoSeverity then [last.severity] else [])
  }

  function Confidences(items: seq<AnalysisResult>): seq<Confidence> {
    if items == [] then []
    else
      var last := items[|items| - 1];
      Confidences(items[..|items| - 1]) + (if last.confidence != NoConfidence then [last.confidence] else [])
  }

  function Named(services: seq<string>): seq<string> {
    if services == [] then []
    else
      var last := services[|services| - 1];
      Named(services[..|services| - 1]) + (if last == "" then [] else [last])
  }

  function Mentions(items: seq<AnalysisResult>): seq<string> {
    if items == [] then []
    else Mentions(items[..|items| - 1]) + Named(items[|items| - 1].affectedServices)
  }

  function Days(items: seq<AnalysisResult>): (days: seq<Instant>)
    ensures |days| == |items|
  {
    if items == [] then [] else Days(items[..|items| - 1]) + [Day(items[|items| - 1].createdAt)]
  }

  // ---------------------------------------------------------------------
  // Ordered views of a counter
  // ---------------------------------------------------------------------

  predicate RanksAbove(a: ServiceCount, b: ServiceCount) {
    if a.count == b.count then StringLess(a.service, b.service) else a.count > b.count
  }

  predicate Earlier(a: TrendBucket, b: TrendBucket) {
    a.start < b.start
  }

  /** Every counter entry once, from the highest rank down. */
  ghost predicate IsRanking(counts: map<string, int>, all: seq<ServiceCount>) {
    && Sorted(all, RanksAbove)
    && Distinct(all)
    && (forall c :: c in all <==> c.service in counts && c.count == counts[c.service])
  }

  ghost predicate IsTrend(counts: map<Instant, int>, all: seq<TrendBucket>) {
    && (forall i, j :: 0 <= i < j < |all| ==> all[i].start < all[j].start)
    && (forall b :: b in all <==> b.start in counts && b.count == counts[b.start])
  }

  lemma RanksAboveStrictWeak()
    ensures StrictWeak(RanksAbove)
  {
    StringLessOrder();
    forall a: ServiceCount, b: ServiceCount, c: ServiceCount | RanksAbove(a, c)
      ensures RanksAbove(a, b) || RanksAbove(b, c)
    {
      assert a.service == b.service || StringLess(a.service, b.service) || StringLess(b.service, a.service);
    }
  }

  lemma RankingUnique(counts: map<string, int>, a: seq<ServiceCount>, b: seq<ServiceCount>)
    requires IsRanking(counts, a) && IsRanking(counts, b)
    ensures a == b
  {
    StringLessOrder();
    forall i, j | 0 <= i < j < |a|
      ensures RanksAbove(a[i], a[j]) || RanksAbove(a[j], a[i]) || a[i] == a[j]
    {
      assert a[i] in a && a[j] in a;
    }
    forall c ensures c in a <==> c in b {}
    SortedSetUnique(a, b, RanksAbove);
  }

  function Cut(all: seq<ServiceCount>, top: int): seq<ServiceCount> {
    if top > 0 && |all| > top then all[..top] else all
  }

  method TopServiceCounts(counts: map<string, int>, top: int) returns (list: seq<ServiceCount>)
    ensures exists all :: IsRanking(counts, all) && list == Cut(all, top)
  {
    var items: seq<ServiceCount> := [];
    var pending := counts.Keys;
    while pending != {}
      invariant pending <= counts.Keys && Distinct(items)
      invariant forall c :: c in items <==> c.service in counts.Keys - pending && c.count == counts[c.service]
      decreases pending
    {
      var service :| service in pending;
      pending := pending - {service};
      items := items + [ServiceCount(service, counts[service])];
    }
    var all := Sort(items, RanksAbove);
    RanksAboveStrictWeak();
    SortSorted(items, RanksAbove);
    MemberOfMultiset(all, items);
    RearrangedDistinct(items, all);
    assert IsRanking(counts, all);
    list := all;
    if top > 0 && |list| > top {
      list := list[..top];
    }
  }

  method AnyDay(days: set<Instant>) returns (day: Instant)
    requires days != {}
    ensures day in days
  {
    HasMember(days);
    day :| day in days;
  }

  lemma HasMember(days: set<Instant>)
    ensures days == {} || exists d: int :: d in days
  {
    if !exists d: int :: d in days { assert days == {}; }
  }

  method SortedTrendBuckets(counts: map<Instant, int>) returns (list: seq<TrendBucket>)
    ensures IsTrend(counts, list)
  {
    var buckets: seq<TrendBucket> := [];
    var pending := counts.Keys;
    while pending != {}
      invariant pending <= counts.Keys && Distinct(buckets)
      invariant forall b :: b in buckets <==> b.start in counts.Keys - pending && b.count == counts[b.start]
      decreases pending
    {
      var start := AnyDay(pending);
      pending := pending - {start};
      buckets := buckets + [TrendBucket(start, counts[start])];
    }
    list := Sort(buckets, Earlier);
    SortSorted(buckets, Earlier);
    MemberOfMultiset(list, buckets);
    RearrangedDistinct(buckets, list);
    forall i, j | 0 <= i < j < |list|
      ensures list[i].start < list[j].start
    {
      assert !Earlier(list[j], list[i]);
      assert list[i] in list && list[j] in list;
    }
  }

  // ---------------------------------------------------------------------
  // The statistics
  // ---------------------------------------------------------------------

  ghost predicate IsStats(items: seq<AnalysisResult>, stats: AnalysisStats) {
    && stats.total == |items|
    && IsTally(stats.bySeverity, Severities(items))
    && IsTally(stats.byConfidence, Confidences(items))
    && (exists counts, all :: IsTally(counts, Mentions(items)) && IsRanking(counts, all) && stats.topServices == Cut(all, SERVICE_TOP_N))
    && (exists counts :: IsTally(counts, Days(items)) && IsTrend(counts, stats.trend))
  }

  lemma NamedStep(before: seq<string>, services: seq<string>, i: nat)
    requires i < |services|
    ensures before + Named(services[..i + 1])
         == (before + Named(services[..i])) + (if services[i] == "" then [] else [services[i]])
  {
    assert services[..i + 1][..i] == services[..i];
  }

  method TallyServices(counts0: map<string, int>, services: seq<string>, ghost before: seq<string>) returns (counts: map<string, int>)
    requires IsTally(counts0, before)
    ensures IsTally(counts, before + Named(services))
  {
    hide IsTally, Bump;
    counts := counts0;
    ghost var seen := before;
    assert before + Named(services[..0]) == before;
    for i := 0 to |services|
      invariant seen == before + Named(services[..i])
      invariant IsTally(counts, seen)
    {
      hide Named;
      NamedStep(before, services, i);
      if services[i] == "" {
        AppendNothing(seen);
        continue;
      }
      BumpTallies(counts, seen, services[i]);
      counts := Bump(counts, services[i]);
      seen := seen + [services[i]];
    }
    assert services[..|services|] == services;
  }

  /** The four counters are right for these items. */
  ghost predicate Tallied(items: seq<AnalysisResult>, bySeverity: map<Severity, int>, byConfidence: map<Confidence, int>,
                          services: map<string, int>, days: map<Instant, int>)
  {
    && IsTally(bySeverity, Severities(items))
    && IsTally(byConfidence, Confidences(items))
    && IsTally(services, Mentions(items))
    && IsTally(days, Days(items))
  }

  lemma NothingTallied()
    ensures Tallied([], map[], map[], map[], map[])
  {
  }

  lemma ItemStep(items: seq<AnalysisResult>, i: nat)
    requires i < |items|
    ensures Severities(items[..i + 1])
         == Severities(items[..i]) + (if items[i].severity != NoSeverity then [items[i].severity] else [])
    ensures Confidences(items[..i + 1])
         == Confidences(items[..i]) + (if items[i].confidence != NoConfidence then [items[i].confidence] else [])
    ensures Mentions(items[..i + 1]) == Mentions(items[..i]) + Named(items[i].affectedServices)
    ensures Days(items[..i + 1]) == Days(items[..i]) + [Day(items[i].createdAt)]
  {
    assert items[..i + 1][..i] == items[..i];
  }

  lemma AppendNothing<K>(s: seq<K>)
    ensures s + [] == s
  {
  }

  method ComputeAnalysisStats(items: seq<AnalysisResult>) returns (stats: AnalysisStats)
    ensures IsStats(items, stats)
  {
    hide IsTally, Bump, Day, Named, Severities, Confidences, Mentions, Days, IsRanking, IsTrend;
    var bySeverity: map<Severity, int> := map[];
    var byConfidence: map<Confidence, int> := map[];
    var serviceCounts: map<string, int> := map[];
    var bucketCounts: map<Instant, int> := map[];
    NothingTallied();
    for i := 0 to |items|
      invariant Tallied(items[..i], bySeverity, byConfidence, serviceCounts, bucketCounts)
    {
      ItemStep(items, i);
      var item := items[i];
      AppendNothing(Severities(items[..i]));
      AppendNothing(Confidences(items[..i]));
      if item.severity != NoSeverity {
        BumpTallies(bySeverity, Severities(items[..i]), item.severity);
        bySeverity := Bump(bySeverity, item.severity);
      }
      if item.confidence != NoConfidence {
        BumpTallies(byConfidence, Confidences(items[..i]), item.confidence);
        byConfidence := Bump(byConfidence, item.confidence);
      }
      serviceCounts := TallyServices(serviceCounts, item.affectedServices, Mentions(items[..i]));
      BumpTallies(bucketCounts, Days(items[..i]), Day(item.createdAt));
      bucketCounts := Bump(bucketCounts, Day(item.createdAt));
    }
    assert items[..|items|] == items;
    var top := TopServiceCounts(serviceCounts, SERVICE_TOP_N);
    var trend := SortedTrendBuckets(bucketCounts);
    stats := AnalysisStats(|items|, bySeverity, byConfidence, top, trend);
  }

  // ---------------------------------------------------------------------
  // Conservation
  // ---------------------------------------------------------------------

  /** The occurrences of the listed keys, added up. */
  function Occurrences<K>(bag: multiset<K>, ks: seq<K>): int {
    if ks == [] then 0 else Occurrences(bag, ks[..|ks| - 1]) + bag[ks[|ks| - 1]]
  }

  lemma {:induction false} OccurrencesElsewhere<K>(bag: multiset<K>, ks: seq<K>, k: K)
    requires k !in ks
    ensures Occurrences(bag[k := 0], ks) == Occurrences(bag, ks)
  {
    if ks != [] {
      assert ks[|ks| - 1] in ks;
      OccurrencesElsewhere(bag, ks[..|ks| - 1], k);
    }
  }

  /** A list of distinct keys that covers a bag accounts for all of it. */
  lemma {:induction false} OccurrencesCover<K(!new)>(bag: multiset<K>, ks: seq<K>)
    requires Distinct(ks) && forall k :: k in bag ==> k in ks
    ensures Occurrences(bag, ks) == |bag|
  {
    if ks == [] {
      assert bag == multiset{};
    } else {
      var front, last := ks[..|ks| - 1], ks[|ks| - 1];
      var rest := bag[last := 0];
      assert ks == front + [last];
      forall k | k in rest ensures k in front { assert k in ks; }
      OccurrencesCover(rest, front);
      OccurrencesElsewhere(bag, front, last);
      assert |rest| == |bag| - bag[last];
    }
  }

  function TrendTotal(trend: seq<TrendBucket>): int {
    if trend == [] then 0 else TrendTotal(trend[..|trend| - 1]) + trend[|trend| - 1].count
  }

  function Starts(trend: seq<TrendBucket>): (starts: seq<Instant>)
    ensures |starts| == |trend|
    ensures forall i :: 0 <= i < |trend| ==> starts[i] == trend[i].start
  {
    if trend == [] then [] else Starts(trend[..|trend| - 1]) + [trend[|trend| - 1].start]
  }

  lemma {:induction false} TrendTotalOccurrences(trend: seq<TrendBucket>, bag: multiset<Instant>)
    requires forall b :: b in trend ==> b.count == bag[b.start]
    ensures TrendTotal(trend) == Occurrences(bag, Starts(trend))
  {
    if trend != [] {
      assert trend[|trend| - 1] in trend;
      TrendTotalOccurrences(trend[..|trend| - 1], bag);
      assert Starts(trend)[..|trend| - 1] == Starts(trend[..|trend| - 1]);
    }
  }

  lemma DayHasBucket(keys: seq<Instant>, counts: map<Instant, int>, trend: seq<TrendBucket>, d: Instant)
    requires IsTally(counts, keys) && IsTrend(counts, trend) && d in multiset(keys)
    ensures d in Starts(trend)
  {
    var b := TrendBucket(d, counts[d]);
    assert b in trend;
    var i :| 0 <= i < |trend| && trend[i] == b;
    assert Starts(trend)[i] == d;
  }

  lemma BucketCountsDay(keys: seq<Instant>, counts: map<Instant, int>, trend: seq<TrendBucket>, b: TrendBucket)
    requires IsTally(counts, keys) && IsTrend(counts, trend) && b in trend
    ensures b.count == multiset(keys)[b.start] && b.count > 0
  {
    assert b.start in multiset(keys);
  }

  lemma TrendCovers(keys: seq<Instant>, counts: map<Instant, int>, trend: seq<TrendBucket>)
    requires IsTally(counts, keys) && IsTrend(counts, trend)
    ensures TrendTotal(trend) == |keys|
    ensures forall b :: b in trend ==> b.count == multiset(keys)[b.start] && b.count > 0
  {
    assert Distinct(Starts(trend));
    hide IsTally, IsTrend, Starts, TrendTotal, Occurrences;
    var bag := multiset(keys);
    forall d | d in bag ensures d in Starts(trend) { DayHasBucket(keys, counts, trend, d); }
    forall b | b in trend ensures b.count == bag[b.start] && b.count > 0 { BucketCountsDay(keys, counts, trend, b); }
    TrendTotalOccurrences(trend, bag);
    OccurrencesCover(bag, Starts(trend));
  }

  /** The trend covers every analysis once: its buckets are in strictly increasing
      day order, hold the analyses of their day, and add up to the total. */
  lemma TrendConserved(items: seq<AnalysisResult>, stats: AnalysisStats)
    requires IsStats(items, stats)
    ensures TrendTotal(stats.trend) == stats.total
    ensures forall i, j :: 0 <= i < j < |stats.trend| ==> stats.trend[i].start < stats.trend[j].start
    ensures forall b :: b in stats.trend ==> b.count == multiset(Days(items))[b.start] && b.count > 0
  {
    hide IsTally, Days, TrendTotal, Severities, Confidences, Mentions;
    var counts :| IsTally(counts, Days(items)) && IsTrend(counts, stats.trend);
    TrendCovers(Days(items), counts, stats.trend);
  }

  /** The trend of a list of analyses is unique. */
  lemma TrendUnique(counts: map<Instant, int>, a: seq<TrendBucket>, b: seq<TrendBucket>)
    requires IsTrend(counts, a) && IsTrend(counts, b)
    ensures a == b
  {
    forall x ensures x in a <==> x in b {}
    SortedSetUnique(a, b, Earlier);
  }

  /** A list of analyses has only one statistics record, in whatever order the
      counters are read. */
  lemma StatsUnique(items: seq<AnalysisResult>, a: AnalysisStats, b: AnalysisStats)
    requires IsStats(items, a) && IsStats(items, b)
    ensures a == b
  {
    TallyUnique(a.bySeverity, b.bySeverity, Severities(items));
    TallyUnique(a.byConfidence, b.byConfidence, Confidences(items));
    var services, all :| IsTally(services, Mentions(items)) && IsRanking(services, all) && a.topServices == Cut(all, SERVICE_TOP_N);
    var services', all' :| IsTally(services', Mentions(items)) && IsRanking(services', all') && b.topServices == Cut(all', SERVICE_TOP_N);
    TallyUnique(services, services', Mentions(items));
    RankingUnique(services, all, all');
    var days :| IsTally(days, Days(items)) && IsTrend(days, a.trend);
    var days' :| IsTally(days', Days(items)) && IsTrend(days', b.trend);
    TallyUnique(days, days', Days(items));
    TrendUnique(days, a.trend, b.trend);
  }

  /** However the severities of the counter are listed, its counts add up to the
      analyses that carry a severity. */
  lemma SeverityConserved(items: seq<AnalysisResult>, stats: AnalysisStats, listed: seq<Severity>)
    requires IsStats(items, stats)
    requires Distinct(listed) && forall s :: s in listed <==> s in stats.bySeverity
    ensures Occurrences(multiset(Severities(items)), listed) == |Severities(items)|
    ensures forall s :: s in listed ==> stats.bySeverity[s] == multiset(Severities(items))[s]
  {
    OccurrencesCover(multiset(Severities(items)), listed);
  }

  /** The positions of the analyses that carry a severity. */
  function Rated(items: seq<AnalysisResult>): set<int> {
    set i | 0 <= i < |items| && items[i].severity != NoSeverity
  }

  lemma RatedStep(items: seq<AnalysisResult>)
    requires items != []
    ensures var n := |items| - 1;
            n !in Rated(items[..n])
            && Rated(items) == Rated(items[..n]) + (if items[n].severity != NoSeverity then {n} else {})
  {
  }

  lemma {:induction false} SeveritiesCount(items: seq<AnalysisResult>)
    ensures |Severities(items)| == |Rated(items)|
  {
    if items != [] {
      SeveritiesCount(items[..|items| - 1]);
      RatedStep(items);
      hide Rated;
    }
  }

  /** The listed services and their counts: mentions counted exactly, at most ten,
      strictly ranked, and no omitted service ranks above a listed one. */
  lemma TopServicesAreTheTop(items: seq<AnalysisResult>, stats: AnalysisStats, omitted: string)
    requires IsStats(items, stats)
    ensures |stats.topServices| <= SERVICE_TOP_N
    ensures forall c :: c in stats.topServices ==> c.count == multiset(Mentions(items))[c.service] && c.count > 0
    ensures forall i, j :: 0 <= i < j < |stats.topServices| ==> RanksAbove(stats.topServices[i], stats.topServices[j])
    ensures omitted in Mentions(items) && (forall c :: c in stats.topServices ==> c.service != omitted)
        ==> |stats.topServices| == SERVICE_TOP_N
            && forall c :: c in stats.topServices ==> RanksAbove(c, ServiceCount(omitted, multiset(Mentions(items))[omitted]))
  {
    var counts, all :| IsTally(counts, Mentions(items)) && IsRanking(counts, all) && stats.topServices == Cut(all, SERVICE_TOP_N);
    var top := stats.topServices;
    RankingStrict(counts, all);
    forall c | c in top
      ensures c.count == multiset(Mentions(items))[c.service] && c.count > 0
    {
      assert c in all;
      assert c.service in multiset(Mentions(items));
    }
    if omitted in Mentions(items) && (forall c :: c in top ==> c.service != omitted) {
      assert omitted in multiset(Mentions(items));
      OmittedRanksBelow(all, ServiceCount(omitted, multiset(Mentions(items))[omitted]), SERVICE_TOP_N);
    }
  }

  /** What a cut leaves out ranks below everything it keeps. */
  lemma {:induction false} OmittedRanksBelow(all: seq<ServiceCount>, o: ServiceCount, top: nat)
    requires forall i, j :: 0 <= i < j < |all| ==> RanksAbove(all[i], all[j])
    requires top > 0 && o in all && o !in Cut(all, top)
    ensures |Cut(all, top)| == top
    ensures forall c :: c in Cut(all, top) ==> RanksAbove(c, o)
  {
    assert all == all[..top] + all[top..];
    var k :| 0 <= k < |all[top..]| && all[top..][k] == o;
    assert all[top + k] == o;
    forall c | c in all[..top]
      ensures RanksAbove(c, o)
    {
      var i :| 0 <= i < top && all[i] == c;
    }
  }

  lemma RankingStrict(counts: map<string, int>, all: seq<ServiceCount>)
    requires IsRanking(counts, all)
    ensures forall i, j :: 0 <= i < j < |all| ==> RanksAbove(all[i], all[j])
  {
    StringLessOrder();
    forall i, j | 0 <= i < j < |all|
      ensures RanksAbove(all[i], all[j])
    {
      assert all[i] in all && all[j] in all && !RanksAbove(all[j], all[i]);
    }
  }
}
