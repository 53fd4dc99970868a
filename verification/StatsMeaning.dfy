/** What the statistics say about the analyses they are drawn from, counted by
    position. */
module StatsMeaning {
  import opened Domain
  import opened Sorting
  import opened Stats

  const DAY: int := 24 * 3600 * 1_000_000_000

  // ---------------------------------------------------------------------
  // Severities and confidences
  // ---------------------------------------------------------------------

  function WithSeverity(items: seq<AnalysisResult>, n: nat, s: Severity): set<int>
    requires n <= |items|
  {
    set i | 0 <= i < n && items[i].severity == s
  }

  function WithConfidence(items: seq<AnalysisResult>, n: nat, c: Confidence): set<int>
    requires n <= |items|
  {
    set i | 0 <= i < n && items[i].confidence == c
  }

  lemma NoItems(items: seq<AnalysisResult>)
    ensures Severities(items[..0]) == [] && Confidences(items[..0]) == [] && Days(items[..0]) == []
  {
  }

  lemma OneMoreKey<K>(keys: seq<K>, k: K, x: K)
    ensures multiset(keys + [k])[x] == multiset(keys)[x] + (if k == x then 1 else 0)
  {
  }

  lemma OneMoreSeverity(items: seq<AnalysisResult>, n: nat, s: Severity)
    requires n < |items|
    ensures |WithSeverity(items, n + 1, s)| == |WithSeverity(items, n, s)| + (if items[n].severity == s then 1 else 0)
  {
    var a, b := WithSeverity(items, n, s), WithSeverity(items, n + 1, s);
    if items[n].severity == s { assert b == a + {n}; } else { assert b == a; }
  }

  lemma OneMoreConfidence(items: seq<AnalysisResult>, n: nat, c: Confidence)
    requires n < |items|
    ensures |WithConfidence(items, n + 1, c)| == |WithConfidence(items, n, c)| + (if items[n].confidence == c then 1 else 0)
  {
    var a, b := WithConfidence(items, n, c), WithConfidence(items, n + 1, c);
    if items[n].confidence == c { assert b == a + {n}; } else { assert b == a; }
  }

  lemma OneMoreOnDay(items: seq<AnalysisResult>, n: nat, start: Instant)
    requires n < |items|
    ensures |OnDay(items, n + 1, start)| == |OnDay(items, n, start)| + (if start <= items[n].createdAt < start + DAY then 1 else 0)
  {
    var a, b := OnDay(items, n, start), OnDay(items, n + 1, start);
    if start <= items[n].createdAt < start + DAY { assert b == a + {n}; } else { assert b == a; }
  }

  lemma NoPositions(items: seq<AnalysisResult>, s: Severity, c: Confidence, start: Instant)
    ensures WithSeverity(items, 0, s) == {} && WithConfidence(items, 0, c) == {} && OnDay(items, 0, start) == {}
  {
  }

  lemma {:induction false} SeverityCount(items: seq<AnalysisResult>, n: nat, s: Severity)
    requires n <= |items|
    ensures multiset(Severities(items[..n]))[s] == if s == NoSeverity then 0 else |WithSeverity(items, n, s)|
  {
    hide *;
    if n == 0 {
      NoItems(items);
      NoPositions(items, s, NoConfidence, 0);
    } else {
      SeverityCount(items, n - 1, s);
      ItemStep(items, n - 1);
      AppendNothing(Severities(items[..n - 1]));
      OneMoreKey(Severities(items[..n - 1]), items[n - 1].severity, s);
      OneMoreSeverity(items, n - 1, s);
    }
  }

  lemma {:induction false} ConfidenceCount(items: seq<AnalysisResult>, n: nat, c: Confidence)
    requires n <= |items|
    ensures multiset(Confidences(items[..n]))[c] == if c == NoConfidence then 0 else |WithConfidence(items, n, c)|
  {
    hide *;
    if n == 0 {
      NoItems(items);
      NoPositions(items, NoSeverity, c, 0);
    } else {
      ConfidenceCount(items, n - 1, c);
      ItemStep(items, n - 1);
      AppendNothing(Confidences(items[..n - 1]));
      OneMoreKey(Confidences(items[..n - 1]), items[n - 1].confidence, c);
      OneMoreConfidence(items, n - 1, c);
    }
  }

  // ---------------------------------------------------------------------
  // Mentions of a service
  // ---------------------------------------------------------------------

  /** How often the first n analyses name the service as affected. */
  function TimesNamed(items: seq<AnalysisResult>, n: nat, service: string): nat
    requires n <= |items|
  {
    if n == 0 then 0 else TimesNamed(items, n - 1, service) + multiset(items[n - 1].affectedServices)[service]
  }

  lemma LastKey<K>(keys: seq<K>, x: K)
    requires keys != []
    ensures multiset(keys)[x] == multiset(keys[..|keys| - 1])[x] + (if keys[|keys| - 1] == x then 1 else 0)
  {
    assert keys == keys[..|keys| - 1] + [keys[|keys| - 1]];
    OneMoreKey(keys[..|keys| - 1], keys[|keys| - 1], x);
  }

  lemma {:induction false} NamedCount(services: seq<string>, service: string)
    ensures multiset(Named(services))[service] == if service == "" then 0 else multiset(services)[service]
  {
    if services != [] {
      var n := |services| - 1;
      var before := Named(services[..n]);
      NamedCount(services[..n], service);
      LastKey(services, service);
      assert Named(services) == before + (if services[n] == "" then [] else [services[n]]);
      AppendNothing(before);
      OneMoreKey(before, services[n], service);
    }
  }

  lemma {:induction false} MentionCount(items: seq<AnalysisResult>, n: nat, service: string)
    requires n <= |items|
    ensures multiset(Mentions(items[..n]))[service] == if service == "" then 0 else TimesNamed(items, n, service)
  {
    if n > 0 {
      MentionCount(items, n - 1, service);
      ItemStep(items, n - 1);
      NamedCount(items[n - 1].affectedServices, service);
      hide Severities, Confidences, Mentions, Days, Named;
    }
  }

  // ---------------------------------------------------------------------
  // Days
  // ---------------------------------------------------------------------

  /** The day of an instant starts at a whole number of days and holds the instant. */
  lemma DayMeans(t: Instant, start: Instant)
    ensures Day(t) == start <==> start % DAY == 0 && start <= t < start + DAY
  {
  }

  function OnDay(items: seq<AnalysisResult>, n: nat, start: Instant): set<int>
    requires n <= |items|
  {
    set i | 0 <= i < n && start <= items[i].createdAt < start + DAY
  }

  lemma {:induction false} DayCount(items: seq<AnalysisResult>, n: nat, start: Instant)
    requires n <= |items| && start % DAY == 0
    ensures multiset(Days(items[..n]))[start] == |OnDay(items, n, start)|
  {
    hide *;
    if n == 0 {
      NoItems(items);
      NoPositions(items, NoSeverity, NoConfidence, start);
    } else {
      DayCount(items, n - 1, start);
      ItemStep(items, n - 1);
      DayMeans(items[n - 1].createdAt, start);
      OneMoreKey(Days(items[..n - 1]), Day(items[n - 1].createdAt), start);
      OneMoreOnDay(items, n - 1, start);
    }
  }

  lemma {:induction false} DaysStart(items: seq<AnalysisResult>, d: Instant)
    requires d in Days(items)
    ensures d % DAY == 0
  {
    var n := |items| - 1;
    if d == Day(items[n].createdAt) { DayMeans(items[n].createdAt, d); } else { DaysStart(items[..n], d); }
  }

  // ---------------------------------------------------------------------
  // The statistics
  // ---------------------------------------------------------------------

  /** The severity and confidence counters hold exactly the values that occur, with
      the number of analyses that carry them. */
  lemma CountersMean(items: seq<AnalysisResult>, stats: AnalysisStats, s: Severity, c: Confidence)
    requires IsStats(items, stats)
    ensures stats.total == |items|
    ensures s in stats.bySeverity <==> s != NoSeverity && exists i :: 0 <= i < |items| && items[i].severity == s
    ensures s in stats.bySeverity ==> stats.bySeverity[s] == |WithSeverity(items, |items|, s)|
    ensures c in stats.byConfidence <==> c != NoConfidence && exists i :: 0 <= i < |items| && items[i].confidence == c
    ensures c in stats.byConfidence ==> stats.byConfidence[c] == |WithConfidence(items, |items|, c)|
  {
    assert items[..|items|] == items;
    SeverityCount(items, |items|, s);
    ConfidenceCount(items, |items|, c);
    WithNone(items, s, c);
    hide Severities, Confidences, Mentions, Days, WithSeverity, WithConfidence, IsRanking, IsTrend;
  }

  lemma WithNone(items: seq<AnalysisResult>, s: Severity, c: Confidence)
    ensures |WithSeverity(items, |items|, s)| > 0 <==> exists i :: 0 <= i < |items| && items[i].severity == s
    ensures |WithConfidence(items, |items|, c)| > 0 <==> exists i :: 0 <= i < |items| && items[i].confidence == c
  {
    var withS, withC := WithSeverity(items, |items|, s), WithConfidence(items, |items|, c);
    if i :| 0 <= i < |items| && items[i].severity == s { assert i in withS; }
    if i :| 0 <= i < |items| && items[i].confidence == c { assert i in withC; }
    if withS != {} { var i :| i in withS; }
    if withC != {} { var i :| i in withC; }
  }

  /** A trend bucket counts the analyses created on its day, which starts at a whole
      number of days; and every analysis has its bucket. */
  lemma TrendMeans(items: seq<AnalysisResult>, stats: AnalysisStats)
    requires IsStats(items, stats)
    ensures forall b :: b in stats.trend ==> b.start % DAY == 0 && b.count == |OnDay(items, |items|, b.start)| > 0
    ensures forall i :: 0 <= i < |items| ==>
              exists b :: b in stats.trend && b.start <= items[i].createdAt < b.start + DAY
  {
    hide IsTally, Day, Days, Severities, Confidences, Mentions, OnDay, IsRanking, IsTrend;
    TrendConserved(items, stats);
    forall b | b in stats.trend
      ensures b.start % DAY == 0 && b.count == |OnDay(items, |items|, b.start)| > 0
    {
      assert items[..|items|] == items;
      assert b.start in multiset(Days(items));
      DaysStart(items, b.start);
      DayCount(items, |items|, b.start);
    }
    forall i | 0 <= i < |items|
      ensures exists b :: b in stats.trend && b.start <= items[i].createdAt < b.start + DAY
    {
      var start := HasBucket(items, stats, i);
      DayMeans(items[i].createdAt, start);
    }
  }

  lemma HasBucket(items: seq<AnalysisResult>, stats: AnalysisStats, i: nat) returns (start: Instant)
    requires IsStats(items, stats) && i < |items|
    ensures start == Day(items[i].createdAt) && exists b :: b in stats.trend && b.start == start
  {
    start := Day(items[i].createdAt);
    var counts :| IsTally(counts, Days(items)) && IsTrend(counts, stats.trend);
    DayIsListed(items, i);
    hide Day, Days;
    assert start in counts;
    assert TrendBucket(start, counts[start]) in stats.trend;
  }

  lemma {:induction false} DayIsListed(items: seq<AnalysisResult>, i: nat)
    requires i < |items|
    ensures Day(items[i].createdAt) in Days(items)
  {
    if i < |items| - 1 { DayIsListed(items[..|items| - 1], i); }
  }

  /** The top services: at most ten, each with the number of times it is named, the
      most often named first and by name on a tie. A named service is left out only
      if there are ten, all named more often, or as often with an earlier name. */
  lemma TopServicesMean(items: seq<AnalysisResult>, stats: AnalysisStats, omitted: string)
    requires IsStats(items, stats)
    ensures |stats.topServices| <= 10
    ensures forall c :: c in stats.topServices ==> c.service != "" && c.count == TimesNamed(items, |items|, c.service) > 0
    ensures forall i, j :: 0 <= i < j < |stats.topServices| ==>
              var a, b := stats.topServices[i], stats.topServices[j];
              a.count >= b.count && (a.count == b.count ==> StringLess(a.service, b.service))
    ensures omitted != "" && TimesNamed(items, |items|, omitted) > 0 && (forall c :: c in stats.topServices ==> c.service != omitted)
        ==> |stats.topServices| == 10
            && forall c :: c in stats.topServices ==>
                 var times := TimesNamed(items, |items|, omitted);
                 c.count >= times && (c.count == times ==> StringLess(c.service, omitted))
  {
    assert items[..|items|] == items;
    hide IsStats, Mentions, TimesNamed;
    TopServicesAreTheTop(items, stats, omitted);
    MentionCount(items, |items|, omitted);
    forall c | c in stats.topServices
      ensures c.service != "" && c.count == TimesNamed(items, |items|, c.service) > 0
    {
      MentionCount(items, |items|, c.service);
    }
  }
}
