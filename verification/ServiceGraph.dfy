/** The other two insights drawn from a trace: the slowest spans, and the edges
    between services with their call counts and 95th percentiles. */
module ServiceGraph {
  import opened CriticalPath
  import opened Sorting

  // ---------------------------------------------------------------------
  // Percentiles
  // ---------------------------------------------------------------------

  predicate RealLess(a: real, b: real) {
    a < b
  }

  function RankOf(n: nat, pct: int): int {
    (pct * (n - 1)) / 100
  }

  lemma ShareAtMost(m: nat, pct: int)
    requires 0 <= pct <= 100
    ensures 0 <= pct * m <= 100 * m
  {
    assert (100 - pct) * m >= 0;
  }

  lemma HundredthInRange(product: int, m: nat)
    requires 0 <= product <= 100 * m
    ensures 0 <= product / 100 <= m && 100 * (product / 100) <= product < 100 * (product / 100 + 1)
  {
  }

  lemma RankInRange(n: nat, pct: int)
    requires n > 0 && 0 <= pct <= 100
    ensures 0 <= RankOf(n, pct) < n
    ensures 100 * RankOf(n, pct) <= pct * (n - 1) < 100 * (RankOf(n, pct) + 1)
  {
    ShareAtMost(n - 1, pct);
    HundredthInRange(pct * (n - 1), n - 1);
  }

  function PercentileOf(values: seq<real>, pct: int): real
    requires 0 <= pct <= 100
  {
    if values == [] then 0.0
    else
      RankInRange(|values|, pct);
      Sort(values, RealLess)[RankOf(|values|, pct)]
  }

  method Percentile(values: seq<real>, pct: int) returns (p: real)
    requires 0 <= pct <= 100
    ensures p == PercentileOf(values, pct)
    ensures values == [] ==> p == 0.0
  {
    if |values| == 0 {
      return 0.0;
    }
    var sorted := Sort(values, RealLess);
    var index := (pct * (|sorted| - 1)) / 100;
    RankInRange(|values|, pct);
    p := sorted[index];
  }

  predicate OnSide(v: real, pivot: real, upper: bool) {
    if upper then v >= pivot else v <= pivot
  }

  /** How many values are at least the pivot (upper), or at most the pivot. */
  function Count(s: seq<real>, pivot: real, upper: bool): nat {
    if s == [] then 0 else (if OnSide(s[0], pivot, upper) then 1 else 0) + Count(s[1..], pivot, upper)
  }

  lemma {:induction false} InsertCount(x: real, s: seq<real>, pivot: real, upper: bool)
    ensures Count(Insert(x, s, RealLess), pivot, upper) == (if OnSide(x, pivot, upper) then 1 else 0) + Count(s, pivot, upper)
  {
    if s == [] || !RealLess(s[0], x) {
      assert ([x] + s)[1..] == s;
    } else {
      InsertCount(x, s[1..], pivot, upper);
      assert Insert(x, s, RealLess)[1..] == Insert(x, s[1..], RealLess);
    }
  }

  lemma {:induction false} SortCount(s: seq<real>, pivot: real, upper: bool)
    ensures Count(Sort(s, RealLess), pivot, upper) == Count(s, pivot, upper)
  {
    if s != [] {
      SortCount(s[1..], pivot, upper);
      InsertCount(s[0], Sort(s[1..], RealLess), pivot, upper);
    }
  }

  lemma {:induction false} CountRange(s: seq<real>, pivot: real, upper: bool, lo: nat, hi: nat)
    requires lo <= hi <= |s| && forall i :: lo <= i < hi ==> OnSide(s[i], pivot, upper)
    ensures Count(s, pivot, upper) >= hi - lo
  {
    if lo < hi {
      if lo == 0 {
        CountRange(s[1..], pivot, upper, 0, hi - 1);
      } else {
        CountRange(s[1..], pivot, upper, lo - 1, hi - 1);
      }
    }
  }

  lemma SortedSplit(sorted: seq<real>, k: nat)
    requires Sorted(sorted, RealLess) && k < |sorted|
    ensures Count(sorted, sorted[k], false) >= k + 1
    ensures Count(sorted, sorted[k], true) >= |sorted| - k
  {
    forall i | 0 <= i < k + 1 ensures OnSide(sorted[i], sorted[k], false) { if i < k { assert !RealLess(sorted[k], sorted[i]); } }
    forall i | k <= i < |sorted| ensures OnSide(sorted[i], sorted[k], true) { if k < i { assert !RealLess(sorted[i], sorted[k]); } }
    CountRange(sorted, sorted[k], false, 0, k + 1);
    CountRange(sorted, sorted[k], true, k, |sorted|);
  }

  /** The percentile is an order statistic of the values: a member with at least
      rank+1 values not above it and at least n-rank values not below it. */
  lemma PercentileIsOrderStatistic(values: seq<real>, pct: int)
    requires values != [] && 0 <= pct <= 100
    ensures 0 <= RankOf(|values|, pct) < |values|
    ensures 100 * RankOf(|values|, pct) <= pct * (|values| - 1) < 100 * (RankOf(|values|, pct) + 1)
    ensures PercentileOf(values, pct) in values
    ensures Count(values, PercentileOf(values, pct), false) >= RankOf(|values|, pct) + 1
    ensures Count(values, PercentileOf(values, pct), true) >= |values| - RankOf(|values|, pct)
  {
    RankInRange(|values|, pct);
    hide RankOf, Sort, Count;
    var sorted := Sort(values, RealLess);
    var p := PercentileOf(values, pct);
    SortSorted(values, RealLess);
    MemberOfMultiset(sorted, values);
    SortedSplit(sorted, RankOf(|values|, pct));
    SortCount(values, p, false);
    SortCount(values, p, true);
  }

  /** The percentile does not depend on the order of the values. */
  lemma PercentileIgnoresOrder(a: seq<real>, b: seq<real>, pct: int)
    requires multiset(a) == multiset(b) && 0 <= pct <= 100
    ensures PercentileOf(a, pct) == PercentileOf(b, pct)
  {
    SameSize(a, b);
    SortSorted(a, RealLess);
    SortSorted(b, RealLess);
    SortUnique(Sort(a, RealLess), Sort(b, RealLess), RealLess);
  }

  // ---------------------------------------------------------------------
  // Slowest spans
  // ---------------------------------------------------------------------

  predicate Longer(a: Span, b: Span) {
    a.durationMs > b.durationMs
  }

  function Listed(n: nat, top: int): nat {
    if top <= 0 || top > n then n else top
  }

  method SlowestSpans(spans: seq<Span>, top: int) returns (ids: seq<string>)
    ensures var sorted := Sort(spans, Longer);
            && |ids| == (if 0 < top < |spans| then top else |spans|)
            && forall i :: 0 <= i < |ids| ==> ids[i] == sorted[i].id
  {
    if |spans| == 0 {
      return [];
    }
    var indexed := Sort(spans, Longer);
    var limit := top;
    if limit <= 0 || limit > |indexed| {
      limit := |indexed|;
    }
    ids := [];
    for i := 0 to limit
      invariant |ids| == i
      invariant forall j :: 0 <= j < i ==> ids[j] == indexed[j].id
    {
      ids := ids + [indexed[i].id];
    }
  }

  /** The listed spans and the omitted ones make up the trace, nothing omitted
      outlasts anything listed, and equally long spans keep the trace's order. */
  lemma SlowestSpansAreTheLongest(spans: seq<Span>, top: int, e: Span)
    ensures var sorted := Sort(spans, Longer);
            var n := Listed(|spans|, top);
            && multiset(sorted[..n]) + multiset(sorted[n..]) == multiset(spans)
            && (forall i, j :: 0 <= i < j < |sorted| ==> sorted[i].durationMs >= sorted[j].durationMs)
            && TiedWith(e, sorted, Longer) == TiedWith(e, spans, Longer)
  {
    var sorted := Sort(spans, Longer);
    var n := Listed(|spans|, top);
    CutMultiset(sorted, n);
    SortSorted(spans, Longer);
    SortStable(e, spans, Longer);
    hide *;
    SortedFalls(sorted);
  }

  lemma CutMultiset<T>(s: seq<T>, n: nat)
    requires n <= |s|
    ensures multiset(s[..n]) + multiset(s[n..]) == multiset(s)
  {
    assert s == s[..n] + s[n..];
  }

  lemma SortedFalls(sorted: seq<Span>)
    requires Sorted(sorted, Longer)
    ensures forall i, j :: 0 <= i < j < |sorted| ==> sorted[i].durationMs >= sorted[j].durationMs
  {
    forall i, j | 0 <= i < j < |sorted|
      ensures sorted[i].durationMs >= sorted[j].durationMs
    {
      assert !Longer(sorted[j], sorted[i]);
    }
  }

  // ---------------------------------------------------------------------
  // Dependency edges
  // ---------------------------------------------------------------------

  datatype EdgeKey = EdgeKey(from: string, to: string)

  datatype DependencyEdge = DependencyEdge(key: EdgeKey, callCount: int, p95Ms: real)

  /** The span stored under an id: the last one that carries it. */
  function SpanById(spans: seq<Span>, id: string): Option<Span> {
    if spans == [] then None
    else if spans[|spans| - 1].id == id then Some(spans[|spans| - 1])
    else SpanById(spans[..|spans| - 1], id)
  }

  /** The edge a span's call crosses, if its parent is in another named service. */
  function EdgeOf(all: seq<Span>, span: Span): Option<EdgeKey> {
    var parent := SpanById(all, span.parent);
    if parent.None? || parent.value.service == "" || span.service == "" || parent.value.service == span.service
    then None
    else Some(EdgeKey(parent.value.service, span.service))
  }

  /** The durations of the calls across one edge, in trace order. */
  function DurationsOn(all: seq<Span>, spans: seq<Span>, key: EdgeKey): seq<real> {
    if spans == [] then []
    else
      var last := spans[|spans| - 1];
      DurationsOn(all, spans[..|spans| - 1], key)
      + (if EdgeOf(all, last) == Some(key) then [last.durationMs] else [])
  }

  predicate KeyLess(a: EdgeKey, b: EdgeKey) {
    if a.from == b.from then StringLess(a.to, b.to) else StringLess(a.from, b.from)
  }

  predicate EdgeLess(a: DependencyEdge, b: DependencyEdge) {
    KeyLess(a.key, b.key)
  }

  lemma KeyLessOrder()
    ensures forall a: EdgeKey :: !KeyLess(a, a)
    ensures forall a: EdgeKey, b: EdgeKey, c: EdgeKey {:trigger KeyLess(a, b), KeyLess(b, c)} ::
              KeyLess(a, b) && KeyLess(b, c) ==> KeyLess(a, c)
    ensures forall a: EdgeKey, b: EdgeKey :: a == b || KeyLess(a, b) || KeyLess(b, a)
  {
    StringLessOrder();
  }

  lemma EdgeLessStrictWeak()
    ensures StrictWeak(EdgeLess)
  {
    KeyLessOrder();
    forall a: DependencyEdge, b: DependencyEdge, c: DependencyEdge | EdgeLess(a, c)
      ensures EdgeLess(a, b) || EdgeLess(b, c)
    {
      assert a.key == b.key || KeyLess(a.key, b.key) || KeyLess(b.key, a.key);
    }
  }

  function EdgeFor(all: seq<Span>, key: EdgeKey): DependencyEdge {
    var durations := DurationsOn(all, all, key);
    DependencyEdge(key, |durations|, PercentileOf(durations, 95))
  }

  /** One entry per edge that occurs, in strictly increasing order. */
  ghost predicate IsEdgeTable(all: seq<Span>, edges: seq<DependencyEdge>) {
    && (forall i, j :: 0 <= i < j < |edges| ==> EdgeLess(edges[i], edges[j]))
    && AreEdgesOf(all, edges)
  }

  /** Exactly the edges that occur, each with its calls counted. */
  ghost predicate AreEdgesOf(all: seq<Span>, edges: seq<DependencyEdge>) {
    && (forall e :: e in edges ==> e == EdgeFor(all, e.key))
    && (forall key :: EdgeFor(all, key) in edges <==> DurationsOn(all, all, key) != [])
  }

  method IndexById(spans: seq<Span>) returns (byId: map<string, Span>)
    ensures forall id :: id in byId <==> SpanById(spans, id).Some?
    ensures forall id :: id in byId ==> SpanById(spans, id) == Some(byId[id])
  {
    byId := map[];
    for i := 0 to |spans|
      invariant forall id :: id in byId <==> SpanById(spans[..i], id).Some?
      invariant forall id :: id in byId ==> SpanById(spans[..i], id) == Some(byId[id])
    {
      assert spans[..i + 1][..i] == spans[..i];
      byId := byId[spans[i].id := spans[i]];
    }
    assert spans[..|spans|] == spans;
  }

  /** Every edge that the spans cross, with the durations of the calls across it. */
  ghost predicate IsGrouping(all: seq<Span>, spans: seq<Span>, durations: map<EdgeKey, seq<real>>) {
    && (forall key :: key in durations <==> DurationsOn(all, spans, key) != [])
    && (forall key :: key in durations ==> durations[key] == DurationsOn(all, spans, key))
  }

  function Grouped(durations: map<EdgeKey, seq<real>>, key: EdgeKey, d: real): map<EdgeKey, seq<real>> {
    durations[key := (if key in durations then durations[key] else []) + [d]]
  }

  lemma GroupingStep(all: seq<Span>, spans: seq<Span>, durations: map<EdgeKey, seq<real>>, span: Span)
    requires IsGrouping(all, spans, durations)
    ensures var edge := EdgeOf(all, span);
            IsGrouping(all, spans + [span], if edge.Some? then Grouped(durations, edge.value, span.durationMs) else durations)
  {
    hide EdgeOf;
    var edge := EdgeOf(all, span);
    forall key
      ensures DurationsOn(all, spans + [span], key)
           == DurationsOn(all, spans, key) + (if edge == Some(key) then [span.durationMs] else [])
    {
      assert (spans + [span])[..|spans|] == spans;
    }
    hide DurationsOn;
  }

  method GroupDurations(spans: seq<Span>) returns (durations: map<EdgeKey, seq<real>>)
    ensures IsGrouping(spans, spans, durations)
  {
    var byId := IndexById(spans);
    durations := map[];
    for i := 0 to |spans|
      invariant IsGrouping(spans, spans[..i], durations)
    {
      hide IsGrouping, Grouped, SpanById;
      assert spans[..i + 1] == spans[..i] + [spans[i]];
      var span := spans[i];
      GroupingStep(spans, spans[..i], durations, span);
      if span.parent in byId {
        var parent := byId[span.parent];
        if parent.service != "" && span.service != "" && parent.service != span.service {
          durations := Grouped(durations, EdgeKey(parent.service, span.service), span.durationMs);
        }
      }
    }
    assert spans[..|spans|] == spans;
  }

  /** The table, whatever order the grouping map is read in. */
  method DependencyEdges(spans: seq<Span>) returns (edges: seq<DependencyEdge>)
    ensures IsEdgeTable(spans, edges)
  {
    hide DurationsOn;
    if |spans| == 0 {
      NoEdges();
      return [];
    }
    var durations := GroupDurations(spans);
    var unordered: seq<DependencyEdge> := [];
    var pending := durations.Keys;
    while pending != {}
      invariant pending <= durations.Keys
      invariant forall e :: e in unordered ==> e == EdgeFor(spans, e.key) && e.key in durations.Keys - pending
      invariant forall key :: key in durations.Keys - pending ==> EdgeFor(spans, key) in unordered
      invariant Distinct(unordered)
      decreases pending
    {
      var key :| key in pending;
      pending := pending - {key};
      var p95 := Percentile(durations[key], 95);
      unordered := unordered + [DependencyEdge(key, |durations[key]|, p95)];
    }
    edges := Sort(unordered, EdgeLess);
    SortedIsTable(spans, unordered);
  }

  lemma NoEdges()
    ensures IsEdgeTable([], [])
  {
  }

  lemma StrictlySorted(edges: seq<DependencyEdge>)
    requires Sorted(edges, EdgeLess)
    requires forall i, j :: 0 <= i < j < |edges| ==> edges[i].key != edges[j].key
    ensures forall i, j :: 0 <= i < j < |edges| ==> EdgeLess(edges[i], edges[j])
  {
    KeyLessOrder();
    forall i, j | 0 <= i < j < |edges|
      ensures EdgeLess(edges[i], edges[j])
    {
      assert !EdgeLess(edges[j], edges[i]);
    }
  }

  /** Sorting any complete list of the edges gives the table. */
  lemma SortedIsTable(all: seq<Span>, unordered: seq<DependencyEdge>)
    requires AreEdgesOf(all, unordered) && Distinct(unordered)
    ensures IsEdgeTable(all, Sort(unordered, EdgeLess))
  {
    hide DurationsOn, EdgeFor, StrictWeak, Sort;
    var edges := Sort(unordered, EdgeLess);
    MemberOfMultiset(edges, unordered);
    RearrangedDistinct(unordered, edges);
    forall i, j | 0 <= i < j < |edges|
      ensures edges[i].key != edges[j].key
    {
      assert edges[i] in edges && edges[j] in edges;
    }
    EdgeLessStrictWeak();
    SortSorted(unordered, EdgeLess);
    StrictlySorted(edges);
  }

  lemma TableIsSortedSet(all: seq<Span>, edges: seq<DependencyEdge>)
    requires IsEdgeTable(all, edges)
    ensures Sorted(edges, EdgeLess) && Decided(edges, EdgeLess) && Distinct(edges)
    ensures forall i, j :: 0 <= i < j < |edges| ==> edges[i].key != edges[j].key
  {
    KeyLessOrder();
  }

  /** There is only one table for a trace: map iteration order cannot show. */
  lemma EdgeTableUnique(all: seq<Span>, a: seq<DependencyEdge>, b: seq<DependencyEdge>)
    requires IsEdgeTable(all, a) && IsEdgeTable(all, b)
    ensures a == b
  {
    TableIsSortedSet(all, a);
    TableIsSortedSet(all, b);
    hide EdgeFor, DurationsOn;
    forall e
      ensures e in a <==> e in b
    {
      assert e == EdgeFor(all, e.key) ==> (e in a <==> e in b);
    }
    SortedSetUnique(a, b, EdgeLess);
  }

  // ---------------------------------------------------------------------
  // What the edges are, by positions in the trace
  // ---------------------------------------------------------------------

  /** The last span with this id stands at j. */
  ghost predicate LastWithId(spans: seq<Span>, id: string, j: int) {
    0 <= j < |spans| && spans[j].id == id && forall k :: j < k < |spans| ==> spans[k].id != id
  }

  /** The span at i was called from service `from` in service `to`. */
  ghost predicate CallAt(spans: seq<Span>, i: int, from: string, to: string) {
    && 0 <= i < |spans|
    && spans[i].service == to
    && (exists j :: LastWithId(spans, spans[i].parent, j) && spans[j].service == from)
    && from != "" && to != "" && from != to
  }

  /** The first n positions that hold such calls, as long or as short as asked. */
  ghost function Calls(spans: seq<Span>, n: nat, from: string, to: string): set<int>
    requires n <= |spans|
  {
    set i | 0 <= i < n && CallAt(spans, i, from, to)
  }

  ghost function CallsOnSide(spans: seq<Span>, n: nat, from: string, to: string, pivot: real, upper: bool): set<int>
    requires n <= |spans|
  {
    set i | 0 <= i < n && CallAt(spans, i, from, to)
            && (if upper then spans[i].durationMs >= pivot else spans[i].durationMs <= pivot)
  }

  lemma {:induction false} SpanByIdIs(spans: seq<Span>, id: string)
    ensures SpanById(spans, id).Some? ==> exists j :: LastWithId(spans, id, j) && spans[j] == SpanById(spans, id).value
    ensures SpanById(spans, id).None? ==> forall j :: !LastWithId(spans, id, j)
  {
    if spans != [] {
      var n := |spans| - 1;
      SpanByIdIs(spans[..n], id);
      if spans[n].id == id {
        assert LastWithId(spans, id, n);
      } else if SpanById(spans, id).Some? {
        var j :| LastWithId(spans[..n], id, j) && spans[..n][j] == SpanById(spans, id).value;
        assert LastWithId(spans, id, j);
      } else if j :| LastWithId(spans, id, j) {
        assert LastWithId(spans[..n], id, j);
      }
    }
  }

  lemma EdgeOfIs(spans: seq<Span>, i: nat, from: string, to: string)
    requires i < |spans|
    ensures EdgeOf(spans, spans[i]) == Some(EdgeKey(from, to)) <==> CallAt(spans, i, from, to)
  {
    SpanByIdIs(spans, spans[i].parent);
    hide SpanById;
  }

  lemma {:induction false} CountAppend(s: seq<real>, x: real, pivot: real, upper: bool)
    ensures Count(s + [x], pivot, upper) == Count(s, pivot, upper) + (if OnSide(x, pivot, upper) then 1 else 0)
  {
    if s == [] {
      assert (s + [x])[1..] == [];
    } else {
      CountAppend(s[1..], x, pivot, upper);
      assert (s + [x])[1..] == s[1..] + [x];
    }
  }

  lemma OneMoreCall(spans: seq<Span>, n: nat, from: string, to: string, pivot: real, upper: bool)
    requires n < |spans|
    ensures n !in Calls(spans, n, from, to) && n !in CallsOnSide(spans, n, from, to, pivot, upper)
    ensures Calls(spans, n + 1, from, to)
         == Calls(spans, n, from, to) + (if CallAt(spans, n, from, to) then {n} else {})
    ensures CallsOnSide(spans, n + 1, from, to, pivot, upper)
         == CallsOnSide(spans, n, from, to, pivot, upper)
            + (if CallAt(spans, n, from, to) && OnSide(spans[n].durationMs, pivot, upper) then {n} else {})
  {
    hide CallAt;
  }

  lemma DurationsStep(spans: seq<Span>, n: nat, from: string, to: string)
    requires n < |spans|
    ensures DurationsOn(spans, spans[..n + 1], EdgeKey(from, to))
         == DurationsOn(spans, spans[..n], EdgeKey(from, to)) + (if CallAt(spans, n, from, to) then [spans[n].durationMs] else [])
  {
    EdgeOfIs(spans, n, from, to);
    assert spans[..n + 1][..n] == spans[..n];
    hide CallAt, EdgeOf;
  }

  lemma NoCallsYet(spans: seq<Span>, from: string, to: string, pivot: real, upper: bool)
    ensures DurationsOn(spans, spans[..0], EdgeKey(from, to)) == []
    ensures Calls(spans, 0, from, to) == {} && CallsOnSide(spans, 0, from, to, pivot, upper) == {}
  {
  }

  lemma {:induction false} CallsCounted(spans: seq<Span>, n: nat, from: string, to: string)
    requires n <= |spans|
    ensures |DurationsOn(spans, spans[..n], EdgeKey(from, to))| == |Calls(spans, n, from, to)|
  {
    hide DurationsOn, CallAt, Calls, CallsOnSide;
    if n == 0 {
      NoCallsYet(spans, from, to, 0.0, true);
    } else {
      CallsCounted(spans, n - 1, from, to);
      OneMoreCall(spans, n - 1, from, to, 0.0, true);
      DurationsStep(spans, n - 1, from, to);
    }
  }

  lemma {:induction false} SideCounted(spans: seq<Span>, n: nat, from: string, to: string, pivot: real, upper: bool)
    requires n <= |spans|
    ensures Count(DurationsOn(spans, spans[..n], EdgeKey(from, to)), pivot, upper) == |CallsOnSide(spans, n, from, to, pivot, upper)|
  {
    hide DurationsOn, CallAt, Calls, CallsOnSide, OnSide;
    if n == 0 {
      NoCallsYet(spans, from, to, pivot, upper);
    } else {
      var d := spans[n - 1].durationMs;
      var before := DurationsOn(spans, spans[..n - 1], EdgeKey(from, to));
      SideCounted(spans, n - 1, from, to, pivot, upper);
      OneMoreCall(spans, n - 1, from, to, pivot, upper);
      DurationsStep(spans, n - 1, from, to);
      CountAppend(before, d, pivot, upper);
      assert before + [] == before;
    }
  }

  lemma {:induction false} DurationIsOfCall(spans: seq<Span>, n: nat, from: string, to: string, d: real)
    requires n <= |spans| && d in DurationsOn(spans, spans[..n], EdgeKey(from, to))
    ensures exists i :: i in Calls(spans, n, from, to) && spans[i].durationMs == d
  {
    hide DurationsOn, CallAt, Calls, CallsOnSide;
    if n == 0 {
      NoCallsYet(spans, from, to, 0.0, true);
    } else {
      OneMoreCall(spans, n - 1, from, to, 0.0, true);
      DurationsStep(spans, n - 1, from, to);
      if d in DurationsOn(spans, spans[..n - 1], EdgeKey(from, to)) {
        DurationIsOfCall(spans, n - 1, from, to, d);
      } else {
        assert n - 1 in Calls(spans, n, from, to);
      }
    }
  }

  lemma EdgeIsCalls(spans: seq<Span>, edges: seq<DependencyEdge>, from: string, to: string)
    requires IsEdgeTable(spans, edges)
    ensures EdgeFor(spans, EdgeKey(from, to)) in edges <==> Calls(spans, |spans|, from, to) != {}
    ensures EdgeFor(spans, EdgeKey(from, to)).callCount == |Calls(spans, |spans|, from, to)|
  {
    assert spans[..|spans|] == spans;
    CallsCounted(spans, |spans|, from, to);
    hide DurationsOn, Calls;
  }

  /** The edges of a trace: there is one from a service to another exactly if some
      span of the one is the parent of a span of the other, and it counts those spans. */
  lemma EdgesAreCalls(spans: seq<Span>, edges: seq<DependencyEdge>, from: string, to: string)
    requires IsEdgeTable(spans, edges)
    ensures (exists e :: e in edges && e.key == EdgeKey(from, to)) <==> exists i :: CallAt(spans, i, from, to)
    ensures forall e :: e in edges && e.key == EdgeKey(from, to) ==> e.callCount == |Calls(spans, |spans|, from, to)| > 0
  {
    EdgeIsCalls(spans, edges, from, to);
    var calls := Calls(spans, |spans|, from, to);
    assert forall i :: i in calls <==> CallAt(spans, i, from, to);
    assert forall e :: e in edges && e.key == EdgeKey(from, to) ==> e == EdgeFor(spans, EdgeKey(from, to));
    assert EdgeFor(spans, EdgeKey(from, to)).key == EdgeKey(from, to);
    hide EdgeFor, CallAt, Calls;
    if calls != {} { var i :| i in calls; }
  }

  /** An edge's 95th percentile is the duration of one of its calls, with at least
      rank+1 calls no longer and at least n-rank no shorter. */
  lemma EdgePercentile(spans: seq<Span>, edges: seq<DependencyEdge>, e: DependencyEdge) returns (rank: nat)
    requires IsEdgeTable(spans, edges) && e in edges
    ensures 100 * rank <= 95 * (e.callCount - 1) < 100 * (rank + 1)
    ensures exists i :: i in Calls(spans, |spans|, e.key.from, e.key.to) && spans[i].durationMs == e.p95Ms
    ensures |CallsOnSide(spans, |spans|, e.key.from, e.key.to, e.p95Ms, false)| >= rank + 1
    ensures |CallsOnSide(spans, |spans|, e.key.from, e.key.to, e.p95Ms, true)| >= e.callCount - rank
  {
    assert spans[..|spans|] == spans;
    var durations := DurationsOn(spans, spans, e.key);
    assert e == EdgeFor(spans, e.key) && durations != [];
    hide DurationsOn, Count, PercentileOf, Calls, CallsOnSide, RankOf;
    CallsCounted(spans, |spans|, e.key.from, e.key.to);
    SideCounted(spans, |spans|, e.key.from, e.key.to, e.p95Ms, false);
    SideCounted(spans, |spans|, e.key.from, e.key.to, e.p95Ms, true);
    PercentileIsOrderStatistic(durations, 95);
    DurationIsOfCall(spans, |spans|, e.key.from, e.key.to, e.p95Ms);
    rank := RankOf(|durations|, 95);
  }

  // ---------------------------------------------------------------------
  // Calls are conserved
  // ---------------------------------------------------------------------

  /** Spans whose parent is in another named service. */
  function CrossServiceCalls(all: seq<Span>, spans: seq<Span>): nat {
    if spans == [] then 0
    else CrossServiceCalls(all, spans[..|spans| - 1]) + (if EdgeOf(all, spans[|spans| - 1]).Some? then 1 else 0)
  }

  function TotalCalls(edges: seq<DependencyEdge>): int {
    if edges == [] then 0 else TotalCalls(edges[..|edges| - 1]) + edges[|edges| - 1].callCount
  }

  /** The calls of `spans` that fall on the listed edges. */
  function CallsOn(all: seq<Span>, spans: seq<Span>, edges: seq<DependencyEdge>): int {
    if edges == [] then 0
    else CallsOn(all, spans, edges[..|edges| - 1]) + |DurationsOn(all, spans, edges[|edges| - 1].key)|
  }

  lemma {:induction false} CallsOnNothing(all: seq<Span>, edges: seq<DependencyEdge>)
    ensures CallsOn(all, [], edges) == 0
  {
    if edges != [] { CallsOnNothing(all, edges[..|edges| - 1]); }
  }

  /** One more span adds one call if the list has its edge, none otherwise. */
  lemma {:induction false} CallsOnStep(all: seq<Span>, spans: seq<Span>, edges: seq<DependencyEdge>)
    requires spans != []
    requires forall i, j :: 0 <= i < j < |edges| ==> edges[i].key != edges[j].key
    ensures CallsOn(all, spans, edges) == CallsOn(all, spans[..|spans| - 1], edges)
            + (var key := EdgeOf(all, spans[|spans| - 1]); if key.Some? && Lists(edges, key.value) then 1 else 0)
  {
    if edges != [] {
      var front := edges[..|edges| - 1];
      CallsOnStep(all, spans, front);
      var key := EdgeOf(all, spans[|spans| - 1]);
      if key.Some? { ListsFront(edges, key.value); }
    }
  }

  ghost predicate Lists(edges: seq<DependencyEdge>, key: EdgeKey) {
    exists i :: 0 <= i < |edges| && edges[i].key == key
  }

  lemma {:induction false} ListsFront(edges: seq<DependencyEdge>, key: EdgeKey)
    requires edges != []
    requires forall i, j :: 0 <= i < j < |edges| ==> edges[i].key != edges[j].key
    ensures Lists(edges, key) <==> Lists(edges[..|edges| - 1], key) || edges[|edges| - 1].key == key
    ensures !(Lists(edges[..|edges| - 1], key) && edges[|edges| - 1].key == key)
  {
    var front := edges[..|edges| - 1];
    if Lists(front, key) {
      var i :| 0 <= i < |front| && front[i].key == key;
      assert edges[i].key == key;
    }
    if Lists(edges, key) && edges[|edges| - 1].key != key {
      var i :| 0 <= i < |edges| && edges[i].key == key;
      assert front[i].key == key;
    }
  }

  lemma {:induction false} CallsOnTable(all: seq<Span>, spans: seq<Span>, edges: seq<DependencyEdge>)
    requires forall i, j :: 0 <= i < j < |edges| ==> edges[i].key != edges[j].key
    requires forall s :: s in spans && EdgeOf(all, s).Some? ==> Lists(edges, EdgeOf(all, s).value)
    ensures CallsOn(all, spans, edges) == CrossServiceCalls(all, spans)
  {
    if spans == [] {
      CallsOnNothing(all, edges);
    } else {
      var front, last := spans[..|spans| - 1], spans[|spans| - 1];
      assert spans == front + [last];
      CallsOnTable(all, front, edges);
      CallsOnStep(all, spans, edges);
      if EdgeOf(all, last).Some? {
        assert last in spans;
        assert Lists(edges, EdgeOf(all, last).value);
      }
    }
  }

  lemma {:induction false} TableTotal(all: seq<Span>, edges: seq<DependencyEdge>)
    requires forall e :: e in edges ==> e == EdgeFor(all, e.key)
    ensures TotalCalls(edges) == CallsOn(all, all, edges)
  {
    if edges != [] {
      var last := edges[|edges| - 1];
      assert last in edges;
      TableTotal(all, edges[..|edges| - 1]);
    }
  }

  lemma {:induction false} CrossingHasDuration(all: seq<Span>, spans: seq<Span>, s: Span)
    requires s in spans && EdgeOf(all, s).Some?
    ensures DurationsOn(all, spans, EdgeOf(all, s).value) != []
  {
    var front, last := spans[..|spans| - 1], spans[|spans| - 1];
    assert spans == front + [last];
    if s != last { CrossingHasDuration(all, front, s); }
  }

  /** The call counts of the table add up to the spans that cross services. */
  lemma CallsAreConserved(all: seq<Span>, edges: seq<DependencyEdge>)
    requires IsEdgeTable(all, edges)
    ensures TotalCalls(edges) == CrossServiceCalls(all, all)
  {
    TableIsSortedSet(all, edges);
    forall s | s in all && EdgeOf(all, s).Some?
      ensures Lists(edges, EdgeOf(all, s).value)
    {
      CrossingHasDuration(all, all, s);
      var e := EdgeFor(all, EdgeOf(all, s).value);
      assert e in edges;
    }
    TableTotal(all, edges);
    CallsOnTable(all, all, edges);
  }
}
