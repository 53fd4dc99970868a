/** Self time of spans, as the two trace adapters compute it: a span's duration
    less the durations of its children, clamped at zero. Durations are 64-bit
    integers in the provider's unit (microseconds for Jaeger, nanoseconds for
    OTLP), their sums wrap, and they are reported in milliseconds. */
module SelfTime {
  import opened Int64

  datatype RawSpan = RawSpan(id: string, parent: string, duration: int64)

  datatype TimedSpan = TimedSpan(id: string, parent: string, durationMs: real, selfMs: real)

  const US_PER_MS := 1000.0
  const NS_PER_MS := 1000000.0

  // ---------------------------------------------------------------------
  // The computation, span by span
  // ---------------------------------------------------------------------

  /** The true total of the durations of the spans naming `id` as their (non-empty) parent. */
  function ChildTotal(spans: seq<RawSpan>, id: string): int {
    if spans == [] then 0
    else
      var last := spans[|spans| - 1];
      ChildTotal(spans[..|spans| - 1], id) + (if last.parent != "" && last.parent == id then last.duration else 0)
  }

  function SelfUnits(duration: int, child: int): int {
    if child <= 0 then duration else if duration - child < 0 then 0 else duration - child
  }

  function Timed(spans: seq<RawSpan>, span: RawSpan, unit: real): TimedSpan
    requires unit > 0.0
  {
    TimedSpan(span.id, span.parent, span.duration as real / unit,
              SelfUnits(span.duration, Wrap(ChildTotal(spans, span.id))) as real / unit)
  }

  ghost predicate AllTimed(spans: seq<RawSpan>, out: seq<TimedSpan>, unit: real)
    requires unit > 0.0
  {
    |out| == |spans| && forall i :: 0 <= i < |spans| ==> out[i] == Timed(spans, spans[i], unit)
  }

  function At(totals: map<string, int64>, id: string): int64 {
    if id in totals then totals[id] else 0
  }

  ghost predicate TotalsUpTo(totals: map<string, int64>, spans: seq<RawSpan>) {
    forall id: string :: At(totals, id) == Wrap(ChildTotal(spans, id))
  }

  function Charge(totals: map<string, int64>, parent: string, duration: int64): map<string, int64> {
    totals[parent := Wrap(At(totals, parent) + duration)]
  }

  /** Wrapping at every addition or once at the end is the same. */
  lemma WrapAdds(x: int, d: int)
    ensures Wrap(Wrap(x) + d) == Wrap(x + d)
  {
    var q := WrapDifference(x);
    WrapPeriodic(Wrap(x) + d, x + d, -q);
  }

  method SelfMs(duration: int64, child: int64, unit: real) returns (selfMs: real)
    requires unit > 0.0
    ensures selfMs == SelfUnits(duration, child) as real / unit
  {
    selfMs := duration as real / unit;
    if child > 0 {
      selfMs := (duration as real - child as real) / unit;
      NegativeQuotient(duration - child, unit);
      if selfMs < 0.0 {
        selfMs := 0.0;
      }
    }
  }

  lemma NegativeQuotient(d: int, unit: real)
    requires unit > 0.0
    ensures d as real / unit < 0.0 <==> d < 0
  {
    var q := d as real / unit;
    assert q * unit == d as real;
  }

  /** The Jaeger adapter. */
  method FetchSpans(spans: seq<RawSpan>) returns (out: seq<TimedSpan>)
    ensures AllTimed(spans, out, US_PER_MS)
  {
    out := [];
    if |spans| == 0 {
      return;
    }
    var childDurations: map<string, int64> := map[];
    for i := 0 to |spans|
      invariant TotalsUpTo(childDurations, spans[..i])
    {
      assert spans[..i + 1] == spans[..i] + [spans[i]];
      TotalsStep(childDurations, spans[..i], spans[i]);
      var parent := spans[i].parent;
      if parent != "" {
        childDurations := Charge(childDurations, parent, spans[i].duration);
      }
    }
    assert spans[..|spans|] == spans;
    for i := 0 to |spans|
      invariant |out| == i
      invariant forall j :: 0 <= j < i ==> out[j] == Timed(spans, spans[j], US_PER_MS)
    {
      var raw := spans[i];
      var selfMs := SelfMs(raw.duration, At(childDurations, raw.id), US_PER_MS);
      out := out + [TimedSpan(raw.id, raw.parent, raw.duration as real / US_PER_MS, selfMs)];
    }
  }

  // ---------------------------------------------------------------------
  // The OTLP adapter: durations go through a table keyed by span id
  // ---------------------------------------------------------------------

  datatype OtlpSpan = OtlpSpan(id: string, parent: string, start: int64, end: int64)

  function Raw(s: OtlpSpan): RawSpan {
    RawSpan(s.id, s.parent, Wrap(s.end - s.start))
  }

  function Raws(spans: seq<OtlpSpan>): (r: seq<RawSpan>)
    ensures |r| == |spans|
  {
    if spans == [] then [] else Raws(spans[..|spans| - 1]) + [Raw(spans[|spans| - 1])]
  }

  /** The spans of all resource groups, in order. */
  function Flatten(groups: seq<seq<OtlpSpan>>): seq<RawSpan> {
    if groups == [] then [] else Flatten(groups[..|groups| - 1]) + Raws(groups[|groups| - 1])
  }

  /** The duration on record for an id: the last span with that id sets it. */
  function LastDuration(spans: seq<RawSpan>, id: string): int64 {
    if spans == [] then 0
    else if spans[|spans| - 1].id == id then spans[|spans| - 1].duration
    else LastDuration(spans[..|spans| - 1], id)
  }

  /** Every span with the duration on record for its id. */
  function Recorded(all: seq<RawSpan>, spans: seq<RawSpan>): (r: seq<RawSpan>)
    ensures |r| == |spans|
  {
    if spans == [] then []
    else
      var last := spans[|spans| - 1];
      Recorded(all, spans[..|spans| - 1]) + [RawSpan(last.id, last.parent, LastDuration(all, last.id))]
  }

  ghost predicate DurationsUpTo(durations: map<string, int64>, spans: seq<RawSpan>) {
    forall id: string :: At(durations, id) == LastDuration(spans, id)
  }

  /** Appending one span of a group to those before it. */
  lemma GroupStep(done: seq<RawSpan>, spans: seq<OtlpSpan>, j: nat)
    requires j < |spans|
    ensures done + Raws(spans[..j + 1]) == (done + Raws(spans[..j])) + [Raw(spans[j])]
  {
    assert spans[..j + 1][..j] == spans[..j];
  }

  lemma FlattenStep(groups: seq<seq<OtlpSpan>>, g: nat)
    requires g < |groups|
    ensures Flatten(groups[..g + 1]) == Flatten(groups[..g]) + Raws(groups[g])
  {
    assert groups[..g + 1][..g] == groups[..g];
  }

  lemma PrefixPlusOne<T>(s: seq<T>, x: T)
    ensures (s + [x])[..|s + [x]| - 1] == s
  {
  }

  lemma RecordedStep(all: seq<RawSpan>, before: seq<RawSpan>, x: RawSpan)
    ensures Recorded(all, before + [x]) == Recorded(all, before) + [RawSpan(x.id, x.parent, LastDuration(all, x.id))]
  {
    PrefixPlusOne(before, x);
  }

  /** Charging one more span to its parent keeps the totals right. */
  lemma TotalsStep(totals: map<string, int64>, spans: seq<RawSpan>, x: RawSpan)
    requires TotalsUpTo(totals, spans)
    ensures x.parent == "" ==> TotalsUpTo(totals, spans + [x])
    ensures x.parent != "" ==> TotalsUpTo(Charge(totals, x.parent, x.duration), spans + [x])
  {
    hide Wrap;
    PrefixPlusOne(spans, x);
    WrapAdds(ChildTotal(spans, x.parent), x.duration);
    var charged := Charge(totals, x.parent, x.duration);
    forall id | x.parent != "" && id != x.parent
      ensures At(charged, id) == At(totals, id) && ChildTotal(spans + [x], id) == ChildTotal(spans, id)
    {
    }
    assert At(totals, x.parent) == Wrap(ChildTotal(spans, x.parent));
  }

  method RecordDurations(groups: seq<seq<OtlpSpan>>) returns (durations: map<string, int64>)
    ensures DurationsUpTo(durations, Flatten(groups))
  {
    durations := map[];
    for g := 0 to |groups|
      invariant DurationsUpTo(durations, Flatten(groups[..g]))
    {
      ghost var done := Flatten(groups[..g]);
      var spans := groups[g];
      EmptyGroupPrefix(done, spans);
      for j := 0 to |spans|
        invariant DurationsUpTo(durations, done + Raws(spans[..j]))
      {
        GroupStep(done, spans, j);
        PrefixPlusOne(done + Raws(spans[..j]), Raw(spans[j]));
        durations := durations[spans[j].id := Wrap(spans[j].end - spans[j].start)];
      }
      assert spans[..|spans|] == spans;
      FlattenStep(groups, g);
    }
    assert groups[..|groups|] == groups;
  }

  lemma NoTotals(all: seq<RawSpan>)
    ensures TotalsUpTo(map[], Recorded(all, Flatten([])))
  {
  }

  lemma EmptyGroupPrefix(done: seq<RawSpan>, spans: seq<OtlpSpan>)
    ensures done + Raws(spans[..0]) == done
  {
  }

  method SumChildren(groups: seq<seq<OtlpSpan>>, durations: map<string, int64>, ghost all: seq<RawSpan>)
    returns (childDurations: map<string, int64>)
    requires DurationsUpTo(durations, all)
    ensures TotalsUpTo(childDurations, Recorded(all, Flatten(groups)))
  {
    hide Recorded, Raws, TotalsUpTo;
    NoTotals(all);
    childDurations := map[];
    for g := 0 to |groups|
      invariant TotalsUpTo(childDurations, Recorded(all, Flatten(groups[..g])))
    {
      ghost var done := Flatten(groups[..g]);
      var spans := groups[g];
      EmptyGroupPrefix(done, spans);
      for j := 0 to |spans|
        invariant TotalsUpTo(childDurations, Recorded(all, done + Raws(spans[..j])))
      {
        GroupStep(done, spans, j);
        ghost var before := done + Raws(spans[..j]);
        RecordedStep(all, before, Raw(spans[j]));
        var parent := spans[j].parent;
        var duration := At(durations, spans[j].id);
        TotalsStep(childDurations, Recorded(all, before), RawSpan(spans[j].id, parent, duration));
        if parent != "" {
          childDurations := Charge(childDurations, parent, duration);
        }
      }
      assert spans[..|spans|] == spans;
      FlattenStep(groups, g);
    }
    assert groups[..|groups|] == groups;
  }

  ghost predicate TimedUpTo(table: seq<RawSpan>, spans: seq<RawSpan>, out: seq<TimedSpan>) {
    |out| == |spans| && forall i :: 0 <= i < |spans| ==> out[i] == Timed(table, spans[i], NS_PER_MS)
  }

  lemma TimedIs(table: seq<RawSpan>, totals: map<string, int64>, x: RawSpan, selfMs: real)
    requires TotalsUpTo(totals, table)
    requires selfMs == SelfUnits(x.duration, At(totals, x.id)) as real / NS_PER_MS
    ensures Timed(table, x, NS_PER_MS) == TimedSpan(x.id, x.parent, x.duration as real / NS_PER_MS, selfMs)
  {
  }

  /** The OTLP adapter, after decoding. */
  method DecodeSpans(groups: seq<seq<OtlpSpan>>) returns (out: seq<TimedSpan>)
    ensures AllTimed(Recorded(Flatten(groups), Flatten(groups)), out, NS_PER_MS)
  {
    hide Raws, Timed, TimedUpTo, Recorded;
    NothingTimed(Flatten(groups));
    ghost var all := Flatten(groups);
    ghost var table := Recorded(all, all);
    var durations := RecordDurations(groups);
    var childDurations := SumChildren(groups, durations, all);
    out := [];
    for g := 0 to |groups|
      invariant TimedUpTo(table, Recorded(all, Flatten(groups[..g])), out)
    {
      ghost var done := Flatten(groups[..g]);
      var spans := groups[g];
      EmptyGroupPrefix(done, spans);
      for j := 0 to |spans|
        invariant TimedUpTo(table, Recorded(all, done + Raws(spans[..j])), out)
      {
        GroupStep(done, spans, j);
        RecordedStep(all, done + Raws(spans[..j]), Raw(spans[j]));
        var raw := spans[j];
        var duration := At(durations, raw.id);
        var selfMs := SelfMs(duration, At(childDurations, raw.id), NS_PER_MS);
        ghost var x := RawSpan(raw.id, raw.parent, duration);
        TimedIs(table, childDurations, x, selfMs);
        OneMoreTimed(table, Recorded(all, done + Raws(spans[..j])), out, x);
        out := out + [TimedSpan(raw.id, raw.parent, duration as real / NS_PER_MS, selfMs)];
      }
      assert spans[..|spans|] == spans;
      FlattenStep(groups, g);
    }
    assert groups[..|groups|] == groups;
    TimedAll(table, table, out);
  }

  lemma NothingTimed(all: seq<RawSpan>)
    ensures TimedUpTo(Recorded(all, all), Recorded(all, Flatten([])), [])
  {
  }

  lemma OneMoreTimed(table: seq<RawSpan>, spans: seq<RawSpan>, out: seq<TimedSpan>, x: RawSpan)
    requires TimedUpTo(table, spans, out)
    ensures TimedUpTo(table, spans + [x], out + [Timed(table, x, NS_PER_MS)])
  {
  }

  lemma TimedAll(table: seq<RawSpan>, spans: seq<RawSpan>, out: seq<TimedSpan>)
    requires TimedUpTo(table, spans, out) && table == spans
    ensures AllTimed(spans, out, NS_PER_MS)
  {
  }

  ghost predicate DistinctIds(spans: seq<RawSpan>) {
    forall i, j :: 0 <= i < j < |spans| ==> spans[i].id != spans[j].id
  }

  /** The duration on record for an id is that of the last span that carries it. */
  lemma {:induction false} LastDurationIs(all: seq<RawSpan>, k: nat)
    requires k < |all| && forall j :: k < j < |all| ==> all[j].id != all[k].id
    ensures LastDuration(all, all[k].id) == all[k].duration
  {
    var n := |all| - 1;
    if k < n { LastDurationIs(all[..n], k); }
  }

  /** Spans keep their order, ids and parents through groups and table. */
  lemma {:induction false} RecordedIs(all: seq<RawSpan>, spans: seq<RawSpan>, i: nat)
    requires i < |spans|
    ensures Recorded(all, spans)[i] == RawSpan(spans[i].id, spans[i].parent, LastDuration(all, spans[i].id))
  {
    var n := |spans| - 1;
    if i < n { RecordedIs(all, spans[..n], i); }
  }

  lemma {:induction false} RawsIs(spans: seq<OtlpSpan>, i: nat)
    requires i < |spans|
    ensures Raws(spans)[i].id == spans[i].id && Raws(spans)[i].parent == spans[i].parent
    ensures -TWO_63 <= spans[i].end - spans[i].start < TWO_63 ==> Raws(spans)[i].duration == spans[i].end - spans[i].start
  {
    var n := |spans| - 1;
    if i < n { RawsIs(spans[..n], i); }
  }

  lemma {:induction false} FlattenAppends(a: seq<seq<OtlpSpan>>, b: seq<seq<OtlpSpan>>)
    ensures Flatten([]) == [] && Flatten(a + b) == Flatten(a) + Flatten(b)
    ensures |a| == 1 ==> Flatten(a) == Raws(a[0])
  {
    if b == [] {
      assert a + b == a;
    } else {
      var n := |b| - 1;
      FlattenAppends(a, b[..n]);
      assert (a + b)[..|a| + n] == a + b[..n] && (a + b)[|a| + n] == b[n];
      hide Raws;
      assert Flatten(a + b) == Flatten(a + b[..n]) + Raws(b[n]);
      assert Flatten(b) == Flatten(b[..n]) + Raws(b[n]);
    }
  }

  lemma {:induction false} RecordedUnchanged(all: seq<RawSpan>, n: nat)
    requires DistinctIds(all) && n <= |all|
    ensures Recorded(all, all[..n]) == all[..n]
  {
    if n > 0 {
      assert all[..n][..n - 1] == all[..n - 1];
      RecordedUnchanged(all, n - 1);
      LastDurationIs(all, n - 1);
    }
  }

  /** With distinct ids the id table is transparent. */
  lemma TableIsTransparent(groups: seq<seq<OtlpSpan>>)
    requires DistinctIds(Flatten(groups))
    ensures Recorded(Flatten(groups), Flatten(groups)) == Flatten(groups)
  {
    var all := Flatten(groups);
    RecordedUnchanged(all, |all|);
    assert all[..|all|] == all;
  }

  /** The same spans, in microseconds and in nanoseconds. */
  ghost predicate SameSpans(us: seq<RawSpan>, ns: seq<RawSpan>) {
    |us| == |ns| && forall i :: 0 <= i < |us| ==>
      us[i].id == ns[i].id && us[i].parent == ns[i].parent && ns[i].duration == 1000 * us[i].duration
  }

  lemma {:induction false} TotalScales(us: seq<RawSpan>, ns: seq<RawSpan>, id: string)
    requires SameSpans(us, ns)
    ensures ChildTotal(ns, id) == 1000 * ChildTotal(us, id)
  {
    if us != [] { TotalScales(us[..|us| - 1], ns[..|ns| - 1], id); }
  }

  lemma ThousandCancels(x: int)
    ensures (1000 * x) as real / NS_PER_MS == x as real / US_PER_MS
  {
  }

  /** No child total overflows in nanoseconds. */
  ghost predicate TotalsFit(ns: seq<RawSpan>) {
    forall i :: 0 <= i < |ns| ==> -TWO_63 <= ChildTotal(ns, ns[i].id) < TWO_63
  }

  lemma TimedAgree(us: seq<RawSpan>, ns: seq<RawSpan>, i: nat)
    requires SameSpans(us, ns) && TotalsFit(ns) && i < |us|
    ensures Timed(us, us[i], US_PER_MS) == Timed(ns, ns[i], NS_PER_MS)
  {
    var x, y := us[i], ns[i];
    TotalScales(us, ns, x.id);
    WrapSmall(ChildTotal(ns, y.id));
    WrapSmall(ChildTotal(us, x.id));
    hide Wrap, ChildTotal;
    ThousandCancels(x.duration);
    ThousandCancels(SelfUnits(x.duration, ChildTotal(us, x.id)));
  }

  /** Given the same trace, each in its own unit, the two adapters report the same
      spans with the same durations and self times. */
  lemma AdaptersAgree(us: seq<RawSpan>, groups: seq<seq<OtlpSpan>>, jaeger: seq<TimedSpan>, otlp: seq<TimedSpan>)
    requires SameSpans(us, Flatten(groups)) && DistinctIds(us) && TotalsFit(Flatten(groups))
    requires AllTimed(us, jaeger, US_PER_MS)
    requires AllTimed(Recorded(Flatten(groups), Flatten(groups)), otlp, NS_PER_MS)
    ensures jaeger == otlp
  {
    var ns := Flatten(groups);
    TableIsTransparent(groups);
    hide Timed, Flatten, Recorded;
    forall i | 0 <= i < |us|
      ensures jaeger[i] == otlp[i]
    {
      TimedAgree(us, ns, i);
    }
  }

  // ---------------------------------------------------------------------
  // Conservation of time
  // ---------------------------------------------------------------------

  ghost predicate NonNegative(spans: seq<RawSpan>) {
    forall i :: 0 <= i < |spans| ==> spans[i].duration >= 0
  }

  lemma {:induction false} ChildTotalNonNegative(spans: seq<RawSpan>, id: string)
    requires NonNegative(spans)
    ensures ChildTotal(spans, id) >= 0
  {
    if spans != [] { ChildTotalNonNegative(spans[..|spans| - 1], id); }
  }

  /** A span's self time lies between zero and its duration, overflow or not. */
  lemma SelfWithinDuration(spans: seq<RawSpan>, i: nat, unit: real)
    requires NonNegative(spans) && i < |spans| && unit > 0.0
    ensures 0.0 <= Timed(spans, spans[i], unit).selfMs <= Timed(spans, spans[i], unit).durationMs
  {
    ChildTotalNonNegative(spans, spans[i].id);
    var child := Wrap(ChildTotal(spans, spans[i].id));
    var own := SelfUnits(spans[i].duration, child);
    NegativeQuotient(own, unit);
    NegativeQuotient(spans[i].duration - own, unit);
    QuotientAdds(own as real, (spans[i].duration - own) as real, unit);
  }

  predicate Present(spans: seq<RawSpan>, id: string) {
    exists i :: 0 <= i < |spans| && spans[i].id == id
  }

  /** The span hangs from nothing in the trace. */
  predicate ParentAbsent(all: seq<RawSpan>, s: RawSpan) {
    s.parent == "" || !Present(all, s.parent)
  }

  function AbsentTotal(all: seq<RawSpan>, spans: seq<RawSpan>): int {
    if spans == [] then 0
    else AbsentTotal(all, spans[..|spans| - 1])
         + (if ParentAbsent(all, spans[|spans| - 1]) then spans[|spans| - 1].duration else 0)
  }

  function DurationTotal(spans: seq<RawSpan>): int {
    if spans == [] then 0 else DurationTotal(spans[..|spans| - 1]) + spans[|spans| - 1].duration
  }

  /** What the parents among `parents` are charged for the spans in `spans`. */
  function ChargedTotal(parents: seq<RawSpan>, spans: seq<RawSpan>): int {
    if parents == [] then 0
    else ChargedTotal(parents[..|parents| - 1], spans) + ChildTotal(spans, parents[|parents| - 1].id)
  }

  lemma {:induction false} ChargedNothing(parents: seq<RawSpan>)
    ensures ChargedTotal(parents, []) == 0
  {
    if parents != [] { ChargedNothing(parents[..|parents| - 1]); }
  }

  lemma {:induction false} PresentFront(parents: seq<RawSpan>, id: string)
    requires parents != []
    ensures Present(parents, id) <==> Present(parents[..|parents| - 1], id) || parents[|parents| - 1].id == id
  {
    var front := parents[..|parents| - 1];
    if Present(front, id) {
      var i :| 0 <= i < |front| && front[i].id == id;
      assert parents[i].id == id;
    }
    if Present(parents, id) && parents[|parents| - 1].id != id {
      var i :| 0 <= i < |parents| && parents[i].id == id;
      assert front[i].id == id;
    }
  }

  lemma AbsentFromFront(parents: seq<RawSpan>)
    requires parents != [] && DistinctIds(parents)
    ensures !Present(parents[..|parents| - 1], parents[|parents| - 1].id)
  {
  }

  /** A span is charged to its parent once, if the parent is there. */
  lemma {:induction false} ChargedStep(parents: seq<RawSpan>, spans: seq<RawSpan>)
    requires spans != [] && DistinctIds(parents)
    ensures ChargedTotal(parents, spans) == ChargedTotal(parents, spans[..|spans| - 1])
            + (if ParentAbsent(parents, spans[|spans| - 1]) then 0 else spans[|spans| - 1].duration)
  {
    if parents != [] {
      ChargedStep(parents[..|parents| - 1], spans);
      PresentFront(parents, spans[|spans| - 1].parent);
      AbsentFromFront(parents);
    }
  }

  /** The self time of a span whose child total fits in 64 bits: what its children
      leave of its duration, and nothing if they outlast it. */
  lemma SelfTimeIs(spans: seq<RawSpan>, i: nat, unit: real)
    requires NonNegative(spans) && i < |spans| && unit > 0.0 && ChildTotal(spans, spans[i].id) < TWO_63
    ensures var total := ChildTotal(spans, spans[i].id);
            && Timed(spans, spans[i], unit).durationMs == spans[i].duration as real / unit
            && (total <= spans[i].duration ==> Timed(spans, spans[i], unit).selfMs == (spans[i].duration - total) as real / unit)
            && (total >= spans[i].duration ==> Timed(spans, spans[i], unit).selfMs == 0.0)
  {
    hide Wrap, ChildTotal;
    var total := ChildTotal(spans, spans[i].id);
    ChildTotalNonNegative(spans, spans[i].id);
    WrapSmall(total);
    var own := SelfUnits(spans[i].duration, total);
    assert own == if total <= spans[i].duration then spans[i].duration - total else 0;
    ZeroQuotient(unit);
    hide SelfUnits;
  }

  lemma ZeroQuotient(unit: real)
    requires unit > 0.0
    ensures 0 as real / unit == 0.0
  {
  }

  /** Every duration is either charged to a parent in the trace or counts as absent. */
  lemma {:induction false} DurationsSplit(all: seq<RawSpan>, spans: seq<RawSpan>)
    requires DistinctIds(all)
    ensures ChargedTotal(all, spans) + AbsentTotal(all, spans) == DurationTotal(spans)
  {
    if spans == [] {
      ChargedNothing(all);
    } else {
      DurationsSplit(all, spans[..|spans| - 1]);
      ChargedStep(all, spans);
    }
  }

  /** The children of this span outlast it, so its self time was clamped. */
  predicate Clamped(all: seq<RawSpan>, s: RawSpan) {
    ChildTotal(all, s.id) > s.duration
  }

  function SelfTotal(all: seq<RawSpan>, spans: seq<RawSpan>): int {
    if spans == [] then 0
    else
      var last := spans[|spans| - 1];
      SelfTotal(all, spans[..|spans| - 1]) + SelfUnits(last.duration, Wrap(ChildTotal(all, last.id)))
  }

  /** A wrapped child total only makes a self time larger, and only where the true
      total exceeds the duration, which would have been clamped. */
  lemma SelfAgainstTotal(duration: int64, total: int)
    requires duration >= 0 && total >= 0
    ensures SelfUnits(duration, Wrap(total)) >= duration - total
    ensures SelfUnits(duration, Wrap(total)) == duration - total <==> total <= duration
  {
    WrapAtMost(total);
    if total < TWO_63 { WrapSmall(total); }
    hide Wrap;
  }

  lemma {:induction false} SelfAgainstCharged(all: seq<RawSpan>, spans: seq<RawSpan>)
    requires NonNegative(all) && NonNegative(spans)
    ensures SelfTotal(all, spans) >= DurationTotal(spans) - ChargedTotal(spans, all)
    ensures SelfTotal(all, spans) == DurationTotal(spans) - ChargedTotal(spans, all)
       <==> forall i :: 0 <= i < |spans| ==> !Clamped(all, spans[i])
  {
    if spans != [] {
      var front, last := spans[..|spans| - 1], spans[|spans| - 1];
      SelfAgainstCharged(all, front);
      ChildTotalNonNegative(all, last.id);
      SelfAgainstTotal(last.duration, ChildTotal(all, last.id));
      assert forall i :: 0 <= i < |front| ==> spans[i] == front[i];
      assert spans[|front|] == last;
    }
  }

  function SelfMsTotal(out: seq<TimedSpan>): real {
    if out == [] then 0.0 else SelfMsTotal(out[..|out| - 1]) + out[|out| - 1].selfMs
  }

  lemma {:induction false} SelfMsScales(all: seq<RawSpan>, spans: seq<RawSpan>, out: seq<TimedSpan>, unit: real)
    requires unit > 0.0 && |out| == |spans|
    requires forall i :: 0 <= i < |spans| ==> out[i] == Timed(all, spans[i], unit)
    ensures SelfMsTotal(out) == SelfTotal(all, spans) as real / unit
  {
    if spans != [] {
      var n := |spans| - 1;
      SelfMsScales(all, spans[..n], out[..n], unit);
      QuotientAdds(SelfTotal(all, spans[..n]) as real, SelfUnits(spans[n].duration, Wrap(ChildTotal(all, spans[n].id))) as real, unit);
    }
  }

  lemma QuotientAdds(a: real, b: real, unit: real)
    requires unit > 0.0
    ensures a / unit + b / unit == (a + b) / unit
  {
  }

  /** The reported self times add up to at least the total duration of the spans
      whose parent is absent, and to exactly that when no children outlast their
      parent; sums that overflow change nothing about this. */
  lemma {:induction false} SelfTimeConserved(spans: seq<RawSpan>, out: seq<TimedSpan>, unit: real)
    requires DistinctIds(spans) && NonNegative(spans) && unit > 0.0 && AllTimed(spans, out, unit)
    ensures SelfMsTotal(out) >= AbsentTotal(spans, spans) as real / unit
    ensures SelfMsTotal(out) == AbsentTotal(spans, spans) as real / unit
       <==> forall i :: 0 <= i < |spans| ==> !Clamped(spans, spans[i])
  {
    SelfMsScales(spans, spans, out, unit);
    SelfAgainstCharged(spans, spans);
    DurationsSplit(spans, spans);
    hide *;
    var gap := SelfTotal(spans, spans) - AbsentTotal(spans, spans);
    NegativeQuotient(-gap, unit);
    NegativeQuotient(gap, unit);
    QuotientAdds(AbsentTotal(spans, spans) as real, gap as real, unit);
  }
}
