/** The critical path of a trace: pick a root, then keep descending into the
    slowest child. The walk is an unbounded loop over spans that need not form a
    tree, so when it ends is itself a question. */
module CriticalPath {

  datatype Span = Span(id: string, parent: string, service: string, durationMs: real)

  const NO_SPAN := Span("", "", "", 0.0)

  datatype Option<+T> = None | Some(value: T)

  // ---------------------------------------------------------------------
  // Children and the slowest among them
  // ---------------------------------------------------------------------

  function ChildrenOf(spans: seq<Span>, parent: string): (children: seq<Span>)
    ensures forall c :: c in children <==> c in spans && c.parent == parent
  {
    if spans == [] then []
    else
      var last := spans[|spans| - 1];
      assert spans == spans[..|spans| - 1] + [last];
      ChildrenOf(spans[..|spans| - 1], parent) + (if last.parent == parent then [last] else [])
  }

  /** The position of the first child no other child outlasts. */
  ghost predicate IsSlowest(children: seq<Span>, k: int) {
    && 0 <= k < |children|
    && (forall j :: 0 <= j < |children| ==> children[j].durationMs <= children[k].durationMs)
    && (forall j :: 0 <= j < k ==> children[j].durationMs < children[k].durationMs)
  }

  function Slowest(children: seq<Span>): (k: nat)
    requires children != []
    ensures IsSlowest(children, k)
  {
    if |children| == 1 then 0
    else
      var k := Slowest(children[..|children| - 1]);
      if children[|children| - 1].durationMs > children[k].durationMs then |children| - 1 else k
  }

  lemma SlowestUnique(children: seq<Span>, j: int, k: int)
    requires IsSlowest(children, j) && IsSlowest(children, k)
    ensures j == k
  {
    assert children[j].durationMs <= children[k].durationMs <= children[j].durationMs;
  }

  method SlowestChild(children: seq<Span>) returns (slowest: Span, ok: bool)
    ensures ok <==> children != []
    ensures ok ==> slowest == children[Slowest(children)]
  {
    if |children| == 0 {
      return NO_SPAN, false;
    }
    slowest, ok := children[0], true;
    ghost var best := 0;
    for i := 1 to |children|
      invariant IsSlowest(children[..i], best) && slowest == children[best]
    {
      if children[i].durationMs > slowest.durationMs {
        slowest := children[i];
        best := i;
      }
    }
    assert children[..|children|] == children;
    SlowestUnique(children, best, Slowest(children));
  }

  // ---------------------------------------------------------------------
  // The root
  // ---------------------------------------------------------------------

  /** One scan: the first span to beat every earlier one and the starting bar. */
  function Scan(spans: seq<Span>, parentlessOnly: bool, bar: real, root: Span): (real, Span) {
    if spans == [] then (bar, root)
    else
      var (bar', root') := Scan(spans[..|spans| - 1], parentlessOnly, bar, root);
      var last := spans[|spans| - 1];
      if (parentlessOnly ==> last.parent == "") && last.durationMs > bar' then (last.durationMs, last)
      else (bar', root')
  }

  function RootOf(spans: seq<Span>): Span {
    var (bar, root) := Scan(spans, true, -1.0, NO_SPAN);
    if root.id != "" then root else Scan(spans, false, bar, root).1
  }

  method PickRoot(spans: seq<Span>) returns (root: Span)
    ensures root == RootOf(spans)
  {
    root := NO_SPAN;
    var maxDuration := -1.0;
    for i := 0 to |spans|
      invariant (maxDuration, root) == Scan(spans[..i], true, -1.0, NO_SPAN)
    {
      assert spans[..i + 1][..i] == spans[..i];
      if spans[i].parent == "" && spans[i].durationMs > maxDuration {
        maxDuration := spans[i].durationMs;
        root := spans[i];
      }
    }
    assert spans[..|spans|] == spans;
    if root.id != "" {
      return;
    }
    ghost var bar, candidate := maxDuration, root;
    for i := 0 to |spans|
      invariant (maxDuration, root) == Scan(spans[..i], false, bar, candidate)
    {
      assert spans[..i + 1][..i] == spans[..i];
      if spans[i].durationMs > maxDuration {
        maxDuration := spans[i].durationMs;
        root := spans[i];
      }
    }
  }

  // ---------------------------------------------------------------------
  // The descent
  // ---------------------------------------------------------------------

  /** The span the walk enters from `id`. */
  function Next(spans: seq<Span>, id: string): Option<Span> {
    var children := ChildrenOf(spans, id);
    if children == [] then None else Some(children[Slowest(children)])
  }

  /** The id reached after n descents, if the walk gets that far. */
  function Descend(spans: seq<Span>, id: string, n: nat): Option<string> {
    if n == 0 then Some(id)
    else
      var before := Descend(spans, id, n - 1);
      if before.None? then None
      else
        var next := Next(spans, before.value);
        if next.None? then None else Some(next.value.id)
  }

  ghost predicate Terminates(spans: seq<Span>, id: string) {
    exists n: nat :: Descend(spans, id, n).None?
  }

  /** The walk comes back to where it started. */
  ghost predicate ReturnsToStart(spans: seq<Span>, id: string) {
    exists n: nat :: n >= 1 && Descend(spans, id, n) == Some(id)
  }

  /** The path records every step of the walk, up to its end. */
  ghost predicate RecordsWalk(spans: seq<Span>, id: string, path: seq<string>) {
    && (forall i :: 0 <= i < |path| ==> Descend(spans, id, i) == Some(path[i]))
    && Descend(spans, id, |path|).None?
  }

  lemma {:induction false} NoneStaysNone(spans: seq<Span>, id: string, m: nat, n: nat)
    requires m <= n && Descend(spans, id, m).None?
    ensures Descend(spans, id, n).None?
  {
    hide Next;
    if m < n { NoneStaysNone(spans, id, m, n - 1); }
  }

  lemma EndIsAhead(spans: seq<Span>, id: string, n: nat, end: nat)
    requires Descend(spans, id, n).Some? && Descend(spans, id, end).None?
    ensures n < end
  {
    if end <= n { NoneStaysNone(spans, id, end, n); }
  }

  method IndexChildren(spans: seq<Span>) returns (children: map<string, seq<Span>>)
    ensures forall p :: p in children <==> ChildrenOf(spans, p) != []
    ensures forall p :: p in children ==> children[p] == ChildrenOf(spans, p)
  {
    children := map[];
    for i := 0 to |spans|
      invariant forall p :: p in children <==> ChildrenOf(spans[..i], p) != []
      invariant forall p :: p in children ==> children[p] == ChildrenOf(spans[..i], p)
    {
      assert spans[..i + 1][..i] == spans[..i];
      var parent := spans[i].parent;
      children := children[parent := (if parent in children then children[parent] else []) + [spans[i]]];
    }
    assert spans[..|spans|] == spans;
  }

  /** Indexes the spans by parent and walks down. Callable exactly when the walk ends. */
  method Apply(spans: seq<Span>) returns (path: seq<string>)
    requires RootOf(spans).id != "" ==> Terminates(spans, RootOf(spans).id)
    ensures spans == [] || RootOf(spans).id == "" ==> path == []
    ensures spans != [] && RootOf(spans).id != "" ==> RecordsWalk(spans, RootOf(spans).id, path)
  {
    hide RootOf, ChildrenOf;
    if |spans| == 0 {
      return [];
    }
    var children := IndexChildren(spans);
    var root := PickRoot(spans);
    if root.id == "" {
      return [];
    }
    path := Walk(spans, children, root.id);
  }

  method Walk(spans: seq<Span>, children: map<string, seq<Span>>, root: string) returns (path: seq<string>)
    requires forall p :: p in children <==> ChildrenOf(spans, p) != []
    requires forall p :: p in children ==> children[p] == ChildrenOf(spans, p)
    requires Terminates(spans, root)
    ensures RecordsWalk(spans, root, path)
  {
    hide ChildrenOf, Next, Slowest, Descend, Reaches, RecordsWalk;
    StartReaches(spans, root);
    ghost var end: nat :| Descend(spans, root, end).None?;
    path := [root];
    var current := root;
    while true
      invariant |path| >= 1 && Reaches(spans, root, |path| - 1, current)
      invariant forall i :: 0 <= i < |path| ==> Reaches(spans, root, i, path[i])
      decreases end - |path|
    {
      NextReaches(spans, root, |path| - 1, current);
      EndIsAhead(spans, root, |path| - 1, end);
      var next, ok := SlowestChild(if current in children then children[current] else []);
      NextIs(spans, current, next, ok);
      if !ok {
        break;
      }
      NextReaches(spans, root, |path|, next.id);
      EndIsAhead(spans, root, |path|, end);
      path := path + [next.id];
      current := next.id;
    }
    ReachedIsRecorded(spans, root, path);
  }

  lemma StartReaches(spans: seq<Span>, id: string)
    ensures Reaches(spans, id, 0, id)
  {
  }

  lemma ReachedIsRecorded(spans: seq<Span>, id: string, path: seq<string>)
    requires forall i :: 0 <= i < |path| ==> Reaches(spans, id, i, path[i])
    requires Descend(spans, id, |path|).None?
    ensures RecordsWalk(spans, id, path)
  {
    forall i | 0 <= i < |path|
      ensures Descend(spans, id, i) == Some(path[i])
    {
      assert Reaches(spans, id, i, path[i]);
    }
  }

  lemma NextReaches(spans: seq<Span>, id: string, n: nat, x: string)
    requires Reaches(spans, id, n, x)
    ensures Next(spans, x).Some? ==> Reaches(spans, id, n + 1, Next(spans, x).value.id)
    ensures Next(spans, x).None? ==> Descend(spans, id, n + 1).None?
    ensures Descend(spans, id, n) == Some(x)
  {
    hide Next;
  }

  lemma NextIs(spans: seq<Span>, id: string, next: Span, ok: bool)
    requires ok <==> ChildrenOf(spans, id) != []
    requires ok ==> next == ChildrenOf(spans, id)[Slowest(ChildrenOf(spans, id))]
    ensures Next(spans, id) == if ok then Some(next) else None
  {
  }

  // ---------------------------------------------------------------------
  // What the path is
  // ---------------------------------------------------------------------

  /** Each entry is the slowest child of the one before it, and the last is a leaf. */
  ghost predicate IsSlowestChain(spans: seq<Span>, path: seq<string>) {
    && path != []
    && (forall i :: 0 <= i < |path| - 1 ==> IsSlowestChildOf(spans, path[i], path[i + 1]))
    && (forall s :: s in spans ==> s.parent != path[|path| - 1])
  }

  ghost predicate IsSlowestChildOf(spans: seq<Span>, parent: string, child: string) {
    exists s :: s in spans && s.id == child && s.parent == parent
                && forall t :: t in spans && t.parent == parent ==> t.durationMs <= s.durationMs
  }

  /** The recorded walk is a chain of slowest children from the root to a leaf. */
  lemma PathIsSlowestChain(spans: seq<Span>, id: string, path: seq<string>)
    requires RecordsWalk(spans, id, path)
    ensures IsSlowestChain(spans, path) && path[0] == id
  {
    assert path != [] by { assert Descend(spans, id, 0).Some?; }
    forall i | 0 <= i < |path| - 1
      ensures IsSlowestChildOf(spans, path[i], path[i + 1])
    {
      assert Descend(spans, id, i) == Some(path[i]) && Descend(spans, id, i + 1) == Some(path[i + 1]);
      NextIsSlowest(spans, path[i]);
    }
    var last := path[|path| - 1];
    assert Descend(spans, id, |path| - 1) == Some(last);
    assert ChildrenOf(spans, last) == [];
    assert forall s :: s in ChildrenOf(spans, last) <==> s in spans && s.parent == last;
  }

  lemma {:induction false} NextIsSlowest(spans: seq<Span>, id: string)
    requires Next(spans, id).Some?
    ensures IsSlowestChildOf(spans, id, Next(spans, id).value.id)
    ensures Next(spans, id).value in spans && Next(spans, id).value.parent == id
  {
    var children := ChildrenOf(spans, id);
    var k := Slowest(children);
    assert children[k] in children;
    forall t | t in spans && t.parent == id
      ensures t.durationMs <= children[k].durationMs
    {
      assert t in children;
      var j :| 0 <= j < |children| && children[j] == t;
    }
  }

  /** The span at k is the first of the longest children of this parent. */
  ghost predicate IsFirstLongest(spans: seq<Span>, parent: string, k: int) {
    && 0 <= k < |spans| && spans[k].parent == parent
    && (forall j :: 0 <= j < |spans| && spans[j].parent == parent ==> spans[j].durationMs <= spans[k].durationMs)
    && (forall j :: 0 <= j < k && spans[j].parent == parent ==> spans[j].durationMs < spans[k].durationMs)
  }

  /** One more span changes the first longest child only if it is a longer child. */
  lemma OneMoreSpan(spans: seq<Span>, parent: string, k: nat)
    requires spans != [] && IsFirstLongest(spans[..|spans| - 1], parent, k)
    ensures var n := |spans| - 1;
            if spans[n].parent == parent && spans[n].durationMs > spans[k].durationMs
            then IsFirstLongest(spans, parent, n) else IsFirstLongest(spans, parent, k)
  {
    var front := spans[..|spans| - 1];
    assert forall j :: 0 <= j < |front| ==> front[j] == spans[j];
  }

  lemma FirstChild(spans: seq<Span>, parent: string)
    requires spans != [] && spans[|spans| - 1].parent == parent && ChildrenOf(spans[..|spans| - 1], parent) == []
    ensures IsFirstLongest(spans, parent, |spans| - 1)
  {
    var front := spans[..|spans| - 1];
    forall j | 0 <= j < |front| ensures spans[j].parent != parent { assert front[j] in front; }
  }

  /** How the children and the slowest of them grow with the last span. */
  lemma ChildrenGrow(spans: seq<Span>, parent: string)
    requires spans != []
    ensures var last, before, children := spans[|spans| - 1], ChildrenOf(spans[..|spans| - 1], parent), ChildrenOf(spans, parent);
            && (last.parent != parent ==> children == before)
            && (last.parent == parent && before == [] ==> children == [last] && Slowest(children) == 0)
            && (last.parent == parent && before != [] ==>
                  children == before + [last]
                  && Slowest(children) == if last.durationMs > before[Slowest(before)].durationMs then |before| else Slowest(before))
  {
    var last, before, children := spans[|spans| - 1], ChildrenOf(spans[..|spans| - 1], parent), ChildrenOf(spans, parent);
    if last.parent == parent && before != [] { assert children[..|children| - 1] == before; }
  }

  lemma {:induction false} SlowestIsFirstLongest(spans: seq<Span>, parent: string) returns (k: nat)
    requires ChildrenOf(spans, parent) != []
    ensures IsFirstLongest(spans, parent, k) && spans[k] == ChildrenOf(spans, parent)[Slowest(ChildrenOf(spans, parent))]
  {
    assert spans != [];
    ChildrenGrow(spans, parent);
    hide ChildrenOf, Slowest, IsFirstLongest;
    var n := |spans| - 1;
    var front := spans[..n];
    if ChildrenOf(front, parent) == [] {
      FirstChild(spans, parent);
      k := n;
    } else {
      k := SlowestIsFirstLongest(front, parent);
      assert k < |front| by { FirstIsInside(front, parent, k); }
      OneMoreSpan(spans, parent, k);
      if spans[n].parent == parent && spans[n].durationMs > spans[k].durationMs { k := n; }
    }
  }

  lemma FirstIsInside(spans: seq<Span>, parent: string, k: int)
    requires IsFirstLongest(spans, parent, k)
    ensures 0 <= k < |spans|
  {
  }

  /** Each step of the walk enters the longest child, the first in the trace on a tie. */
  lemma NextIsFirstLongest(spans: seq<Span>, id: string)
    ensures Next(spans, id).None? ==> forall j :: 0 <= j < |spans| ==> spans[j].parent != id
    ensures Next(spans, id).Some? ==> exists k :: IsFirstLongest(spans, id, k) && spans[k] == Next(spans, id).value
  {
    var children := ChildrenOf(spans, id);
    if children == [] {
      forall j | 0 <= j < |spans| ensures spans[j].parent != id { assert spans[j] in spans; }
    } else {
      var k := SlowestIsFirstLongest(spans, id);
    }
  }

  // ---------------------------------------------------------------------
  // When the walk ends
  // ---------------------------------------------------------------------

  ghost predicate DistinctIds(spans: seq<Span>) {
    && (forall i :: 0 <= i < |spans| ==> spans[i].id != "")
    && (forall i, j :: 0 <= i < j < |spans| ==> spans[i].id != spans[j].id)
  }

  lemma SameIdSameSpan(spans: seq<Span>, a: Span, b: Span)
    requires DistinctIds(spans) && a in spans && b in spans && a.id == b.id
    ensures a == b
  {
  }

  /** The span that a step of the walk enters. */
  lemma EnteredSpan(spans: seq<Span>, id: string, n: nat) returns (s: Span)
    requires n >= 1 && Descend(spans, id, n).Some?
    ensures Descend(spans, id, n - 1).Some?
    ensures s in spans && s.id == Descend(spans, id, n).value && s.parent == Descend(spans, id, n - 1).value
  {
    s := Next(spans, Descend(spans, id, n - 1).value).value;
    NextIsSlowest(spans, Descend(spans, id, n - 1).value);
  }

  /** Spans have one parent, so two steps at one place came the same way. */
  lemma {:induction false} RepeatGoesBack(spans: seq<Span>, id: string, m: nat, n: nat)
    requires DistinctIds(spans) && m <= n
    requires Descend(spans, id, m).Some? && Descend(spans, id, m) == Descend(spans, id, n)
    ensures Descend(spans, id, n - m) == Some(id)
  {
    hide Next;
    if m > 0 {
      var a := EnteredSpan(spans, id, m);
      var b := EnteredSpan(spans, id, n);
      SameIdSameSpan(spans, a, b);
      RepeatGoesBack(spans, id, m - 1, n - 1);
    }
  }

  function Ids(spans: seq<Span>): (ids: set<string>)
    ensures |ids| <= |spans|
    ensures forall s :: s in spans ==> s.id in ids
  {
    if spans == [] then {}
    else
      assert spans == [spans[0]] + spans[1..];
      {spans[0].id} + Ids(spans[1..])
  }

  ghost predicate Reaches(spans: seq<Span>, id: string, k: nat, x: string) {
    Descend(spans, id, k) == Some(x)
  }

  /** The walk is at one place after m steps and after n. */
  ghost predicate SamePlace(spans: seq<Span>, id: string, m: nat, n: nat) {
    m < n && Descend(spans, id, m).Some? && Descend(spans, id, m) == Descend(spans, id, n)
  }

  ghost predicate Repeats(spans: seq<Span>, id: string) {
    exists m: nat, n: nat :: SamePlace(spans, id, m, n)
  }

  /** The ids entered by the first n steps. */
  lemma {:induction false} EnteredIds(spans: seq<Span>, id: string, n: nat) returns (ids: set<string>)
    requires !Repeats(spans, id) && Descend(spans, id, n).Some?
    ensures ids <= Ids(spans) && |ids| == n
    ensures forall x :: x in ids ==> exists k: nat :: 1 <= k <= n && Reaches(spans, id, k, x)
  {
    hide Next, Repeats, Ids;
    ids := {};
    if n > 0 {
      var s := EnteredSpan(spans, id, n);
      var before := EnteredIds(spans, id, n - 1);
      if s.id in before {
        var k: nat :| 1 <= k <= n - 1 && Reaches(spans, id, k, s.id);
        NoSamePlace(spans, id, k, n);
      }
      assert Reaches(spans, id, n, s.id);
      ids := before + {s.id};
    }
  }

  lemma NoSamePlace(spans: seq<Span>, id: string, m: nat, n: nat)
    requires !Repeats(spans, id)
    ensures !SamePlace(spans, id, m, n)
  {
  }

  lemma SubsetSize<T>(a: set<T>, b: set<T>)
    requires a <= b
    ensures |a| <= |b|
  {
    assert b == a + (b - a);
  }

  /** A walk that never repeats ends within as many steps as there are spans. */
  lemma EndsWithoutRepeat(spans: seq<Span>, id: string)
    requires !Repeats(spans, id)
    ensures Descend(spans, id, |spans| + 1).None?
  {
    hide Next, Repeats;
    if Descend(spans, id, |spans| + 1).Some? {
      var ids := EnteredIds(spans, id, |spans| + 1);
      SubsetSize(ids, Ids(spans));
    }
  }

  lemma {:induction false} GoesOnAlike(spans: seq<Span>, id: string, m: nat, n: nat, k: nat)
    requires Descend(spans, id, m) == Descend(spans, id, n)
    ensures Descend(spans, id, m + k) == Descend(spans, id, n + k)
  {
    hide Next;
    if k > 0 { GoesOnAlike(spans, id, m, n, k - 1); }
  }

  lemma {:induction false} RepeatingNeverEnds(spans: seq<Span>, id: string, m: nat, n: nat, k: nat)
    requires SamePlace(spans, id, m, n)
    ensures Descend(spans, id, k).Some?
    decreases k
  {
    hide Next;
    if k >= n {
      RepeatingNeverEnds(spans, id, m, n, k - (n - m));
      GoesOnAlike(spans, id, m, n, k - n);
    } else {
      if Descend(spans, id, k).None? { NoneStaysNone(spans, id, k, n); }
    }
  }

  /** On any trace, whatever its ids, the walk ends exactly when it is never twice at
      one place; and then it takes no more steps than there are spans. */
  lemma TerminatesIffNoRepeat(spans: seq<Span>, id: string)
    ensures Terminates(spans, id) <==> !Repeats(spans, id)
    ensures Terminates(spans, id) <==> Descend(spans, id, |spans| + 1).None?
  {
    hide Next;
    if Repeats(spans, id) {
      var m: nat, n: nat :| SamePlace(spans, id, m, n);
      forall k: nat
        ensures Descend(spans, id, k).Some?
      {
        RepeatingNeverEnds(spans, id, m, n, k);
      }
    } else {
      EndsWithoutRepeat(spans, id);
    }
  }

  /** With distinct, non-empty ids the walk ends exactly when it never comes back to its start. */
  lemma TerminatesIff(spans: seq<Span>, id: string)
    requires DistinctIds(spans)
    ensures Terminates(spans, id) <==> !ReturnsToStart(spans, id)
  {
    hide Next, Terminates;
    TerminatesIffNoRepeat(spans, id);
    if ReturnsToStart(spans, id) {
      var n: nat :| n >= 1 && Descend(spans, id, n) == Some(id);
      assert SamePlace(spans, id, 0, n);
    }
    if Repeats(spans, id) {
      var m: nat, n: nat :| SamePlace(spans, id, m, n);
      RepeatGoesBack(spans, id, m, n);
    }
  }

  /** The k-th ancestor of a span, following parent ids. */
  function Ancestor(spans: seq<Span>, id: string, k: nat): Option<string> {
    if k == 0 then Some(id)
    else
      var below := Ancestor(spans, id, k - 1);
      if below.None? then None else ParentOf(spans, below.value)
  }

  function ParentOf(spans: seq<Span>, id: string): Option<string> {
    if spans == [] then None
    else if spans[|spans| - 1].id == id then Some(spans[|spans| - 1].parent)
    else ParentOf(spans[..|spans| - 1], id)
  }

  lemma {:induction false} ParentOfSpan(spans: seq<Span>, s: Span)
    requires DistinctIds(spans) && s in spans
    ensures ParentOf(spans, s.id) == Some(s.parent)
  {
    var last := spans[|spans| - 1];
    assert spans == spans[..|spans| - 1] + [last];
    if last.id == s.id {
      SameIdSameSpan(spans, last, s);
    } else {
      ParentOfSpan(spans[..|spans| - 1], s);
    }
  }

  /** Walking down n steps and climbing n parents are inverse. */
  lemma {:induction false} ClimbUndoesDescend(spans: seq<Span>, id: string, n: nat, k: nat)
    requires DistinctIds(spans) && k <= n && Descend(spans, id, n).Some?
    ensures Descend(spans, id, n - k).Some?
    ensures Ancestor(spans, Descend(spans, id, n).value, k) == Descend(spans, id, n - k)
  {
    hide Next;
    if k > 0 {
      ClimbUndoesDescend(spans, id, n, k - 1);
      var s := EnteredSpan(spans, id, n - (k - 1));
      ParentOfSpan(spans, s);
    }
  }

  /** The parent's slowest child is this one. */
  ghost predicate IsChosen(spans: seq<Span>, child: Option<string>, parent: Option<string>) {
    child.Some? && parent.Some? && Next(spans, parent.value).Some? && Next(spans, parent.value).value.id == child.value
  }

  ghost predicate SlowestCycle(spans: seq<Span>, id: string, k: nat) {
    && Ancestor(spans, id, k) == Some(id)
    && forall i :: 0 <= i < k ==> IsChosen(spans, Ancestor(spans, id, i), Ancestor(spans, id, i + 1))
  }

  /** The span lies on a cycle of parents, and every span of the cycle is the
      slowest child of its parent. */
  ghost predicate OnSlowestCycle(spans: seq<Span>, id: string) {
    exists k: nat :: k >= 1 && SlowestCycle(spans, id, k)
  }

  lemma {:induction false} CycleBringsBack(spans: seq<Span>, id: string, k: nat, n: nat)
    requires n <= k && SlowestCycle(spans, id, k)
    ensures Descend(spans, id, n) == Ancestor(spans, id, k - n)
  {
    hide Next;
    if n > 0 {
      CycleBringsBack(spans, id, k, n - 1);
      assert IsChosen(spans, Ancestor(spans, id, k - n), Ancestor(spans, id, k - n + 1));
    }
  }

  lemma ReturnIsCycle(spans: seq<Span>, id: string, n: nat)
    requires DistinctIds(spans) && n >= 1 && Descend(spans, id, n) == Some(id)
    ensures SlowestCycle(spans, id, n)
  {
    hide Next;
    ClimbUndoesDescend(spans, id, n, n);
    forall i | 0 <= i < n
      ensures IsChosen(spans, Ancestor(spans, id, i), Ancestor(spans, id, i + 1))
    {
      ClimbUndoesDescend(spans, id, n, i);
      ClimbUndoesDescend(spans, id, n, i + 1);
      assert Descend(spans, id, n - i).Some?;
    }
  }

  /** The exact condition on the spans: with distinct, non-empty ids the walk ends
      if and only if its start is on no cycle of slowest children. */
  lemma TerminatesIffNoSlowestCycle(spans: seq<Span>, id: string)
    requires DistinctIds(spans)
    ensures Terminates(spans, id) <==> !OnSlowestCycle(spans, id)
  {
    hide Terminates, Next;
    TerminatesIff(spans, id);
    if ReturnsToStart(spans, id) {
      var n: nat :| n >= 1 && Descend(spans, id, n) == Some(id);
      ReturnIsCycle(spans, id, n);
    }
    if OnSlowestCycle(spans, id) {
      var k: nat :| k >= 1 && SlowestCycle(spans, id, k);
      CycleBringsBack(spans, id, k, k);
    }
  }

  ghost predicate OwnAncestor(spans: seq<Span>, id: string) {
    exists k: nat :: k >= 1 && Ancestor(spans, id, k) == Some(id)
  }

  /** In particular it ends from any start that is not its own ancestor, whatever
      cycles lie elsewhere. */
  lemma TerminatesUnlessOwnAncestor(spans: seq<Span>, id: string)
    requires DistinctIds(spans) && !OwnAncestor(spans, id)
    ensures Terminates(spans, id)
  {
    hide Terminates, IsChosen;
    TerminatesIffNoSlowestCycle(spans, id);
  }

  /** No id occurs twice on a recorded walk. */
  lemma PathHasNoRepeats(spans: seq<Span>, id: string, path: seq<string>)
    requires RecordsWalk(spans, id, path)
    ensures forall i, j :: 0 <= i < j < |path| ==> path[i] != path[j]
  {
    assert Terminates(spans, id);
    TerminatesIffNoRepeat(spans, id);
    hide Next, Repeats, Terminates;
    forall i, j | 0 <= i < j < |path|
      ensures path[i] != path[j]
    {
      NoSamePlace(spans, id, i, j);
      assert Descend(spans, id, i) == Some(path[i]) && Descend(spans, id, j) == Some(path[j]);
    }
  }

  // ---------------------------------------------------------------------
  // The root that is picked
  // ---------------------------------------------------------------------

  ghost predicate NonNegative(spans: seq<Span>) {
    forall i :: 0 <= i < |spans| ==> spans[i].durationMs >= 0.0
  }

  predicate Eligible(s: Span, parentlessOnly: bool) {
    parentlessOnly ==> s.parent == ""
  }

  /** A scan from below zero ends on a longest eligible span, if there is one. */
  lemma {:induction false} ScanFindsLongest(spans: seq<Span>, parentlessOnly: bool)
    requires NonNegative(spans)
    ensures var (bar, root) := Scan(spans, parentlessOnly, -1.0, NO_SPAN);
            if exists s :: s in spans && Eligible(s, parentlessOnly)
            then root in spans && Eligible(root, parentlessOnly) && bar == root.durationMs
                 && forall s :: s in spans && Eligible(s, parentlessOnly) ==> s.durationMs <= bar
            else (bar, root) == (-1.0, NO_SPAN)
  {
    if spans != [] {
      var last := spans[|spans| - 1];
      assert spans == spans[..|spans| - 1] + [last];
      ScanFindsLongest(spans[..|spans| - 1], parentlessOnly);
      if Eligible(last, parentlessOnly) { assert last in spans; }
    }
  }

  /** Of several longest eligible spans a scan ends on the first. */
  lemma {:induction false} ScanFindsFirst(spans: seq<Span>, parentlessOnly: bool, bar: real, root: Span)
    ensures var (bar', root') := Scan(spans, parentlessOnly, bar, root);
            && bar' >= bar
            && (forall j :: 0 <= j < |spans| && Eligible(spans[j], parentlessOnly) ==> spans[j].durationMs <= bar')
            && (bar' == bar ==> root' == root)
            && (bar' > bar ==> exists k :: 0 <= k < |spans| && spans[k] == root' && FirstAt(spans, parentlessOnly, k))
  {
    if spans != [] {
      var n := |spans| - 1;
      var front := spans[..n];
      ScanFindsFirst(front, parentlessOnly, bar, root);
      var (bar0, root0) := Scan(front, parentlessOnly, bar, root);
      if Eligible(spans[n], parentlessOnly) && spans[n].durationMs > bar0 {
        assert FirstAt(spans, parentlessOnly, n);
      } else if bar0 > bar {
        var k :| 0 <= k < n && front[k] == root0 && FirstAt(front, parentlessOnly, k);
        assert FirstAt(spans, parentlessOnly, k);
      }
    }
  }

  /** The span at k is eligible and longer than every eligible span before it. */
  ghost predicate FirstAt(spans: seq<Span>, parentlessOnly: bool, k: int) {
    && 0 <= k < |spans| && Eligible(spans[k], parentlessOnly)
    && forall j :: 0 <= j < k && Eligible(spans[j], parentlessOnly) ==> spans[j].durationMs < spans[k].durationMs
  }

  /** The root stands before every other span that ties with it. */
  lemma RootIsFirst(spans: seq<Span>)
    requires DistinctIds(spans) && NonNegative(spans) && spans != []
    ensures exists k :: 0 <= k < |spans| && spans[k] == RootOf(spans) && FirstAt(spans, HasParentless(spans), k)
  {
    RootIsLongest(spans);
    ScanFindsFirst(spans, true, -1.0, NO_SPAN);
    ScanFindsFirst(spans, false, -1.0, NO_SPAN);
    if HasParentless(spans) {
      var s :| s in spans && s.parent == "";
      var j :| 0 <= j < |spans| && spans[j] == s;
      assert Eligible(spans[j], true);
    } else {
      ScanFindsLongest(spans, true);
      assert Eligible(spans[0], false);
    }
    hide Scan;
  }

  ghost predicate HasParentless(spans: seq<Span>) {
    exists s :: s in spans && s.parent == ""
  }

  /** The root is a longest parentless span; failing that, a longest span. */
  lemma RootIsLongest(spans: seq<Span>)
    requires DistinctIds(spans) && NonNegative(spans) && spans != []
    ensures var root := RootOf(spans);
            && root in spans && root.id != ""
            && (HasParentless(spans) ==>
                  root.parent == "" && forall s :: s in spans && s.parent == "" ==> s.durationMs <= root.durationMs)
            && (!HasParentless(spans) ==> forall s :: s in spans ==> s.durationMs <= root.durationMs)
  {
    ScanFindsLongest(spans, true);
    ScanFindsLongest(spans, false);
    assert Eligible(spans[0], false) && spans[0] in spans;
    if HasParentless(spans) {
      var s :| s in spans && s.parent == "";
      assert Eligible(s, true);
    } else {
      forall s | s in spans ensures !Eligible(s, true) {}
    }
    forall s | s in spans && s.parent == "" ensures Eligible(s, true) {}
    forall s | s in spans ensures Eligible(s, false) {}
  }

  ghost predicate IsLongest(spans: seq<Span>, s: Span) {
    s in spans && forall t :: t in spans ==> t.durationMs <= s.durationMs
  }

  /** The root is a longest span overall exactly when no span is parentless or
      some parentless span is a longest one. */
  lemma RootIsLongestOverallIff(spans: seq<Span>)
    requires DistinctIds(spans) && NonNegative(spans) && spans != []
    ensures IsLongest(spans, RootOf(spans))
       <==> !HasParentless(spans) || exists s: Span :: s.parent == "" && IsLongest(spans, s)
  {
    RootIsLongest(spans);
    hide RootOf;
    if HasParentless(spans) && IsLongest(spans, RootOf(spans)) {
      assert RootOf(spans).parent == "";
    }
  }

  /** Several roots do not bring in the overall longest span: here are two
      parentless spans, a longer child, and a root that is not the child. */
  lemma LongerChildIsNoRoot()
    ensures var spans := [Span("a", "", "", 2.0), Span("b", "", "", 1.0), Span("c", "b", "", 3.0)];
            && DistinctIds(spans) && NonNegative(spans)
            && RootOf(spans) == spans[0] && IsLongest(spans, spans[2]) && !IsLongest(spans, RootOf(spans))
  {
    var spans := [Span("a", "", "", 2.0), Span("b", "", "", 1.0), Span("c", "b", "", 3.0)];
    RootIsLongest(spans);
    hide RootOf;
    assert spans[0] in spans && spans[2] in spans && spans[0].parent == "";
    assert RootOf(spans) == spans[0];
  }

  /** A parentless start is nobody's child, so the walk cannot come back to it. */
  lemma ParentlessNeverReturns(spans: seq<Span>, root: Span)
    requires DistinctIds(spans) && root in spans && root.parent == ""
    ensures !ReturnsToStart(spans, root.id)
  {
    if ReturnsToStart(spans, root.id) {
      var n: nat :| n >= 1 && Descend(spans, root.id, n) == Some(root.id);
      var s := EnteredSpan(spans, root.id, n);
      SameIdSameSpan(spans, s, root);
      assert Descend(spans, root.id, n - 1) == Some("");
      if n > 1 {
        var t := EnteredSpan(spans, root.id, n - 1);
      }
    }
  }

  /** Given distinct ids and non-negative durations, the critical path exists
      whenever some span is parentless, even if other spans form cycles. */
  lemma CriticalPathExists(spans: seq<Span>)
    requires DistinctIds(spans) && NonNegative(spans) && HasParentless(spans)
    ensures RootOf(spans).id != "" && RootOf(spans).parent == "" && Terminates(spans, RootOf(spans).id)
  {
    assert spans != [];
    RootIsLongest(spans);
    ParentlessNeverReturns(spans, RootOf(spans));
    TerminatesIff(spans, RootOf(spans).id);
  }

  /** A span that is its own parent and alone: the walk goes round for ever. */
  lemma SelfParentNeverEnds()
    ensures var spans := [Span("a", "a", "", 1.0)];
            && DistinctIds(spans) && NonNegative(spans) && !HasParentless(spans)
            && RootOf(spans).id == "a" && !Terminates(spans, "a")
  {
    hide *;
    OnlyChildNeverEnds(Span("a", "a", "", 1.0));
  }

  lemma OnlyChildNeverEnds(a: Span)
    requires a.id == a.parent != "" && a.durationMs >= 0.0
    ensures DistinctIds([a]) && NonNegative([a]) && !HasParentless([a])
    ensures RootOf([a]) == a && !Terminates([a], a.id)
  {
    hide Terminates, RootOf, HasParentless, NonNegative, ReturnsToStart;
    OnlyChildIsRoot(a);
    OnlyChildReturns(a);
    TerminatesIff([a], a.id);
  }

  lemma OnlyChildIsRoot(a: Span)
    requires a.id == a.parent != "" && a.durationMs >= 0.0
    ensures NonNegative([a]) && !HasParentless([a]) && RootOf([a]) == a
  {
    var spans := [a];
    assert spans[..0] == [];
    assert Scan(spans, true, -1.0, NO_SPAN) == (-1.0, NO_SPAN);
    assert Scan(spans, false, -1.0, NO_SPAN) == (a.durationMs, a);
  }

  lemma OnlyChildReturns(a: Span)
    requires a.id == a.parent != "" && a.durationMs >= 0.0
    ensures ReturnsToStart([a], a.id)
  {
    assert ChildrenOf([a], a.id) == [a];
    assert Descend([a], a.id, 0) == Some(a.id);
    assert Descend([a], a.id, 1) == Some(a.id);
  }

  /** Distinct ids are needed: here a parentless span shares its id with a span that
      is its own child, and the walk from the root goes round for ever. */
  lemma SharedIdNeverEnds()
    ensures var spans := [Span("a", "", "", 2.0), Span("a", "a", "", 1.0)];
            && !DistinctIds(spans) && NonNegative(spans) && HasParentless(spans)
            && RootOf(spans) == spans[0] && !Terminates(spans, "a")
  {
    hide *;
    OwnChildNeverEnds(Span("a", "", "", 2.0), Span("a", "a", "", 1.0));
  }

  lemma OwnChildNeverEnds(root: Span, child: Span)
    requires root.parent == "" && root.id == child.id == child.parent != ""
    requires root.durationMs >= 0.0 && child.durationMs >= 0.0
    ensures var spans := [root, child];
            && !DistinctIds(spans) && NonNegative(spans) && HasParentless(spans)
            && RootOf(spans) == root && !Terminates(spans, child.id)
  {
    hide Terminates, RootOf, HasParentless, NonNegative, Repeats;
    var spans := [root, child];
    SharedIdIsRoot(root, child);
    SharedIdRepeats(root, child);
    assert spans[0].id == spans[1].id;
    TerminatesIffNoRepeat(spans, child.id);
  }

  lemma SharedIdIsRoot(root: Span, child: Span)
    requires root.parent == "" && root.id == child.id == child.parent != ""
    requires root.durationMs >= 0.0 && child.durationMs >= 0.0
    ensures NonNegative([root, child]) && HasParentless([root, child]) && RootOf([root, child]) == root
  {
    var spans := [root, child];
    assert spans[..1] == [root] && [root][..0] == [];
    assert Scan([root], true, -1.0, NO_SPAN) == (root.durationMs, root);
    assert Scan(spans, true, -1.0, NO_SPAN) == (root.durationMs, root);
    assert root in spans;
  }

  lemma SharedIdRepeats(root: Span, child: Span)
    requires root.parent == "" && root.id == child.id == child.parent != ""
    ensures Repeats([root, child], child.id)
  {
    var spans := [root, child];
    assert spans[..1] == [root] && [root][..0] == [];
    assert ChildrenOf([root], child.id) == [];
    assert ChildrenOf(spans, child.id) == [child];
    assert Descend(spans, child.id, 0) == Some(child.id);
    assert Descend(spans, child.id, 1) == Some(child.id);
    assert SamePlace(spans, child.id, 0, 1);
  }
}
