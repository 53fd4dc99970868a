/** Listing stored analyses: filter, order, page, and follow the next links. The
    repository iterates a map in no particular order; the listing must not show it. */
module Listing {
  import opened Domain
  import opened Sorting
  import opened Text
  import opened Int64

  const DEFAULT_LIMIT := 20
  const MAX_LIMIT := 100

  datatype SortColumn = ByCreatedAt | BySeverity | ByConfidence | OtherColumn

  datatype Order = Ascending | Descending | OtherOrder

  datatype Filter = Filter(
    limit: int64,
    offset: int64,
    severity: Severity,
    service: string,
    signal: string,
    provider: string,
    from: Option<Instant>,
    to: Option<Instant>,
    query: string,
    sort: SortColumn,
    order: Order)

  datatype Page = Page(items: seq<AnalysisResult>, limit: int64, offset: int64, total: int)

  type Analyses = map<string, AnalysisResult>

  // ---------------------------------------------------------------------
  // Which analyses match
  // ---------------------------------------------------------------------

  predicate HasPrefix(s: string, needle: string) {
    |needle| <= |s| && s[..|needle|] == needle
  }

  predicate Contains(s: string, needle: string) {
    HasPrefix(s, needle) || (s != [] && Contains(s[1..], needle))
  }

  predicate SeverityMatches(r: AnalysisResult, f: Filter) {
    f.severity == NoSeverity || r.severity == f.severity
  }

  predicate ServiceMatches(r: AnalysisResult, f: Filter) {
    f.service == "" || f.service in r.affectedServices
  }

  predicate SignalMatches(r: AnalysisResult, f: Filter) {
    f.signal == "" || exists e :: e in r.evidence && e.signal == f.signal
  }

  predicate ProviderMatches(r: AnalysisResult, f: Filter) {
    f.provider == "" || exists e :: e in r.evidence && e.provider == f.provider
  }

  predicate TimeWindowMatches(r: AnalysisResult, f: Filter) {
    (f.from.Some? ==> r.createdAt >= f.from.value) && (f.to.Some? ==> r.createdAt <= f.to.value)
  }

  predicate TextMatches(r: AnalysisResult, f: Filter) {
    f.query == "" || Contains(ToLower(r.summary), ToLower(f.query)) || Contains(ToLower(r.id), ToLower(f.query))
  }

  predicate Matches(r: AnalysisResult, f: Filter) {
    && SeverityMatches(r, f)
    && ServiceMatches(r, f)
    && SignalMatches(r, f)
    && ProviderMatches(r, f)
    && TimeWindowMatches(r, f)
    && TextMatches(r, f)
  }

  // ---------------------------------------------------------------------
  // The order
  // ---------------------------------------------------------------------

  function Rank(r: AnalysisResult, column: SortColumn): int {
    match column
    case BySeverity => SeverityRank(r.severity)
    case ByConfidence => ConfidenceRank(r.confidence)
    case _ => r.createdAt
  }

  /** Every column breaks ties by id; an unknown column sorts by creation time. */
  predicate Precedes(a: AnalysisResult, b: AnalysisResult, column: SortColumn) {
    if Rank(a, column) == Rank(b, column) then StringLess(a.id, b.id) else Rank(a, column) < Rank(b, column)
  }

  function LessFor(f: Filter): (AnalysisResult, AnalysisResult) -> bool {
    (a, b) => if f.order != Ascending then Precedes(b, a, f.sort) else Precedes(a, b, f.sort)
  }

  lemma LessIsStrictWeak(f: Filter)
    ensures StrictWeak(LessFor(f))
  {
    StringLessOrder();
    var less := LessFor(f);
    forall a: AnalysisResult, b: AnalysisResult, c: AnalysisResult | less(a, b) && less(b, c)
      ensures less(a, c)
    {
    }
    forall a: AnalysisResult, b: AnalysisResult, c: AnalysisResult | less(a, c)
      ensures less(a, b) || less(b, c)
    {
      assert a.id == b.id || StringLess(a.id, b.id) || StringLess(b.id, a.id);
    }
  }

  /** Different ids are never tied. */
  lemma LessDecidesByDistinctIds(f: Filter, a: AnalysisResult, b: AnalysisResult)
    requires a.id != b.id
    ensures LessFor(f)(a, b) || LessFor(f)(b, a)
  {
    StringLessTotal(a.id, b.id);
  }

  // ---------------------------------------------------------------------
  // The listing
  // ---------------------------------------------------------------------

  /** Results are stored under their own id. */
  ghost predicate Keyed(m: Analyses) {
    forall id :: id in m ==> m[id].id == id
  }

  /** Every matching analysis once, in the requested order. */
  ghost predicate IsListing(m: Analyses, f: Filter, all: seq<AnalysisResult>) {
    && Sorted(all, LessFor(f))
    && Distinct(all)
    && (forall r :: r in all <==> r.id in m && m[r.id] == r && Matches(r, f))
  }

  /** There is one listing only: the order of map iteration cannot show. */
  lemma ListingUnique(m: Analyses, f: Filter, a: seq<AnalysisResult>, b: seq<AnalysisResult>)
    requires IsListing(m, f, a) && IsListing(m, f, b)
    ensures a == b
  {
    forall i, j | 0 <= i < j < |a|
      ensures LessFor(f)(a[i], a[j]) || LessFor(f)(a[j], a[i]) || a[i] == a[j]
    {
      assert a[i] in a && a[j] in a;
      if a[i] != a[j] { LessDecidesByDistinctIds(f, a[i], a[j]); }
    }
    forall r ensures r in a <==> r in b {}
    SortedSetUnique(a, b, LessFor(f));
  }

  function MinInt(a: int, b: int): int {
    if a <= b then a else b
  }

  /** Where the slice of a page starts and ends; the sum may wrap. */
  function Start(total: nat, f: Filter): int {
    MinInt(f.offset, total)
  }

  function End(total: nat, f: Filter): int {
    MinInt(Wrap(Start(total, f) + f.limit), total)
  }

  /** The slice is in range; otherwise taking it panics. */
  predicate Sliceable(total: nat, f: Filter) {
    0 <= Start(total, f) <= End(total, f)
  }

  function PageOf(all: seq<AnalysisResult>, f: Filter): Page
    requires Sliceable(|all|, f)
  {
    Page(all[Start(|all|, f)..End(|all|, f)], f.limit, f.offset, |all|)
  }

  /** A listing panics exactly for a negative offset or limit, or a limit so large
      that the end of the page overflows; otherwise the page ends where it should. */
  lemma SliceableIff(total: nat, f: Filter)
    requires total < TWO_63
    ensures Sliceable(total, f) <==> f.offset >= 0 && f.limit >= 0 && MinInt(f.offset, total) + f.limit < TWO_63
    ensures Sliceable(total, f) ==> End(total, f) == MinInt(MinInt(f.offset, total) + f.limit, total)
  {
    var sum := Start(total, f) + f.limit;
    if 0 <= f.offset && 0 <= f.limit {
      if sum < TWO_63 {
        WrapSmall(sum);
      } else {
        WrapPeriodic(sum, sum - TWO_64, 1);
        WrapSmall(sum - TWO_64);
      }
    } else if f.offset >= 0 {
      WrapSmall(sum);
    }
  }

  /** No normalized request panics. */
  lemma NormalizedIsSliceable(total: nat, f: Filter)
    requires total + MAX_LIMIT < TWO_63
    ensures Sliceable(total, NormalizeFilter(f))
  {
    SliceableIff(total, NormalizeFilter(f));
  }

  class AnalysisRepository {
    var analyses: Analyses

    constructor ()
      ensures analyses == map[]
    {
      analyses := map[];
    }

    method Save(result: AnalysisResult)
      modifies this
      ensures analyses == old(analyses)[result.id := result]
      ensures old(Keyed(analyses)) ==> Keyed(analyses)
    {
      analyses := analyses[result.id := result];
    }

    method Find(id: string) returns (found: Option<AnalysisResult>)
      ensures found == if id in analyses then Some(analyses[id]) else None
    {
      found := if id in analyses then Some(analyses[id]) else None;
    }

    /** The matching analyses, in whatever order the map is read. */
    method Filtered(f: Filter) returns (filtered: seq<AnalysisResult>)
      requires Keyed(analyses)
      ensures Distinct(filtered)
      ensures forall r :: r in filtered <==> r.id in analyses && analyses[r.id] == r && Matches(r, f)
    {
      hide Matches;
      filtered := [];
      var pending := analyses.Keys;
      while pending != {}
        invariant pending <= analyses.Keys
        invariant Distinct(filtered)
        invariant forall r :: r in filtered <==>
                    r.id in analyses.Keys - pending && analyses[r.id] == r && Matches(r, f)
        decreases pending
      {
        var id :| id in pending;
        pending := pending - {id};
        if Matches(analyses[id], f) {
          filtered := filtered + [analyses[id]];
        }
      }
    }

    /** No page stands for the panic of a slice out of range. */
    method ListAnalyses(f: Filter) returns (page: Option<Page>)
      requires Keyed(analyses)
      ensures exists all :: IsListing(analyses, f, all) && page == PageIfAny(all, f)
    {
      var filtered := Filtered(f);
      SortedIsListing(analyses, f, filtered);
      hide Matches, LessFor, IsListing, PageIfAny;
      var all := Sort(filtered, LessFor(f));
      page := Slice(all, f);
    }
  }

  function PageIfAny(all: seq<AnalysisResult>, f: Filter): Option<Page> {
    if Sliceable(|all|, f) then Some(PageOf(all, f)) else None
  }

  method Slice(filtered: seq<AnalysisResult>, f: Filter) returns (page: Option<Page>)
    ensures page == PageIfAny(filtered, f)
  {
    hide Wrap;
    var total := |filtered|;
    var start := MinInt(f.offset, total);
    var end := MinInt(Wrap(start + f.limit), total);
    if start < 0 || end < start {
      return None;
    }
    page := Some(Page(filtered[start..end], f.limit, f.offset, total));
  }

  lemma SortedIsListing(m: Analyses, f: Filter, filtered: seq<AnalysisResult>)
    requires Distinct(filtered)
    requires forall r :: r in filtered <==> r.id in m && m[r.id] == r && Matches(r, f)
    ensures IsListing(m, f, Sort(filtered, LessFor(f)))
  {
    LessIsStrictWeak(f);
    hide Matches, LessFor, StrictWeak;
    SortSorted(filtered, LessFor(f));
    MemberOfMultiset(Sort(filtered, LessFor(f)), filtered);
    RearrangedDistinct(filtered, Sort(filtered, LessFor(f)));
  }

  // ---------------------------------------------------------------------
  // Pages and next links
  // ---------------------------------------------------------------------

  /** What the list use case asks of the repository. */
  function NormalizeFilter(f: Filter): Filter {
    var limit := if f.limit <= 0 then DEFAULT_LIMIT else f.limit;
    f.(service := TrimSpace(f.service),
       offset := if f.offset < 0 then 0 else f.offset,
       limit := if limit > MAX_LIMIT then MAX_LIMIT else limit)
  }

  /** The offset the next link carries, if the page has one; the sum may wrap. */
  function NextOffset(page: Page): Option<int64> {
    if page.limit <= 0 || Wrap(page.offset + page.limit) >= page.total then None
    else Some(Wrap(page.offset + page.limit))
  }

  method ToPagination(page: Page) returns (next: Option<int64>)
    ensures next == NextOffset(page)
  {
    if page.limit <= 0 {
      return None;
    }
    var nextOffset := Wrap(page.offset + page.limit);
    if nextOffset >= page.total {
      return None;
    }
    next := Some(nextOffset);
  }

  /** The link leads to the items after the page, if there are any, exactly when
      the offset does not overflow; past that, an empty page gets a link with a
      negative offset. */
  lemma NextLinkRightIff(page: Page)
    requires page.offset >= 0 && page.limit > 0 && 0 <= page.total < TWO_63
    ensures NextOffset(page) == (if page.offset + page.limit < page.total then Some(page.offset + page.limit) else None)
       <==> page.offset + page.limit < TWO_63
    ensures page.offset + page.limit >= TWO_63 ==> NextOffset(page).Some? && NextOffset(page).value < 0
  {
    var sum := page.offset + page.limit;
    if sum < TWO_63 {
      WrapSmall(sum);
    } else {
      WrapPeriodic(sum, sum - TWO_64, 1);
      WrapSmall(sum - TWO_64);
    }
  }

  lemma {:induction false} TrimRightStops(s: string)
    ensures TrimRight(TrimRight(s)) == TrimRight(s)
    ensures TrimRight(s) <= s
  {
    if s != [] && IsSpace(s[|s| - 1]) { TrimRightStops(s[..|s| - 1]); }
  }

  lemma {:induction false} TrimLeftStops(s: string)
    ensures TrimLeft(s) == [] || !IsSpace(TrimLeft(s)[0])
  {
    if s != [] && IsSpace(s[0]) { TrimLeftStops(s[1..]); }
  }

  lemma TrimSpaceStops(s: string)
    ensures TrimSpace(TrimSpace(s)) == TrimSpace(s)
  {
    TrimLeftStops(s);
    var t := TrimLeft(s);
    TrimRightStops(t);
    var u := TrimRight(t);
    assert u == [] || u[0] == t[0];
    assert TrimLeft(u) == u;
  }

  /** The filter a next link repeats is one that normalization leaves alone. */
  lemma NormalizeStable(f: Filter, offset: int64)
    requires offset >= 0
    ensures NormalizeFilter(NormalizeFilter(f).(offset := offset)) == NormalizeFilter(f).(offset := offset)
  {
    TrimSpaceStops(f.service);
  }

  /** The items met by following next links: each link repeats the filter with
      the limit of the page it came from and a new offset, which the router
      refuses when it is negative. */
  function Follow(all: seq<AnalysisResult>, f: Filter): seq<AnalysisResult>
    requires f.offset >= 0 && f.limit >= 0 && |all| + f.limit < TWO_63
    decreases if f.offset <= |all| then |all| - f.offset else 0
  {
    SliceableIff(|all|, f);
    var page := PageOf(all, f);
    var next := NextOffset(page);
    if next.None? || next.value < 0 then page.items
    else
      NextGoesForward(page);
      page.items + Follow(all, f.(offset := next.value))
  }

  lemma NextGoesForward(page: Page)
    requires page.offset >= 0 && NextOffset(page).Some? && NextOffset(page).value >= 0
    ensures page.offset < NextOffset(page).value == page.offset + page.limit < page.total
  {
    var sum := page.offset + page.limit;
    if sum < TWO_63 {
      WrapSmall(sum);
    } else {
      WrapPeriodic(sum, sum - TWO_64, 1);
      WrapSmall(sum - TWO_64);
    }
  }

  lemma PageAndNext(all: seq<AnalysisResult>, f: Filter)
    requires 0 <= f.offset <= |all| && f.limit > 0 && |all| + f.limit < TWO_63
    ensures Sliceable(|all|, f)
    ensures var next := f.offset + f.limit;
            && PageOf(all, f).items == all[f.offset..MinInt(next, |all|)]
            && NextOffset(PageOf(all, f)) == if next < |all| then Some(next) else None
  {
    SliceableIff(|all|, f);
    NextLinkRightIff(PageOf(all, f));
  }

  lemma {:induction false} FollowFromOffset(all: seq<AnalysisResult>, f: Filter)
    requires 0 <= f.offset <= |all| && f.limit > 0 && |all| + f.limit < TWO_63
    ensures Follow(all, f) == all[f.offset..]
    decreases |all| - f.offset
  {
    hide PageOf, NextOffset, Sliceable;
    PageAndNext(all, f);
    var next := f.offset + f.limit;
    if next < |all| {
      FollowFromOffset(all, f.(offset := next));
      assert all[f.offset..] == all[f.offset..next] + all[next..];
    }
  }

  /** Following next links from the start of a normalized request, on an unchanged
      repository, ends and visits every matching analysis exactly once, in order. */
  lemma NextLinksVisitAll(m: Analyses, f: Filter, all: seq<AnalysisResult>)
    requires IsListing(m, NormalizeFilter(f), all) && f.offset <= 0 && |all| + MAX_LIMIT < TWO_63
    ensures Follow(all, NormalizeFilter(f)) == all
    ensures Distinct(all)
    ensures forall r :: r in all <==> r.id in m && m[r.id] == r && Matches(r, NormalizeFilter(f))
  {
    FollowFromOffset(all, NormalizeFilter(f));
  }

  /** The listing does not depend on the page asked for, so all the pages are cut
      from one listing. */
  lemma ListingIgnoresPage(m: Analyses, f: Filter, offset: int64, limit: int64, all: seq<AnalysisResult>)
    ensures IsListing(m, f, all) <==> IsListing(m, f.(offset := offset, limit := limit), all)
  {
    var g := f.(offset := offset, limit := limit);
    forall r ensures Matches(r, f) <==> Matches(r, g) {}
    forall a, b ensures LessFor(f)(a, b) <==> LessFor(g)(a, b) {}
  }
}
