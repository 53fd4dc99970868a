/** What the listing looks like to a caller: the order of its items and what each
    filter lets through, in terms of the analyses themselves. */
module ListingOrder {
  import opened Domain
  import opened Sorting
  import opened Text
  import opened Int64
  import opened Listing

  // ---------------------------------------------------------------------
  // The order
  // ---------------------------------------------------------------------

  /** Critical above high above medium above low above the rest. */
  predicate MoreSevere(a: Severity, b: Severity) {
    match a
    case Critical => !b.Critical?
    case High => !b.Critical? && !b.High?
    case Medium => !b.Critical? && !b.High? && !b.Medium?
    case Low => !b.Critical? && !b.High? && !b.Medium? && !b.Low?
    case _ => false
  }

  predicate MoreConfident(a: Confidence, b: Confidence) {
    match a
    case HighConfidence => !b.HighConfidence?
    case MediumConfidence => !b.HighConfidence? && !b.MediumConfidence?
    case LowConfidence => !b.HighConfidence? && !b.MediumConfidence? && !b.LowConfidence?
    case _ => false
  }

  /** The one analysis is above the other in the column; an unknown column is that
      of creation times. */
  predicate Above(a: AnalysisResult, b: AnalysisResult, column: SortColumn) {
    match column
    case BySeverity => MoreSevere(a.severity, b.severity)
    case ByConfidence => MoreConfident(a.confidence, b.confidence)
    case _ => a.createdAt > b.createdAt
  }

  /** Descending unless ascending is asked for: the upper item comes first, and of
      two at one level the one with the greater id. Ascending is the reverse. */
  predicate ComesFirst(a: AnalysisResult, b: AnalysisResult, f: Filter) {
    if f.order == Ascending then
      Above(b, a, f.sort) || (!Above(a, b, f.sort) && StringLess(a.id, b.id))
    else
      Above(a, b, f.sort) || (!Above(b, a, f.sort) && StringLess(b.id, a.id))
  }

  lemma LessIsComesFirst(f: Filter, a: AnalysisResult, b: AnalysisResult)
    ensures LessFor(f)(a, b) <==> ComesFirst(a, b, f)
  {
  }

  lemma ComesFirstNotBoth(f: Filter, a: AnalysisResult, b: AnalysisResult)
    requires a.id != b.id
    ensures ComesFirst(a, b, f) <==> !ComesFirst(b, a, f)
  {
    StringLessOrder();
  }

  /** A listing is in the requested order, every item strictly before the next. */
  lemma ListingInOrder(m: Analyses, f: Filter, all: seq<AnalysisResult>)
    requires IsListing(m, f, all)
    ensures forall i, j :: 0 <= i < j < |all| ==> ComesFirst(all[i], all[j], f)
  {
    hide Matches, ComesFirst, LessFor;
    forall i, j | 0 <= i < j < |all|
      ensures ComesFirst(all[i], all[j], f)
    {
      assert all[i] in all && all[j] in all && all[i] != all[j];
      assert !LessFor(f)(all[j], all[i]);
      LessIsComesFirst(f, all[j], all[i]);
      ComesFirstNotBoth(f, all[i], all[j]);
    }
  }

  /** A page holds the items from its offset on, up to its limit, in the requested
      order, and the total of all there are. */
  lemma PageInOrder(m: Analyses, f: Filter, all: seq<AnalysisResult>)
    requires IsListing(m, f, all) && |all| < TWO_63 && Sliceable(|all|, f)
    ensures var page := PageOf(all, f);
            && page.total == |all| && page.limit == f.limit && page.offset == f.offset
            && |page.items| == (if f.offset >= |all| then 0 else if f.offset + f.limit > |all| then |all| - f.offset else f.limit)
            && (forall i :: 0 <= i < |page.items| ==> page.items[i] == all[f.offset + i])
            && forall i, j :: 0 <= i < j < |page.items| ==> ComesFirst(page.items[i], page.items[j], f)
  {
    SliceableIff(|all|, f);
    ListingInOrder(m, f, all);
    hide IsListing, ComesFirst, Wrap;
  }

  /** The default order, spelled out: newest first, the greater id first on a tie. */
  lemma NewestFirst(m: Analyses, f: Filter, all: seq<AnalysisResult>, i: nat, j: nat)
    requires IsListing(m, f, all) && i < j < |all|
    requires f.sort == ByCreatedAt && f.order != Ascending
    ensures all[i].createdAt >= all[j].createdAt
    ensures all[i].createdAt == all[j].createdAt ==> StringLess(all[j].id, all[i].id)
  {
    ListingInOrder(m, f, all);
    hide IsListing;
  }

  // ---------------------------------------------------------------------
  // The filters
  // ---------------------------------------------------------------------

  const UNFILTERED := Filter(20, 0, NoSeverity, "", "", "", None, None, "", ByCreatedAt, Descending)

  /** Nothing asked for, everything matches. */
  lemma UnfilteredMatchesAll(r: AnalysisResult)
    ensures Matches(r, UNFILTERED)
  {
  }

  /** The needle stands somewhere in the string, upper and lower case being one. */
  ghost predicate Occurs(s: string, needle: string) {
    exists i :: StandsAt(ToLower(s), ToLower(needle), i)
  }

  lemma {:induction false} ContainsMeans(s: string, needle: string)
    ensures Contains(s, needle) <==> exists i :: StandsAt(s, needle, i)
  {
    if HasPrefix(s, needle) {
      assert StandsAt(s, needle, 0);
    } else if s != [] {
      ContainsMeans(s[1..], needle);
      if i :| StandsAt(s[1..], needle, i) {
        assert s[1..][i..i + |needle|] == s[i + 1..i + 1 + |needle|];
        assert StandsAt(s, needle, i + 1);
      }
      if i :| StandsAt(s, needle, i) {
        assert i > 0 && s[1..][i - 1..i - 1 + |needle|] == s[i..i + |needle|];
        assert StandsAt(s[1..], needle, i - 1);
      }
    }
  }

  ghost predicate StandsAt(s: string, needle: string, i: int) {
    0 <= i <= |s| - |needle| && s[i..i + |needle|] == needle
  }

  /** Each criterion, added to a filter that lacks it, keeps exactly the matching
      analyses that meet it: the severity, a service named among those affected, the
      signal and the provider of some evidence, and both ends of the time window,
      the bounds included. */
  lemma CriteriaNarrow(r: AnalysisResult, f: Filter, severity: Severity, text: string, at: Instant)
    requires severity != NoSeverity && text != ""
    ensures Matches(r, f.(severity := severity)) <==> Matches(r, f.(severity := NoSeverity)) && r.severity == severity
    ensures Matches(r, f.(service := text))
       <==> Matches(r, f.(service := "")) && exists i :: 0 <= i < |r.affectedServices| && r.affectedServices[i] == text
    ensures Matches(r, f.(signal := text))
       <==> Matches(r, f.(signal := "")) && exists i :: 0 <= i < |r.evidence| && r.evidence[i].signal == text
    ensures Matches(r, f.(provider := text))
       <==> Matches(r, f.(provider := "")) && exists i :: 0 <= i < |r.evidence| && r.evidence[i].provider == text
    ensures Matches(r, f.(from := Some(at))) <==> Matches(r, f.(from := None)) && at <= r.createdAt
    ensures Matches(r, f.(to := Some(at))) <==> Matches(r, f.(to := None)) && r.createdAt <= at
  {
    forall g: Filter | g.query == f.query
      ensures TextMatches(r, g) <==> TextMatches(r, f)
    {
    }
    hide TextMatches;
  }

  /** A query keeps the analyses whose summary or id holds it, in any case. */
  lemma QueryNarrows(r: AnalysisResult, f: Filter, text: string)
    requires text != ""
    ensures Matches(r, f.(query := text))
       <==> Matches(r, f.(query := "")) && (Occurs(r.summary, text) || Occurs(r.id, text))
  {
    ContainsMeans(ToLower(r.summary), ToLower(text));
    ContainsMeans(ToLower(r.id), ToLower(text));
    hide StandsAt, Contains, ToLower;
  }

  /** What a request is served with: a limit from 1 to 100, 20 if none is given, no
      negative offset, the service without blanks around it, and all else as asked. */
  lemma NormalizedRequest(f: Filter)
    ensures var g := NormalizeFilter(f);
            && g.limit == (if f.limit <= 0 then 20 else if f.limit > 100 then 100 else f.limit)
            && g.offset == (if f.offset < 0 then 0 else f.offset)
            && g.service == TrimSpace(f.service)
            && g == f.(limit := g.limit, offset := g.offset, service := g.service)
  {
  }
}
