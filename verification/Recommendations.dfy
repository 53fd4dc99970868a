/** Merging suggested recommendations with the deterministic rules: first come,
    first kept per action, then a stable sort by priority. */
module Recommendations {
  import opened Domain
  import opened Sorting
  import opened Text

  const MAX_FALLBACK_IDS := 5
  const MULTI_SERVICE_THRESHOLD := 2

  /** What the rules say: an action and a rationale each. */
  datatype Texts = Texts(
    connect: string,
    connectWhy: string,
    inspect: string,
    inspectWhy: string,
    dependencies: string,
    dependenciesWhy: string,
    collect: string -> string,
    collectWhy: string -> string)

  /** What the rules look at; whether an item of evidence mentions an error is a
      matter of word lists and is an input. */
  datatype Input = Input(
    texts: Texts,
    request: AnalysisRequest,
    evidence: seq<Evidence>,
    suggested: seq<Recommendation>,
    mentionsError: Evidence -> bool)

  // ---------------------------------------------------------------------
  // Evidence ids
  // ---------------------------------------------------------------------

  /** The ids of the items kept by `keep` that are not blank, in order. */
  function IdsOf(evidence: seq<Evidence>, keep: Evidence -> bool): seq<string> {
    if evidence == [] then []
    else
      var last := evidence[|evidence| - 1];
      IdsOf(evidence[..|evidence| - 1], keep) + (if keep(last) && TrimSpace(last.id) != "" then [last.id] else [])
  }

  function UpTo(ids: seq<string>, n: nat): seq<string> {
    if |ids| <= n then ids else ids[..n]
  }

  function Any(e: Evidence): bool {
    true
  }

  function Fallback(existing: seq<string>, evidence: seq<Evidence>): seq<string> {
    if |existing| > 0 then existing else UpTo(IdsOf(evidence, Any), MAX_FALLBACK_IDS)
  }

  lemma {:induction false} IdsOfPrefix(evidence: seq<Evidence>, n: nat, keep: Evidence -> bool)
    requires n <= |evidence|
    ensures IdsOf(evidence[..n], keep) <= IdsOf(evidence, keep)
  {
    if n < |evidence| {
      IdsOfPrefix(evidence[..|evidence| - 1], n, keep);
      assert evidence[..|evidence| - 1][..n] == evidence[..n];
    } else {
      assert evidence[..n] == evidence;
    }
  }

  method FallbackEvidenceIds(existing: seq<string>, evidence: seq<Evidence>) returns (ids: seq<string>)
    ensures ids == Fallback(existing, evidence)
  {
    if |existing| > 0 {
      return existing;
    }
    ids := [];
    for i := 0 to |evidence|
      invariant ids == IdsOf(evidence[..i], Any) && |ids| < MAX_FALLBACK_IDS
    {
      assert evidence[..i + 1][..i] == evidence[..i];
      if TrimSpace(evidence[i].id) == "" {
        continue;
      }
      ids := ids + [evidence[i].id];
      if |ids| == MAX_FALLBACK_IDS {
        IdsOfPrefix(evidence, i + 1, Any);
        return;
      }
    }
    assert evidence[..|evidence|] == evidence;
  }

  // ---------------------------------------------------------------------
  // The rules
  // ---------------------------------------------------------------------

  function NoEvidenceRule(texts: Texts, evidence: seq<Evidence>): seq<Recommendation> {
    if |evidence| > 0 then []
    else [Recommendation(texts.connect, texts.connectWhy, 1, [])]
  }

  function ErrorEvidenceRule(texts: Texts, evidence: seq<Evidence>, mentionsError: Evidence -> bool): seq<Recommendation> {
    if exists e :: e in evidence && mentionsError(e) then
      [Recommendation(texts.inspect, texts.inspectWhy, 2, IdsOf(evidence, mentionsError))]
    else []
  }

  function DistinctServices(request: AnalysisRequest, evidence: seq<Evidence>): set<string> {
    (set s | s in request.affectedServices && TrimSpace(s) != "" :: TrimSpace(s))
    + (set e | e in evidence && TrimSpace(e.service) != "" :: TrimSpace(e.service))
  }

  function MultiServiceRule(texts: Texts, request: AnalysisRequest, evidence: seq<Evidence>): seq<Recommendation> {
    if |DistinctServices(request, evidence)| < MULTI_SERVICE_THRESHOLD then []
    else [Recommendation(texts.dependencies, texts.dependenciesWhy, 3, Fallback([], evidence))]
  }

  function MissingSignals(texts: Texts, signals: seq<string>, evidence: seq<Evidence>): seq<Recommendation> {
    if signals == [] then []
    else
      var last := signals[|signals| - 1];
      MissingSignals(texts, signals[..|signals| - 1], evidence)
      + (if exists e :: e in evidence && e.signal == last then []
         else [Recommendation(texts.collect(last), texts.collectWhy(last), 4, [])])
  }

  function MissingSignalRule(texts: Texts, request: AnalysisRequest, evidence: seq<Evidence>): seq<Recommendation> {
    if |request.signals| == 0 || |evidence| == 0 then []
    else MissingSignals(texts, request.signals, evidence)
  }

  function RuleOutput(input: Input, rule: nat): seq<Recommendation>
    requires rule < 4
  {
    match rule
    case 0 => NoEvidenceRule(input.texts, input.evidence)
    case 1 => ErrorEvidenceRule(input.texts, input.evidence, input.mentionsError)
    case 2 => MultiServiceRule(input.texts, input.request, input.evidence)
    case _ => MissingSignalRule(input.texts, input.request, input.evidence)
  }

  function RuleOutputs(input: Input, n: nat): seq<Recommendation>
    requires n <= 4
  {
    if n == 0 then [] else RuleOutputs(input, n - 1) + RuleOutput(input, n - 1)
  }

  // ---------------------------------------------------------------------
  // Merging
  // ---------------------------------------------------------------------

  function Key(action: string): string {
    Normalize(action)
  }

  predicate HasKey(list: seq<Recommendation>, key: string) {
    exists r :: r in list && Key(r.action) == key
  }

  /** The candidates kept: each non-empty key once, at its first occurrence. */
  function Merged(candidates: seq<Recommendation>, evidence: seq<Evidence>): seq<Recommendation> {
    if candidates == [] then []
    else Accept(Merged(candidates[..|candidates| - 1], evidence), candidates[|candidates| - 1], evidence)
  }

  function Accept(merged: seq<Recommendation>, r: Recommendation, evidence: seq<Evidence>): seq<Recommendation> {
    if Key(r.action) == "" || HasKey(merged, Key(r.action)) then merged
    else merged + [r.(evidenceIds := Fallback(r.evidenceIds, evidence))]
  }

  predicate MoreUrgent(a: Recommendation, b: Recommendation) {
    a.priority < b.priority
  }

  /** Suggestions come before every rule. */
  function Candidates(input: Input): seq<Recommendation> {
    input.suggested + RuleOutputs(input, 4)
  }

  function Policy(input: Input): seq<Recommendation> {
    Sort(Merged(Candidates(input), input.evidence), MoreUrgent)
  }

  ghost predicate SeenAre(seen: set<string>, merged: seq<Recommendation>) {
    forall key :: key in seen <==> HasKey(merged, key)
  }

  lemma {:induction false} AcceptSeen(seen: set<string>, merged: seq<Recommendation>, r: Recommendation, evidence: seq<Evidence>)
    requires SeenAre(seen, merged)
    ensures Key(r.action) != "" && Key(r.action) !in seen
        ==> Accept(merged, r, evidence) == merged + [r.(evidenceIds := Fallback(r.evidenceIds, evidence))]
            && SeenAre(seen + {Key(r.action)}, Accept(merged, r, evidence))
    ensures Key(r.action) == "" || Key(r.action) in seen ==> Accept(merged, r, evidence) == merged
  {
    var next := r.(evidenceIds := Fallback(r.evidenceIds, evidence));
    var grown := merged + [next];
    forall key
      ensures HasKey(grown, key) <==> HasKey(merged, key) || key == Key(r.action)
    {
      if HasKey(merged, key) {
        var m :| m in merged && Key(m.action) == key;
        assert m in grown;
      }
      assert next in grown && Key(next.action) == Key(r.action);
    }
  }

  lemma MergedStep(before: seq<Recommendation>, list: seq<Recommendation>, i: nat, evidence: seq<Evidence>)
    requires i < |list|
    ensures Merged(before + list[..i + 1], evidence) == Accept(Merged(before + list[..i], evidence), list[i], evidence)
  {
    assert before + list[..i + 1] == (before + list[..i]) + [list[i]];
    assert (before + list[..i + 1])[..|before| + i] == before + list[..i];
  }

  method MergeAll(merged0: seq<Recommendation>, seen0: set<string>, list: seq<Recommendation>, evidence: seq<Evidence>,
                  ghost before: seq<Recommendation>)
    returns (merged: seq<Recommendation>, seen: set<string>)
    requires merged0 == Merged(before, evidence) && SeenAre(seen0, merged0)
    ensures merged == Merged(before + list, evidence) && SeenAre(seen, merged)
  {
    hide Merged, SeenAre, Accept, Key, Fallback;
    merged, seen := merged0, seen0;
    assert before + list[..0] == before;
    for i := 0 to |list|
      invariant merged == Merged(before + list[..i], evidence) && SeenAre(seen, merged)
    {
      MergedStep(before, list, i, evidence);
      AcceptSeen(seen, merged, list[i], evidence);
      var key := Key(list[i].action);
      if key == "" {
        continue;
      }
      if key in seen {
        continue;
      }
      seen := seen + {key};
      var ids := FallbackEvidenceIds(list[i].evidenceIds, evidence);
      merged := merged + [list[i].(evidenceIds := ids)];
    }
    assert before + list[..|list|] == before + list;
  }

  lemma OneMoreRule(input: Input, rule: nat)
    requires rule < 4
    ensures input.suggested + RuleOutputs(input, rule + 1)
         == (input.suggested + RuleOutputs(input, rule)) + RuleOutput(input, rule)
  {
    hide RuleOutput;
  }

  method Apply(input: Input) returns (list: seq<Recommendation>)
    ensures list == Policy(input)
  {
    hide Merged, SeenAre, RuleOutput;
    NothingSeen(input.evidence);
    assert [] + input.suggested == input.suggested;
    var merged, seen := MergeAll([], {}, input.suggested, input.evidence, []);
    assert input.suggested + RuleOutputs(input, 0) == input.suggested;
    for rule := 0 to 4
      invariant merged == Merged(input.suggested + RuleOutputs(input, rule), input.evidence) && SeenAre(seen, merged)
    {
      ghost var before := input.suggested + RuleOutputs(input, rule);
      OneMoreRule(input, rule);
      merged, seen := MergeAll(merged, seen, RuleOutput(input, rule), input.evidence, before);
    }
    list := Sort(merged, MoreUrgent);
  }

  lemma NothingSeen(evidence: seq<Evidence>)
    ensures Merged([], evidence) == [] && SeenAre({}, [])
  {
  }

  // ---------------------------------------------------------------------
  // What the merge guarantees
  // ---------------------------------------------------------------------

  /** No two recommendations share a key, and none has an empty one. */
  ghost predicate DistinctKeys(list: seq<Recommendation>) {
    && (forall i :: 0 <= i < |list| ==> Key(list[i].action) != "")
    && (forall i, j :: 0 <= i < j < |list| ==> Key(list[i].action) != Key(list[j].action))
  }

  lemma {:induction false} MergedDistinct(candidates: seq<Recommendation>, evidence: seq<Evidence>)
    ensures DistinctKeys(Merged(candidates, evidence))
  {
    if candidates != [] {
      MergedDistinct(candidates[..|candidates| - 1], evidence);
      var before := Merged(candidates[..|candidates| - 1], evidence);
      assert forall i :: 0 <= i < |before| ==> before[i] in before;
    }
  }

  /** The first candidate with this key. */
  ghost predicate IsFirstWithKey(candidates: seq<Recommendation>, i: int) {
    && 0 <= i < |candidates|
    && (forall j :: 0 <= j < i ==> Key(candidates[j].action) != Key(candidates[i].action))
  }

  lemma {:induction false} MergedHasKeys(candidates: seq<Recommendation>, evidence: seq<Evidence>, key: string)
    ensures HasKey(Merged(candidates, evidence), key) <==> key != "" && HasKey(candidates, key)
  {
    if candidates != [] {
      var front, last := candidates[..|candidates| - 1], candidates[|candidates| - 1];
      assert candidates == front + [last];
      MergedHasKeys(front, evidence, key);
      AppendHasKey(front, last, key);
      AppendHasKey(Merged(front, evidence), last.(evidenceIds := Fallback(last.evidenceIds, evidence)), key);
    }
  }

  lemma {:induction false} AppendHasKey(list: seq<Recommendation>, r: Recommendation, key: string)
    ensures HasKey(list + [r], key) <==> HasKey(list, key) || Key(r.action) == key
  {
    if HasKey(list, key) {
      var m :| m in list && Key(m.action) == key;
      assert m in list + [r];
    }
    assert r in list + [r];
  }

  /** What is kept for a key is its first candidate: a suggestion wins over a rule. */
  lemma {:induction false} FirstCandidateKept(candidates: seq<Recommendation>, evidence: seq<Evidence>, i: nat)
    requires IsFirstWithKey(candidates, i) && Key(candidates[i].action) != ""
    ensures candidates[i].(evidenceIds := Fallback(candidates[i].evidenceIds, evidence)) in Merged(candidates, evidence)
  {
    hide Key, Fallback;
    var n := |candidates| - 1;
    var front := candidates[..n];
    if i < n {
      assert IsFirstWithKey(front, i);
      FirstCandidateKept(front, evidence, i);
    } else {
      var key := Key(candidates[i].action);
      MergedHasKeys(front, evidence, key);
      assert !HasKey(front, key);
    }
  }

  /** The candidates that come first with a non-empty key, in the order proposed:
      each is looked at by its position alone. */
  ghost function Kept(candidates: seq<Recommendation>, evidence: seq<Evidence>): seq<Recommendation> {
    if candidates == [] then []
    else
      var n := |candidates| - 1;
      var last := candidates[n];
      Kept(candidates[..n], evidence)
      + (if Key(last.action) != "" && IsFirstWithKey(candidates, n)
         then [last.(evidenceIds := Fallback(last.evidenceIds, evidence))] else [])
  }

  /** The merge, which remembers what it has seen, keeps exactly those. */
  lemma {:induction false} MergedIsKept(candidates: seq<Recommendation>, evidence: seq<Evidence>)
    ensures Merged(candidates, evidence) == Kept(candidates, evidence)
  {
    hide Key, Fallback;
    if candidates != [] {
      var n := |candidates| - 1;
      var front, key := candidates[..n], Key(candidates[n].action);
      MergedIsKept(front, evidence);
      MergedHasKeys(front, evidence, key);
      if HasKey(front, key) {
        var r :| r in front && Key(r.action) == key;
        var j :| 0 <= j < n && front[j] == r;
        assert !IsFirstWithKey(candidates, n);
      } else {
        forall j | 0 <= j < n ensures Key(candidates[j].action) != key { assert front[j] in front; }
        assert IsFirstWithKey(candidates, n);
      }
    }
  }

  /** The whole outcome: keys distinct and non-empty, every candidate's key there,
      the first candidate of each key kept, priorities in order, and equally
      urgent recommendations in the order they were proposed. */
  lemma PolicyOutcome(input: Input, i: nat, e: Recommendation)
    requires i < |Candidates(input)|
    ensures var out := Policy(input);
            var c := Candidates(input)[i];
            && (forall j, k :: 0 <= j < k < |out| ==> Key(out[j].action) != Key(out[k].action))
            && (Key(c.action) != "" ==> HasKey(out, Key(c.action)))
            && ((Key(c.action) != "" && IsFirstWithKey(Candidates(input), i)) ==>
                  c.(evidenceIds := Fallback(c.evidenceIds, input.evidence)) in out)
            && (forall j, k :: 0 <= j < k < |out| ==> out[j].priority <= out[k].priority)
            && TiedWith(e, out, MoreUrgent) == TiedWith(e, Kept(Candidates(input), input.evidence), MoreUrgent)
            && multiset(out) == multiset(Kept(Candidates(input), input.evidence))
  {
    var merged, out := Merged(Candidates(input), input.evidence), Policy(input);
    var c := Candidates(input)[i];
    PolicyDistinct(input);
    SortSorted(merged, MoreUrgent);
    SortStable(e, merged, MoreUrgent);
    MergedIsKept(Candidates(input), input.evidence);
    forall j, k | 0 <= j < k < |out| ensures out[j].priority <= out[k].priority { assert !MoreUrgent(out[k], out[j]); }
    MemberOfMultiset(out, merged);
    hide Merged, Candidates, Policy, Fallback, Key, Sort;
    if Key(c.action) != "" {
      assert HasKey(Candidates(input), Key(c.action)) by { assert c in Candidates(input); }
      MergedHasKeys(Candidates(input), input.evidence, Key(c.action));
      SameMembersSameKeys(merged, out, Key(c.action));
      if IsFirstWithKey(Candidates(input), i) { FirstCandidateKept(Candidates(input), input.evidence, i); }
    }
  }

  lemma SameMembersSameKeys(a: seq<Recommendation>, b: seq<Recommendation>, key: string)
    requires forall r :: r in a <==> r in b
    ensures HasKey(a, key) <==> HasKey(b, key)
  {
  }

  lemma PolicyDistinct(input: Input)
    ensures DistinctKeys(Policy(input))
  {
    var merged, out := Merged(Candidates(input), input.evidence), Policy(input);
    MergedDistinct(Candidates(input), input.evidence);
    hide Merged, Candidates, Key;
    assert Distinct(merged);
    RearrangedDistinct(merged, out);
    MemberOfMultiset(out, merged);
    forall i, j | 0 <= i < j < |out|
      ensures Key(out[i].action) != Key(out[j].action)
    {
      assert out[i] in merged && out[j] in merged && out[i] != out[j];
    }
    forall i | 0 <= i < |out|
      ensures Key(out[i].action) != ""
    {
      assert out[i] in merged;
    }
  }

  // ---------------------------------------------------------------------
  // Merging again changes nothing
  // ---------------------------------------------------------------------

  lemma FallbackTwice(ids: seq<string>, evidence: seq<Evidence>)
    ensures Fallback(Fallback(ids, evidence), evidence) == Fallback(ids, evidence)
  {
  }

  ghost predicate Settled(list: seq<Recommendation>, evidence: seq<Evidence>) {
    forall r :: r in list ==> Fallback(r.evidenceIds, evidence) == r.evidenceIds
  }

  lemma {:induction false} MergedSettled(candidates: seq<Recommendation>, evidence: seq<Evidence>)
    ensures Settled(Merged(candidates, evidence), evidence)
  {
    if candidates != [] {
      MergedSettled(candidates[..|candidates| - 1], evidence);
      FallbackTwice(candidates[|candidates| - 1].evidenceIds, evidence);
    }
  }

  lemma {:induction false} MergeOfSettled(list: seq<Recommendation>, evidence: seq<Evidence>, n: nat)
    requires DistinctKeys(list) && Settled(list, evidence) && n <= |list|
    ensures Merged(list[..n], evidence) == list[..n]
  {
    hide Key, Fallback;
    if n > 0 {
      MergeOfSettled(list, evidence, n - 1);
      assert list[..n][..n - 1] == list[..n - 1];
      var r := list[n - 1];
      assert r in list;
      assert !HasKey(list[..n - 1], Key(r.action));
      assert r.(evidenceIds := Fallback(r.evidenceIds, evidence)) == r;
    }
  }

  lemma {:induction false} KnownKeysAddNothing(before: seq<Recommendation>, list: seq<Recommendation>, evidence: seq<Evidence>)
    requires forall r :: r in list ==> Key(r.action) == "" || HasKey(Merged(before, evidence), Key(r.action))
    ensures Merged(before + list, evidence) == Merged(before, evidence)
  {
    if list == [] {
      assert before + list == before;
    } else {
      var n := |list| - 1;
      assert list[n] in list;
      KnownKeysAddNothing(before, list[..n], evidence);
      MergedStep(before, list, n, evidence);
      assert list[..n + 1] == list;
    }
  }

  /** Feeding the outcome back as suggestions, with the same request and evidence,
      returns the same list. */
  lemma PolicyIdempotent(input: Input)
    ensures Policy(input.(suggested := Policy(input))) == Policy(input)
  {
    var out := Policy(input);
    var again := input.(suggested := out);
    var evidence := input.evidence;
    var merged := Merged(Candidates(input), evidence);
    PolicyDistinct(input);
    MergedSettled(Candidates(input), evidence);
    MemberOfMultiset(out, merged);
    MergeOfSettled(out, evidence, |out|);
    assert out[..|out|] == out;
    RulesIgnoreSuggestions(input, out, 4);
    forall r | r in RuleOutputs(again, 4)
      ensures Key(r.action) == "" || HasKey(Merged(out, evidence), Key(r.action))
    {
      hide Merged, Key;
      assert r in Candidates(input);
      if Key(r.action) != "" {
        assert HasKey(Candidates(input), Key(r.action));
        MergedHasKeys(Candidates(input), evidence, Key(r.action));
        SameMembersSameKeys(merged, out, Key(r.action));
      }
    }
    KnownKeysAddNothing(out, RuleOutputs(again, 4), evidence);
    SortSorted(merged, MoreUrgent);
    SortOfSorted(out, MoreUrgent);
  }

  lemma {:induction false} RulesIgnoreSuggestions(input: Input, suggested: seq<Recommendation>, n: nat)
    requires n <= 4
    ensures RuleOutputs(input.(suggested := suggested), n) == RuleOutputs(input, n)
  {
    hide NoEvidenceRule, ErrorEvidenceRule, MultiServiceRule, MissingSignalRule;
    if n > 0 {
      RulesIgnoreSuggestions(input, suggested, n - 1);
      assert RuleOutput(input.(suggested := suggested), n - 1) == RuleOutput(input, n - 1);
    }
  }
}
