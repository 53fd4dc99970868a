/** When each deterministic recommendation is in the outcome, with which priority
    and which evidence. A suggestion with the same action always takes its place. */
module RecommendationRules {
  import opened Domain
  import opened Sorting
  import opened Text
  import opened Recommendations

  // The recommendations of the rules, each with the ids it may cite.

  function ConnectAdapter(texts: Texts): Recommendation {
    Recommendation(texts.connect, texts.connectWhy, 1, [])
  }

  function InspectErrors(texts: Texts, ids: seq<string>): Recommendation {
    Recommendation(texts.inspect, texts.inspectWhy, 2, ids)
  }

  function MapDependencies(texts: Texts, ids: seq<string>): Recommendation {
    Recommendation(texts.dependencies, texts.dependenciesWhy, 3, ids)
  }

  function CollectSignal(texts: Texts, signal: string, ids: seq<string>): Recommendation {
    Recommendation(texts.collect(signal), texts.collectWhy(signal), 4, ids)
  }

  /** No two rules give the same advice, whatever the signal, and none gives none. */
  ghost predicate Distinguishable(texts: Texts) {
    && Key(texts.connect) != "" && Key(texts.inspect) != "" && Key(texts.dependencies) != ""
    && Key(texts.connect) != Key(texts.inspect) && Key(texts.connect) != Key(texts.dependencies)
    && Key(texts.inspect) != Key(texts.dependencies)
    && forall s :: Key(texts.collect(s)) !in {"", Key(texts.connect), Key(texts.inspect), Key(texts.dependencies)}
  }

  // ---------------------------------------------------------------------
  // Evidence ids
  // ---------------------------------------------------------------------

  /** The ids of the kept items are gathered in order, blank ones left out. */
  lemma IdsGathered(evidence: seq<Evidence>, keep: Evidence -> bool, n: nat)
    requires n < |evidence|
    ensures IdsOf(evidence[..0], keep) == []
    ensures IdsOf(evidence[..n + 1], keep)
         == IdsOf(evidence[..n], keep) + (if keep(evidence[n]) && !Blank(evidence[n].id) then [evidence[n].id] else [])
  {
    assert evidence[..n + 1][..n] == evidence[..n];
    BlankIsTrimmed(evidence[n].id);
  }

  lemma BlankIsTrimmed(s: string)
    ensures TrimSpace(s) == "" <==> Blank(s)
  {
    var i, j := TrimSpaceMeans(s);
    hide TrimSpace, BlankChar;
    BlankEnds(s, i, j);
  }

  /** Without ids of its own a recommendation gets the first five of the evidence. */
  lemma FallbackMeans(existing: seq<string>, evidence: seq<Evidence>)
    ensures existing != [] ==> Fallback(existing, evidence) == existing
    ensures Fallback([], evidence) <= IdsOf(evidence, Any)
    ensures |Fallback([], evidence)| == if |IdsOf(evidence, Any)| < 5 then |IdsOf(evidence, Any)| else 5
  {
  }

  // ---------------------------------------------------------------------
  // Keys
  // ---------------------------------------------------------------------

  /** An action with no blanks around it has itself, in lower case, as its key. */
  lemma PlainKey(action: string)
    requires action != "" && !IsSpace(action[0]) && !IsSpace(action[|action| - 1])
    ensures |Key(action)| == |action|
    ensures forall i :: 0 <= i < |action| ==>
              Key(action)[i] == if 'A' <= action[i] <= 'Z' then 'a' + (action[i] - 'A') else action[i]
  {
    SpacesAre(action[0]);
    SpacesAre(action[|action| - 1]);
    var i, j := TrimSpaceMeans(action);
    hide TrimSpace, ToLower, IsSpace, BlankChar;
    BlankEnds(action, i, j);
    assert action[0..|action|] == action;
    forall k | 0 <= k < |action|
      ensures Key(action)[k] == if 'A' <= action[k] <= 'Z' then 'a' + (action[k] - 'A') else action[k]
    {
      LowerCaseMeans(action, k);
    }
  }

  // ---------------------------------------------------------------------
  // The texts of the program
  // ---------------------------------------------------------------------

  /** How the key of an action begins. */
  ghost predicate Begins(action: string, first: char, third: char) {
    |Key(action)| > 2 && Key(action)[0] == first && Key(action)[2] == third
  }

  lemma PartsBegin(start: string, rest: string, end: string)
    requires |start| > 2 && |end| > 0 && !IsSpace(start[0]) && !IsSpace(end[|end| - 1])
    requires 'A' <= start[0] <= 'Z' && 'a' <= start[2] <= 'z'
    ensures Begins(start + rest + end, 'a' + (start[0] - 'A'), start[2])
  {
    hide Key, IsSpace;
    var action := start + rest + end;
    assert action[0] == start[0] && action[2] == start[2] && action[|action| - 1] == end[|end| - 1];
    PlainKey(action);
  }

  lemma DifferentKeys(a: string, b: string, i: char, j: char, k: char, l: char)
    requires Begins(a, i, j) && Begins(b, k, l) && (i != k || j != l)
    ensures Key(a) != Key(b) && Key(a) != "" && Key(b) != ""
  {
  }

  /** What the program's rules say. */
  function ProgramTexts(): Texts {
    Texts(ConnectAction(), ConnectWhy(), InspectAction(), InspectWhy(), MapAction(), MapWhy(),
          s => CollectAction(s), s => CollectWhy(s))
  }

  function ConnectAction(): string {
    "Connect" + " a read-only observability adapter and rerun the" + " analysis"
  }

  function ConnectWhy(): string {
    "the analysis collected no evidence, so the diagnosis cannot be grounded in real telemetry"
  }

  function InspectAction(): string {
    "Inspect" + " error logs and failing spans for the affected services in the requested" + " window"
  }

  function InspectWhy(): string {
    "evidence contains error signals that likely point at the failing dependency"
  }

  function MapAction(): string {
    "Map" + " upstream/downstream dependencies and correlate spans across the affected" + " services"
  }

  function MapWhy(): string {
    "multiple services are involved, so the root cause is more likely in a shared dependency or call path"
  }

  function CollectAction(signal: string): string {
    "Collect " + (signal + " evidence for the affected services in the requested") + " window"
  }

  function CollectWhy(signal: string): string {
    "the requested " + signal + " signal returned no evidence, which leaves a blind spot in the analysis"
  }

  lemma ConnectBegins(rest: string)
    ensures Begins("Connect" + rest + " analysis", 'c', 'n')
  {
    hide Begins;
    PartsBegin("Connect", rest, " analysis");
  }

  lemma InspectBegins(rest: string)
    ensures Begins("Inspect" + rest + " window", 'i', 's')
  {
    hide Begins;
    PartsBegin("Inspect", rest, " window");
  }

  lemma MapBegins(rest: string)
    ensures Begins("Map" + rest + " services", 'm', 'p')
  {
    hide Begins;
    PartsBegin("Map", rest, " services");
  }

  lemma CollectBegins(rest: string)
    ensures Begins("Collect " + rest + " window", 'c', 'l')
  {
    hide Begins;
    PartsBegin("Collect ", rest, " window");
  }

  lemma TextsBegin(texts: Texts)
    requires Begins(texts.connect, 'c', 'n') && Begins(texts.inspect, 'i', 's') && Begins(texts.dependencies, 'm', 'p')
    requires forall s :: Begins(texts.collect(s), 'c', 'l')
    ensures Distinguishable(texts)
  {
    hide Begins, Key;
    DifferentKeys(texts.connect, texts.inspect, 'c', 'n', 'i', 's');
    DifferentKeys(texts.connect, texts.dependencies, 'c', 'n', 'm', 'p');
    DifferentKeys(texts.inspect, texts.dependencies, 'i', 's', 'm', 'p');
    forall s
      ensures Key(texts.collect(s)) !in {"", Key(texts.connect), Key(texts.inspect), Key(texts.dependencies)}
    {
      DifferentKeys(texts.collect(s), texts.connect, 'c', 'l', 'c', 'n');
      DifferentKeys(texts.collect(s), texts.inspect, 'c', 'l', 'i', 's');
      DifferentKeys(texts.collect(s), texts.dependencies, 'c', 'l', 'm', 'p');
    }
  }

  lemma ConnectActionBegins()
    ensures Begins(ConnectAction(), 'c', 'n')
  {
    hide Begins;
    ConnectBegins(" a read-only observability adapter and rerun the");
  }

  lemma InspectActionBegins()
    ensures Begins(InspectAction(), 'i', 's')
  {
    hide Begins;
    InspectBegins(" error logs and failing spans for the affected services in the requested");
  }

  lemma MapActionBegins()
    ensures Begins(MapAction(), 'm', 'p')
  {
    hide Begins;
    MapBegins(" upstream/downstream dependencies and correlate spans across the affected");
  }

  lemma CollectActionBegins(signal: string)
    ensures Begins(CollectAction(signal), 'c', 'l')
  {
    hide Begins;
    CollectBegins(signal + " evidence for the affected services in the requested");
  }

  /** The program's texts tell its rules apart. */
  lemma ProgramTextsDistinguishable()
    ensures Distinguishable(ProgramTexts())
  {
    hide Begins, Distinguishable, ConnectAction, ConnectWhy, InspectAction, InspectWhy, MapAction, MapWhy, CollectAction, CollectWhy;
    ConnectActionBegins();
    InspectActionBegins();
    MapActionBegins();
    forall s ensures Begins(ProgramTexts().collect(s), 'c', 'l') { CollectActionBegins(s); }
    TextsBegin(ProgramTexts());
  }

  // ---------------------------------------------------------------------
  // What the rules put out
  // ---------------------------------------------------------------------

  ghost predicate IsMissing(signals: seq<string>, evidence: seq<Evidence>, x: string) {
    x in signals && forall e :: e in evidence ==> e.signal != x
  }

  lemma LastMissing(texts: Texts, signals: seq<string>, evidence: seq<Evidence>, r: Recommendation)
    requires signals != []
    ensures var last := signals[|signals| - 1];
            r in MissingSignals(texts, signals, evidence)
            <==> r in MissingSignals(texts, signals[..|signals| - 1], evidence)
                 || ((forall e :: e in evidence ==> e.signal != last) && r == CollectSignal(texts, last, []))
  {
  }

  lemma MissingFront(signals: seq<string>, evidence: seq<Evidence>)
    requires signals != []
    ensures var n := |signals| - 1;
            forall x ::
              IsMissing(signals, evidence, x)
              <==> IsMissing(signals[..n], evidence, x) || (x == signals[n] && forall e :: e in evidence ==> e.signal != x)
  {
    assert signals == signals[..|signals| - 1] + [signals[|signals| - 1]];
  }

  lemma {:induction false} MissingAre(texts: Texts, signals: seq<string>, evidence: seq<Evidence>, r: Recommendation)
    ensures r in MissingSignals(texts, signals, evidence)
       <==> exists x :: IsMissing(signals, evidence, x) && r == CollectSignal(texts, x, [])
  {
    if signals != [] {
      var n := |signals| - 1;
      MissingAre(texts, signals[..n], evidence, r);
      LastMissing(texts, signals, evidence, r);
      MissingFront(signals, evidence);
      hide CollectSignal, MissingSignals, IsMissing;
    }
  }

  lemma RuleOutputsAre(input: Input, r: Recommendation)
    ensures r in RuleOutputs(input, 4)
       <==> r in RuleOutput(input, 0) || r in RuleOutput(input, 1) || r in RuleOutput(input, 2) || r in RuleOutput(input, 3)
  {
    hide RuleOutput;
    assert RuleOutputs(input, 1) == RuleOutputs(input, 0) + RuleOutput(input, 0);
    assert RuleOutputs(input, 2) == RuleOutputs(input, 1) + RuleOutput(input, 1);
    assert RuleOutputs(input, 3) == RuleOutputs(input, 2) + RuleOutput(input, 2);
    assert RuleOutputs(input, 4) == RuleOutputs(input, 3) + RuleOutput(input, 3);
  }

  /** Some signal was asked for and no evidence carries it, though there is some. */
  predicate Missing(input: Input, signal: string) {
    signal in input.request.signals && input.evidence != [] && forall e :: e in input.evidence ==> e.signal != signal
  }

  lemma MissingSignalsAre(input: Input, x: Recommendation)
    ensures x in RuleOutput(input, 3) <==> exists s :: Missing(input, s) && x == CollectSignal(input.texts, s, [])
  {
    MissingAre(input.texts, input.request.signals, input.evidence, x);
    hide MissingSignals, CollectSignal;
    forall s
      ensures input.evidence != [] ==> (Missing(input, s) <==> IsMissing(input.request.signals, input.evidence, s))
    {
    }
  }

  lemma OneRuleIs(input: Input, x: Recommendation)
    ensures x in RuleOutput(input, 0) <==> input.evidence == [] && x == ConnectAdapter(input.texts)
    ensures x in RuleOutput(input, 1)
       <==> (exists e :: e in input.evidence && input.mentionsError(e))
            && x == InspectErrors(input.texts, IdsOf(input.evidence, input.mentionsError))
    ensures x in RuleOutput(input, 2)
       <==> |DistinctServices(input.request, input.evidence)| >= 2 && x == MapDependencies(input.texts, Fallback([], input.evidence))
  {
    hide IdsOf, DistinctServices, Fallback, MissingSignals;
  }

  /** All the rules put out, in one place. */
  lemma RulesPutOut(input: Input, x: Recommendation)
    ensures x in RuleOutputs(input, 4)
       <==> (input.evidence == [] && x == ConnectAdapter(input.texts))
            || ((exists e :: e in input.evidence && input.mentionsError(e))
                && x == InspectErrors(input.texts, IdsOf(input.evidence, input.mentionsError)))
            || (|DistinctServices(input.request, input.evidence)| >= 2 && x == MapDependencies(input.texts, Fallback([], input.evidence)))
            || (exists s :: Missing(input, s) && x == CollectSignal(input.texts, s, []))
  {
    hide *;
    RuleOutputsAre(input, x);
    OneRuleIs(input, x);
    MissingSignalsAre(input, x);
  }

  lemma {:induction false} FirstOfKey(list: seq<Recommendation>, key: string) returns (i: nat)
    requires HasKey(list, key)
    ensures IsFirstWithKey(list, i) && Key(list[i].action) == key
  {
    hide Key;
    var n := |list| - 1;
    assert list == list[..n] + [list[n]];
    AppendHasKey(list[..n], list[n], key);
    if HasKey(list[..n], key) {
      i := FirstOfKey(list[..n], key);
    } else {
      i := n;
      forall j | 0 <= j < n ensures Key(list[j].action) != key { assert list[..n][j] in list[..n]; }
    }
  }

  /** The first suggestion with a key is in the outcome, whatever the rules say. */
  lemma SuggestionWins(input: Input, i: nat)
    requires IsFirstWithKey(input.suggested, i) && Key(input.suggested[i].action) != ""
    ensures input.suggested[i].(evidenceIds := Fallback(input.suggested[i].evidenceIds, input.evidence)) in Policy(input)
    ensures forall r :: r in Policy(input) && Key(r.action) == Key(input.suggested[i].action) ==>
              r == input.suggested[i].(evidenceIds := Fallback(input.suggested[i].evidenceIds, input.evidence))
  {
    hide Key, RuleOutputs, Fallback, Merged, Sort;
    assert forall j :: 0 <= j <= i ==> Candidates(input)[j] == input.suggested[j];
    FirstCandidateKept(Candidates(input), input.evidence, i);
    MemberOfMultiset(Policy(input), Merged(Candidates(input), input.evidence));
    PolicyDistinct(input);
    var kept := input.suggested[i].(evidenceIds := Fallback(input.suggested[i].evidenceIds, input.evidence));
    var k :| 0 <= k < |Policy(input)| && Policy(input)[k] == kept;
    forall r | r in Policy(input) && Key(r.action) == Key(kept.action)
      ensures r == kept
    {
      var j :| 0 <= j < |Policy(input)| && Policy(input)[j] == r;
      assert j == k;
    }
  }

  lemma FromRules(input: Input, i: nat)
    requires i < |Candidates(input)| && !HasKey(input.suggested, Key(Candidates(input)[i].action))
    ensures Candidates(input)[i] in RuleOutputs(input, 4)
  {
    hide Key, RuleOutputs;
    assert forall j :: 0 <= j < |input.suggested| ==> Candidates(input)[j] == input.suggested[j] && input.suggested[j] in input.suggested;
    assert i >= |input.suggested|;
    assert Candidates(input)[i] == RuleOutputs(input, 4)[i - |input.suggested|];
  }

  /** A rule's recommendation is kept if no suggestion and no other rule has its key. */
  lemma RuleKept(input: Input, r: Recommendation)
    requires r in RuleOutputs(input, 4) && Key(r.action) != "" && !HasKey(input.suggested, Key(r.action))
    requires forall x :: x in RuleOutputs(input, 4) && Key(x.action) == Key(r.action) ==> x == r
    ensures r.(evidenceIds := Fallback(r.evidenceIds, input.evidence)) in Policy(input)
  {
    var candidates := Candidates(input);
    assert r in candidates;
    hide Key, RuleOutputs, Fallback, Merged, Sort;
    assert HasKey(candidates, Key(r.action));
    var i := FirstOfKey(candidates, Key(r.action));
    FromRules(input, i);
    FirstCandidateKept(candidates, input.evidence, i);
    MemberOfMultiset(Policy(input), Merged(candidates, input.evidence));
  }

  /** A key that neither a suggestion nor a rule has is not in the outcome. */
  lemma NothingElse(input: Input, key: string)
    requires !HasKey(input.suggested, key) && forall x :: x in RuleOutputs(input, 4) ==> Key(x.action) != key
    ensures !HasKey(Policy(input), key)
  {
    hide Key, RuleOutputs, Merged, Sort;
    MergedHasKeys(Candidates(input), input.evidence, key);
    MemberOfMultiset(Policy(input), Merged(Candidates(input), input.evidence));
    SameMembersSameKeys(Merged(Candidates(input), input.evidence), Policy(input), key);
    assert forall x :: x in Candidates(input) ==> x in input.suggested || x in RuleOutputs(input, 4);
  }

  /** Which rule a key tells of. */
  lemma RulesByKey(input: Input, x: Recommendation)
    requires Distinguishable(input.texts) && x in RuleOutputs(input, 4)
    ensures Key(x.action) == Key(input.texts.connect) ==> input.evidence == [] && x == ConnectAdapter(input.texts)
    ensures Key(x.action) == Key(input.texts.inspect) ==>
              (exists e :: e in input.evidence && input.mentionsError(e))
              && x == InspectErrors(input.texts, IdsOf(input.evidence, input.mentionsError))
    ensures Key(x.action) == Key(input.texts.dependencies) ==>
              |DistinctServices(input.request, input.evidence)| >= 2 && x == MapDependencies(input.texts, Fallback([], input.evidence))
    ensures forall s :: Key(x.action) == Key(input.texts.collect(s)) ==>
              exists t :: Missing(input, t) && x == CollectSignal(input.texts, t, [])
  {
    hide Key, RuleOutputs, IdsOf, Fallback, DistinctServices, Missing;
    RulesPutOut(input, x);
  }

  // ---------------------------------------------------------------------
  // The four rules, for texts that tell them apart
  // ---------------------------------------------------------------------

  /** Without evidence, and only then, the outcome advises to connect an adapter,
      first of all and with no evidence cited. */
  lemma NoEvidenceOutcome(input: Input)
    requires Distinguishable(input.texts) && !HasKey(input.suggested, Key(input.texts.connect))
    ensures input.evidence == [] ==> ConnectAdapter(input.texts) in Policy(input)
    ensures input.evidence != [] ==> !HasKey(Policy(input), Key(input.texts.connect))
  {
    hide Key, RuleOutputs, Policy, HasKey, Fallback;
    var r := ConnectAdapter(input.texts);
    RulesPutOut(input, r);
    forall x | x in RuleOutputs(input, 4) && Key(x.action) == Key(r.action)
      ensures input.evidence == [] && x == r
    {
      RulesByKey(input, x);
    }
    if input.evidence == [] {
      RuleKept(input, r);
      NoEvidenceNoIds(input.evidence);
    } else {
      NothingElse(input, Key(r.action));
    }
  }

  lemma NoEvidenceNoIds(evidence: seq<Evidence>)
    ensures evidence == [] ==> Fallback([], evidence) == []
  {
  }

  /** If some evidence mentions an error, and only then, the outcome advises to
      inspect it, citing that evidence or, if it has no ids, the first five. */
  lemma ErrorOutcome(input: Input)
    requires Distinguishable(input.texts) && !HasKey(input.suggested, Key(input.texts.inspect))
    ensures (exists e :: e in input.evidence && input.mentionsError(e)) ==>
              InspectErrors(input.texts, Fallback(IdsOf(input.evidence, input.mentionsError), input.evidence)) in Policy(input)
    ensures (forall e :: e in input.evidence ==> !input.mentionsError(e)) ==> !HasKey(Policy(input), Key(input.texts.inspect))
  {
    hide Key, RuleOutputs, Policy, HasKey, Fallback, IdsOf;
    var r := InspectErrors(input.texts, IdsOf(input.evidence, input.mentionsError));
    RulesPutOut(input, r);
    forall x | x in RuleOutputs(input, 4) && Key(x.action) == Key(r.action)
      ensures x == r && exists e :: e in input.evidence && input.mentionsError(e)
    {
      RulesByKey(input, x);
    }
    if exists e :: e in input.evidence && input.mentionsError(e) {
      RuleKept(input, r);
    } else {
      NothingElse(input, Key(r.action));
    }
  }

  /** The request or some evidence names the service, blanks around it aside. */
  predicate Involved(input: Input, service: string) {
    service != ""
    && ((exists s :: s in input.request.affectedServices && TrimSpace(s) == service)
        || (exists e :: e in input.evidence && TrimSpace(e.service) == service))
  }

  ghost predicate SeveralInvolved(input: Input) {
    exists a, b :: Involved(input, a) && Involved(input, b) && a != b
  }

  lemma ServicesAreInvolved(input: Input)
    ensures forall s :: s in DistinctServices(input.request, input.evidence) <==> Involved(input, s)
  {
    hide TrimSpace;
  }

  lemma SeveralIsTwo(input: Input)
    ensures |DistinctServices(input.request, input.evidence)| >= 2 <==> SeveralInvolved(input)
  {
    var services := DistinctServices(input.request, input.evidence);
    ServicesAreInvolved(input);
    hide Involved, DistinctServices;
    if |services| >= 2 {
      var a :| a in services;
      assert |services - {a}| >= 1;
      var b :| b in services - {a};
    }
    if a, b :| Involved(input, a) && Involved(input, b) && a != b {
      SubsetAtMost({a, b}, services);
    }
  }

  lemma SubsetAtMost(a: set<string>, b: set<string>)
    requires a <= b
    ensures |a| <= |b|
  {
    assert b == a + (b - a);
  }

  /** If at least two services are involved, and only then, the outcome advises to
      map their dependencies, citing the first five items of evidence. */
  lemma MultiServiceOutcome(input: Input)
    requires Distinguishable(input.texts) && !HasKey(input.suggested, Key(input.texts.dependencies))
    ensures SeveralInvolved(input) ==> MapDependencies(input.texts, Fallback([], input.evidence)) in Policy(input)
    ensures !SeveralInvolved(input) ==> !HasKey(Policy(input), Key(input.texts.dependencies))
  {
    hide Key, RuleOutputs, Policy, HasKey, Fallback, DistinctServices, SeveralInvolved;
    var r := MapDependencies(input.texts, Fallback([], input.evidence));
    SeveralIsTwo(input);
    FallbackTwice([], input.evidence);
    RulesPutOut(input, r);
    forall x | x in RuleOutputs(input, 4) && Key(x.action) == Key(r.action)
      ensures x == r && SeveralInvolved(input)
    {
      RulesByKey(input, x);
    }
    if SeveralInvolved(input) {
      RuleKept(input, r);
    } else {
      NothingElse(input, Key(r.action));
    }
  }

  /** For every missing signal, and for no other, the outcome advises to collect it,
      last of all, citing the first five items of evidence. Signals that differ only
      in case share one recommendation. */
  lemma MissingSignalOutcome(input: Input, signal: string)
    requires Distinguishable(input.texts) && !HasKey(input.suggested, Key(input.texts.collect(signal)))
    ensures Missing(input, signal) && (forall s :: Missing(input, s) && SameAdvice(input.texts, s, signal) ==> s == signal)
        ==> CollectSignal(input.texts, signal, Fallback([], input.evidence)) in Policy(input)
    ensures (forall s :: Missing(input, s) ==> !SameAdvice(input.texts, s, signal))
        ==> !HasKey(Policy(input), Key(input.texts.collect(signal)))
  {
    hide Key, RuleOutputs, Policy, HasKey, Fallback, Missing;
    var r := CollectSignal(input.texts, signal, []);
    RulesPutOut(input, r);
    forall x | x in RuleOutputs(input, 4) && Key(x.action) == Key(r.action)
      ensures exists s :: Missing(input, s) && SameAdvice(input.texts, s, signal) && x == CollectSignal(input.texts, s, [])
    {
      RulesByKey(input, x);
      var s :| Missing(input, s) && x == CollectSignal(input.texts, s, []);
      assert SameAdvice(input.texts, s, signal);
    }
    if Missing(input, signal) && (forall s :: Missing(input, s) && SameAdvice(input.texts, s, signal) ==> s == signal) {
      RuleKept(input, r);
    }
    if forall s :: Missing(input, s) ==> !SameAdvice(input.texts, s, signal) {
      NothingElse(input, Key(r.action));
    }
  }

  ghost predicate SameAdvice(texts: Texts, a: string, b: string) {
    Key(texts.collect(a)) == Key(texts.collect(b))
  }
}
