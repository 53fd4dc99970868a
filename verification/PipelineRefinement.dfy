/** The in-memory queue and context cache carry out the steps of the pipeline. */
module PipelineRefinement {
  import opened Domain
  import opened Jobs
  import opened ContextCache
  import opened Pipeline

  ghost predicate Represents(queue: AnalysisQueue, s: State)
    reads queue
  {
    queue.buffer == s.buffer && queue.capacity == s.capacity
  }

  /** An enqueue is the machine's enqueue if it is sent, its refusal otherwise. */
  method EnqueueStep(queue: AnalysisQueue, id: Id, done: bool, ghost s: State)
    returns (outcome: SendOutcome, ghost s': State)
    requires Represents(queue, s) && id in s.submitted
    requires queue.closed || done || |queue.buffer| < queue.capacity
    modifies queue
    ensures s' == Step(s, if outcome.Sent? then Enqueue(id) else EnqueueRefused(id))
    ensures Represents(queue, s')
    ensures outcome.Sent? ==> s'.enqueued == s.enqueued + [id]
  {
    outcome := queue.EnqueueAnalysis(id, done);
    s' := Step(s, if outcome.Sent? then Enqueue(id) else EnqueueRefused(id));
  }

  /** A receive that yields an id is the machine's delivery of that id; one that
      yields none is no step. */
  method DeliverStep(queue: AnalysisQueue, done: bool, ghost s: State) returns (id: Option<Id>, ghost s': State)
    requires Represents(queue, s)
    requires done || queue.closed || queue.buffer != []
    modifies queue
    ensures s' == if id.Some? then Step(s, Deliver) else s
    ensures Represents(queue, s')
    ensures id.Some? ==> s'.delivered == s.delivered + [id.value] && s'.workers == s.workers[id.value := Dequeued]
  {
    id := queue.Receive(done);
    s' := if id.Some? then Step(s, Deliver) else s;
  }

  function Again(s: State, e: Event, n: nat): State {
    if n == 0 then s else Step(Again(s, e, n - 1), e)
  }

  /** The three-step lookup of a chat that nobody disturbs does what the cache's
      Find does: the chat has its context or goes on to the store, and the table is
      the one Find leaves. */
  lemma UndisturbedLookupIsFind(s: State, c: nat, o: Choice) returns (n: nat)
    requires c < |s.chats| && s.chats[c].Asking?
    ensures 1 <= n <= 3
    ensures var id := s.chats[c].id;
            var (found, cache) := Lookup(s.cache, id, o.now);
            Again(s, ChatStep(c, o), n)
            == s.(chats := s.chats[c := if found.Some? then Ready(id, found.value) else Missed(id)], cache := cache)
  {
    var id, e := s.chats[c].id, ChatStep(c, o);
    var s1 := Again(s, e, 1);
    if id !in s.cache {
      n := 1;
    } else {
      assert s1.chats[c] == Read(id, s.cache[id]) && s1.cache == s.cache;
      var s2 := Again(s, e, 2);
      assert s2 == Step(s1, e);
      if Expired(s.cache[id], o.now) {
        assert s2.chats[c] == Stale(id) && s2.cache == s.cache;
        assert Again(s, e, 3) == Step(s2, e);
        n := 3;
      } else {
        n := 2;
      }
    }
  }

  // ---------------------------------------------------------------------
  // A job and a chat left alone
  // ---------------------------------------------------------------------

  /** A worker, its job and what is stored for it, while nobody else touches them. */
  datatype Solo = Solo(worker: Worker, job: Job, stored: Option<AnalysisResult>, context: Option<Entry>, registered: bool)

  function SoloOf(s: State, id: Id): Solo
    requires id in s.workers && id in s.jobs
  {
    Solo(s.workers[id], s.jobs[id], if id in s.analyses then Some(s.analyses[id]) else None,
         if id in s.cache then Some(s.cache[id]) else None, id in s.activeCancels)
  }

  function SoloStep(x: Solo, id: Id, c: Choice): Solo {
    var w := x.worker;
    Solo(NextWorker(w, id, Some(x.job), c), NextJob(w, x.job, c),
         if w.Saving? && c.ok then Some(w.result) else x.stored,
         if w.Caching? then Some(Entry(NewAnalysisContext(w.result), c.now + c.ttl)) else x.context,
         if w.Found? then true else if w.Closing? then false else x.registered)
  }

  function SoloRun(x: Solo, id: Id, c: Choice, n: nat): Solo {
    if n == 0 then x else SoloStep(SoloRun(x, id, c, n - 1), id, c)
  }

  /** Results carry the id of the job that is working on them. */
  predicate OwnResult(w: Worker, id: Id) {
    w.Saving? || w.Caching? || w.Completing? ==> w.result.id == id
  }

  lemma WorkIsSolo(s: State, id: Id, c: Choice)
    requires id in s.workers && id in s.jobs && OwnResult(s.workers[id], id)
    ensures var s' := Step(s, WorkerStep(id, c));
            id in s'.workers && id in s'.jobs && OwnResult(s'.workers[id], id) && SoloOf(s', id) == SoloStep(SoloOf(s, id), id, c)
  {
    hide NextJob;
  }

  lemma {:induction false} AgainIsSolo(s: State, id: Id, c: Choice, n: nat)
    requires id in s.workers && id in s.jobs && OwnResult(s.workers[id], id)
    ensures var s' := Again(s, WorkerStep(id, c), n);
            id in s'.workers && id in s'.jobs && OwnResult(s'.workers[id], id) && SoloOf(s', id) == SoloRun(SoloOf(s, id), id, c, n)
  {
    hide Step, SoloOf, SoloStep, OwnResult;
    if n > 0 {
      AgainIsSolo(s, id, c, n - 1);
      WorkIsSolo(Again(s, WorkerStep(id, c), n - 1), id, c);
    }
  }

  lemma {:induction false} SoloRunAdds(x: Solo, id: Id, c: Choice, m: nat, n: nat)
    ensures SoloRun(x, id, c, m + n) == SoloRun(SoloRun(x, id, c, m), id, c, n)
  {
    hide SoloStep;
    if n > 0 { SoloRunAdds(x, id, c, m, n - 1); }
  }

  lemma ThreeSolo(x: Solo, id: Id, c: Choice)
    ensures SoloRun(x, id, c, 3) == SoloStep(SoloStep(SoloStep(x, id, c), id, c), id, c)
  {
    hide SoloStep;
    assert SoloRun(x, id, c, 1) == SoloStep(x, id, c);
    assert SoloRun(x, id, c, 2) == SoloStep(SoloRun(x, id, c, 1), id, c);
  }

  lemma SoloStarts(x: Solo, id: Id, c: Choice)
    requires x.worker.Dequeued? && !x.job.status.Completed? && !x.job.status.Canceled?
    ensures SoloRun(x, id, c, 3)
         == x.(worker := Begun(x.job.request), job := Started(x.job, c.now), registered := true)
  {
    ThreeSolo(x, id, c);
    hide SoloRun;
  }

  lemma SoloCalls(x: Solo, id: Id, c: Choice)
    requires x.worker.Begun? && c.ok
    ensures var y := SoloRun(x, id, c, 3);
            y == x.(worker := Calling, job := y.job)
            && y.job.(phase := x.job.phase, progress := x.job.progress, phaseStartedAt := x.job.phaseStartedAt) == x.job
  {
    ThreeSolo(x, id, c);
    hide SoloRun;
  }

  lemma SoloSaves(x: Solo, id: Id, c: Choice)
    requires x.worker.Calling? && c.ok
    ensures var result := c.result.(id := id);
            var y := SoloRun(x, id, c, 3);
            y == Solo(Completing(result), y.job, Some(result), Some(Entry(NewAnalysisContext(result), c.now + c.ttl)), x.registered)
            && y.job.(phase := x.job.phase, progress := x.job.progress, phaseStartedAt := x.job.phaseStartedAt) == x.job
  {
    ThreeSolo(x, id, c);
    hide SoloRun;
  }

  lemma SoloEnds(x: Solo, id: Id, c: Choice)
    requires x.worker.Completing?
    ensures SoloRun(x, id, c, 3)
         == x.(worker := Returned(false), job := AsCompleted(x.job, x.worker.result.id, c.now), registered := false)
  {
    ThreeSolo(x, id, c);
    hide SoloRun;
  }

  /** A delivered job that is neither completed nor canceled, left alone by everybody
      else and with every call succeeding, is completed after twelve steps of its
      worker: attempted once more, its own analysis stored as the model produced it,
      its context cached, its cancel function released. */
  lemma UndisturbedJobCompletes(s: State, id: Id, c: Choice)
    requires id in s.workers && s.workers[id].Dequeued? && id in s.jobs && c.ok
    requires !s.jobs[id].status.Completed? && !s.jobs[id].status.Canceled?
    ensures var s' := Again(s, WorkerStep(id, c), 12);
            && id in s'.jobs && id in s'.workers && id in s'.analyses && id in s'.cache
            && s'.workers[id] == Returned(false) && id !in s'.activeCancels
            && s'.jobs[id].status.Completed? && s'.jobs[id].phase.Done? && s'.jobs[id].progress == 100
            && s'.jobs[id].analysisId == id && s'.jobs[id].attempt == s.jobs[id].attempt + 1
            && s'.jobs[id].startedAt == Some(c.now) && s'.jobs[id].finishedAt == Some(c.now)
            && s'.jobs[id].request == s.jobs[id].request && s'.jobs[id].createdAt == s.jobs[id].createdAt
            && s'.analyses[id] == c.result.(id := id)
            && s'.cache[id] == Entry(NewAnalysisContext(c.result.(id := id)), c.now + c.ttl)
  {
    hide Step, SoloStep, SoloRun, Again, NewAnalysisContext;
    var x := SoloOf(s, id);
    AgainIsSolo(s, id, c, 12);
    SoloRunAdds(x, id, c, 3, 9);
    SoloStarts(x, id, c);
    var x1 := SoloRun(x, id, c, 3);
    SoloRunAdds(x1, id, c, 3, 6);
    SoloCalls(x1, id, c);
    var x2 := SoloRun(x1, id, c, 3);
    SoloRunAdds(x2, id, c, 3, 3);
    SoloSaves(x2, id, c);
    SoloEnds(SoloRun(x2, id, c, 3), id, c);
  }

  /** A worker whose call fails, left alone, marks its job canceled if the error is a
      cancellation and failed with the error otherwise, and stores nothing. */
  lemma UndisturbedJobFails(s: State, id: Id, c: Choice)
    requires id in s.workers && id in s.jobs && !c.ok && OwnResult(s.workers[id], id)
    requires s.workers[id].Collecting? || s.workers[id].Calling? || s.workers[id].Saving?
    ensures var s' := Again(s, WorkerStep(id, c), 3);
            && id in s'.jobs && id in s'.workers && s'.workers[id] == Returned(false) && id !in s'.activeCancels
            && s'.jobs[id] == (if c.cancellation then AsCanceled(s.jobs[id], c.now) else AsFailed(s.jobs[id], c.error, c.now))
            && SoloOf(s', id).stored == SoloOf(s, id).stored
  {
    hide Step, Again;
    AgainIsSolo(s, id, c, 3);
    ThreeSolo(SoloOf(s, id), id, c);
    hide SoloRun, OwnResult;
  }

  lemma ChatStays(s: State, c: nat, o: Choice)
    requires c < |s.chats| && s.chats[c].Ready?
    ensures var chat := s.chats[c];
            Step(s, ChatStep(c, o)) == s.(chats := s.chats[c := if o.ok then Answered(chat.id, chat.context) else ChatDone(chat.id)])
  {
  }

  lemma {:induction false} AgainAdds(s: State, e: Event, m: nat, n: nat)
    ensures Again(s, e, m + n) == Again(Again(s, e, m), e, n)
  {
    hide Step;
    if n > 0 { AgainAdds(s, e, m, n - 1); }
  }

  lemma AgainThrice(s: State, e: Event)
    ensures Again(s, e, 1) == Step(s, e) && Again(s, e, 3) == Step(Step(Step(s, e), e), e)
  {
    hide Step;
    assert Again(s, e, 2) == Step(Again(s, e, 1), e);
  }

  /** From the lookup on: one more step if the context was found, three if not. */
  lemma LookedUpIsAnswered(s: State, c: nat, o: Choice) returns (n: nat)
    requires c < |s.chats| && s.chats[c].id in s.analyses && o.ok
    requires s.chats[c].Missed? || s.chats[c] == Ready(s.chats[c].id, NewAnalysisContext(s.analyses[s.chats[c].id]))
    ensures n <= 3
    ensures var s' := Again(s, ChatStep(c, o), n);
            c < |s'.chats| && s'.chats[c] == Answered(s.chats[c].id, NewAnalysisContext(s.analyses[s.chats[c].id]))
  {
    hide Step, Again, NewAnalysisContext;
    var e := ChatStep(c, o);
    AgainThrice(s, e);
    if s.chats[c].Ready? {
      n := 1;
      ChatStays(s, c, o);
    } else {
      n := 3;
      MissedIsReady(s, c, o);
      ChatStays(Step(Step(s, e), e), c, o);
    }
  }

  /** A chat about a stored analysis, left alone, is answered from that analysis, by
      way of the cache or not. */
  lemma UndisturbedChatIsAnswered(s: State, c: nat, o: Choice) returns (n: nat)
    requires c < |s.chats| && s.chats[c].Asking? && s.chats[c].id in s.analyses && o.ok
    requires s.chats[c].id in s.cache ==> s.cache[s.chats[c].id].context == NewAnalysisContext(s.analyses[s.chats[c].id])
    ensures n <= 6
    ensures var s' := Again(s, ChatStep(c, o), n);
            c < |s'.chats| && s'.chats[c] == Answered(s.chats[c].id, NewAnalysisContext(s.analyses[s.chats[c].id]))
  {
    hide Again, Step, Lookup, NewAnalysisContext;
    var k := UndisturbedLookupIsFind(s, c, o);
    FoundIsCached(s.cache, s.chats[c].id, o.now);
    var m := LookedUpIsAnswered(Again(s, ChatStep(c, o), k), c, o);
    AgainAdds(s, ChatStep(c, o), k, m);
    n := k + m;
  }

  lemma FoundIsCached(m: Contexts, id: Id, now: Instant)
    ensures Lookup(m, id, now).0.Some? ==> id in m && Lookup(m, id, now).0.value == m[id].context
  {
  }

  lemma MissedIsReady(s: State, c: nat, o: Choice)
    requires c < |s.chats| && s.chats[c].Missed? && s.chats[c].id in s.analyses
    ensures var s' := Step(Step(s, ChatStep(c, o)), ChatStep(c, o));
            && |s'.chats| == |s.chats| && s'.analyses == s.analyses
            && s'.chats[c] == Ready(s.chats[c].id, NewAnalysisContext(s.analyses[s.chats[c].id]))
  {
    hide NextCache, NewAnalysisContext;
  }
}
