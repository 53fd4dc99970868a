/** The guarantees of the pipeline, for every interleaving of its participants. */
module PipelineTheorems {
  import opened Domain
  import opened Jobs
  import opened ContextCache
  import opened Pipeline
  import opened PipelineProofs
  import Sorting

  // ---------------------------------------------------------------------
  // One state of one run
  // ---------------------------------------------------------------------

  /** A completed job has its own analysis stored and shows 100 percent; a job
      whose worker has returned is over, whatever cancellations raced with it. */
  lemma JobSafety(buffer: int, events: seq<Event>, id: Id)
    requires id in Run(buffer, events).jobs
    ensures var s := Run(buffer, events);
            var j := s.jobs[id];
            && (j.status.Completed? ==>
                  j.analysisId == id && id in s.analyses && s.analyses[id].id == id && j.phase.Done? && j.progress == 100)
            && (id in s.workers && s.workers[id].Returned? ==> Terminal(j.status))
            && (id in s.analyses ==> id in s.workers)
  {
    ReachableInv(buffer, events);
    var s := Run(buffer, events);
    assert JobOk(id, s.jobs[id], WorkerOf(s, id), StoredOf(s, id));
  }

  /** Ids leave the queue in the order they entered it, each exactly once, and the
      buffer never exceeds its capacity. */
  lemma QueueIsFifo(buffer: int, events: seq<Event>)
    ensures var s := Run(buffer, events);
            && s.enqueued == s.delivered + s.buffer
            && Sorting.Distinct(s.enqueued)
            && |s.buffer| <= s.capacity
            && forall id :: id in s.workers <==> id in s.delivered
  {
    ReachableInv(buffer, events);
  }

  /** The registry holds exactly the jobs between registration and release. */
  lemma RegistryIsExact(buffer: int, events: seq<Event>, id: Id)
    ensures var s := Run(buffer, events);
            id in s.activeCancels <==> id in s.workers && Registering(s.workers[id])
  {
    ReachableInv(buffer, events);
  }

  /** The context a chat works from. */
  function ContextInUse(chat: Chat): Option<AnalysisContext> {
    match chat
    case Loaded(_, context) => Some(context)
    case Ready(_, context) => Some(context)
    case Answered(_, context) => Some(context)
    case _ => None
  }

  /** Every cached context, and every context a chat works from whether it came
      from the cache or not, is that of the stored analysis. */
  lemma CacheAgrees(buffer: int, events: seq<Event>)
    ensures var s := Run(buffer, events);
            && (forall id :: id in s.cache ==>
                  id in s.analyses && s.cache[id].context == NewAnalysisContext(s.analyses[id]))
            && (forall c :: 0 <= c < |s.chats| && ContextInUse(s.chats[c]).Some? ==>
                  s.chats[c].id in s.analyses
                  && ContextInUse(s.chats[c]).value == NewAnalysisContext(s.analyses[s.chats[c].id]))
  {
    ReachableInv(buffer, events);
    var s := Run(buffer, events);
    forall c | 0 <= c < |s.chats| && ContextInUse(s.chats[c]).Some?
      ensures s.chats[c].id in s.analyses
      ensures ContextInUse(s.chats[c]).value == NewAnalysisContext(s.analyses[s.chats[c].id])
    {
      assert ChatOk(s, s.chats[c]);
    }
  }

  // ---------------------------------------------------------------------
  // From one state of a run to any later one
  // ---------------------------------------------------------------------

  /** What no step undoes: jobs and analyses stay, progress never goes back, a
      worker that has returned stays returned. */
  ghost predicate Advances(s: State, s': State) {
    && (forall id :: id in s.jobs ==> id in s'.jobs && s.jobs[id].progress <= s'.jobs[id].progress)
    && AnalysesKept(s, s')
    && (forall id :: id in s.workers && s.workers[id].Returned? ==> id in s'.workers && s'.workers[id] == s.workers[id])
  }

  lemma NextNeverGoesBack(id: Id, j: Job, w: Worker, stored: Option<AnalysisResult>, c: Choice)
    requires JobOk(id, j, Some(w), stored)
    ensures j.progress <= NextJob(w, j, c).progress
  {
  }

  lemma WorkChanges(s: State, id: Id, c: Choice)
    requires id in s.workers && id in s.jobs
    ensures Work(s, id, c).workers == s.workers[id := NextWorker(s.workers[id], id, Some(s.jobs[id]), c)]
    ensures Work(s, id, c).jobs == s.jobs[id := NextJob(s.workers[id], s.jobs[id], c)]
    ensures s.workers[id].Returned? ==> NextWorker(s.workers[id], id, Some(s.jobs[id]), c) == s.workers[id]
  {
    hide NextJob;
  }

  lemma WorkAdvances(s: State, id: Id, c: Choice)
    requires Inv(s) && id in s.workers
    ensures Advances(s, Work(s, id, c))
  {
    WorkKeepsAnalyses(s, id, c);
    assert JobOk(id, s.jobs[id], WorkerOf(s, id), StoredOf(s, id));
    NextNeverGoesBack(id, s.jobs[id], s.workers[id], StoredOf(s, id), c);
    WorkChanges(s, id, c);
    hide Inv, JobsInv, QueueInv, RegistryInv, CacheInv, JobOk, AnalysesKept, NextJob, NextWorker, Work;
  }

  lemma CancelAdvances(s: State, c: nat, now: Instant)
    requires c < |s.cancelers|
    ensures Advances(s, CancelWork(s, c, now))
  {
    hide NextCanceler;
  }

  lemma StepAdvances(s: State, e: Event)
    requires Inv(s)
    ensures Advances(s, Step(s, e))
  {
    if e.WorkerStep? {
      hide Inv, Work, Advances;
      if e.id in s.workers { WorkAdvances(s, e.id, e.choice); } else { OthersAdvance(s, s); }
    } else if e.CancelerStep? {
      hide Inv, CancelWork, Advances;
      if e.c < |s.cancelers| { CancelAdvances(s, e.c, e.now); } else { OthersAdvance(s, s); }
    } else {
      QuietStepAdvances(s, e);
    }
  }

  /** Every step but a worker's and a canceler's leaves the jobs and workers there as they are. */
  lemma QuietStepAdvances(s: State, e: Event)
    requires Inv(s) && !e.WorkerStep? && !e.CancelerStep?
    ensures Advances(s, Step(s, e))
  {
    if e.Deliver? {
      DeliverKeeps(s);
    } else {
      ElsewhereKeeps(s, e);
    }
    hide Inv, Advances, Step;
    OthersAdvance(s, Step(s, e));
  }

  lemma DeliverKeeps(s: State)
    requires Inv(s)
    ensures Keeps(s, Step(s, Deliver))
  {
    if s.buffer != [] { HeadNotDelivered(s); }
    hide Inv;
  }

  lemma ElsewhereKeeps(s: State, e: Event)
    requires !e.WorkerStep? && !e.CancelerStep? && !e.Deliver?
    ensures Keeps(s, Step(s, e))
  {
    hide NextChat, NextCache, NewJob;
  }

  ghost predicate Keeps(s: State, s': State) {
    && (forall id :: id in s.jobs ==> id in s'.jobs && s'.jobs[id] == s.jobs[id])
    && (forall id :: id in s.workers ==> id in s'.workers && s'.workers[id] == s.workers[id])
    && s'.analyses == s.analyses
  }

  /** Jobs and workers may be added; those there stay as they are. */
  lemma OthersAdvance(s: State, s': State)
    requires Keeps(s, s')
    ensures Advances(s, s')
  {
  }

  lemma AdvancesTransitive(s: State, s': State, s'': State)
    requires Advances(s, s') && Advances(s', s'')
    ensures Advances(s, s'')
  {
  }

  lemma {:induction false} RunAdvances(s: State, events: seq<Event>)
    requires Inv(s)
    ensures Advances(s, RunFrom(s, events))
  {
    hide Inv, Step, Advances;
    if events != [] {
      var front := RunFrom(s, events[..|events| - 1]);
      RunAdvances(s, events[..|events| - 1]);
      RunKeepsInv(s, events[..|events| - 1]);
      StepAdvances(front, events[|events| - 1]);
      AdvancesTransitive(s, front, RunFrom(s, events));
    } else {
      OthersAdvance(s, s);
    }
  }

  /** However a run goes on: progress never decreases, an analysis once stored is
      never overwritten (so it is saved at most once), and a returned worker's job
      stays over. */
  lemma NothingGoesBack(buffer: int, events: seq<Event>, more: seq<Event>, id: Id)
    ensures var s, s' := Run(buffer, events), RunFrom(Run(buffer, events), more);
            && (id in s.jobs ==> id in s'.jobs && s.jobs[id].progress <= s'.jobs[id].progress)
            && (id in s.analyses ==> id in s'.analyses && s'.analyses[id] == s.analyses[id])
            && (id in s.workers && s.workers[id].Returned? ==> id in s'.jobs && Terminal(s'.jobs[id].status))
  {
    hide Run, RunFrom, Inv;
    ReachableInv(buffer, events);
    var s := Run(buffer, events);
    var s' := RunFrom(s, more);
    RunAdvances(s, more);
    RunKeepsInv(s, more);
    if id in s.workers && s.workers[id].Returned? { ReturnedIsOver(s', id); }
  }

  lemma ReturnedIsOver(s: State, id: Id)
    requires Inv(s) && id in s.workers && s.workers[id].Returned?
    ensures id in s.jobs && Terminal(s.jobs[id].status)
  {
    assert JobOk(id, s.jobs[id], WorkerOf(s, id), StoredOf(s, id));
  }

  /** Canceled while no worker has looked the job up yet, or skipped for that reason. */
  predicate CanceledEarly(s: State, id: Id) {
    && id in s.jobs && s.jobs[id].status.Canceled?
    && (id !in s.workers || s.workers[id].Dequeued? || s.workers[id] == Returned(true))
  }

  lemma WorkKeepsCanceledEarly(s: State, other: Id, c: Choice, id: Id)
    requires Inv(s) && CanceledEarly(s, id) && other in s.workers
    ensures CanceledEarly(Work(s, other, c), id)
  {
    if other == id {
      WorkChanges(s, id, c);
    } else {
      WorkIsLocal(s, other, c, id);
      assert WorkerOf(Work(s, other, c), id) == WorkerOf(s, id);
    }
    hide Work, Inv;
  }

  lemma DeliverKeepsCanceledEarly(s: State, id: Id)
    requires Inv(s) && CanceledEarly(s, id)
    ensures CanceledEarly(Step(s, Deliver), id)
  {
    if s.buffer != [] { HeadNotDelivered(s); }
    hide Inv;
  }

  lemma ElsewhereKeepsCanceledEarly(s: State, e: Event, id: Id)
    requires CanceledEarly(s, id) && !e.WorkerStep? && !e.Deliver?
    ensures CanceledEarly(Step(s, e), id)
  {
    hide NextChat, NextCache, NextCanceler, NewJob;
  }

  lemma StepKeepsCanceledEarly(s: State, e: Event, id: Id)
    requires Inv(s) && CanceledEarly(s, id)
    ensures CanceledEarly(Step(s, e), id)
  {
    hide Inv, CanceledEarly, Work, CancelWork, ChatWork;
    match e
    case WorkerStep(other, choice) => if other in s.workers { WorkKeepsCanceledEarly(s, other, choice, id); }
    case Deliver => DeliverKeepsCanceledEarly(s, id);
    case _ => ElsewhereKeepsCanceledEarly(s, e, id);
  }

  lemma {:induction false} RunKeepsCanceledEarly(s: State, events: seq<Event>, id: Id)
    requires Inv(s) && CanceledEarly(s, id)
    ensures CanceledEarly(RunFrom(s, events), id)
  {
    hide Inv, Step, CanceledEarly;
    if events != [] {
      var front := RunFrom(s, events[..|events| - 1]);
      RunKeepsCanceledEarly(s, events[..|events| - 1], id);
      RunKeepsInv(s, events[..|events| - 1]);
      StepKeepsCanceledEarly(front, events[|events| - 1], id);
    }
  }

  /** A job canceled before its worker looks it up stays canceled: it is never
      run, and nothing is ever saved for it. */
  lemma CanceledBeforeLookupNeverRuns(buffer: int, events: seq<Event>, more: seq<Event>, id: Id)
    requires CanceledEarly(Run(buffer, events), id)
    ensures var s' := RunFrom(Run(buffer, events), more);
            && id in s'.jobs && s'.jobs[id].status.Canceled?
            && (id in s'.workers ==> s'.workers[id].Dequeued? || s'.workers[id] == Returned(true))
            && id !in s'.analyses && id !in s'.cache && id !in s'.activeCancels
  {
    ReachableInv(buffer, events);
    var s := Run(buffer, events);
    var s' := RunFrom(s, more);
    RunKeepsCanceledEarly(s, more, id);
    RunKeepsInv(s, more);
    assert JobOk(id, s'.jobs[id], WorkerOf(s', id), StoredOf(s', id));
  }

  // ---------------------------------------------------------------------
  // Where the guarantees end
  // ---------------------------------------------------------------------

  ghost predicate Reachable(buffer: int, s: State) {
    exists events :: Run(buffer, events) == s
  }

  lemma ReachStep(buffer: int, s: State, e: Event) returns (s': State)
    requires Reachable(buffer, s)
    ensures s' == Step(s, e) && Reachable(buffer, s')
  {
    s' := Step(s, e);
    var events :| Run(buffer, events) == s;
    assert (events + [e])[..|events|] == events;
    assert Run(buffer, events + [e]) == s';
  }

  /** A submitted and delivered job, with a canceler that has yet to read it. */
  lemma DeliveredJob(request: AnalysisRequest, now: Instant) returns (s: State)
    ensures Reachable(1, s)
    ensures s.workers == map["j" := Dequeued] && s.jobs == map["j" := NewJob("j", request, now)]
    ensures s.cancelers == [Asked("j")]
  {
    hide NextChat, NextCache, Reachable;
    s := Start(1);
    StartReachable();
    s := ReachStep(1, s, Submit("j", request, now));
    s := ReachStep(1, s, Enqueue("j"));
    s := ReachStep(1, s, Deliver);
    s := ReachStep(1, s, NewCanceler("j"));
  }

  lemma StartReachable()
    ensures Reachable(1, Start(1))
  {
    assert Run(1, []) == Start(1);
  }

  /** A job about to be marked completed, with a canceler that has already read it
      as running and is about to mark it canceled. */
  lemma LateCanceler(request: AnalysisRequest, c: Choice) returns (s: State)
    requires c.ok
    ensures Reachable(1, s)
    ensures "j" in s.workers && s.workers["j"].Completing?
    ensures "j" in s.jobs && s.jobs["j"].status.Running?
    ensures s.cancelers == [ToMark("j")]
  {
    hide Stored, NextChat, NextCache, NewJob, Reachable, NextWorker, NextJob;
    s := DeliveredJob(request, c.now);
    s := WorkSteps(1, s, request, c);
    s := ReachStep(1, s, CancelerStep(0, c.now));
  }

  /** One worker step, seen from its own job. */
  lemma OneWorkStep(buffer: int, s0: State, id: Id, c: Choice) returns (s: State)
    requires Reachable(buffer, s0) && id in s0.workers && id in s0.jobs
    ensures Reachable(buffer, s) && id in s.workers && id in s.jobs
    ensures s.workers[id] == NextWorker(s0.workers[id], id, Some(s0.jobs[id]), c)
    ensures s.jobs[id] == NextJob(s0.workers[id], s0.jobs[id], c)
    ensures s.cancelers == s0.cancelers
  {
    s := ReachStep(buffer, s0, WorkerStep(id, c));
  }

  lemma StepsToBegun(buffer: int, s0: State, request: AnalysisRequest, c: Choice) returns (s: State)
    requires Reachable(buffer, s0)
    requires s0.workers == map["j" := Dequeued] && s0.jobs == map["j" := NewJob("j", request, c.now)]
    ensures Reachable(buffer, s) && s.cancelers == s0.cancelers
    ensures "j" in s.workers && s.workers["j"].Begun?
    ensures "j" in s.jobs && s.jobs["j"].status.Running?
  {
    hide Reachable, AsCompleted, AsFailed, AsCanceled;
    s := OneWorkStep(buffer, s0, "j", c);
    assert s.workers["j"].Found?;
    s := OneWorkStep(buffer, s, "j", c);
    s := OneWorkStep(buffer, s, "j", c);
  }

  lemma StepsToCalling(buffer: int, s0: State, request: AnalysisRequest, c: Choice) returns (s: State)
    requires c.ok && Reachable(buffer, s0)
    requires s0.workers == map["j" := Dequeued] && s0.jobs == map["j" := NewJob("j", request, c.now)]
    ensures Reachable(buffer, s) && s.cancelers == s0.cancelers
    ensures "j" in s.workers && s.workers["j"].Calling?
    ensures "j" in s.jobs && s.jobs["j"].status.Running?
  {
    hide Reachable, AsCompleted, AsFailed, AsCanceled;
    s := StepsToBegun(buffer, s0, request, c);
    s := OneWorkStep(buffer, s, "j", c);
    s := OneWorkStep(buffer, s, "j", c);
    s := OneWorkStep(buffer, s, "j", c);
  }

  lemma WorkSteps(buffer: int, s0: State, request: AnalysisRequest, c: Choice) returns (s: State)
    requires c.ok && Reachable(buffer, s0)
    requires s0.workers == map["j" := Dequeued] && s0.jobs == map["j" := NewJob("j", request, c.now)]
    ensures Reachable(buffer, s) && s.cancelers == s0.cancelers
    ensures "j" in s.workers && s.workers["j"].Completing?
    ensures "j" in s.jobs && s.jobs["j"].status.Running?
  {
    hide Reachable, AsCompleted, AsFailed, AsCanceled;
    s := StepsToCalling(buffer, s0, request, c);
    s := OneWorkStep(buffer, s, "j", c);
    assert s.workers["j"].Saving? && s.jobs["j"].status.Running?;
    s := OneWorkStep(buffer, s, "j", c);
    assert s.workers["j"].Caching? && s.jobs["j"].status.Running?;
    s := OneWorkStep(buffer, s, "j", c);
  }

  /** Terminal states are not absorbing, because no transition looks at the old
      status: a completed job can still turn canceled, and a canceled one completed. */
  lemma TerminalStatesCanChange(request: AnalysisRequest, c: Choice)
    returns (completed: State, canceledAfter: State, canceled: State, completedAfter: State)
    requires c.ok
    ensures Reachable(1, completed) && "j" in completed.jobs && completed.jobs["j"].status.Completed?
    ensures exists e :: canceledAfter == Step(completed, e)
    ensures "j" in canceledAfter.jobs && canceledAfter.jobs["j"].status.Canceled?
    ensures Reachable(1, canceled) && "j" in canceled.jobs && canceled.jobs["j"].status.Canceled?
    ensures exists e :: completedAfter == Step(canceled, e)
    ensures "j" in completedAfter.jobs && completedAfter.jobs["j"].status.Completed?
  {
    hide Reachable, NextChat, NextCache, Stored;
    var s := LateCanceler(request, c);
    completed := ReachStep(1, s, WorkerStep("j", c));
    canceledAfter := Step(completed, CancelerStep(0, c.now));
    canceled := ReachStep(1, s, CancelerStep(0, c.now));
    completedAfter := Step(canceled, WorkerStep("j", c));
  }
}
