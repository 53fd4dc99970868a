/** What a job's record tells about its run, and where everything stored came from. */
module PipelineRecords {
  import opened Domain
  import opened Jobs
  import opened ContextCache
  import opened Pipeline
  import opened PipelineProofs
  import opened PipelineTheorems

  // ---------------------------------------------------------------------
  // Attempts, timestamps, phases
  // ---------------------------------------------------------------------

  /** The worker has marked the job running. */
  predicate Underway(w: Worker) {
    !(w.Dequeued? || w.Found? || w.Registered? || w == Returned(true))
  }

  /** The phase and the percentage that go with each place of the worker. */
  predicate StageOk(w: Worker, phase: Phase, progress: int) {
    match w
    case Begun(_) => phase == CollectingSignals && progress == 0
    case Collecting => phase == CollectingSignals && progress == 10
    case Prepared => phase == Normalizing && progress == 35
    case Calling => phase == CallingLLM && progress == 55
    case Saving(_) => phase == Persisting && progress == 85
    case Caching(_) => phase == Persisting && progress == 85
    case Completing(_) => phase == Persisting && progress == 85
    case Failing(_) => Reported(phase, progress) && !phase.Done?
    case Closing => Reported(phase, progress)
    case Returned(skipped) => if skipped then phase == Queued && progress == 0 else Reported(phase, progress)
    case _ => phase == Queued && progress == 0
  }

  /** The reports of a job that is underway. */
  predicate Reported(phase: Phase, progress: int) {
    match phase
    case Queued => false
    case CollectingSignals => progress == 0 || progress == 10
    case Normalizing => progress == 35
    case CallingLLM => progress == 55
    case Persisting => progress == 85
    case Done => progress == 100
  }

  predicate RecordOk(j: Job, worker: Option<Worker>) {
    var underway := worker.Some? && Underway(worker.value);
    && j.attempt == (if underway then 1 else 0)
    && (j.startedAt.Some? <==> underway)
    && (Terminal(j.status) ==> j.finishedAt.Some?)
    && (if worker.Some? then StageOk(worker.value, j.phase, j.progress) else j.phase == Queued && j.progress == 0)
  }

  ghost predicate RecordsInv(s: State) {
    forall id :: id in s.jobs ==> RecordOk(s.jobs[id], WorkerOf(s, id))
  }

  lemma NextKeepsRecord(id: Id, j: Job, w: Worker, stored: Option<AnalysisResult>, c: Choice)
    requires JobOk(id, j, Some(w), stored) && RecordOk(j, Some(w))
    ensures RecordOk(NextJob(w, j, c), Some(NextWorker(w, id, Some(j), c)))
  {
  }

  lemma WorkKeepsRecords(s: State, id: Id, c: Choice)
    requires Inv(s) && RecordsInv(s) && id in s.workers
    ensures RecordsInv(Work(s, id, c))
  {
    var s' := Work(s, id, c);
    assert JobOk(id, s.jobs[id], WorkerOf(s, id), StoredOf(s, id));
    NextKeepsRecord(id, s.jobs[id], s.workers[id], StoredOf(s, id), c);
    WorkChanges(s, id, c);
    hide RecordOk, NextJob, NextWorker, Inv, JobOk, Work;
    forall other | other in s'.jobs
      ensures RecordOk(s'.jobs[other], WorkerOf(s', other))
    {
      if other != id { assert WorkerOf(s', other) == WorkerOf(s, other); }
    }
  }

  lemma CancelKeepsRecords(s: State, c: nat, now: Instant)
    requires RecordsInv(s) && c < |s.cancelers|
    ensures RecordsInv(CancelWork(s, c, now))
  {
    hide NextCanceler;
    var s' := CancelWork(s, c, now);
    assert s'.workers == s.workers;
    forall id | id in s'.jobs
      ensures RecordOk(s'.jobs[id], WorkerOf(s', id))
    {
      assert RecordOk(s.jobs[id], WorkerOf(s, id));
    }
  }

  lemma DeliverKeepsRecords(s: State)
    requires Inv(s) && RecordsInv(s)
    ensures RecordsInv(Step(s, Deliver))
  {
    if s.buffer != [] {
      HeadNotDelivered(s);
      var s' := Step(s, Deliver);
      forall id | id in s'.jobs
        ensures RecordOk(s'.jobs[id], WorkerOf(s', id))
      {
        assert RecordOk(s.jobs[id], WorkerOf(s, id));
      }
    }
    hide Inv;
  }

  lemma SubmitKeepsRecords(s: State, id: Id, request: AnalysisRequest, now: Instant)
    requires Inv(s) && RecordsInv(s)
    ensures RecordsInv(Step(s, Submit(id, request, now)))
  {
    var s' := Step(s, Submit(id, request, now));
    assert s'.workers == s.workers && s.workers.Keys <= s.jobs.Keys;
    NewRecordOk(id, request, now);
    hide Inv, RecordOk, NewJob;
    forall other | other in s'.jobs
      ensures RecordOk(s'.jobs[other], WorkerOf(s', other))
    {
      assert WorkerOf(s', other) == WorkerOf(s, other);
    }
  }

  lemma NewRecordOk(id: Id, request: AnalysisRequest, now: Instant)
    ensures RecordOk(NewJob(id, request, now), None)
  {
  }

  lemma ElsewhereKeepsRecords(s: State, e: Event)
    requires RecordsInv(s) && !e.WorkerStep? && !e.CancelerStep? && !e.Deliver? && !e.Submit?
    ensures RecordsInv(Step(s, e))
  {
    ElsewhereTouches(s, e);
    hide RecordOk, Step;
    var s' := Step(s, e);
    forall id | id in s'.jobs
      ensures RecordOk(s'.jobs[id], WorkerOf(s', id))
    {
      assert WorkerOf(s', id) == WorkerOf(s, id);
    }
  }

  lemma ElsewhereTouches(s: State, e: Event)
    requires !e.WorkerStep? && !e.CancelerStep? && !e.Deliver? && !e.Submit?
    ensures Step(s, e).workers == s.workers && Step(s, e).jobs == s.jobs
  {
    hide NextChat, NextCache;
  }

  lemma StepKeepsRecords(s: State, e: Event)
    requires Inv(s) && RecordsInv(s)
    ensures RecordsInv(Step(s, e))
  {
    hide Inv, RecordsInv, Work, CancelWork, ChatWork;
    match e
    case WorkerStep(id, c) => if id in s.workers { WorkKeepsRecords(s, id, c); }
    case CancelerStep(c, now) => if c < |s.cancelers| { CancelKeepsRecords(s, c, now); }
    case Deliver => DeliverKeepsRecords(s);
    case Submit(id, request, now) => SubmitKeepsRecords(s, id, request, now);
    case _ => ElsewhereKeepsRecords(s, e);
  }

  lemma {:induction false} RunKeepsRecords(s: State, events: seq<Event>)
    requires Inv(s) && RecordsInv(s)
    ensures RecordsInv(RunFrom(s, events))
  {
    hide Inv, RecordsInv, Step;
    if events != [] {
      RunKeepsRecords(s, events[..|events| - 1]);
      RunKeepsInv(s, events[..|events| - 1]);
      StepKeepsRecords(RunFrom(s, events[..|events| - 1]), events[|events| - 1]);
    }
  }

  lemma StartRecords(buffer: int)
    ensures Inv(Start(buffer)) && RecordsInv(Start(buffer))
  {
    assert Run(buffer, []) == Start(buffer);
    ReachableInv(buffer, []);
  }

  /** In every interleaving a job is attempted at most once, and has a start time
      exactly when it has been; an ended job has an end time; and its phase and
      percentage are a pair that some report made, queued at zero before the start. */
  lemma RecordTellsRun(buffer: int, events: seq<Event>, id: Id)
    requires id in Run(buffer, events).jobs
    ensures var j := Run(buffer, events).jobs[id];
            && 0 <= j.attempt <= 1 && (j.startedAt.Some? <==> j.attempt == 1)
            && (Terminal(j.status) ==> j.finishedAt.Some?)
            && (if j.attempt == 0 then j.phase == Queued && j.progress == 0 else Reported(j.phase, j.progress))
            && (j.status.Pending? ==> j.attempt == 0)
            && (j.status.Running? || j.status.Completed? || j.status.Failed? ==> j.attempt == 1)
  {
    ReachableRecords(buffer, events);
    hide Inv, Run, RecordsInv;
    RecordTells(Run(buffer, events), id);
  }

  lemma ReachableRecords(buffer: int, events: seq<Event>)
    ensures Inv(Run(buffer, events)) && RecordsInv(Run(buffer, events))
  {
    hide Inv, RecordsInv, RunFrom;
    StartRecords(buffer);
    RunKeepsRecords(Start(buffer), events);
    ReachableInv(buffer, events);
  }

  lemma RecordTells(s: State, id: Id)
    requires Inv(s) && RecordsInv(s) && id in s.jobs
    ensures var j := s.jobs[id];
            && 0 <= j.attempt <= 1 && (j.startedAt.Some? <==> j.attempt == 1)
            && (Terminal(j.status) ==> j.finishedAt.Some?)
            && (if j.attempt == 0 then j.phase == Queued && j.progress == 0 else Reported(j.phase, j.progress))
            && (j.status.Pending? ==> j.attempt == 0)
            && (j.status.Running? || j.status.Completed? || j.status.Failed? ==> j.attempt == 1)
  {
    assert JobOk(id, s.jobs[id], WorkerOf(s, id), StoredOf(s, id));
    assert RecordOk(s.jobs[id], WorkerOf(s, id));
    hide Inv, RecordsInv;
  }

  /** While its worker is underway, the job shows the worker's phase and percentage. */
  lemma StageIsShown(buffer: int, events: seq<Event>, id: Id)
    requires id in Run(buffer, events).workers
    ensures var s := Run(buffer, events);
            id in s.jobs && StageOk(s.workers[id], s.jobs[id].phase, s.jobs[id].progress)
  {
    ReachableRecords(buffer, events);
    var s := Run(buffer, events);
    assert id in s.jobs;
    assert RecordOk(s.jobs[id], WorkerOf(s, id));
    hide Inv, Run, RunFrom, RecordsInv;
  }

  // ---------------------------------------------------------------------
  // Where everything came from
  // ---------------------------------------------------------------------

  /** The job was submitted with this request at this time. */
  ghost predicate Submitted(events: seq<Event>, id: Id, request: AnalysisRequest, at: Instant) {
    exists i :: 0 <= i < |events| && events[i] == Submit(id, request, at)
  }

  ghost predicate StepAt(buffer: int, events: seq<Event>, i: int, id: Id, w: Worker) {
    && 0 <= i < |events| && events[i].WorkerStep? && events[i].id == id
    && id in Run(buffer, events[..i]).workers && Run(buffer, events[..i]).workers[id] == w
  }

  /** The model produced this result when the job's worker called it; only the id is
      set to that of the job. */
  ghost predicate Generated(buffer: int, events: seq<Event>, id: Id, r: AnalysisResult) {
    exists i :: StepAt(buffer, events, i, id, Calling) && events[i].choice.ok && r == events[i].choice.result.(id := id)
  }

  /** The job's worker gave this error when it failed. */
  ghost predicate FailedWith(buffer: int, events: seq<Event>, id: Id, error: string) {
    exists i :: StepAt(buffer, events, i, id, Failing(false)) && events[i].choice.error == error
  }

  predicate Holds(w: Worker) {
    w.Saving? || w.Caching? || w.Completing?
  }

  ghost predicate TracedAt(buffer: int, events: seq<Event>, s: State, id: Id) {
    && (id in s.jobs ==> Submitted(events, id, s.jobs[id].request, s.jobs[id].createdAt))
    && (id in s.jobs && s.jobs[id].status.Failed? ==> FailedWith(buffer, events, id, s.jobs[id].error))
    && (id in s.workers && Holds(s.workers[id]) ==> Generated(buffer, events, id, s.workers[id].result))
    && (id in s.analyses ==> Generated(buffer, events, id, s.analyses[id]))
  }

  /** What an earlier part of a run shows, the whole run shows. */
  lemma LongerRunShows(buffer: int, front: seq<Event>, e: Event)
    ensures forall id, request, at :: Submitted(front, id, request, at) ==> Submitted(front + [e], id, request, at)
    ensures forall id, r :: Generated(buffer, front, id, r) ==> Generated(buffer, front + [e], id, r)
    ensures forall id, error :: FailedWith(buffer, front, id, error) ==> FailedWith(buffer, front + [e], id, error)
  {
    var events := front + [e];
    hide Run;
    forall id, request, at | Submitted(front, id, request, at)
      ensures Submitted(events, id, request, at)
    {
      var i :| 0 <= i < |front| && front[i] == Submit(id, request, at);
      assert events[i] == Submit(id, request, at);
    }
    forall i, id, w | StepAt(buffer, front, i, id, w)
      ensures StepAt(buffer, events, i, id, w) && events[i] == front[i]
    {
      assert events[..i] == front[..i];
    }
    forall id, r | Generated(buffer, front, id, r)
      ensures Generated(buffer, events, id, r)
    {
      var i :| StepAt(buffer, front, i, id, Calling) && front[i].choice.ok && r == front[i].choice.result.(id := id);
      assert StepAt(buffer, events, i, id, Calling);
    }
    forall id, error | FailedWith(buffer, front, id, error)
      ensures FailedWith(buffer, events, id, error)
    {
      var i :| StepAt(buffer, front, i, id, Failing(false)) && front[i].choice.error == error;
      assert StepAt(buffer, events, i, id, Failing(false));
    }
  }

  /** What one step of a job adds: nothing but what it itself shows. */
  lemma StepAdds(s: State, e: Event, id: Id)
    requires Inv(s)
    ensures var s' := Step(s, e);
            && (id in s'.jobs && id !in s.jobs ==>
                  e.Submit? && e.id == id && s'.jobs[id].request == e.request && s'.jobs[id].createdAt == e.now && s'.jobs[id].status.Pending?)
            && (id in s.jobs ==>
                  && id in s'.jobs && s'.jobs[id].request == s.jobs[id].request && s'.jobs[id].createdAt == s.jobs[id].createdAt
                  && (s'.jobs[id].status.Failed? ==>
                        || (s.jobs[id].status.Failed? && s'.jobs[id].error == s.jobs[id].error)
                        || (e.WorkerStep? && e.id == id && id in s.workers && s.workers[id] == Failing(false)
                            && s'.jobs[id].error == e.choice.error)))
            && (id in s'.workers && Holds(s'.workers[id]) ==>
                  || (id in s.workers && Holds(s.workers[id]) && s'.workers[id].result == s.workers[id].result)
                  || (e.WorkerStep? && e.id == id && id in s.workers && s.workers[id].Calling? && e.choice.ok
                      && s'.workers[id].result == e.choice.result.(id := id)))
            && (id in s'.analyses ==>
                  || (id in s.analyses && s'.analyses[id] == s.analyses[id])
                  || (id in s.workers && Holds(s.workers[id]) && s'.analyses[id] == s.workers[id].result))
  {
    match e
    case WorkerStep(other, c) =>
      if other in s.workers {
        if other == id { OwnWorkAdds(s, id, c); } else { OtherWorkAdds(s, other, c, id); }
      }
    case CancelerStep(c, now) => if c < |s.cancelers| { CancelAdds(s, c, now, id); }
    case _ => ElsewhereAdds(s, e, id);
    hide *;
  }

  lemma OwnWorkAdds(s: State, id: Id, c: Choice)
    requires Inv(s) && id in s.workers
    ensures var s' := Work(s, id, c);
            && id in s.jobs && id in s'.jobs && id in s'.workers
            && s'.jobs[id].request == s.jobs[id].request && s'.jobs[id].createdAt == s.jobs[id].createdAt
            && (s'.jobs[id].status.Failed? ==>
                  || (s.jobs[id].status.Failed? && s'.jobs[id].error == s.jobs[id].error)
                  || (s.workers[id] == Failing(false) && s'.jobs[id].error == c.error))
            && (Holds(s'.workers[id]) ==>
                  || (Holds(s.workers[id]) && s'.workers[id].result == s.workers[id].result)
                  || (s.workers[id].Calling? && c.ok && s'.workers[id].result == c.result.(id := id)))
            && (id in s'.analyses ==>
                  || (id in s.analyses && s'.analyses[id] == s.analyses[id])
                  || (Holds(s.workers[id]) && s'.analyses[id] == s.workers[id].result))
  {
    SavesUnderOwnId(s, id);
    assert id in s.jobs;
    hide Inv, JobsInv, QueueInv, RegistryInv, CacheInv, JobOk, NextJob, NextWorker;
    NextAdds(s.workers[id], s.jobs[id], id, c);
    WorkSaves(s, id, c);
    hide Work;
  }

  lemma NextAdds(w: Worker, j: Job, id: Id, c: Choice)
    ensures var j', w' := NextJob(w, j, c), NextWorker(w, id, Some(j), c);
            && j'.request == j.request && j'.createdAt == j.createdAt
            && (j'.status.Failed? ==>
                  (j.status.Failed? && j'.error == j.error) || (w == Failing(false) && j'.error == c.error))
            && (Holds(w') ==>
                  (Holds(w) && w'.result == w.result) || (w.Calling? && c.ok && w'.result == c.result.(id := id)))
  {
  }

  lemma WorkSaves(s: State, id: Id, c: Choice)
    requires id in s.workers && id in s.jobs && (s.workers[id].Saving? ==> s.workers[id].result.id == id)
    ensures var s' := Work(s, id, c);
            && id in s'.jobs && s'.jobs[id] == NextJob(s.workers[id], s.jobs[id], c)
            && id in s'.workers && s'.workers[id] == NextWorker(s.workers[id], id, Some(s.jobs[id]), c)
            && (id in s'.analyses ==>
                  || (id in s.analyses && s'.analyses[id] == s.analyses[id])
                  || (Holds(s.workers[id]) && s'.analyses[id] == s.workers[id].result))
  {
    hide NextJob, NextWorker;
  }

  lemma OtherWorkAdds(s: State, other: Id, c: Choice, id: Id)
    requires Inv(s) && other in s.workers && other != id
    ensures var s' := Work(s, other, c);
            && (id in s'.jobs <==> id in s.jobs) && (id in s.jobs ==> s'.jobs[id] == s.jobs[id])
            && (id in s'.workers <==> id in s.workers) && (id in s.workers ==> s'.workers[id] == s.workers[id])
            && (id in s'.analyses <==> id in s.analyses) && (id in s.analyses ==> s'.analyses[id] == s.analyses[id])
  {
    WorkIsLocal(s, other, c, id);
    assert WorkerOf(Work(s, other, c), id) == WorkerOf(s, id);
    assert StoredOf(Work(s, other, c), id) == StoredOf(s, id);
    hide Inv, Work;
  }

  lemma CancelAdds(s: State, c: nat, now: Instant, id: Id)
    requires c < |s.cancelers|
    ensures var s' := CancelWork(s, c, now);
            && s'.workers == s.workers && s'.analyses == s.analyses && s'.jobs.Keys == s.jobs.Keys
            && (id in s.jobs ==> s'.jobs[id] == s.jobs[id] || s'.jobs[id] == AsCanceled(s.jobs[id], now))
  {
    hide NextCanceler;
  }

  lemma ElsewhereAdds(s: State, e: Event, id: Id)
    requires !e.WorkerStep? && !e.CancelerStep?
    ensures var s' := Step(s, e);
            && s'.analyses == s.analyses
            && (id in s.jobs ==> id in s'.jobs && s'.jobs[id] == s.jobs[id])
            && (id in s'.jobs && id !in s.jobs ==> e.Submit? && e.id == id && s'.jobs[id] == NewJob(id, e.request, e.now))
            && (id in s'.workers && !s'.workers[id].Dequeued? ==> id in s.workers && s'.workers[id] == s.workers[id])
  {
    hide NextChat, NextCache, NewJob;
  }

  lemma NothingTraced(buffer: int, id: Id)
    ensures TracedAt(buffer, [], Run(buffer, []), id)
  {
  }

  /** What the last step of a run shows. */
  lemma LastStepShows(buffer: int, front: seq<Event>, e: Event, id: Id)
    requires e.WorkerStep? && e.id == id && id in Run(buffer, front).workers
    ensures Run(buffer, front).workers[id].Calling? && e.choice.ok ==>
              Generated(buffer, front + [e], id, e.choice.result.(id := id))
    ensures Run(buffer, front).workers[id] == Failing(false) ==> FailedWith(buffer, front + [e], id, e.choice.error)
  {
    assert (front + [e])[..|front|] == front;
    assert StepAt(buffer, front + [e], |front|, id, Run(buffer, front).workers[id]);
  }

  lemma LastStepSubmits(front: seq<Event>, e: Event)
    ensures e.Submit? ==> Submitted(front + [e], e.id, e.request, e.now)
  {
    assert (front + [e])[|front|] == e;
  }

  lemma RunOneMore(buffer: int, front: seq<Event>, e: Event)
    ensures Run(buffer, front + [e]) == Step(Run(buffer, front), e)
  {
    assert (front + [e])[..|front|] == front;
    hide Step;
  }

  lemma TracedOneMore(buffer: int, front: seq<Event>, e: Event, id: Id)
    requires TracedAt(buffer, front, Run(buffer, front), id)
    ensures TracedAt(buffer, front + [e], Run(buffer, front + [e]), id)
  {
    var s := Run(buffer, front);
    hide Run, Step, Inv, Submitted, Generated, FailedWith;
    RunOneMore(buffer, front, e);
    ReachableInv(buffer, front);
    StepAdds(s, e, id);
    LongerRunShows(buffer, front, e);
    LastStepSubmits(front, e);
    if e.WorkerStep? && e.id == id && id in s.workers { LastStepShows(buffer, front, e, id); }
  }

  lemma {:induction false} RunIsTraced(buffer: int, events: seq<Event>, id: Id)
    ensures TracedAt(buffer, events, Run(buffer, events), id)
  {
    hide Run, TracedAt;
    if events == [] {
      NothingTraced(buffer, id);
    } else {
      var front, e := events[..|events| - 1], events[|events| - 1];
      RunIsTraced(buffer, front, id);
      assert events == front + [e];
      TracedOneMore(buffer, front, e, id);
    }
  }

  /** In every interleaving a stored analysis is what the model produced when its
      job's worker called it, under the job's id; a job carries the request and the
      time of its submission; and a failed one the error its worker failed with. */
  lemma NothingIsMadeUp(buffer: int, events: seq<Event>, id: Id)
    ensures var s := Run(buffer, events);
            && (id in s.analyses ==> Generated(buffer, events, id, s.analyses[id]))
            && (id in s.jobs ==> Submitted(events, id, s.jobs[id].request, s.jobs[id].createdAt))
            && (id in s.jobs && s.jobs[id].status.Failed? ==> FailedWith(buffer, events, id, s.jobs[id].error))
  {
    RunIsTraced(buffer, events, id);
    hide Run, Submitted, Generated, FailedWith;
  }

  // ---------------------------------------------------------------------
  // Signals
  // ---------------------------------------------------------------------

  /** The canceler has looked the cancel function up, and has called it if it is done. */
  ghost predicate WillSignal(s: State, c: nat, id: Id) {
    && c < |s.cancelers|
    && (s.cancelers[c] == ToFire(id, true) || (s.cancelers[c] == CancelDone(id) && id in s.signaled))
  }

  lemma StepKeepsWillSignal(s: State, e: Event, c: nat, id: Id)
    requires WillSignal(s, c, id)
    ensures WillSignal(Step(s, e), c, id)
  {
    hide NextChat, NextCache, NextJob, NextWorker, NewJob, Stored;
  }

  lemma {:induction false} RunKeepsWillSignal(s: State, events: seq<Event>, c: nat, id: Id)
    requires WillSignal(s, c, id)
    ensures WillSignal(RunFrom(s, events), c, id)
  {
    hide Step, WillSignal;
    if events != [] {
      RunKeepsWillSignal(s, events[..|events| - 1], c, id);
      StepKeepsWillSignal(RunFrom(s, events[..|events| - 1]), events[|events| - 1], c, id);
    }
  }

  /** A canceler that finds its job's worker registered has canceled the worker's
      context by the time it is done, whatever happens in between. */
  lemma RegisteredWorkerIsSignaled(s: State, c: nat, now: Instant, more: seq<Event>)
    requires c < |s.cancelers| && s.cancelers[c].ToInvoke? && s.cancelers[c].id in s.activeCancels
    ensures var s' := RunFrom(Step(s, CancelerStep(c, now)), more);
            && c < |s'.cancelers| && s'.cancelers[c].id == s.cancelers[c].id
            && (s'.cancelers[c].CancelDone? ==> s.cancelers[c].id in s'.signaled)
  {
    assert WillSignal(Step(s, CancelerStep(c, now)), c, s.cancelers[c].id);
    RunKeepsWillSignal(Step(s, CancelerStep(c, now)), more, c, s.cancelers[c].id);
    hide Step, RunFrom;
  }

  // ---------------------------------------------------------------------
  // Refills
  // ---------------------------------------------------------------------

  /** Once a worker has saved its analysis, and once a chat has been answered, the
      context is in the cache: found until the time to live is over and then missed. */
  lemma WorkFillsCache(buffer: int, events: seq<Event>, id: Id, c: Choice, later: Instant)
    requires id in Run(buffer, events).workers && Run(buffer, events).workers[id].Caching?
    ensures var s := Run(buffer, events);
            && id in s.analyses
            && Lookup(Step(s, WorkerStep(id, c)).cache, id, later).0
               == if later <= c.now + c.ttl then Some(NewAnalysisContext(s.analyses[id])) else None
  {
    ReachableInv(buffer, events);
    SavesUnderOwnId(Run(buffer, events), id);
    hide Inv, Run, RunFrom, NextJob, NextWorker;
  }

  lemma AnswerFillsCache(buffer: int, events: seq<Event>, c: nat, o: Choice, later: Instant)
    requires c < |Run(buffer, events).chats| && Run(buffer, events).chats[c].Answered?
    ensures var s := Run(buffer, events);
            var id := s.chats[c].id;
            && id in s.analyses
            && Lookup(Step(s, ChatStep(c, o)).cache, id, later).0
               == if later <= o.now + o.ttl then Some(NewAnalysisContext(s.analyses[id])) else None
  {
    ReachableInv(buffer, events);
    hide Inv, Run;
    AnswerFills(Run(buffer, events), c, o, later);
  }

  lemma AnswerFills(s: State, c: nat, o: Choice, later: Instant)
    requires Inv(s) && c < |s.chats| && s.chats[c].Answered?
    ensures var id := s.chats[c].id;
            && id in s.analyses
            && Lookup(Step(s, ChatStep(c, o)).cache, id, later).0
               == if later <= o.now + o.ttl then Some(NewAnalysisContext(s.analyses[id])) else None
  {
    assert ChatOk(s, s.chats[c]);
    hide Inv, NextChat, NewAnalysisContext;
  }
}
