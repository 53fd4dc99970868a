/** When a terminal status is final, why a job ends canceled, and what a chat
    that asks about a stored analysis can count on. */
module PipelineFinality {
  import opened Domain
  import opened Jobs
  import opened ContextCache
  import opened Pipeline
  import opened PipelineProofs
  import opened PipelineTheorems

  // ---------------------------------------------------------------------
  // Final statuses
  // ---------------------------------------------------------------------

  /** No canceler has read the job as unfinished and is about to mark it. */
  ghost predicate NoLateCanceler(s: State, id: Id) {
    forall c :: 0 <= c < |s.cancelers| ==> s.cancelers[c] != ToMark(id)
  }

  /** Where a canceled job's worker is harmless: it has not looked the job up yet,
      it is about to mark the cancellation itself, or it is past its last mark. */
  predicate Harmless(w: Worker) {
    w.Dequeued? || w == Failing(true) || w.Closing? || w.Returned?
  }

  ghost predicate Settled(s: State, id: Id) {
    && id in s.jobs
    && match s.jobs[id].status
       case Canceled => id in s.workers ==> Harmless(s.workers[id])
       case Completed => NoLateCanceler(s, id)
       case Failed => NoLateCanceler(s, id)
       case _ => false
  }

  predicate HasStatus(s: State, id: Id, status: Status) {
    id in s.jobs && s.jobs[id].status == status
  }

  /** However the run goes on, the job keeps its status. */
  ghost predicate StatusIsFinal(s: State, id: Id)
    requires id in s.jobs
  {
    forall more :: HasStatus(RunFrom(s, more), id, s.jobs[id].status)
  }

  /** A job that has failed or completed has a worker past its last mark. */
  lemma EndedPastLastMark(s: State, id: Id)
    requires Inv(s) && id in s.jobs && (s.jobs[id].status.Completed? || s.jobs[id].status.Failed?)
    ensures id in s.workers && (s.workers[id].Closing? || s.workers[id].Returned?)
  {
    assert JobOk(id, s.jobs[id], WorkerOf(s, id), StoredOf(s, id));
  }

  lemma OwnWorkKeepsSettled(s: State, id: Id, c: Choice)
    requires Inv(s) && Settled(s, id) && id in s.workers
    ensures Settled(Work(s, id, c), id) && HasStatus(Work(s, id, c), id, s.jobs[id].status)
  {
    if !s.jobs[id].status.Canceled? { EndedPastLastMark(s, id); }
    hide Inv;
    assert Harmless(s.workers[id]);
  }

  lemma OtherWorkKeepsSettled(s: State, other: Id, c: Choice, id: Id)
    requires Inv(s) && Settled(s, id) && other in s.workers && other != id
    ensures Settled(Work(s, other, c), id) && HasStatus(Work(s, other, c), id, s.jobs[id].status)
  {
    WorkIsLocal(s, other, c, id);
    var s' := Work(s, other, c);
    assert WorkerOf(s', id) == WorkerOf(s, id) && s'.cancelers == s.cancelers;
    hide Inv, Work, NextWorker, NextJob;
  }

  lemma CancelKeepsSettled(s: State, c: nat, now: Instant, id: Id)
    requires Settled(s, id) && c < |s.cancelers|
    ensures Settled(CancelWork(s, c, now), id) && HasStatus(CancelWork(s, c, now), id, s.jobs[id].status)
  {
  }

  lemma DeliverKeepsSettled(s: State, id: Id)
    requires Inv(s) && Settled(s, id)
    ensures Settled(Step(s, Deliver), id) && HasStatus(Step(s, Deliver), id, s.jobs[id].status)
  {
    if s.buffer != [] { HeadNotDelivered(s); }
    hide Inv;
  }

  lemma ElsewhereKeepsSettled(s: State, e: Event, id: Id)
    requires Settled(s, id) && !e.WorkerStep? && !e.CancelerStep? && !e.Deliver?
    ensures Settled(Step(s, e), id) && HasStatus(Step(s, e), id, s.jobs[id].status)
  {
    hide NextChat, NextCache, NewJob;
  }

  lemma StepKeepsSettled(s: State, e: Event, id: Id)
    requires Inv(s) && Settled(s, id)
    ensures Settled(Step(s, e), id) && HasStatus(Step(s, e), id, s.jobs[id].status)
  {
    hide Inv, Work, CancelWork, ChatWork;
    match e
    case WorkerStep(other, c) =>
      if other in s.workers {
        if other == id { OwnWorkKeepsSettled(s, id, c); } else { OtherWorkKeepsSettled(s, other, c, id); }
      }
    case CancelerStep(c, now) => if c < |s.cancelers| { CancelKeepsSettled(s, c, now, id); }
    case Deliver => DeliverKeepsSettled(s, id);
    case _ => ElsewhereKeepsSettled(s, e, id);
  }

  lemma {:induction false} RunKeepsSettled(s: State, events: seq<Event>, id: Id)
    requires Inv(s) && Settled(s, id)
    ensures Settled(RunFrom(s, events), id) && HasStatus(RunFrom(s, events), id, s.jobs[id].status)
  {
    hide Inv, Step;
    if events != [] {
      RunKeepsSettled(s, events[..|events| - 1], id);
      RunKeepsInv(s, events[..|events| - 1]);
      StepKeepsSettled(RunFrom(s, events[..|events| - 1]), events[|events| - 1], id);
    }
  }

  // ---------------------------------------------------------------------
  // Statuses that are not final
  // ---------------------------------------------------------------------

  const NO_RESULT := AnalysisResult("", "", "", NoSeverity, NoConfidence, [], [], [], [], [], [], [], 0)

  /** Every call fails, and not by cancellation. */
  const FAILURE := Choice(false, false, NO_RESULT, "", 0, 0)

  lemma {:induction false} RunFromFirst(s: State, e: Event, rest: seq<Event>)
    ensures RunFrom(s, [e] + rest) == RunFrom(Step(s, e), rest)
  {
    hide Step;
    var events := [e] + rest;
    if rest == [] {
      assert events[..0] == [];
    } else {
      assert events[..|events| - 1] == [e] + rest[..|rest| - 1];
      RunFromFirst(s, e, rest[..|rest| - 1]);
    }
  }

  /** How many failing steps it takes a worker to overwrite a cancellation. */
  function StepsToMark(w: Worker): nat {
    match w
    case Found(_) => 2
    case Registered(_) => 1
    case Begun(_) => 2
    case Collecting => 2
    case Prepared => 3
    case Calling => 2
    case Saving(_) => 2
    case Caching(_) => 2
    case Completing(_) => 1
    case Failing(_) => 1
    case _ => 0
  }

  lemma OneFailingStep(s: State, id: Id)
    requires Inv(s) && HasStatus(s, id, Canceled) && id in s.workers && !Harmless(s.workers[id])
    ensures var s' := Step(s, WorkerStep(id, FAILURE));
            && id in s'.jobs && id in s'.workers
            && (!s'.jobs[id].status.Canceled?
                || (!Harmless(s'.workers[id]) && StepsToMark(s'.workers[id]) < StepsToMark(s.workers[id])))
  {
    hide Inv;
  }

  lemma {:induction false} CancellationOverwritten(s: State, id: Id) returns (more: seq<Event>)
    requires Inv(s) && HasStatus(s, id, Canceled) && id in s.workers && !Harmless(s.workers[id])
    ensures !HasStatus(RunFrom(s, more), id, Canceled)
    decreases StepsToMark(s.workers[id])
  {
    var e := WorkerStep(id, FAILURE);
    OneFailingStep(s, id);
    StepKeepsInv(s, e);
    hide Inv, Step;
    var s' := Step(s, e);
    var rest: seq<Event> := [];
    if HasStatus(s', id, Canceled) {
      rest := CancellationOverwritten(s', id);
    }
    RunFromFirst(s, e, rest);
    more := [e] + rest;
  }

  lemma EndOverwritten(s: State, id: Id) returns (more: seq<Event>)
    requires id in s.jobs && !s.jobs[id].status.Canceled? && !NoLateCanceler(s, id)
    ensures !HasStatus(RunFrom(s, more), id, s.jobs[id].status)
  {
    var c: nat :| c < |s.cancelers| && s.cancelers[c] == ToMark(id);
    more := [CancelerStep(c, 0)];
    RunFromFirst(s, more[0], []);
    assert [more[0]] + [] == more;
  }

  /** The exact condition. A failed or completed job keeps its status for ever if
      and only if no canceler has read it as unfinished and is about to mark it; a
      canceled one if and only if its worker is harmless. */
  lemma TerminalIsFinalIff(buffer: int, events: seq<Event>, id: Id)
    requires id in Run(buffer, events).jobs && Terminal(Run(buffer, events).jobs[id].status)
    ensures StatusIsFinal(Run(buffer, events), id) <==> Settled(Run(buffer, events), id)
  {
    ReachableInv(buffer, events);
    var s := Run(buffer, events);
    hide Inv, Run, RunFrom;
    if Settled(s, id) {
      forall more
        ensures HasStatus(RunFrom(s, more), id, s.jobs[id].status)
      {
        RunKeepsSettled(s, more, id);
      }
    } else if s.jobs[id].status.Canceled? {
      var more := CancellationOverwritten(s, id);
    } else {
      var more := EndOverwritten(s, id);
    }
  }

  /** A cancellation that lands on a job is kept for good exactly if the job's
      worker is absent or harmless at that moment; in particular one that lands
      after the lookup and before the running mark is lost. */
  lemma CancellationSticksIff(buffer: int, events: seq<Event>, c: nat, now: Instant)
    requires c < |Run(buffer, events).cancelers| && Run(buffer, events).cancelers[c].ToMark?
    requires Run(buffer, events).cancelers[c].id in Run(buffer, events).jobs
    ensures var s := Run(buffer, events);
            var s' := Step(s, CancelerStep(c, now));
            var id := s.cancelers[c].id;
            && HasStatus(s', id, Canceled)
            && (StatusIsFinal(s', id) <==> id !in s.workers || Harmless(s.workers[id]))
  {
    var s, e := Run(buffer, events), CancelerStep(c, now);
    var id := s.cancelers[c].id;
    assert (events + [e])[..|events|] == events;
    assert Run(buffer, events + [e]) == Step(s, e);
    hide Run, RunFrom;
    assert HasStatus(Step(s, e), id, Canceled);
    TerminalIsFinalIff(buffer, events + [e], id);
  }

  // ---------------------------------------------------------------------
  // Why a job ends canceled
  // ---------------------------------------------------------------------

  /** CancelJob was called for this id. */
  ghost predicate CancelCalled(s: State, id: Id) {
    exists c :: 0 <= c < |s.cancelers| && s.cancelers[c].id == id
  }

  /** A worker's call ends in a cancellation error only once its context was canceled. */
  predicate HonestStep(s: State, e: Event) {
    e.WorkerStep? && e.choice.cancellation ==> e.id in s.signaled
  }

  ghost predicate HonestRun(buffer: int, events: seq<Event>) {
    forall i :: 0 <= i < |events| ==> HonestStep(Run(buffer, events[..i]), events[i])
  }

  ghost predicate CauseInv(s: State) {
    && (forall id :: HasStatus(s, id, Canceled) ==> CancelCalled(s, id))
    && (forall id :: id in s.signaled ==> CancelCalled(s, id))
    && (forall id :: id in s.workers && s.workers[id] == Failing(true) ==> CancelCalled(s, id))
  }

  lemma CallsKept(s: State, s': State, id: Id)
    requires |s.cancelers| <= |s'.cancelers| && CancelCalled(s, id)
    requires forall c :: 0 <= c < |s.cancelers| ==> s'.cancelers[c].id == s.cancelers[c].id
    ensures CancelCalled(s', id)
  {
    var c :| 0 <= c < |s.cancelers| && s.cancelers[c].id == id;
    assert s'.cancelers[c].id == id;
  }

  lemma StepKeepsCalls(s: State, e: Event, id: Id)
    requires CancelCalled(s, id)
    ensures CancelCalled(Step(s, e), id)
  {
    hide NextChat, NextCache, NextJob, NextWorker;
    CallsKept(s, Step(s, e), id);
  }

  lemma WorkKeepsCause(s: State, id: Id, c: Choice)
    requires CauseInv(s) && id in s.workers && HonestStep(s, WorkerStep(id, c))
    ensures CauseInv(Work(s, id, c))
  {
    var s' := Work(s, id, c);
    assert forall other :: CancelCalled(s', other) <==> CancelCalled(s, other);
    hide CancelCalled;
    forall other | HasStatus(s', other, Canceled)
      ensures CancelCalled(s', other)
    {
      if !HasStatus(s, other, Canceled) { assert other == id && s.workers[id] == Failing(true); }
    }
  }

  lemma CancelerKeepsCause(s: State, c: nat, now: Instant)
    requires CauseInv(s) && c < |s.cancelers|
    ensures CauseInv(CancelWork(s, c, now))
  {
    var s' := CancelWork(s, c, now);
    forall id | CancelCalled(s, id)
      ensures CancelCalled(s', id)
    {
      CallsKept(s, s', id);
    }
    assert s'.cancelers[c].id == s.cancelers[c].id;
    assert CancelCalled(s', s.cancelers[c].id);
    hide CancelCalled, NextCanceler;
  }

  lemma ElsewhereKeepsCause(s: State, e: Event)
    requires CauseInv(s) && !e.WorkerStep? && !e.CancelerStep?
    ensures CauseInv(Step(s, e))
  {
    var s' := Step(s, e);
    forall id | CancelCalled(s, id)
      ensures CancelCalled(s', id)
    {
      StepKeepsCalls(s, e, id);
    }
    hide CancelCalled, NextChat, NextCache;
  }

  lemma StepKeepsCause(s: State, e: Event)
    requires CauseInv(s) && HonestStep(s, e)
    ensures CauseInv(Step(s, e))
  {
    hide CauseInv, Work, CancelWork, ChatWork;
    match e
    case WorkerStep(id, c) => if id in s.workers { WorkKeepsCause(s, id, c); }
    case CancelerStep(c, now) => if c < |s.cancelers| { CancelerKeepsCause(s, c, now); }
    case _ => ElsewhereKeepsCause(s, e);
  }

  lemma {:induction false} RunKeepsCause(buffer: int, events: seq<Event>)
    requires HonestRun(buffer, events)
    ensures CauseInv(Run(buffer, events))
  {
    if events != [] {
      var front, e := events[..|events| - 1], events[|events| - 1];
      var s := Run(buffer, front);
      forall i | 0 <= i < |front|
        ensures HonestStep(Run(buffer, front[..i]), front[i])
      {
        assert front[..i] == events[..i];
      }
      RunKeepsCause(buffer, front);
      assert HonestStep(s, e);
      assert Run(buffer, events) == Step(s, e);
      hide *;
      StepKeepsCause(s, e);
    }
  }

  /** As long as calls report a cancellation only after the worker's context was
      canceled, a job is canceled only if CancelJob was called for it. */
  lemma CanceledOnlyIfAsked(buffer: int, events: seq<Event>, id: Id)
    requires HonestRun(buffer, events) && HasStatus(Run(buffer, events), id, Canceled)
    ensures CancelCalled(Run(buffer, events), id)
  {
    RunKeepsCause(buffer, events);
  }

  // ---------------------------------------------------------------------
  // Chats about stored analyses
  // ---------------------------------------------------------------------

  /** The chat is about a stored analysis and has not ended for lack of a context. */
  predicate Served(s: State, c: nat) {
    c < |s.chats| && s.chats[c].id in s.analyses && !s.chats[c].NotFound?
  }

  lemma ChatWorkKeepsServed(s: State, c: nat, d: nat, o: Choice)
    requires Served(s, c) && d < |s.chats|
    ensures Served(ChatWork(s, d, o), c) && ChatWork(s, d, o).chats[c].id == s.chats[c].id
  {
    hide NextCache;
  }

  lemma StepKeepsServed(s: State, e: Event, c: nat)
    requires Inv(s) && Served(s, c)
    ensures Served(Step(s, e), c) && Step(s, e).chats[c].id == s.chats[c].id
  {
    if e.ChatStep? {
      hide Inv, ChatWork;
      if e.c < |s.chats| { ChatWorkKeepsServed(s, c, e.c, e.choice); }
    } else {
      hide Inv, Step;
      StoredStaysStored(s, e, s.chats[c].id);
      ElsewhereKeepsChats(s, e, c);
    }
  }

  lemma StoredStaysStored(s: State, e: Event, id: Id)
    requires Inv(s) && id in s.analyses
    ensures id in Step(s, e).analyses
  {
    hide Inv, Step;
    StepAdvances(s, e);
  }

  lemma ElsewhereKeepsChats(s: State, e: Event, c: nat)
    requires c < |s.chats| && !e.ChatStep?
    ensures c < |Step(s, e).chats| && Step(s, e).chats[c] == s.chats[c]
  {
    hide NextJob, NextWorker, NextCanceler, NewJob, Stored;
  }

  lemma {:induction false} RunKeepsServed(s: State, more: seq<Event>, c: nat)
    requires Inv(s) && Served(s, c)
    ensures Served(RunFrom(s, more), c) && RunFrom(s, more).chats[c].id == s.chats[c].id
  {
    hide Inv, Step;
    if more != [] {
      RunKeepsServed(s, more[..|more| - 1], c);
      RunKeepsInv(s, more[..|more| - 1]);
      StepKeepsServed(RunFrom(s, more[..|more| - 1]), more[|more| - 1], c);
    }
  }

  /** Expiry and the racing delete cost a chat no more than a second lookup: from
      the moment the analysis it asks about is stored, it never ends for lack of a
      context, however the run goes on. */
  lemma StoredAnalysisIsServed(buffer: int, events: seq<Event>, more: seq<Event>, c: nat)
    requires Served(Run(buffer, events), c)
    ensures Served(RunFrom(Run(buffer, events), more), c)
  {
    ReachableInv(buffer, events);
    hide Inv, Run, RunFrom;
    RunKeepsServed(Run(buffer, events), more, c);
  }
}
