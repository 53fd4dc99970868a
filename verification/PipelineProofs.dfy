/** What the asynchronous pipeline guarantees in every interleaving. */
module PipelineProofs {
  import opened Domain
  import opened Jobs
  import opened ContextCache
  import opened Pipeline
  import Sorting

  // ---------------------------------------------------------------------
  // The invariant of one job, its worker and its stored analysis
  // ---------------------------------------------------------------------

  function WorkerOf(s: State, id: Id): Option<Worker> {
    if id in s.workers then Some(s.workers[id]) else None
  }

  function StoredOf(s: State, id: Id): Option<AnalysisResult> {
    if id in s.analyses then Some(s.analyses[id]) else None
  }

  predicate Waiting(j: Job) {
    (j.status.Pending? || j.status.Canceled?) && j.progress == 0
  }

  predicate InFlight(j: Job, progress: int) {
    (j.status.Running? || j.status.Canceled?) && j.progress == progress
  }

  /** A completed job names its own analysis, which is stored; it is done, at 100. */
  predicate CompletedOk(id: Id, j: Job, stored: Option<AnalysisResult>) {
    j.status.Completed? ==> j.analysisId == id && stored.Some? && j.phase.Done? && j.progress == 100
  }

  predicate JobOk(id: Id, j: Job, worker: Option<Worker>, stored: Option<AnalysisResult>) {
    && j.id == id
    && (stored.Some? ==> stored.value.id == id)
    && 0 <= j.progress <= 100
    && match worker
       case None => Waiting(j) && stored.None?
       case Some(w) =>
         match w
         case Dequeued => Waiting(j) && stored.None?
         case Found(_) => Waiting(j) && stored.None?
         case Registered(_) => Waiting(j) && stored.None?
         case Begun(_) => InFlight(j, 0) && stored.None?
         case Collecting => InFlight(j, 10) && stored.None?
         case Prepared => InFlight(j, 35) && stored.None?
         case Calling => InFlight(j, 55) && stored.None?
         case Saving(r) => InFlight(j, 85) && r.id == id && stored.None?
         case Caching(r) => InFlight(j, 85) && stored == Some(r)
         case Completing(r) => InFlight(j, 85) && stored == Some(r)
         case Failing(_) => InFlight(j, j.progress) && j.progress <= 85 && stored.None?
         case Closing => Terminal(j.status) && CompletedOk(id, j, stored)
         case Returned(skipped) =>
           Terminal(j.status) && CompletedOk(id, j, stored) && (skipped ==> j.status.Canceled? && stored.None?)
  }

  ghost predicate JobsInv(s: State) {
    && s.workers.Keys <= s.jobs.Keys
    && s.analyses.Keys <= s.jobs.Keys
    && (forall id :: id in s.jobs ==> JobOk(id, s.jobs[id], WorkerOf(s, id), StoredOf(s, id)))
  }

  /** Canceling is harmless wherever the worker stands. */
  lemma CancelingKeepsJobOk(id: Id, j: Job, worker: Option<Worker>, stored: Option<AnalysisResult>, now: Instant)
    requires JobOk(id, j, worker, stored)
    ensures JobOk(id, AsCanceled(j, now), worker, stored)
  {
  }

  lemma NextKeepsJobOk(id: Id, j: Job, w: Worker, stored: Option<AnalysisResult>, c: Choice)
    requires JobOk(id, j, Some(w), stored)
    ensures JobOk(id, NextJob(w, j, c), Some(NextWorker(w, id, Some(j), c)),
                  if w.Saving? && c.ok then Some(w.result) else stored)
  {
  }

  lemma WorkKeepsJobOk(s: State, id: Id, c: Choice)
    requires JobsInv(s) && id in s.workers
    ensures var s' := Work(s, id, c);
            id in s'.jobs && JobOk(id, s'.jobs[id], WorkerOf(s', id), StoredOf(s', id))
  {
    assert JobOk(id, s.jobs[id], WorkerOf(s, id), StoredOf(s, id));
    NextKeepsJobOk(id, s.jobs[id], s.workers[id], StoredOf(s, id), c);
    SavesUnderOwnId(s, id);
    hide JobOk, NextJob, NextWorker;
  }

  lemma SavesUnderOwnId(s: State, id: Id)
    requires JobsInv(s) && id in s.workers
    ensures s.workers[id].Saving? || s.workers[id].Caching? || s.workers[id].Completing? ==> s.workers[id].result.id == id
    ensures s.workers[id].Saving? ==> id !in s.analyses
    ensures s.workers[id].Caching? ==> StoredOf(s, id) == Some(s.workers[id].result)
  {
    assert JobOk(id, s.jobs[id], WorkerOf(s, id), StoredOf(s, id));
  }

  /** A worker's step touches nothing of other jobs. */
  lemma WorkIsLocal(s: State, id: Id, c: Choice, other: Id)
    requires JobsInv(s) && id in s.workers && other != id
    ensures var s' := Work(s, id, c);
            && (other in s'.jobs <==> other in s.jobs)
            && (other in s.jobs ==> s'.jobs[other] == s.jobs[other])
            && WorkerOf(s', other) == WorkerOf(s, other) && StoredOf(s', other) == StoredOf(s, other)
  {
    SavesUnderOwnId(s, id);
    hide JobsInv, NextJob, NextWorker;
  }

  lemma WorkKeepsJobs(s: State, id: Id, c: Choice)
    requires JobsInv(s) && id in s.workers
    ensures JobsInv(Work(s, id, c))
  {
    WorkKeepsJobOk(s, id, c);
    var s' := Work(s, id, c);
    hide Work, JobOk;
    forall other | other in s'.jobs
      ensures JobOk(other, s'.jobs[other], WorkerOf(s', other), StoredOf(s', other))
    {
      if other != id { WorkIsLocal(s, id, c, other); }
    }
    forall other
      ensures other in s'.workers ==> other in s'.jobs
      ensures other in s'.analyses ==> other in s'.jobs
    {
      if other != id { WorkIsLocal(s, id, c, other); }
    }
  }

  lemma {:induction false} CancelKeepsJobs(s: State, c: nat, now: Instant)
    requires JobsInv(s) && c < |s.cancelers|
    ensures JobsInv(CancelWork(s, c, now))
  {
    hide NextCanceler;
    if s.cancelers[c].ToMark? && s.cancelers[c].id in s.jobs {
      var id := s.cancelers[c].id;
      CancelingKeepsJobOk(id, s.jobs[id], WorkerOf(s, id), StoredOf(s, id), now);
      var s' := CancelWork(s, c, now);
      hide JobOk;
      forall other | other in s'.jobs
        ensures JobOk(other, s'.jobs[other], WorkerOf(s', other), StoredOf(s', other))
      {
        assert WorkerOf(s', other) == WorkerOf(s, other) && StoredOf(s', other) == StoredOf(s, other);
      }
    } else {
      var s' := CancelWork(s, c, now);
      assert s'.jobs == s.jobs && s'.workers == s.workers && s'.analyses == s.analyses;
      SameTables(s, s');
    }
  }

  lemma {:induction false} SameTables(s: State, s': State)
    requires JobsInv(s) && s'.jobs == s.jobs && s'.workers == s.workers && s'.analyses == s.analyses
    ensures JobsInv(s')
  {
    hide JobOk;
    forall id | id in s'.jobs
      ensures JobOk(id, s'.jobs[id], WorkerOf(s', id), StoredOf(s', id))
    {
      assert WorkerOf(s', id) == WorkerOf(s, id) && StoredOf(s', id) == StoredOf(s, id);
    }
  }

  // ---------------------------------------------------------------------
  // The queue
  // ---------------------------------------------------------------------

  /** Every id that was enqueued is delivered or still buffered, in order, once,
      and the buffer stays within capacity. Exactly the delivered ids have workers. */
  ghost predicate QueueInv(s: State) {
    && s.enqueued == s.delivered + s.buffer
    && |s.buffer| <= s.capacity
    && Sorting.Distinct(s.enqueued)
    && (forall id :: id in s.enqueued ==> id !in s.submitted && id in s.jobs)
    && (forall id :: id in s.submitted ==> id in s.jobs)
    && (forall id :: id in s.workers <==> id in s.delivered)
  }

  lemma {:induction false} EnqueueKeepsQueue(s: State, id: Id)
    requires QueueInv(s)
    ensures QueueInv(Step(s, Enqueue(id)))
  {
    var s' := Step(s, Enqueue(id));
    if s' != s {
      assert s'.enqueued == s'.delivered + s'.buffer;
      assert id !in s.enqueued;
    }
  }

  lemma {:induction false} DeliverKeepsQueue(s: State)
    requires QueueInv(s)
    ensures QueueInv(Step(s, Deliver))
  {
    var s' := Step(s, Deliver);
    if s.buffer != [] {
      assert s.delivered + s.buffer == s'.delivered + s'.buffer;
      assert forall id :: id in s'.delivered <==> id in s.delivered || id == s.buffer[0];
    }
  }

  lemma WorkKeepsQueue(s: State, id: Id, c: Choice)
    requires QueueInv(s) && id in s.workers
    ensures var s' := Work(s, id, c);
            && s'.jobs.Keys == s.jobs.Keys && s'.workers.Keys == s.workers.Keys
            && s'.enqueued == s.enqueued && s'.delivered == s.delivered && s'.buffer == s.buffer
            && s'.submitted == s.submitted && s'.capacity == s.capacity
    ensures QueueInv(Work(s, id, c))
  {
    hide NextJob, NextWorker;
    assert id in s.delivered && id in s.enqueued && id in s.jobs;
    var s' := Work(s, id, c);
    assert s'.jobs.Keys == s.jobs.Keys && s'.workers.Keys == s.workers.Keys;
  }

  // ---------------------------------------------------------------------
  // The cancel registry
  // ---------------------------------------------------------------------

  /** The worker has registered its cancel function and not yet released it. */
  predicate Registering(w: Worker) {
    !(w.Dequeued? || w.Found? || w.Returned?)
  }

  ghost predicate RegistryInv(s: State) {
    forall id :: id in s.activeCancels <==> id in s.workers && Registering(s.workers[id])
  }

  lemma WorkKeepsRegistry(s: State, id: Id, c: Choice)
    requires RegistryInv(s) && id in s.workers
    ensures RegistryInv(Work(s, id, c))
  {
    hide NextJob;
  }

  // ---------------------------------------------------------------------
  // The cache
  // ---------------------------------------------------------------------

  /** The context is that of the stored analysis. */
  predicate Agrees(s: State, id: Id, context: AnalysisContext) {
    id in s.analyses && context == NewAnalysisContext(s.analyses[id]) && context.analysisId == id
  }

  predicate ChatOk(s: State, chat: Chat) {
    match chat
    case Read(id, entry) => Agrees(s, id, entry.context)
    case Loaded(id, context) => Agrees(s, id, context)
    case Ready(id, context) => Agrees(s, id, context)
    case Answered(id, context) => Agrees(s, id, context)
    case _ => true
  }

  ghost predicate CacheInv(s: State) {
    && (forall id :: id in s.cache ==> Agrees(s, id, s.cache[id].context))
    && (forall c :: 0 <= c < |s.chats| ==> ChatOk(s, s.chats[c]))
  }

  /** Stored analyses are never overwritten: each id is saved at most once. */
  ghost predicate AnalysesKept(s: State, s': State) {
    forall id :: id in s.analyses ==> id in s'.analyses && s'.analyses[id] == s.analyses[id]
  }

  lemma WorkKeepsAnalyses(s: State, id: Id, c: Choice)
    requires JobsInv(s) && id in s.workers
    ensures AnalysesKept(s, Work(s, id, c))
  {
    SavesUnderOwnId(s, id);
    hide JobsInv, NextJob, NextWorker;
  }

  lemma {:induction false} ChatsKept(s: State, s': State)
    requires AnalysesKept(s, s') && s'.chats == s.chats
    requires forall c :: 0 <= c < |s.chats| ==> ChatOk(s, s.chats[c])
    ensures forall c :: 0 <= c < |s'.chats| ==> ChatOk(s', s'.chats[c])
  {
    forall c | 0 <= c < |s'.chats|
      ensures ChatOk(s', s'.chats[c])
    {
      assert ChatOk(s, s.chats[c]);
    }
  }

  lemma {:induction false} WorkKeepsCache(s: State, id: Id, c: Choice)
    requires JobsInv(s) && CacheInv(s) && id in s.workers
    ensures CacheInv(Work(s, id, c))
  {
    WorkKeepsAnalyses(s, id, c);
    SavesUnderOwnId(s, id);
    var s' := Work(s, id, c);
    ChatsKept(s, s');
    hide JobsInv, NextJob, NextWorker, ChatOk;
    forall k | k in s'.cache
      ensures Agrees(s', k, s'.cache[k].context)
    {
      if k in s.cache { assert Agrees(s, k, s.cache[k].context); }
    }
  }

  lemma StoredUnderOwnId(s: State, id: Id)
    requires JobsInv(s) && id in s.analyses
    ensures s.analyses[id].id == id
  {
    assert JobOk(id, s.jobs[id], WorkerOf(s, id), StoredOf(s, id));
  }

  lemma NextChatOk(s: State, chat: Chat, o: Choice)
    requires ChatOk(s, chat) && !Over(chat)
    requires forall id :: id in s.cache ==> Agrees(s, id, s.cache[id].context)
    requires forall id :: id in s.analyses ==> s.analyses[id].id == id
    ensures ChatOk(s, NextChat(chat, if chat.id in s.cache then Some(s.cache[chat.id]) else None,
                               if chat.id in s.analyses then Some(s.analyses[chat.id]) else None, o))
  {
  }

  lemma {:induction false} NextCacheOk(s: State, chat: Chat, o: Choice)
    requires ChatOk(s, chat)
    requires forall id :: id in s.cache ==> Agrees(s, id, s.cache[id].context)
    ensures var cache := NextCache(chat, s.cache, o); forall id :: id in cache ==> Agrees(s, id, cache[id].context)
  {
    var cache := NextCache(chat, s.cache, o);
    forall id | id in cache
      ensures Agrees(s, id, cache[id].context)
    {
      if id in s.cache { assert Agrees(s, id, s.cache[id].context); }
    }
  }

  lemma SameAnalyses(s: State, s': State)
    requires s'.analyses == s.analyses
    ensures forall id, context :: Agrees(s', id, context) <==> Agrees(s, id, context)
    ensures forall chat :: ChatOk(s', chat) <==> ChatOk(s, chat)
  {
  }

  lemma {:induction false} ChatKeepsCache(s: State, c: nat, o: Choice)
    requires JobsInv(s) && CacheInv(s) && c < |s.chats|
    ensures CacheInv(ChatWork(s, c, o))
  {
    var chat := s.chats[c];
    if !Over(chat) {
      assert ChatOk(s, chat);
      forall id | id in s.analyses ensures s.analyses[id].id == id { StoredUnderOwnId(s, id); }
      NextChatOk(s, chat, o);
      NextCacheOk(s, chat, o);
      var s' := ChatWork(s, c, o);
      hide JobsInv, NextChat, NextCache, ChatOk, Agrees;
      SameAnalyses(s, s');
    }
  }

  // ---------------------------------------------------------------------
  // Every step, hence every run
  // ---------------------------------------------------------------------

  ghost predicate Inv(s: State) {
    JobsInv(s) && QueueInv(s) && RegistryInv(s) && CacheInv(s)
  }

  lemma {:induction false} SubmitKeepsInv(s: State, id: Id, request: AnalysisRequest, now: Instant)
    requires Inv(s)
    ensures Inv(Step(s, Submit(id, request, now)))
  {
    var s' := Step(s, Submit(id, request, now));
    if id !in s.jobs {
      assert WorkerOf(s', id).None? && StoredOf(s', id).None?;
      forall other | other in s'.jobs
        ensures JobOk(other, s'.jobs[other], WorkerOf(s', other), StoredOf(s', other))
      {
        assert other != id ==> JobOk(other, s.jobs[other], WorkerOf(s, other), StoredOf(s, other));
      }
      forall k | 0 <= k < |s'.chats| ensures ChatOk(s', s'.chats[k]) { assert ChatOk(s, s.chats[k]); }
    }
  }

  lemma DeliverKeepsInv(s: State)
    requires Inv(s)
    ensures Inv(Step(s, Deliver))
  {
    DeliverKeepsQueue(s);
    var s' := Step(s, Deliver);
    if s.buffer != [] {
      var id := s.buffer[0];
      HeadNotDelivered(s);
      forall other | other in s'.jobs
        ensures JobOk(other, s'.jobs[other], WorkerOf(s', other), StoredOf(s', other))
      {
        assert JobOk(other, s.jobs[other], WorkerOf(s, other), StoredOf(s, other));
      }
      forall k | 0 <= k < |s'.chats| ensures ChatOk(s', s'.chats[k]) { assert ChatOk(s, s.chats[k]); }
    }
  }

  lemma HeadNotDelivered(s: State)
    requires QueueInv(s) && s.buffer != []
    ensures s.buffer[0] !in s.workers && s.buffer[0] in s.jobs
  {
    var n := |s.delivered|;
    assert s.enqueued[n] == s.buffer[0];
    assert forall i :: 0 <= i < n ==> s.enqueued[i] == s.delivered[i];
  }

  /** Steps that leave jobs, workers, analyses, cache and chats alone. */
  lemma BookkeepingKeepsRest(s: State, s': State)
    requires Inv(s)
    requires s'.jobs == s.jobs && s'.workers == s.workers && s'.analyses == s.analyses
    requires s'.cache == s.cache && s'.chats == s.chats && s'.activeCancels == s.activeCancels
    ensures JobsInv(s') && RegistryInv(s') && CacheInv(s')
  {
    SameTables(s, s');
    forall k | 0 <= k < |s'.chats| ensures ChatOk(s', s'.chats[k]) { assert ChatOk(s, s.chats[k]); }
  }

  lemma CancelerStepKeepsInv(s: State, c: nat, now: Instant)
    requires Inv(s) && c < |s.cancelers|
    ensures Inv(CancelWork(s, c, now))
  {
    CancelKeepsJobs(s, c, now);
    CancelTouches(s, c, now);
    hide JobsInv, CancelWork, ChatOk, Agrees;
    SameAnalyses(s, CancelWork(s, c, now));
  }

  /** A canceler changes nothing but jobs there are, cancelers and signals. */
  lemma CancelTouches(s: State, c: nat, now: Instant)
    requires c < |s.cancelers|
    ensures var s' := CancelWork(s, c, now);
            s'.jobs.Keys == s.jobs.Keys
            && s' == s.(jobs := s'.jobs, cancelers := s'.cancelers, signaled := s'.signaled)
  {
    hide NextCanceler;
  }

  lemma WorkKeepsInv(s: State, id: Id, c: Choice)
    requires Inv(s) && id in s.workers
    ensures Inv(Work(s, id, c))
  {
    WorkKeepsJobs(s, id, c);
    WorkKeepsQueue(s, id, c);
    WorkKeepsRegistry(s, id, c);
    WorkKeepsCache(s, id, c);
  }

  lemma ChatKeepsInv(s: State, c: nat, o: Choice)
    requires Inv(s) && c < |s.chats|
    ensures Inv(ChatWork(s, c, o))
  {
    ChatKeepsCache(s, c, o);
    hide JobsInv, CacheInv, NextChat, NextCache;
    SameTables(s, ChatWork(s, c, o));
  }

  lemma StepKeepsInv(s: State, e: Event)
    requires Inv(s)
    ensures Inv(Step(s, e))
  {
    hide JobsInv, RegistryInv, CacheInv, Work, CancelWork, ChatWork;
    match e
    case Submit(id, request, now) => SubmitKeepsInv(s, id, request, now);
    case Enqueue(id) =>
      EnqueueKeepsQueue(s, id);
      BookkeepingKeepsRest(s, Step(s, e));
    case EnqueueRefused(id) => BookkeepingKeepsRest(s, Step(s, e));
    case Deliver => DeliverKeepsInv(s);
    case WorkerStep(id, choice) => if id in s.workers { WorkKeepsInv(s, id, choice); }
    case NewCanceler(id) => BookkeepingKeepsRest(s, Step(s, e));
    case CancelerStep(c, now) => if c < |s.cancelers| { CancelerStepKeepsInv(s, c, now); }
    case NewChat(id) => NewChatKeepsInv(s, id);
    case ChatStep(c, choice) => if c < |s.chats| { ChatKeepsInv(s, c, choice); }
  }

  lemma {:induction false} NewChatKeepsInv(s: State, id: Id)
    requires Inv(s)
    ensures Inv(Step(s, NewChat(id)))
  {
    var s' := Step(s, NewChat(id));
    SameTables(s, s');
    forall k | 0 <= k < |s'.chats|
      ensures ChatOk(s', s'.chats[k])
    {
      if k < |s.chats| { assert ChatOk(s, s.chats[k]); }
    }
  }

  lemma {:induction false} RunKeepsInv(s: State, events: seq<Event>)
    requires Inv(s)
    ensures Inv(RunFrom(s, events))
  {
    hide Inv, Step;
    if events != [] {
      RunKeepsInv(s, events[..|events| - 1]);
      StepKeepsInv(RunFrom(s, events[..|events| - 1]), events[|events| - 1]);
    }
  }

  lemma ReachableInv(buffer: int, events: seq<Event>)
    ensures Inv(Run(buffer, events))
  {
    assert Inv(Start(buffer));
    RunKeepsInv(Start(buffer), events);
  }
}
