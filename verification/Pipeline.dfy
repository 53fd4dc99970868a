/** The asynchronous analysis pipeline as one machine: submitters, the queue, one
    worker per delivered id, any number of cancelers and chats, the job table, the
    analysis store and the context cache, interleaved step by step. Signal
    collection and the language model succeed or fail as they please; clocks are
    read in any order. */
module Pipeline {
  import opened Domain
  import opened Jobs
  import opened ContextCache

  type Id = string

  /** Where a worker stands in RunAnalysisJob. `Failing` remembers whether the
      error is a cancellation; `Returned` whether the job was skipped. */
  datatype Worker =
    | Dequeued
    | Found(request: AnalysisRequest)
    | Registered(request: AnalysisRequest)
    | Begun(request: AnalysisRequest)
    | Collecting
    | Prepared
    | Calling
    | Saving(result: AnalysisResult)
    | Caching(result: AnalysisResult)
    | Completing(result: AnalysisResult)
    | Failing(cancellation: bool)
    | Closing
    | Returned(skipped: bool)

  datatype Canceler = Asked(id: Id) | ToMark(id: Id) | ToInvoke(id: Id) | ToFire(id: Id, registered: bool) | CancelDone(id: Id)

  /** `NotFound` is a chat that ended for lack of a context. */
  datatype Chat =
    | Asking(id: Id)
    | Read(id: Id, entry: Entry)
    | Stale(id: Id)
    | Missed(id: Id)
    | Loaded(id: Id, context: AnalysisContext)
    | Ready(id: Id, context: AnalysisContext)
    | Answered(id: Id, context: AnalysisContext)
    | NotFound(id: Id)
    | ChatDone(id: Id)

  /** `signaled`: the ids whose worker's context a canceler has canceled. A worker
      is free to heed it at its next call, late or not at all. */
  datatype State = State(
    capacity: nat,
    jobs: JobTable,
    submitted: set<Id>,
    enqueued: seq<Id>,
    delivered: seq<Id>,
    buffer: seq<Id>,
    workers: map<Id, Worker>,
    signaled: set<Id>,
    cancelers: seq<Canceler>,
    activeCancels: set<Id>,
    analyses: map<Id, AnalysisResult>,
    cache: Contexts,
    chats: seq<Chat>)

  function Start(buffer: int): State {
    State(CapacityFor(buffer), map[], {}, [], [], [], map[], {}, [], {}, map[], map[], [])
  }

  /** What the outside world decides in one step: whether a call succeeds, whether
      its error is a cancellation, what it produces, and what the clock says. */
  datatype Choice = Choice(ok: bool, cancellation: bool, result: AnalysisResult, error: string, now: Instant, ttl: int)

  datatype Event =
    | Submit(id: Id, request: AnalysisRequest, now: Instant)
    | Enqueue(id: Id)
    | EnqueueRefused(id: Id)
    | Deliver
    | WorkerStep(id: Id, choice: Choice)
    | NewCanceler(id: Id)
    | CancelerStep(c: nat, now: Instant)
    | NewChat(id: Id)
    | ChatStep(c: nat, choice: Choice)

  /** Where the worker goes next. A missing, completed or canceled job is skipped;
      an error leads to the failure marks, and every way out past the
      registration leads through the release of the cancel function. */
  function NextWorker(w: Worker, id: Id, job: Option<Job>, c: Choice): Worker {
    match w
    case Dequeued =>
      if job.None? || job.value.status.Completed? || job.value.status.Canceled? then Returned(true)
      else Found(job.value.request)
    case Found(request) => Registered(request)
    case Registered(request) => if job.None? then Closing else Begun(request)
    case Begun(_) => if c.ok then Collecting else Failing(false)
    case Collecting => if c.ok then Prepared else Failing(c.cancellation)
    case Prepared => Calling
    case Calling => if c.ok then Saving(c.result.(id := id)) else Failing(c.cancellation)
    case Saving(result) => if c.ok then Caching(result) else Failing(c.cancellation)
    case Caching(result) => Completing(result)
    case Completing(_) => Closing
    case Failing(_) => Closing
    case Closing => Returned(false)
    case Returned(skipped) => Returned(skipped)
  }

  /** What the step writes into the job: the start, a phase report once the work
      before it has succeeded, or one of the three ends. */
  function NextJob(w: Worker, j: Job, c: Choice): Job {
    match w
    case Registered(_) => Started(j, c.now)
    case Begun(_) => if c.ok then InPhase(j, CollectingSignals, 10, c.now) else j
    case Collecting => if c.ok then InPhase(j, Normalizing, 35, c.now) else j
    case Prepared => InPhase(j, CallingLLM, 55, c.now)
    case Calling => if c.ok then InPhase(j, Persisting, 85, c.now) else j
    case Completing(result) => AsCompleted(j, result.id, c.now)
    case Failing(cancellation) => if cancellation then AsCanceled(j, c.now) else AsFailed(j, c.error, c.now)
    case _ => j
  }

  /** One step of the worker that runs `id`. */
  function Work(s: State, id: Id, c: Choice): State
    requires id in s.workers
  {
    var w := s.workers[id];
    s.(workers := s.workers[id := NextWorker(w, id, if id in s.jobs then Some(s.jobs[id]) else None, c)],
       jobs := if id in s.jobs then s.jobs[id := NextJob(w, s.jobs[id], c)] else s.jobs,
       analyses := if w.Saving? && c.ok then s.analyses[w.result.id := w.result] else s.analyses,
       cache := if w.Caching? then Stored(s.cache, NewAnalysisContext(w.result), c.ttl, c.now) else s.cache,
       activeCancels := if w.Found? then s.activeCancels + {id} else if w.Closing? then s.activeCancels - {id} else s.activeCancels)
  }

  /** Where CancelJob goes next: read, mark, look the cancel function up, call it. */
  function NextCanceler(k: Canceler, job: Option<Job>, registered: bool): Canceler {
    match k
    case Asked(id) => if job.None? || Terminal(job.value.status) then CancelDone(id) else ToMark(id)
    case ToMark(id) => if job.None? then CancelDone(id) else ToInvoke(id)
    case ToInvoke(id) => ToFire(id, registered)
    case ToFire(id, _) => CancelDone(id)
    case CancelDone(id) => CancelDone(id)
  }

  /** One step of a canceler. */
  function CancelWork(s: State, c: nat, now: Instant): State
    requires c < |s.cancelers|
  {
    var k := s.cancelers[c];
    if k.CancelDone? then s
    else
      s.(cancelers := s.cancelers[c := NextCanceler(k, if k.id in s.jobs then Some(s.jobs[k.id]) else None, k.id in s.activeCancels)],
         jobs := if k.ToMark? && k.id in s.jobs then s.jobs[k.id := AsCanceled(s.jobs[k.id], now)] else s.jobs,
         signaled := if k.ToFire? && k.registered then s.signaled + {k.id} else s.signaled)
  }

  /** Where Ask goes next: the lookup in three steps, the fallback to the store,
      the refill, the answer, and the save that follows it. */
  function NextChat(chat: Chat, cached: Option<Entry>, stored: Option<AnalysisResult>, o: Choice): Chat {
    match chat
    case Asking(id) => if cached.Some? then Read(id, cached.value) else Missed(id)
    case Read(id, entry) => if Expired(entry, o.now) then Stale(id) else Ready(id, entry.context)
    case Stale(id) => Missed(id)
    case Missed(id) => if stored.Some? then Loaded(id, NewAnalysisContext(stored.value)) else NotFound(id)
    case Loaded(id, context) => Ready(id, context)
    case Ready(id, context) => if o.ok then Answered(id, context) else ChatDone(id)
    case Answered(id, _) => ChatDone(id)
    case NotFound(id) => NotFound(id)
    case ChatDone(id) => ChatDone(id)
  }

  /** What the step does to the cache: a stale entry goes, whatever it has become
      by now; a refill and an answered question save the context. */
  function NextCache(chat: Chat, cache: Contexts, o: Choice): Contexts {
    match chat
    case Stale(id) => cache - {id}
    case Loaded(_, context) => Stored(cache, context, o.ttl, o.now)
    case Answered(_, context) => Stored(cache, context, o.ttl, o.now)
    case _ => cache
  }

  predicate Over(chat: Chat) {
    chat.NotFound? || chat.ChatDone?
  }

  /** One step of a chat. */
  function ChatWork(s: State, c: nat, o: Choice): State
    requires c < |s.chats|
  {
    var chat := s.chats[c];
    if Over(chat) then s
    else
      s.(chats := s.chats[c := NextChat(chat, if chat.id in s.cache then Some(s.cache[chat.id]) else None,
                                        if chat.id in s.analyses then Some(s.analyses[chat.id]) else None, o)],
         cache := NextCache(chat, s.cache, o))
  }

  /** An event that cannot happen in a state does nothing. Job ids are fresh, and
      nothing is enqueued after the queue is closed. */
  function Step(s: State, e: Event): State {
    match e
    case Submit(id, request, now) =>
      if id in s.jobs then s else s.(jobs := s.jobs[id := NewJob(id, request, now)], submitted := s.submitted + {id})
    case Enqueue(id) =>
      if id !in s.submitted || |s.buffer| >= s.capacity then s
      else s.(submitted := s.submitted - {id}, enqueued := s.enqueued + [id], buffer := s.buffer + [id])
    case EnqueueRefused(id) => s.(submitted := s.submitted - {id})
    case Deliver =>
      if s.buffer == [] then s
      else s.(buffer := s.buffer[1..], delivered := s.delivered + [s.buffer[0]], workers := s.workers[s.buffer[0] := Dequeued])
    case WorkerStep(id, choice) => if id in s.workers then Work(s, id, choice) else s
    case NewCanceler(id) => s.(cancelers := s.cancelers + [Asked(id)])
    case CancelerStep(c, now) => if c < |s.cancelers| then CancelWork(s, c, now) else s
    case NewChat(id) => s.(chats := s.chats + [Asking(id)])
    case ChatStep(c, choice) => if c < |s.chats| then ChatWork(s, c, choice) else s
  }

  function RunFrom(s: State, events: seq<Event>): State {
    if events == [] then s else Step(RunFrom(s, events[..|events| - 1]), events[|events| - 1])
  }

  function Run(buffer: int, events: seq<Event>): State {
    RunFrom(Start(buffer), events)
  }
}
