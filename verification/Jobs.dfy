/** Analysis jobs, their in-memory table, and the queue that hands them to workers. */
module Jobs {
  import opened Domain

  datatype Status = Pending | Running | Completed | Failed | Canceled

  datatype Phase = Queued | CollectingSignals | Normalizing | CallingLLM | Persisting | Done

  predicate Terminal(s: Status) {
    s.Completed? || s.Failed? || s.Canceled?
  }

  datatype Job = Job(
    id: string,
    analysisId: string,
    status: Status,
    phase: Phase,
    progress: int,
    request: AnalysisRequest,
    error: string,
    attempt: int,
    createdAt: Instant,
    startedAt: Option<Instant>,
    phaseStartedAt: Option<Instant>,
    finishedAt: Option<Instant>)

  type JobTable = map<string, Job>

  function NewJob(id: string, request: AnalysisRequest, now: Instant): Job {
    Job(id, "", Pending, Queued, 0, request, "", 0, now, None, None, None)
  }

  // ---------------------------------------------------------------------
  // What each transition does to a job. None of them looks at the old status.
  // ---------------------------------------------------------------------

  function Started(j: Job, at: Instant): Job {
    j.(status := Running, attempt := j.attempt + 1, startedAt := Some(at), phase := CollectingSignals, phaseStartedAt := Some(at))
  }

  function InPhase(j: Job, phase: Phase, progress: int, at: Instant): Job {
    j.(phase := phase, progress := progress, phaseStartedAt := Some(at))
  }

  function AsCompleted(j: Job, analysisId: string, at: Instant): Job {
    j.(status := Completed, phase := Done, progress := 100, analysisId := analysisId, finishedAt := Some(at))
  }

  function AsFailed(j: Job, error: string, at: Instant): Job {
    j.(status := Failed, error := error, finishedAt := Some(at))
  }

  function AsCanceled(j: Job, at: Instant): Job {
    j.(status := Canceled, finishedAt := Some(at))
  }

  /** A transition applied to one entry; an unknown id changes nothing. */
  function Transition(m: JobTable, id: string, mutate: Job -> Job): JobTable {
    if id in m then m[id := mutate(m[id])] else m
  }

  class AnalysisJobRepository {
    var jobs: JobTable

    constructor ()
      ensures jobs == map[]
    {
      jobs := map[];
    }

    method Create(job: Job)
      modifies this
      ensures jobs == old(jobs)[job.id := job]
    {
      jobs := jobs[job.id := job];
    }

    method Find(id: string) returns (found: Option<Job>)
      ensures found == if id in jobs then Some(jobs[id]) else None
    {
      found := if id in jobs then Some(jobs[id]) else None;
    }

    /** `ok` is false when the job does not exist. */
    method ApplyTransition(id: string, mutate: Job -> Job) returns (ok: bool)
      modifies this
      ensures ok <==> id in old(jobs)
      ensures jobs == Transition(old(jobs), id, mutate)
    {
      if id !in jobs {
        return false;
      }
      var job := mutate(jobs[id]);
      jobs := jobs[id := job];
      ok := true;
    }

    method MarkRunning(id: string, at: Instant) returns (ok: bool)
      modifies this
      ensures ok <==> id in old(jobs)
      ensures jobs == if ok then old(jobs)[id := Started(old(jobs)[id], at)] else old(jobs)
    {
      ok := ApplyTransition(id, (job: Job) =>
        job.(status := Running, attempt := job.attempt + 1, startedAt := Some(at), phase := CollectingSignals, phaseStartedAt := Some(at)));
    }

    method MarkPhase(id: string, phase: Phase, progress: int, at: Instant) returns (ok: bool)
      modifies this
      ensures ok <==> id in old(jobs)
      ensures jobs == if ok then old(jobs)[id := InPhase(old(jobs)[id], phase, progress, at)] else old(jobs)
    {
      ok := ApplyTransition(id, (job: Job) => job.(phase := phase, progress := progress, phaseStartedAt := Some(at)));
    }

    method MarkCompleted(id: string, analysisId: string, at: Instant) returns (ok: bool)
      modifies this
      ensures ok <==> id in old(jobs)
      ensures jobs == if ok then old(jobs)[id := AsCompleted(old(jobs)[id], analysisId, at)] else old(jobs)
    {
      ok := ApplyTransition(id, (job: Job) =>
        job.(status := Completed, phase := Done, progress := 100, analysisId := analysisId, finishedAt := Some(at)));
    }

    method MarkFailed(id: string, error: string, at: Instant) returns (ok: bool)
      modifies this
      ensures ok <==> id in old(jobs)
      ensures jobs == if ok then old(jobs)[id := AsFailed(old(jobs)[id], error, at)] else old(jobs)
    {
      ok := ApplyTransition(id, (job: Job) => job.(status := Failed, error := error, finishedAt := Some(at)));
    }

    method MarkCanceled(id: string, at: Instant) returns (ok: bool)
      modifies this
      ensures ok <==> id in old(jobs)
      ensures jobs == if ok then old(jobs)[id := AsCanceled(old(jobs)[id], at)] else old(jobs)
    {
      ok := ApplyTransition(id, (job: Job) => job.(status := Canceled, finishedAt := Some(at)));
    }
  }

  // ---------------------------------------------------------------------
  // The queue
  // ---------------------------------------------------------------------

  const DEFAULT_BUFFER := 64

  function CapacityFor(buffer: int): nat {
    if buffer <= 0 then DEFAULT_BUFFER else buffer
  }

  datatype SendOutcome = Sent | QueueClosed | ContextDone | SendPanics

  /** A bounded buffer of job ids: a send waits for room, a receive for an id. */
  class AnalysisQueue {
    const capacity: nat
    var buffer: seq<string>
    var closed: bool

    constructor (buffer: int)
      ensures capacity == CapacityFor(buffer) == (if buffer <= 0 then 64 else buffer) && this.buffer == [] && !closed
    {
      capacity := CapacityFor(buffer);
      this.buffer := [];
      closed := false;
    }

    /** The select takes any case that is ready, and waits while none is. A send on
        the closed channel is ready too, and panics. */
    method EnqueueAnalysis(id: string, done: bool) returns (outcome: SendOutcome)
      requires closed || done || |buffer| < capacity
      modifies this
      ensures closed == old(closed)
      ensures outcome.Sent? ==> !closed && |old(buffer)| < capacity && buffer == old(buffer) + [id]
      ensures !outcome.Sent? ==> buffer == old(buffer)
      ensures outcome.ContextDone? ==> done
      ensures outcome.QueueClosed? || outcome.SendPanics? ==> closed
    {
      if
      case closed =>
        outcome := QueueClosed;
      case done =>
        outcome := ContextDone;
      case closed =>
        outcome := SendPanics;
      case !closed && |buffer| < capacity =>
        buffer := buffer + [id];
        outcome := Sent;
    }

    /** What a worker gets to run next: nothing once its context is done, or once
        the closed queue has been drained. */
    method Receive(done: bool) returns (id: Option<string>)
      requires done || closed || buffer != []
      modifies this
      ensures closed == old(closed)
      ensures id.Some? ==> old(buffer) == [id.value] + buffer
      ensures id.None? ==> buffer == old(buffer) && (done || (closed && buffer == []))
    {
      if
      case done =>
        id := None;
      case buffer != [] =>
        id := Some(buffer[0]);
        buffer := buffer[1..];
      case closed && buffer == [] =>
        id := None;
    }

    method Close()
      modifies this
      ensures closed && buffer == old(buffer)
    {
      closed := true;
    }
  }
}
