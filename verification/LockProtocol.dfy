/** The per-analysis lock. Acquire leaves a goroutine waiting for the mutex and
    may give up on it; whoever gives up leaves a second goroutine behind that
    must hand the mutex back. Modelled as interleaved steps of any number of
    requests, each of which is a caller plus its goroutines. */
module LockProtocol {

  // ---------------------------------------------------------------------
  // The table of mutexes
  // ---------------------------------------------------------------------

  class Mutex {
    constructor () {}
  }

  class AnalysisLocker {
    var locks: map<string, Mutex>

    /** Different analyses never share a mutex. */
    ghost predicate Valid()
      reads this
    {
      forall a, b :: a in locks && b in locks && locks[a] == locks[b] ==> a == b
    }

    constructor ()
      ensures Valid() && locks == map[]
    {
      locks := map[];
    }

    /** The one mutex of an analysis, created on first use and kept for good. */
    method LockFor(analysisId: string) returns (lock: Mutex)
      requires Valid()
      modifies this
      ensures Valid()
      ensures analysisId in locks && locks[analysisId] == lock
      ensures if analysisId in old(locks) then locks == old(locks)
              else fresh(lock) && locks == old(locks)[analysisId := lock]
    {
      if analysisId in locks {
        return locks[analysisId];
      }
      lock := new Mutex();
      locks := locks[analysisId := lock];
    }
  }

  // ---------------------------------------------------------------------
  // The protocol
  // ---------------------------------------------------------------------

  /** The caller of Acquire: in its select, in possession, gone with an error
      while a goroutine still owes the mutex, or done. */
  datatype Caller = Selecting | Granted | GaveUp | Finished

  /** The goroutine that locks: blocked, past Lock, past close(acquired). */
  datatype Locking = Blocked | Locked | Signaled | NeverStarted

  datatype Request = Request(analysisId: string, canceled: bool, caller: Caller, goroutine: Locking)

  datatype Option<+T> = None | Some(value: T)

  /** `holders` says, per mutex, which request's goroutine locked it last. */
  datatype State = State(requests: seq<Request>, holders: map<string, Option<nat>>)

  const START := State([], map[])

  datatype Event =
    | Call(analysisId: string, canceled: bool)
    | Cancel(r: nat)
    | Lock(r: nat)
    | Signal(r: nat)
    | Grant(r: nat)
    | GiveUp(r: nat)
    | GiveBack(r: nat)
    | Release(r: nat)

  function With(s: State, r: nat, request: Request): State
    requires r < |s.requests|
  {
    s.(requests := s.requests[r := request])
  }

  function Unlocked(s: State, analysisId: string): State {
    s.(holders := s.holders[analysisId := None])
  }

  /** A canceled context is refused before any mutex is looked up. */
  function Called(s: State, analysisId: string, canceled: bool): State {
    if canceled then s.(requests := s.requests + [Request(analysisId, true, Finished, NeverStarted)])
    else State(s.requests + [Request(analysisId, false, Selecting, Blocked)],
               if analysisId in s.holders then s.holders else s.holders[analysisId := None])
  }

  function Target(e: Event): nat
    requires !e.Call?
  {
    match e
    case Cancel(r) => r
    case Lock(r) => r
    case Signal(r) => r
    case Grant(r) => r
    case GiveUp(r) => r
    case GiveBack(r) => r
    case Release(r) => r
  }

  predicate Enabled(s: State, e: Event) {
    e.Call? ||
    (Target(e) < |s.requests| &&
     var q := s.requests[Target(e)];
     match e
     case Call(_, _) => true
     case Cancel(_) => !q.canceled
     case Lock(_) => q.goroutine.Blocked? && q.analysisId in s.holders && s.holders[q.analysisId].None?
     case Signal(_) => q.goroutine.Locked?
     case Grant(_) => q.caller.Selecting? && q.goroutine.Signaled?
     case GiveUp(_) => q.caller.Selecting? && q.canceled
     case GiveBack(_) => q.caller.GaveUp? && q.goroutine.Signaled?
     case Release(_) => q.caller.Granted?)
  }

  /** An event that is not enabled does nothing. */
  function Step(s: State, e: Event): State {
    if !Enabled(s, e) then s
    else match e
      case Call(analysisId, canceled) => Called(s, analysisId, canceled)
      case Cancel(r) => With(s, r, s.requests[r].(canceled := true))
      case Lock(r) =>
        With(s, r, s.requests[r].(goroutine := Locked)).(holders := s.holders[s.requests[r].analysisId := Some(r)])
      case Signal(r) => With(s, r, s.requests[r].(goroutine := Signaled))
      case Grant(r) => With(s, r, s.requests[r].(caller := Granted))
      case GiveUp(r) => With(s, r, s.requests[r].(caller := GaveUp))
      case GiveBack(r) => Unlocked(With(s, r, s.requests[r].(caller := Finished)), s.requests[r].analysisId)
      case Release(r) => Unlocked(With(s, r, s.requests[r].(caller := Finished)), s.requests[r].analysisId)
  }

  function Run(events: seq<Event>): State {
    RunFrom(START, events)
  }

  function RunFrom(s: State, events: seq<Event>): State {
    if events == [] then s else Step(RunFrom(s, events[..|events| - 1]), events[|events| - 1])
  }

  // ---------------------------------------------------------------------
  // Safety
  // ---------------------------------------------------------------------

  /** The request's goroutine has the mutex and has not given it back. */
  predicate Owns(q: Request) {
    (q.goroutine.Locked? || q.goroutine.Signaled?) && !q.caller.Finished?
  }

  ghost predicate Inv(s: State) {
    && (forall id :: id in s.holders && s.holders[id].Some?
          ==> s.holders[id].value < |s.requests|
              && Owns(s.requests[s.holders[id].value]) && s.requests[s.holders[id].value].analysisId == id)
    && (forall r :: 0 <= r < |s.requests| ==> RequestOk(s, r))
  }

  ghost predicate RequestOk(s: State, r: nat)
    requires r < |s.requests|
  {
    var q := s.requests[r];
    && (q.goroutine.NeverStarted? ==> q.caller.Finished?)
    && (!q.goroutine.NeverStarted? ==> q.analysisId in s.holders)
    && (Owns(q) ==> q.analysisId in s.holders && s.holders[q.analysisId] == Some(r))
    && (q.caller.Granted? ==> q.goroutine.Signaled?)
    && (q.caller.Finished? ==> q.goroutine.Signaled? || q.goroutine.NeverStarted?)
    && (q.caller.GaveUp? ==> q.canceled)
  }

  lemma StepKeepsInv(s: State, e: Event)
    requires Inv(s)
    ensures Inv(Step(s, e))
  {
    if Enabled(s, e) {
      if e.Call? { CallKeepsInv(s, e.analysisId, e.canceled); } else { MoveKeepsInv(s, e); }
    }
  }

  lemma CallKeepsInv(s: State, analysisId: string, canceled: bool)
    requires Inv(s)
    ensures Inv(Called(s, analysisId, canceled))
  {
    var s' := Called(s, analysisId, canceled);
    forall r | 0 <= r < |s'.requests|
      ensures RequestOk(s', r)
    {
      if r < |s.requests| { assert RequestOk(s, r); }
    }
  }

  lemma MoveKeepsInv(s: State, e: Event)
    requires Inv(s) && !e.Call? && Enabled(s, e)
    ensures Inv(Step(s, e))
  {
    var s' := Step(s, e);
    assert RequestOk(s, Target(e));
    forall r | 0 <= r < |s'.requests|
      ensures RequestOk(s', r)
    {
      assert RequestOk(s, r);
    }
  }

  lemma {:induction false} RunKeepsInv(s: State, events: seq<Event>)
    requires Inv(s)
    ensures Inv(RunFrom(s, events))
  {
    if events != [] {
      RunKeepsInv(s, events[..|events| - 1]);
      StepKeepsInv(RunFrom(s, events[..|events| - 1]), events[|events| - 1]);
    }
  }

  predicate Possesses(s: State, r: nat)
    requires r < |s.requests|
  {
    s.requests[r].caller.Granted?
  }

  /** At most one request is in possession of an analysis, in every interleaving;
      and a mutex that is about to be unlocked is locked, by that very request. */
  lemma MutualExclusion(events: seq<Event>, q: nat, r: nat)
    requires q < |Run(events).requests| && r < |Run(events).requests|
    ensures var s := Run(events);
            && (Possesses(s, q) && Possesses(s, r) && s.requests[q].analysisId == s.requests[r].analysisId ==> q == r)
            && ((Enabled(s, Release(r)) || Enabled(s, GiveBack(r)))
                ==> s.requests[r].analysisId in s.holders && s.holders[s.requests[r].analysisId] == Some(r))
  {
    assert Inv(START);
    RunKeepsInv(START, events);
    assert RequestOk(Run(events), q) && RequestOk(Run(events), r);
  }

  // ---------------------------------------------------------------------
  // Giving back
  // ---------------------------------------------------------------------

  /** A waiter that gave up never comes into possession, however the run goes on:
      it stays as it is or is done, and then it holds no mutex. */
  lemma {:induction false} GaveUpNeverGranted(s: State, events: seq<Event>, r: nat)
    requires Inv(s) && r < |s.requests| && s.requests[r].caller.GaveUp?
    ensures var s' := RunFrom(s, events);
            r < |s'.requests| && (s'.requests[r].caller.GaveUp? || s'.requests[r].caller.Finished?)
            && (s'.requests[r].caller.Finished? ==> forall id :: id in s'.holders ==> s'.holders[id] != Some(r))
  {
    RunKeepsInv(s, events);
    assert Inv(RunFrom(s, events));
    if events != [] {
      GaveUpNeverGranted(s, events[..|events| - 1], r);
    }
  }

  // ---------------------------------------------------------------------
  // Liveness, as a measure and the absence of dead ends
  // ---------------------------------------------------------------------

  function CallerWork(c: Caller): nat {
    match c
    case Selecting => 2
    case Granted => 1
    case GaveUp => 1
    case Finished => 0
  }

  function LockingWork(g: Locking): nat {
    match g
    case Blocked => 2
    case Locked => 1
    case _ => 0
  }

  function Work(q: Request): nat {
    CallerWork(q.caller) + LockingWork(q.goroutine) + (if q.canceled then 0 else 1)
  }

  function TotalWork(requests: seq<Request>): nat {
    if requests == [] then 0 else TotalWork(requests[..|requests| - 1]) + Work(requests[|requests| - 1])
  }

  lemma {:induction false} WorkOfUpdate(requests: seq<Request>, r: nat, q: Request)
    requires r < |requests|
    ensures TotalWork(requests[r := q]) == TotalWork(requests) - Work(requests[r]) + Work(q)
  {
    var n := |requests| - 1;
    if r == n {
      assert requests[r := q][..n] == requests[..n];
    } else {
      assert requests[r := q][..n] == requests[..n][r := q];
      WorkOfUpdate(requests[..n], r, q);
    }
  }

  /** Every step that is not a new call uses up work. */
  lemma StepUsesWork(s: State, e: Event)
    requires Inv(s) && !e.Call? && Enabled(s, e)
    ensures TotalWork(Step(s, e).requests) < TotalWork(s.requests)
  {
    var r := Target(e);
    assert RequestOk(s, r);
    WorkOfUpdate(s.requests, r, Step(s, e).requests[r]);
  }

  /** A run of enabled steps without new calls. */
  ghost predicate Draining(s: State, events: seq<Event>) {
    forall i :: 0 <= i < |events| ==> !events[i].Call? && Enabled(RunFrom(s, events[..i]), events[i])
  }

  /** Without new calls the protocol takes only so many steps. */
  lemma {:induction false} DrainingIsBounded(s: State, events: seq<Event>)
    requires Inv(s) && Draining(s, events)
    ensures |events| + TotalWork(RunFrom(s, events).requests) <= TotalWork(s.requests)
  {
    hide Inv, Enabled, Step;
    if events != [] {
      var n := |events| - 1;
      var front := events[..n];
      forall i | 0 <= i < |front|
        ensures !front[i].Call? && Enabled(RunFrom(s, front[..i]), front[i])
      {
        assert front[..i] == events[..i];
      }
      DrainingIsBounded(s, front);
      RunKeepsInv(s, front);
      StepUsesWork(RunFrom(s, front), events[n]);
    }
  }

  ghost predicate AllDone(s: State) {
    forall r :: 0 <= r < |s.requests| ==> s.requests[r].caller.Finished?
  }

  /** As long as a request is not done, some step other than a cancellation is
      enabled; and one other than a release, unless somebody is in possession. */
  lemma NoDeadEnd(s: State) returns (e: Event)
    requires Inv(s) && !AllDone(s)
    ensures Enabled(s, e) && !e.Call? && !e.Cancel?
    ensures e.Release? ==> exists r :: 0 <= r < |s.requests| && s.requests[r].caller.Granted?
  {
    var r :| 0 <= r < |s.requests| && !s.requests[r].caller.Finished?;
    assert RequestOk(s, r);
    if s.requests[r].goroutine.Blocked? {
      var holder := s.holders[s.requests[r].analysisId];
      if holder.None? {
        e := Lock(r);
      } else {
        e := OwnerMoves(s, holder.value);
      }
    } else {
      e := OwnerMoves(s, r);
    }
  }

  lemma OwnerMoves(s: State, r: nat) returns (e: Event)
    requires Inv(s) && r < |s.requests| && Owns(s.requests[r])
    ensures Enabled(s, e) && !e.Call? && !e.Cancel?
    ensures e.Release? ==> s.requests[r].caller.Granted?
  {
    var q := s.requests[r];
    assert RequestOk(s, r);
    e := if q.goroutine.Locked? then Signal(r)
         else if q.caller.Selecting? then Grant(r)
         else if q.caller.GaveUp? then GiveBack(r)
         else Release(r);
  }

  /** When nothing but cancellations can happen any more, every request is done
      and every mutex is free. */
  lemma QuietMeansFree(events: seq<Event>)
    requires forall e :: Enabled(Run(events), e) ==> e.Call? || e.Cancel?
    ensures AllDone(Run(events))
    ensures forall id :: id in Run(events).holders ==> Run(events).holders[id].None?
  {
    var s := Run(events);
    assert Inv(START);
    RunKeepsInv(START, events);
    if !AllDone(s) { var e := NoDeadEnd(s); }
  }
}
