/** Exactly when evicting idle buckets can be noticed, given how far out of order
    timestamps can be: `now` is read before the lock, so a call can be served
    after one with a later stamp. */
module LimiterEviction {
  import opened RateLimiter
  import opened LimiterRuns

  /** No call is stamped more than `skew` before an earlier one. */
  ghost predicate Skewed(calls: seq<Call>, skew: real) {
    forall i, j :: 0 <= i < j < |calls| ==> calls[i].at <= calls[j].at + skew
  }

  /** Every run within this skew gets the answers of the limiter that never evicts. */
  ghost predicate EvictionUnobservable(p: Params, skew: real) {
    forall calls: seq<Call>, i: nat ::
      Skewed(calls, skew) && i < |calls| ==> (Allowed(p, calls, i) <==> AllowedKeeping(p, calls, i))
  }

  /** A bucket idle for the eviction age is full again, whatever the skew did to it. */
  predicate RefillsInTime(p: Params, skew: real) {
    p.perSecond * (EVICT_AFTER - 2.0 * skew) >= p.burst
  }

  // ---------------------------------------------------------------------
  // Products of reals
  // ---------------------------------------------------------------------

  lemma ProductNonNegative(a: real, b: real)
    requires a >= 0.0 && b >= 0.0
    ensures a * b >= 0.0
  {
  }

  lemma ProductGrows(a: real, b: real, c: real)
    requires a >= 0.0 && b <= c
    ensures a * b <= a * c
  {
    ProductNonNegative(a, c - b);
  }

  lemma AccruedGrows(p: Params, from: real, to: real, later: real)
    requires p.perSecond > 0.0 && to <= later
    ensures p.Accrued(from, to) <= p.Accrued(from, later)
  {
    ProductGrows(p.perSecond, to - from, later - from);
  }

  // ---------------------------------------------------------------------
  // The simulation
  // ---------------------------------------------------------------------

  /** Left alone until `at`, the bucket would not be in debt. */
  predicate Recovers(p: Params, bucket: Bucket, at: real) {
    bucket.tokens + p.Accrued(bucket.lastSeen, at) >= 0.0
  }

  function Later(a: real, b: real): real {
    if a <= b then b else a
  }

  /** The latest stamp of a run so far. */
  function Top(calls: seq<Call>, i: nat): real
    requires i < |calls|
  {
    if i == 0 then calls[0].at else Later(Top(calls, i - 1), calls[i - 1].at)
  }

  lemma {:induction false} TopWithinSkew(calls: seq<Call>, skew: real, j: nat, i: nat)
    requires j <= i < |calls| && Skewed(calls, skew) && skew >= 0.0
    ensures Top(calls, j) <= calls[i].at + skew
  {
    if j > 0 { TopWithinSkew(calls, skew, j - 1, i); }
  }

  ghost predicate BucketOk(p: Params, bucket: Bucket, skew: real, top: real) {
    bucket.lastSeen <= top && Recovers(p, bucket, top) && Recovers(p, bucket, bucket.lastSeen + skew)
  }

  /** What the evicting limiter has is what the other has, less keys idle for the
      eviction age; and no debt outlasts the skew. */
  ghost predicate Simulates(p: Params, skew: real, evicting: Buckets, keeping: Buckets, top: real) {
    && evicting.Keys <= keeping.Keys
    && (forall k :: k in evicting ==> evicting[k] == keeping[k])
    && (forall k :: k in keeping ==> BucketOk(p, keeping[k], skew, top))
    && (forall k :: k in keeping && k !in evicting ==> Stale(keeping[k], top))
  }

  lemma RecoversLater(p: Params, bucket: Bucket, at: real, later: real)
    requires p.perSecond > 0.0 && Recovers(p, bucket, at) && at <= later
    ensures Recovers(p, bucket, later)
  {
    AccruedGrows(p, bucket.lastSeen, at, later);
  }

  lemma SpentRecovers(p: Params, tokens: real, now: real, later: real)
    requires p.perSecond > 0.0 && now <= later && tokens + p.Accrued(now, later) >= 0.0
    ensures Recovers(p, Bucket(Spent(tokens), now), later)
  {
    AccruedAdds(p, now, now, now);
    AccruedGrows(p, now, now, later);
    hide Params.Accrued;
  }

  /** A call leaves its bucket no deeper in debt than it was. */
  lemma ChargeRecovers(p: Params, m: Buckets, key: string, now: real, at: real, later: real)
    requires p.perSecond > 0.0 && p.burst > 0.0 && at <= later && now <= later
    requires key in m ==> Recovers(p, m[key], at)
    ensures Recovers(p, Bucket(Spent(Offered(p, m, key, now)), now), later)
  {
    AccruedAdds(p, now, now, now);
    AccruedGrows(p, now, now, later);
    if key in m {
      RecoversLater(p, m[key], at, later);
      AccruedAdds(p, m[key].lastSeen, now, later);
    }
    hide Params.Accrued;
    SpentRecovers(p, Offered(p, m, key, now), now, later);
  }

  /** A key dropped as stale would be offered a full bucket by the time it calls again. */
  lemma StaleRefills(p: Params, bucket: Bucket, skew: real, top: real, now: real)
    requires p.perSecond > 0.0 && RefillsInTime(p, skew)
    requires Recovers(p, bucket, bucket.lastSeen + skew) && Stale(bucket, top) && top <= now + skew
    ensures bucket.tokens + p.Accrued(bucket.lastSeen, now) >= p.burst
  {
    var recovered := bucket.lastSeen + skew;
    AccruedAdds(p, bucket.lastSeen, recovered, now);
    ProductGrows(p.perSecond, EVICT_AFTER - 2.0 * skew, now - recovered);
    assert p.Accrued(recovered, now) == p.perSecond * (now - recovered);
    hide Params.Accrued;
  }

  /** The swept table still simulates, at the later of the old top and this stamp. */
  lemma SweepSimulates(p: Params, skew: real, evicting: Buckets, keeping: Buckets, top: real, now: real)
    requires p.perSecond > 0.0 && Simulates(p, skew, evicting, keeping, top)
    ensures Simulates(p, skew, Swept(evicting, now), keeping, Later(top, now))
  {
    var top' := Later(top, now);
    forall k | k in keeping
      ensures BucketOk(p, keeping[k], skew, top')
    {
      RecoversLater(p, keeping[k], top, top');
    }
    hide BucketOk;
  }

  lemma SameOffer(p: Params, skew: real, swept: Buckets, keeping: Buckets, top: real, call: Call)
    requires p.perSecond > 0.0 && RefillsInTime(p, skew)
    requires Simulates(p, skew, swept, keeping, top) && top <= call.at + skew
    ensures Offered(p, swept, call.key, call.at) == Offered(p, keeping, call.key, call.at)
  {
    if call.key in keeping && call.key !in swept {
      StaleRefills(p, keeping[call.key], skew, top, call.at);
    }
    hide Params.Accrued;
  }

  /** Both limiters put the same new bucket under the key. */
  lemma ChargeSimulates(p: Params, skew: real, swept: Buckets, keeping: Buckets, top: real, call: Call)
    requires p.perSecond > 0.0 && p.burst > 0.0 && skew >= 0.0 && RefillsInTime(p, skew)
    requires Simulates(p, skew, swept, keeping, top) && call.at <= top <= call.at + skew
    ensures Simulates(p, skew, Charged(p, swept, call.key, call.at), Charged(p, keeping, call.key, call.at), top)
  {
    SameOffer(p, skew, swept, keeping, top, call);
    ChargeRecovers(p, keeping, call.key, call.at, top, top);
    ChargeRecovers(p, keeping, call.key, call.at, top, call.at + skew);
    var bucket := Bucket(Spent(Offered(p, keeping, call.key, call.at)), call.at);
    assert BucketOk(p, bucket, skew, top);
    hide BucketOk, Offered, Spent;
  }

  lemma SimulationStep(p: Params, skew: real, evicting: Buckets, keeping: Buckets, top: real, call: Call)
    requires p.perSecond > 0.0 && p.burst > 0.0 && skew >= 0.0 && RefillsInTime(p, skew)
    requires Simulates(p, skew, evicting, keeping, top) && top <= call.at + skew
    ensures Simulates(p, skew, Serve(p, evicting, call).0, ServeKeeping(p, keeping, call).0, Later(top, call.at))
    ensures Serve(p, evicting, call).1 == ServeKeeping(p, keeping, call).1
  {
    SweepSimulates(p, skew, evicting, keeping, top, call.at);
    if call.key == "" {
      EmptyKeySimulates(p, skew, evicting, keeping, top, call.at);
    } else {
      SameOffer(p, skew, Swept(evicting, call.at), keeping, Later(top, call.at), call);
      ChargeSimulates(p, skew, Swept(evicting, call.at), keeping, Later(top, call.at), call);
    }
    hide Simulates, Swept, Charged, Offered, RefillsInTime;
  }

  lemma EmptyKeySimulates(p: Params, skew: real, evicting: Buckets, keeping: Buckets, top: real, now: real)
    requires p.perSecond > 0.0 && Simulates(p, skew, evicting, keeping, top)
    ensures Simulates(p, skew, evicting, keeping, Later(top, now))
  {
    SweepSimulates(p, skew, evicting, keeping, top, now);
    hide BucketOk;
  }

  lemma NothingToSimulate(p: Params, skew: real, calls: seq<Call>, top: real)
    ensures Simulates(p, skew, After(p, calls[..0]), AfterKeeping(p, calls[..0]), top)
  {
    assert calls[..0] == [];
  }

  lemma {:induction false} SimulationUpTo(p: Params, skew: real, calls: seq<Call>, i: nat)
    requires p.perSecond > 0.0 && p.burst > 0.0 && skew >= 0.0 && RefillsInTime(p, skew)
    requires Skewed(calls, skew) && i < |calls|
    ensures Simulates(p, skew, After(p, calls[..i]), AfterKeeping(p, calls[..i]), Top(calls, i))
  {
    hide Serve, ServeKeeping, Simulates, RefillsInTime, Skewed, After, AfterKeeping;
    if i == 0 {
      NothingToSimulate(p, skew, calls, Top(calls, 0));
    } else {
      SimulationUpTo(p, skew, calls, i - 1);
      AfterStep(p, calls, i - 1);
      TopWithinSkew(calls, skew, i - 1, i - 1);
      SimulationStep(p, skew, After(p, calls[..i - 1]), AfterKeeping(p, calls[..i - 1]), Top(calls, i - 1), calls[i - 1]);
    }
  }

  /** Along every run within the skew the two limiters agree, if a bucket idle for
      the eviction age is full again. */
  lemma SimulationHolds(p: Params, skew: real, calls: seq<Call>, i: nat)
    requires p.perSecond > 0.0 && p.burst > 0.0 && skew >= 0.0 && RefillsInTime(p, skew)
    requires Skewed(calls, skew) && i < |calls|
    ensures Simulates(p, skew, After(p, calls[..i]), AfterKeeping(p, calls[..i]), Top(calls, i))
    ensures Allowed(p, calls, i) <==> AllowedKeeping(p, calls, i)
  {
    SimulationUpTo(p, skew, calls, i);
    TopWithinSkew(calls, skew, i, i);
    hide Serve, ServeKeeping, Simulates, RefillsInTime, Skewed, After, AfterKeeping, Top;
    SimulationStep(p, skew, After(p, calls[..i]), AfterKeeping(p, calls[..i]), Top(calls, i), calls[i]);
  }

  /** The answer of the evicting limiter, when eviction cannot be noticed, is the
      single-bucket answer on the timestamps of the call's own key. */
  lemma AnswersDependOnOwnKey(p: Params, skew: real, calls: seq<Call>, i: nat)
    requires p.perSecond > 0.0 && p.burst > 0.0 && skew >= 0.0 && RefillsInTime(p, skew)
    requires Skewed(calls, skew) && i < |calls| && calls[i].key != ""
    ensures var ts := TimesOf(calls[..i + 1], calls[i].key);
            ts != [] && (Allowed(p, calls, i) <==> Admitted(p, ts, |ts| - 1))
  {
    SimulationHolds(p, skew, calls, i);
    KeysAreIndependent(p, calls, i);
  }

  // ---------------------------------------------------------------------
  // A run that notices eviction whenever a bucket cannot refill in time
  // ---------------------------------------------------------------------

  const VICTIM: string := "a"

  function Filler(n: nat): string {
    seq(n + 1, _ => 'k')
  }

  /** Drain a key at time zero, call it once more at -skew, crowd the table past its
      cap, have another key sweep it, and come back as late as the skew forces. */
  datatype Plan = Plan(burst: nat, skew: real, sweep: real, late: real) {
    predicate Valid() {
      && burst > 0 && skew >= 0.0
      && sweep + skew > EVICT_AFTER
      && late >= -skew && late >= sweep - skew
    }

    function Drain(n: nat): seq<Call> {
      if n == 0 then [] else Drain(n - 1) + [Call(VICTIM, 0.0)]
    }

    function Crowd(n: nat): seq<Call> {
      if n == 0 then Drain(burst) + [Call(VICTIM, -skew)] else Crowd(n - 1) + [Call(Filler(n - 1), -skew)]
    }

    function Return(n: nat): seq<Call> {
      if n == 0 then Crowd(MAX_IDLE_BUCKETS + 1) + [Call("z", sweep)] else Return(n - 1) + [Call(VICTIM, late)]
    }
  }

  ghost predicate StampedUpTo(calls: seq<Call>, top: real) {
    forall i :: 0 <= i < |calls| ==> calls[i].at <= top
  }

  lemma OneMoreCall(calls: seq<Call>, call: Call, skew: real, top: real)
    requires Skewed(calls, skew) && StampedUpTo(calls, top) && top <= call.at + skew
    ensures Skewed(calls + [call], skew) && StampedUpTo(calls + [call], Later(top, call.at))
  {
  }

  lemma {:induction false} DrainSkewed(w: Plan, n: nat)
    requires w.Valid()
    ensures Skewed(w.Drain(n), w.skew) && StampedUpTo(w.Drain(n), 0.0)
  {
    hide Skewed, StampedUpTo;
    if n == 0 {
      NoCalls(w.skew);
    } else {
      DrainSkewed(w, n - 1);
      OneMoreCall(w.Drain(n - 1), Call(VICTIM, 0.0), w.skew, 0.0);
    }
  }

  lemma NoCalls(skew: real)
    ensures Skewed([], skew) && StampedUpTo([], 0.0)
  {
  }

  lemma {:induction false} CrowdSkewed(w: Plan, n: nat)
    requires w.Valid()
    ensures Skewed(w.Crowd(n), w.skew) && StampedUpTo(w.Crowd(n), 0.0)
  {
    hide Skewed, StampedUpTo;
    if n == 0 {
      DrainSkewed(w, w.burst);
      OneMoreCall(w.Drain(w.burst), Call(VICTIM, -w.skew), w.skew, 0.0);
    } else {
      CrowdSkewed(w, n - 1);
      OneMoreCall(w.Crowd(n - 1), Call(Filler(n - 1), -w.skew), w.skew, 0.0);
    }
  }

  lemma {:induction false} ReturnSkewed(w: Plan, n: nat)
    requires w.Valid()
    ensures Skewed(w.Return(n), w.skew) && StampedUpTo(w.Return(n), w.late + w.skew)
  {
    hide Skewed, StampedUpTo, Plan.Crowd;
    if n == 0 {
      var calls := w.Crowd(MAX_IDLE_BUCKETS + 1);
      CrowdSkewed(w, MAX_IDLE_BUCKETS + 1);
      OneMoreCall(calls, Call("z", w.sweep), w.skew, 0.0);
      StampsRaised(calls + [Call("z", w.sweep)], Later(0.0, w.sweep), w.late + w.skew);
    } else {
      ReturnSkewed(w, n - 1);
      OneMoreCall(w.Return(n - 1), Call(VICTIM, w.late), w.skew, w.late + w.skew);
    }
  }

  lemma StampsRaised(calls: seq<Call>, top: real, higher: real)
    requires StampedUpTo(calls, top) && top <= higher
    ensures StampedUpTo(calls, higher)
  {
  }

  lemma AfterOneMore(p: Params, calls: seq<Call>, call: Call)
    ensures After(p, calls + [call]) == Serve(p, After(p, calls), call).0
    ensures AfterKeeping(p, calls + [call]) == ServeKeeping(p, AfterKeeping(p, calls), call).0
    ensures Allowed(p, calls + [call], |calls|) == Serve(p, After(p, calls), call).1
    ensures AllowedKeeping(p, calls + [call], |calls|) == ServeKeeping(p, AfterKeeping(p, calls), call).1
  {
    assert (calls + [call])[..|calls|] == calls;
  }

  // ---------------------------------------------------------------------
  // The evicting limiter forgets the drained key
  // ---------------------------------------------------------------------

  lemma SmallTableKept(m: Buckets, keys: set<string>, now: real)
    requires m.Keys <= keys && |keys| <= MAX_IDLE_BUCKETS
    ensures Swept(m, now) == m
  {
    SubsetAtMost(m.Keys, keys);
    assert |m| == |m.Keys|;
  }

  lemma SubsetAtMost(a: set<string>, b: set<string>)
    requires a <= b
    ensures |a| <= |b|
  {
    assert b == a + (b - a);
  }

  lemma VictimServed(p: Params, m: Buckets, now: real)
    requires m.Keys <= {VICTIM}
    ensures var m' := Serve(p, m, Call(VICTIM, now)).0; m'.Keys == {VICTIM} && m'[VICTIM].lastSeen == now
  {
    SmallTableKept(m, {VICTIM}, now);
    hide Swept, Offered, Spent;
  }

  lemma {:induction false} DrainKeys(p: Params, w: Plan, n: nat)
    requires w.Valid()
    ensures After(p, w.Drain(n)).Keys <= {VICTIM}
  {
    hide Serve, ServeKeeping;
    if n > 0 {
      DrainKeys(p, w, n - 1);
      AfterOneMore(p, w.Drain(n - 1), Call(VICTIM, 0.0));
      VictimServed(p, After(p, w.Drain(n - 1)), 0.0);
    }
  }

  lemma NewKeyGrows(m: Buckets, key: string, bucket: Bucket)
    requires key !in m
    ensures |m[key := bucket]| == |m| + 1
  {
    assert m[key := bucket].Keys == m.Keys + {key};
    assert |m[key := bucket]| == |m[key := bucket].Keys| && |m| == |m.Keys|;
  }

  /** The drained key and the first n fillers, all last seen at `at`. */
  ghost predicate Crowded(m: Buckets, n: nat, at: real) {
    && VICTIM in m
    && |m| == n + 1
    && (forall k :: k in m ==> m[k].lastSeen == at)
    && (forall k :: k in m ==> k == VICTIM || |k| <= n)
  }

  lemma NothingStale(m: Buckets, now: real)
    requires forall k :: k in m ==> m[k].lastSeen == now
    ensures Swept(m, now) == m
  {
    assert Sweep(m, now) == m;
  }

  lemma CrowdStep(p: Params, m: Buckets, n: nat, at: real)
    requires Crowded(m, n, at)
    ensures Crowded(Serve(p, m, Call(Filler(n), at)).0, n + 1, at)
  {
    var key := Filler(n);
    assert |key| == n + 1 && key[0] == 'k';
    assert key !in m && key != VICTIM;
    NothingStale(m, at);
    NewKeyGrows(m, key, Bucket(Spent(p.burst), at));
    hide Filler, Swept;
  }

  lemma CrowdStarts(p: Params, w: Plan)
    requires w.Valid()
    ensures Crowded(After(p, w.Crowd(0)), 0, -w.skew)
  {
    hide After, AfterKeeping, Serve, ServeKeeping;
    DrainKeys(p, w, w.burst);
    AfterOneMore(p, w.Drain(w.burst), Call(VICTIM, -w.skew));
    VictimServed(p, After(p, w.Drain(w.burst)), -w.skew);
    OnlyVictim(After(p, w.Crowd(0)), -w.skew);
  }

  lemma {:induction false} CrowdIsCrowded(p: Params, w: Plan, n: nat)
    requires w.Valid()
    ensures Crowded(After(p, w.Crowd(n)), n, -w.skew)
  {
    hide Crowded, Serve, ServeKeeping, After, AfterKeeping, Filler;
    if n == 0 {
      CrowdStarts(p, w);
    } else {
      CrowdIsCrowded(p, w, n - 1);
      AfterOneMore(p, w.Crowd(n - 1), Call(Filler(n - 1), -w.skew));
      CrowdStep(p, After(p, w.Crowd(n - 1)), n - 1, -w.skew);
    }
  }

  lemma OnlyVictim(m: Buckets, at: real)
    requires m.Keys == {VICTIM} && m[VICTIM].lastSeen == at
    ensures Crowded(m, 0, at)
  {
    assert |m| == |{VICTIM}| == 1;
  }

  lemma SweepForgets(p: Params, m: Buckets, n: nat, at: real, now: real)
    requires Crowded(m, n, at) && n >= MAX_IDLE_BUCKETS && now - at > EVICT_AFTER
    ensures Serve(p, m, Call("z", now)).0.Keys == {"z"}
  {
    assert Sweep(m, now) == map[];
  }

  /** The table the key returns to holds nothing but the sweeping key and it. */
  ghost predicate Forgotten(p: Params, w: Plan, m: Buckets, n: nat) {
    && m.Keys <= {"z", VICTIM}
    && Offered(p, m, VICTIM, w.late) == (w.burst - n) as real
  }

  lemma ReturnStarts(p: Params, w: Plan)
    requires w.Valid() && p.burst == w.burst as real
    ensures Forgotten(p, w, After(p, w.Return(0)), 0)
  {
    hide Serve, ServeKeeping, After, AfterKeeping, Plan.Crowd, Crowded, Forgotten;
    var calls := w.Crowd(MAX_IDLE_BUCKETS + 1);
    CrowdIsCrowded(p, w, MAX_IDLE_BUCKETS + 1);
    AfterOneMore(p, calls, Call("z", w.sweep));
    SweepForgets(p, After(p, calls), MAX_IDLE_BUCKETS + 1, -w.skew, w.sweep);
    AbsentIsForgotten(p, w, After(p, w.Return(0)));
  }

  lemma AbsentIsForgotten(p: Params, w: Plan, m: Buckets)
    requires m.Keys == {"z"} && p.burst == w.burst as real
    ensures Forgotten(p, w, m, 0)
  {
    assert VICTIM !in m;
  }

  lemma ReturnStep(p: Params, w: Plan, m: Buckets, n: nat)
    requires w.Valid() && p.burst == w.burst as real && n < w.burst && Forgotten(p, w, m, n)
    ensures Serve(p, m, Call(VICTIM, w.late)).1
    ensures Forgotten(p, w, Serve(p, m, Call(VICTIM, w.late)).0, n + 1)
  {
    SmallTableKept(m, {"z", VICTIM}, w.late);
    AccruedAdds(p, w.late, w.late, w.late);
    hide Swept, Params.Accrued;
  }

  /** The returning key is offered a full bucket, and admitted burst times. */
  lemma {:induction false} ReturnForgotten(p: Params, w: Plan, n: nat)
    requires w.Valid() && p.burst == w.burst as real && n <= w.burst
    ensures Forgotten(p, w, After(p, w.Return(n)), n)
  {
    hide Forgotten, Serve, ServeKeeping, After, AfterKeeping;
    if n == 0 {
      ReturnStarts(p, w);
    } else {
      ReturnForgotten(p, w, n - 1);
      AfterOneMore(p, w.Return(n - 1), Call(VICTIM, w.late));
      ReturnStep(p, w, After(p, w.Return(n - 1)), n - 1);
    }
  }

  // ---------------------------------------------------------------------
  // The other limiter remembers it
  // ---------------------------------------------------------------------

  lemma {:induction false} DrainSpends(p: Params, w: Plan, n: nat)
    requires w.Valid() && p.burst == w.burst as real && 0 < n <= w.burst
    ensures var m := AfterKeeping(p, w.Drain(n));
            VICTIM in m && m[VICTIM] == Bucket((w.burst - n) as real, 0.0)
  {
    AfterOneMore(p, w.Drain(n - 1), Call(VICTIM, 0.0));
    if n > 1 {
      hide ServeKeeping, AfterKeeping, After;
      DrainSpends(p, w, n - 1);
      SpendOne(p, AfterKeeping(p, w.Drain(n - 1)), (w.burst - n + 1) as real);
    }
  }

  lemma SpendOne(p: Params, m: Buckets, tokens: real)
    requires VICTIM in m && m[VICTIM] == Bucket(tokens, 0.0) && 1.0 <= tokens <= p.burst
    ensures var m' := ServeKeeping(p, m, Call(VICTIM, 0.0)).0; VICTIM in m' && m'[VICTIM] == Bucket(tokens - 1.0, 0.0)
  {
    AccruedAdds(p, 0.0, 0.0, 0.0);
    hide Params.Accrued;
  }

  /** The drained key is in debt by what accrues over the skew. */
  ghost predicate InDebt(p: Params, w: Plan, m: Buckets) {
    VICTIM in m && m[VICTIM] == Bucket(p.Accrued(0.0, -w.skew), -w.skew)
  }

  lemma DebtStarts(p: Params, w: Plan)
    requires w.Valid() && p.perSecond > 0.0 && p.burst == w.burst as real
    ensures InDebt(p, w, AfterKeeping(p, w.Crowd(0)))
  {
    DrainSpends(p, w, w.burst);
    AfterOneMore(p, w.Drain(w.burst), Call(VICTIM, -w.skew));
    AccruedGrows(p, 0.0, -w.skew, 0.0);
    AccruedAdds(p, 0.0, 0.0, 0.0);
    hide Params.Accrued;
  }

  lemma OtherKeyKeepsDebt(p: Params, w: Plan, m: Buckets, call: Call)
    requires InDebt(p, w, m) && call.key != VICTIM
    ensures InDebt(p, w, ServeKeeping(p, m, call).0)
  {
  }

  lemma {:induction false} CrowdKeepsDebt(p: Params, w: Plan, n: nat)
    requires w.Valid() && p.perSecond > 0.0 && p.burst == w.burst as real
    ensures InDebt(p, w, AfterKeeping(p, w.Crowd(n)))
  {
    hide InDebt, ServeKeeping, AfterKeeping;
    if n == 0 {
      DebtStarts(p, w);
    } else {
      CrowdKeepsDebt(p, w, n - 1);
      AfterOneMore(p, w.Crowd(n - 1), Call(Filler(n - 1), -w.skew));
      assert Filler(n - 1)[0] == 'k';
      OtherKeyKeepsDebt(p, w, AfterKeeping(p, w.Crowd(n - 1)), Call(Filler(n - 1), -w.skew));
    }
  }

  lemma DebtOffer(p: Params, w: Plan, m: Buckets)
    requires InDebt(p, w, m)
    ensures Offered(p, m, VICTIM, w.late) <= p.Accrued(0.0, w.late)
  {
    AccruedAdds(p, 0.0, -w.skew, w.late);
    hide Params.Accrued;
  }

  /** What the n-th return is offered by the limiter that never evicts. */
  function ReturnOffer(p: Params, w: Plan, n: nat): real {
    Offered(p, AfterKeeping(p, w.Return(n)), VICTIM, w.late)
  }

  lemma FirstReturn(p: Params, w: Plan)
    requires w.Valid() && p.perSecond > 0.0 && p.burst == w.burst as real
    ensures ReturnOffer(p, w, 0) <= p.Accrued(0.0, w.late)
  {
    hide After, AfterKeeping, Serve, ServeKeeping, Plan.Crowd, InDebt, Offered;
    var calls := w.Crowd(MAX_IDLE_BUCKETS + 1);
    CrowdKeepsDebt(p, w, MAX_IDLE_BUCKETS + 1);
    AfterOneMore(p, calls, Call("z", w.sweep));
    OtherKeyKeepsDebt(p, w, AfterKeeping(p, calls), Call("z", w.sweep));
    DebtOffer(p, w, AfterKeeping(p, w.Return(0)));
  }

  lemma NextReturn(p: Params, w: Plan, n: nat)
    requires ReturnOffer(p, w, n) >= 1.0
    ensures ReturnOffer(p, w, n + 1) <= ReturnOffer(p, w, n) - 1.0
  {
    AfterOneMore(p, w.Return(n), Call(VICTIM, w.late));
    AccruedAdds(p, w.late, w.late, w.late);
    hide Params.Accrued, AfterKeeping;
  }

  /** The returning key is soon refused: what accrued since time zero is all it has. */
  lemma {:induction false} ReturnRefused(p: Params, w: Plan, n: nat) returns (refused: nat)
    requires w.Valid() && p.perSecond > 0.0 && p.burst == w.burst as real
    ensures (refused < n && ReturnOffer(p, w, refused) < 1.0)
         || ReturnOffer(p, w, n) <= p.Accrued(0.0, w.late) - n as real
  {
    hide ReturnOffer;
    refused := 0;
    if n == 0 {
      FirstReturn(p, w);
    } else {
      refused := ReturnRefused(p, w, n - 1);
      if ReturnOffer(p, w, n - 1) < 1.0 {
        refused := n - 1;
      } else {
        NextReturn(p, w, n - 1);
      }
    }
  }

  lemma ReturnAnswers(p: Params, w: Plan, n: nat)
    requires w.Valid() && p.burst == w.burst as real && n < w.burst && ReturnOffer(p, w, n) < 1.0
    ensures |w.Return(n + 1)| == |w.Return(n)| + 1
    ensures Allowed(p, w.Return(n + 1), |w.Return(n)|) && !AllowedKeeping(p, w.Return(n + 1), |w.Return(n)|)
  {
    AfterOneMore(p, w.Return(n), Call(VICTIM, w.late));
    ReturnForgotten(p, w, n);
    ReturnStep(p, w, After(p, w.Return(n)), n);
    hide Serve, Offered, After, AfterKeeping, Forgotten;
  }

  /** The limiters differ on some call of the plan. */
  lemma PlanTells(p: Params, w: Plan)
    requires w.Valid() && p.perSecond > 0.0 && p.burst == w.burst as real && p.Accrued(0.0, w.late) < p.burst
    ensures !EvictionUnobservable(p, w.skew)
  {
    hide Params.Accrued, Plan.Return, Skewed, ReturnOffer;
    var refused := ReturnRefused(p, w, w.burst - 1);
    if ReturnOffer(p, w, w.burst - 1) < 1.0 { refused := w.burst - 1; }
    ReturnAnswers(p, w, refused);
    ReturnSkewed(w, refused + 1);
    var calls, i := w.Return(refused + 1), |w.Return(refused)|;
    assert Allowed(p, calls, i) && !AllowedKeeping(p, calls, i);
  }

  // ---------------------------------------------------------------------
  // The exact condition
  // ---------------------------------------------------------------------

  /** A late stamp that leaves the key short of a full bucket. */
  lemma ShortOfFull(p: Params, skew: real) returns (delay: real)
    requires p.perSecond > 0.0 && p.burst > 0.0 && skew >= 0.0 && !RefillsInTime(p, skew)
    ensures delay > 0.0
    ensures p.Accrued(0.0, Later(-skew, EVICT_AFTER - 2.0 * skew + delay)) < p.burst
  {
    var full := p.burst / p.perSecond;
    assert p.perSecond * full == p.burst;
    var idle := EVICT_AFTER - 2.0 * skew;
    if idle >= full { ProductGrows(p.perSecond, full, idle); }
    delay := (full - idle) / 2.0;
    ShortProduct(p, full, idle + delay);
    ProductGrows(p.perSecond, -skew, 0.0);
  }

  lemma ShortProduct(p: Params, full: real, at: real)
    requires p.perSecond > 0.0 && at < full
    ensures p.perSecond * at < p.perSecond * full
  {
    assert p.perSecond * (full - at) > 0.0;
  }

  /** Timestamps at most `skew` out of order: eviction is unobservable if and only if
      the configured rate refills the whole burst in 600 seconds less twice the skew. */
  lemma EvictionUnobservableIff(config: Config, skew: real)
    requires config.Enabled() && skew >= 0.0
    ensures EvictionUnobservable(ParamsOf(config), skew)
       <==> config.requestsPerSecond * (600.0 - 2.0 * skew) >= config.burst as real
  {
    var p := ParamsOf(config);
    if RefillsInTime(p, skew) {
      forall calls: seq<Call>, i: nat | Skewed(calls, skew) && i < |calls|
        ensures Allowed(p, calls, i) <==> AllowedKeeping(p, calls, i)
      {
        SimulationHolds(p, skew, calls, i);
      }
    } else {
      var delay := ShortOfFull(p, skew);
      var sweep := EVICT_AFTER - skew + delay;
      PlanTells(p, Plan(config.burst, skew, sweep, Later(-skew, sweep - skew)));
    }
  }

  /** In time order, then, it takes a rate that refills the burst in 600 seconds;
      and if nothing bounds the disorder, eviction can always be noticed. */
  lemma EvictionInOrderIff(config: Config)
    requires config.Enabled()
    ensures EvictionUnobservable(ParamsOf(config), 0.0)
       <==> config.requestsPerSecond * 600.0 >= config.burst as real
    ensures !EvictionUnobservable(ParamsOf(config), 300.0)
  {
    EvictionUnobservableIff(config, 0.0);
    EvictionUnobservableIff(config, 300.0);
  }
}
