/** What the limiter guarantees over whole runs of interleaved keys: the window
    bound and the independence of keys. */
module LimiterRuns {
  import opened RateLimiter

  // ---------------------------------------------------------------------
  // The window bound, on the evicting limiter, for any timestamps
  // ---------------------------------------------------------------------

  /** The table the i-th call of a run finds once any sweep is over. */
  function Seen(p: Params, calls: seq<Call>, i: nat): Buckets
    requires i < |calls|
  {
    if calls[i].key == "" then After(p, calls[..i]) else Swept(After(p, calls[..i]), calls[i].at)
  }

  /** The bucket of `key` is never evicted strictly after call s, up to call t. */
  ghost predicate KeptBetween(p: Params, calls: seq<Call>, key: string, s: nat, t: nat)
    requires t < |calls|
  {
    forall i :: s < i <= t ==> key in Seen(p, calls, i)
  }

  /** Calls of `key` admitted among s, ..., t-1. */
  function AdmittedCalls(p: Params, calls: seq<Call>, key: string, s: nat, t: nat): nat
    requires s <= t <= |calls|
  {
    if s == t then 0
    else AdmittedCalls(p, calls, key, s, t - 1)
         + (if calls[t - 1].key == key && Allowed(p, calls, t - 1) then 1 else 0)
  }

  /** What a bucket could ever give out, counted back to time zero. */
  function Potential(p: Params, bucket: Bucket): real {
    bucket.tokens - p.perSecond * bucket.lastSeen
  }

  /** Refilling never raises the potential, because of the cap; spending costs one. */
  lemma ChargeLowersPotential(p: Params, m: Buckets, key: string, now: real)
    requires key in m
    ensures Potential(p, Charged(p, m, key, now)[key])
         <= Potential(p, m[key]) - (if Offered(p, m, key, now) >= 1.0 then 1.0 else 0.0)
  {
    var bucket := m[key];
    assert p.Accrued(bucket.lastSeen, now) == p.perSecond * now - p.perSecond * bucket.lastSeen;
    assert Charged(p, m, key, now)[key] == Bucket(Spent(Offered(p, m, key, now)), now);
  }

  lemma ServeLowersPotential(p: Params, m: Buckets, key: string, call: Call)
    requires key != "" && key in (if call.key == "" then m else Swept(m, call.at))
    ensures key in m && key in Serve(p, m, call).0
    ensures Potential(p, Serve(p, m, call).0[key])
         <= Potential(p, m[key]) - (if call.key == key && Serve(p, m, call).1 then 1.0 else 0.0)
  {
    hide Potential;
    if call.key == key {
      ChargeLowersPotential(p, Swept(m, call.at), key, call.at);
    }
  }

  /** One kept call never raises the potential of a key, and an admission costs it one. */
  lemma PotentialStep(p: Params, calls: seq<Call>, key: string, i: nat)
    requires i < |calls| && key != "" && key in Seen(p, calls, i)
    ensures key in After(p, calls[..i]) && key in After(p, calls[..i + 1])
    ensures Potential(p, After(p, calls[..i + 1])[key])
         <= Potential(p, After(p, calls[..i])[key])
            - (if calls[i].key == key && Allowed(p, calls, i) then 1.0 else 0.0)
  {
    hide Potential, Serve, Swept;
    AfterStep(p, calls, i);
    ServeLowersPotential(p, After(p, calls[..i]), key, calls[i]);
  }

  lemma FirstCallCharged(p: Params, calls: seq<Call>, key: string, s: nat)
    requires s < |calls| && key != "" && calls[s].key == key
    ensures key in After(p, calls[..s + 1])
    ensures var b := After(p, calls[..s + 1])[key];
            && b.lastSeen == calls[s].at
            && b.tokens <= p.burst - (if Allowed(p, calls, s) then 1.0 else 0.0)
            && (Allowed(p, calls, s) ==> b.tokens >= 0.0)
  {
    AfterStep(p, calls, s);
  }

  lemma PotentialAtStart(p: Params, calls: seq<Call>, key: string, s: nat)
    requires s < |calls| && key != "" && calls[s].key == key
    ensures key in After(p, calls[..s + 1])
    ensures Potential(p, After(p, calls[..s + 1])[key]) + AdmittedCalls(p, calls, key, s, s + 1) as real
         <= p.burst - p.perSecond * calls[s].at
  {
    hide Serve, Swept, After;
    FirstCallCharged(p, calls, key, s);
    var bucket := After(p, calls[..s + 1])[key];
    assert AdmittedCalls(p, calls, key, s, s) == 0;
    assert AdmittedCalls(p, calls, key, s, s + 1) == if Allowed(p, calls, s) then 1 else 0;
    assert p.perSecond * bucket.lastSeen == p.perSecond * calls[s].at;
  }

  lemma {:induction false} PotentialOverWindow(p: Params, calls: seq<Call>, key: string, s: nat, t: nat)
    requires s <= t < |calls| && key != "" && calls[s].key == key
    requires KeptBetween(p, calls, key, s, t)
    ensures key in After(p, calls[..t + 1])
    ensures Potential(p, After(p, calls[..t + 1])[key]) + AdmittedCalls(p, calls, key, s, t + 1) as real
         <= p.burst - p.perSecond * calls[s].at
    decreases t
  {
    hide Serve, Swept;
    if s == t {
      PotentialAtStart(p, calls, key, s);
    } else {
      PotentialOverWindow(p, calls, key, s, t - 1);
      PotentialStep(p, calls, key, t);
    }
  }

  /** From any call stamped s to an admitted call stamped t of the same key, at
      most burst + rate * (t - s) calls are admitted, in whatever order the
      timestamps come, as long as the key is not evicted in between. */
  lemma WindowBound(p: Params, calls: seq<Call>, key: string, s: nat, t: nat)
    requires s <= t < |calls| && key != "" && calls[s].key == key && calls[t].key == key
    requires KeptBetween(p, calls, key, s, t) && Allowed(p, calls, t)
    ensures AdmittedCalls(p, calls, key, s, t + 1) as real <= p.burst + p.Accrued(calls[s].at, calls[t].at)
  {
    hide Serve, Swept;
    PotentialOverWindow(p, calls, key, s, t);
    FirstCallCharged(p, calls, key, t);
    var bucket := After(p, calls[..t + 1])[key];
    assert p.perSecond * bucket.lastSeen == p.perSecond * calls[t].at;
    assert p.Accrued(calls[s].at, calls[t].at) == p.perSecond * calls[t].at - p.perSecond * calls[s].at;
  }

  // ---------------------------------------------------------------------
  // The reference limiter treats every key on its own
  // ---------------------------------------------------------------------

  /** The timestamps of the calls made on `key`. */
  function TimesOf(calls: seq<Call>, key: string): (ts: seq<real>)
    ensures |ts| <= |calls|
  {
    if calls == [] then []
    else
      var rest := TimesOf(calls[..|calls| - 1], key);
      if calls[|calls| - 1].key == key then rest + [calls[|calls| - 1].at] else rest
  }

  lemma {:induction false} AvailableOfPrefix(p: Params, ts: seq<real>, t: real, j: nat)
    requires j < |ts|
    ensures Available(p, ts + [t], j) == Available(p, ts, j)
  {
    if j > 0 { AvailableOfPrefix(p, ts, t, j - 1); }
  }

  lemma {:induction false} ReferenceBucket(p: Params, calls: seq<Call>, key: string)
    requires key != ""
    ensures var ts := TimesOf(calls, key);
            && (key in AfterKeeping(p, calls) <==> ts != [])
            && (ts != [] ==> AfterKeeping(p, calls)[key] == Bucket(Spent(Available(p, ts, |ts| - 1)), ts[|ts| - 1]))
  {
    if calls != [] {
      var n := |calls| - 1;
      ReferenceBucket(p, calls[..n], key);
      var ts := TimesOf(calls[..n], key);
      if calls[n].key == key && ts != [] {
        AvailableOfPrefix(p, ts, calls[n].at, |ts| - 1);
      }
    }
  }

  /** Without eviction, the answer to a call depends on the earlier calls of its
      own key only: it is the single-bucket answer on that key's timestamps. */
  lemma KeysAreIndependent(p: Params, calls: seq<Call>, i: nat)
    requires i < |calls| && calls[i].key != ""
    ensures var ts := TimesOf(calls[..i + 1], calls[i].key);
            ts != [] && (AllowedKeeping(p, calls, i) <==> Admitted(p, ts, |ts| - 1))
  {
    var key := calls[i].key;
    assert calls[..i + 1][..i] == calls[..i];
    ReferenceBucket(p, calls[..i], key);
    var ts := TimesOf(calls[..i], key);
    assert TimesOf(calls[..i + 1], key) == ts + [calls[i].at];
    if ts != [] { AvailableOfPrefix(p, ts, calls[i].at, |ts| - 1); }
  }
}
