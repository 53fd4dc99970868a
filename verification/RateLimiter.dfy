/** The per-key token bucket of the HTTP layer: one lazily refilled bucket per
    key, with stale buckets swept once the table grows past a soft cap. Time is
    a real number of seconds and tokens are reals. */
module RateLimiter {

  const MAX_IDLE_BUCKETS: nat := 10000
  const EVICT_AFTER: real := 600.0

  datatype Config = Config(requestsPerSecond: real, burst: int) {
    predicate Enabled() {
      requestsPerSecond > 0.0 && burst > 0
    }
  }

  datatype Bucket = Bucket(tokens: real, lastSeen: real)

  type Buckets = map<string, Bucket>

  /** The two numbers a limiter is built with. */
  datatype Params = Params(perSecond: real, burst: real) {
    /** Tokens that accrue between two instants (negative when `to` is earlier). */
    function Accrued(from: real, to: real): real {
      perSecond * (to - from)
    }
  }

  function ParamsOf(config: Config): Params {
    Params(config.requestsPerSecond, config.burst as real)
  }

  function Min(a: real, b: real): real {
    if a <= b then a else b
  }

  // ---------------------------------------------------------------------
  // One call, as a function of the table
  // ---------------------------------------------------------------------

  datatype Call = Call(key: string, at: real)

  predicate Stale(bucket: Bucket, now: real) {
    now - bucket.lastSeen > EVICT_AFTER
  }

  function Sweep(m: Buckets, now: real): Buckets {
    map k | k in m && !Stale(m[k], now) :: m[k]
  }

  /** The table a keyed call works on: swept only when it has outgrown the cap. */
  function Swept(m: Buckets, now: real): Buckets {
    if |m| > MAX_IDLE_BUCKETS then Sweep(m, now) else m
  }

  /** Tokens the bucket of `key` offers at `now`, before spending one. */
  function Offered(p: Params, m: Buckets, key: string, now: real): real {
    if key in m then Min(m[key].tokens + p.Accrued(m[key].lastSeen, now), p.burst) else p.burst
  }

  function Spent(offered: real): real {
    if offered >= 1.0 then offered - 1.0 else offered
  }

  function Charged(p: Params, m: Buckets, key: string, now: real): Buckets {
    m[key := Bucket(Spent(Offered(p, m, key, now)), now)]
  }

  /** The table after one call, and the answer given. */
  function Serve(p: Params, m: Buckets, call: Call): (Buckets, bool) {
    if call.key == "" then (m, true)
    else
      var swept := Swept(m, call.at);
      (Charged(p, swept, call.key, call.at), Offered(p, swept, call.key, call.at) >= 1.0)
  }

  class Limiter {
    const params: Params
    var buckets: Buckets

    constructor (config: Config)
      requires config.Enabled()
      ensures params == ParamsOf(config)
      ensures buckets == map[]
    {
      params := ParamsOf(config);
      buckets := map[];
    }

    method Allow(key: string, now: real) returns (allowed: bool)
      modifies this
      ensures (buckets, allowed) == Serve(params, old(buckets), Call(key, now))
      ensures key == "" ==> allowed && buckets == old(buckets)
    {
      if key == "" {
        return true;
      }
      if |buckets| > MAX_IDLE_BUCKETS {
        EvictStale(now);
      }
      var bucket: Bucket;
      if key !in buckets {
        bucket := Bucket(params.burst, now);
      } else {
        bucket := buckets[key];
        var elapsed := now - bucket.lastSeen;
        assert params.Accrued(bucket.lastSeen, now) == params.perSecond * elapsed;
        bucket := bucket.(tokens := bucket.tokens + params.perSecond * elapsed);
        if bucket.tokens > params.burst {
          bucket := bucket.(tokens := params.burst);
        }
        bucket := bucket.(lastSeen := now);
      }
      allowed := bucket.tokens >= 1.0;
      if allowed {
        bucket := bucket.(tokens := bucket.tokens - 1.0);
      }
      buckets := buckets[key := bucket];
    }

    method EvictStale(now: real)
      modifies this
      ensures buckets == Sweep(old(buckets), now)
    {
      var pending := buckets.Keys;
      while pending != {}
        invariant pending <= old(buckets).Keys
        invariant buckets == map k | k in old(buckets) && (k in pending || !Stale(old(buckets)[k], now)) :: old(buckets)[k]
        decreases pending
      {
        var key :| key in pending;
        pending := pending - {key};
        if now - buckets[key].lastSeen > EVICT_AFTER {
          buckets := buckets - {key};
        }
      }
    }
  }

  /** No limiter is built from a configuration that is not enabled. */
  method NewRateLimiter(config: Config) returns (limiter: Limiter?)
    ensures limiter == null <==> config.requestsPerSecond <= 0.0 || config.burst <= 0
    ensures limiter != null ==> fresh(limiter) && limiter.params == ParamsOf(config) && limiter.buckets == map[]
  {
    if !config.Enabled() {
      return null;
    }
    limiter := new Limiter(config);
  }

  /** A table of at most ten thousand keys is never swept; a larger one loses, on a
      call of any key, exactly the keys idle for more than ten minutes. */
  lemma SweptOnlyBeyondCap(p: Params, m: Buckets, call: Call, k: string)
    requires call.key != "" && k != call.key && k in m
    ensures k in Serve(p, m, call).0 <==> |m| <= 10000 || call.at - m[k].lastSeen <= 600.0
    ensures k in Serve(p, m, call).0 ==> Serve(p, m, call).0[k] == m[k]
  {
  }

  // ---------------------------------------------------------------------
  // Whole runs, with and without eviction
  // ---------------------------------------------------------------------

  /** The table after a run of calls on a new limiter. */
  function After(p: Params, calls: seq<Call>): Buckets {
    if calls == [] then map[] else Serve(p, After(p, calls[..|calls| - 1]), calls[|calls| - 1]).0
  }

  /** The answer the limiter gives to the i-th call of a run. */
  predicate Allowed(p: Params, calls: seq<Call>, i: nat)
    requires i < |calls|
  {
    Serve(p, After(p, calls[..i]), calls[i]).1
  }

  function ServeKeeping(p: Params, m: Buckets, call: Call): (Buckets, bool) {
    if call.key == "" then (m, true)
    else (Charged(p, m, call.key, call.at), Offered(p, m, call.key, call.at) >= 1.0)
  }

  /** The reference limiter: the same bucket arithmetic, never evicting. */
  function AfterKeeping(p: Params, calls: seq<Call>): Buckets {
    if calls == [] then map[] else ServeKeeping(p, AfterKeeping(p, calls[..|calls| - 1]), calls[|calls| - 1]).0
  }

  predicate AllowedKeeping(p: Params, calls: seq<Call>, i: nat)
    requires i < |calls|
  {
    ServeKeeping(p, AfterKeeping(p, calls[..i]), calls[i]).1
  }

  lemma AfterStep(p: Params, calls: seq<Call>, i: nat)
    requires i < |calls|
    ensures After(p, calls[..i + 1]) == Serve(p, After(p, calls[..i]), calls[i]).0
    ensures AfterKeeping(p, calls[..i + 1]) == ServeKeeping(p, AfterKeeping(p, calls[..i]), calls[i]).0
  {
    assert calls[..i + 1][..i] == calls[..i];
  }

  // ---------------------------------------------------------------------
  // One bucket: the exact admission law
  // ---------------------------------------------------------------------

  /** Tokens offered to the j-th of the calls made at `ts` on one key. */
  function Available(p: Params, ts: seq<real>, j: nat): real
    requires j < |ts|
  {
    if j == 0 then p.burst
    else Min(Spent(Available(p, ts, j - 1)) + p.Accrued(ts[j - 1], ts[j]), p.burst)
  }

  predicate Admitted(p: Params, ts: seq<real>, j: nat)
    requires j < |ts|
  {
    Available(p, ts, j) >= 1.0
  }

  /** How many of the calls i, ..., j-1 were admitted. */
  function Admissions(p: Params, ts: seq<real>, i: nat, j: nat): nat
    requires i <= j <= |ts|
  {
    if i == j then 0 else Admissions(p, ts, i, j - 1) + (if Admitted(p, ts, j - 1) then 1 else 0)
  }

  /** What the window that opens at call i leaves for call j. */
  function Room(p: Params, ts: seq<real>, i: nat, j: nat): real
    requires i <= j < |ts|
  {
    p.burst + p.Accrued(ts[i], ts[j]) - Admissions(p, ts, i, j) as real
  }

  lemma AccruedAdds(p: Params, a: real, b: real, c: real)
    ensures p.Accrued(a, b) + p.Accrued(b, c) == p.Accrued(a, c)
    ensures p.Accrued(a, a) == 0.0
  {
  }

  lemma RoomStep(p: Params, ts: seq<real>, i: nat, j: nat)
    requires i < j < |ts|
    ensures Room(p, ts, i, j) - Room(p, ts, i, j - 1)
         == p.Accrued(ts[j - 1], ts[j]) + Spent(Available(p, ts, j - 1)) - Available(p, ts, j - 1)
  {
    AccruedAdds(p, ts[i], ts[j - 1], ts[j]);
  }

  /** The tokens on offer are the least room over all windows ending now. This
      holds for any timestamps, in or out of order, and whatever was refused. */
  lemma {:induction false} AvailableIsLeastRoom(p: Params, ts: seq<real>, j: nat)
    requires j < |ts|
    ensures forall i :: 0 <= i <= j ==> Available(p, ts, j) <= Room(p, ts, i, j)
    ensures exists i :: 0 <= i <= j && Available(p, ts, j) == Room(p, ts, i, j)
  {
    AccruedAdds(p, ts[j], ts[j], ts[j]);
    assert Room(p, ts, j, j) == p.burst;
    if j > 0 {
      AvailableIsLeastRoom(p, ts, j - 1);
      forall i | 0 <= i <= j
        ensures Available(p, ts, j) <= Room(p, ts, i, j)
      {
        if i < j { RoomStep(p, ts, i, j); }
      }
      var i :| 0 <= i <= j - 1 && Available(p, ts, j - 1) == Room(p, ts, i, j - 1);
      RoomStep(p, ts, i, j);
    }
  }

  /** A call is admitted exactly when every window ending with it has room for one more. */
  lemma AdmittedIffRoom(p: Params, ts: seq<real>, j: nat)
    requires j < |ts|
    ensures Admitted(p, ts, j) <==> forall i :: 0 <= i <= j ==> Room(p, ts, i, j) >= 1.0
  {
    AvailableIsLeastRoom(p, ts, j);
  }

  /** A sequence of calls conforms to (rate, burst) when no window of it holds
      more calls than burst plus what accrues across the window. */
  ghost predicate Conforms(p: Params, ts: seq<real>) {
    forall i, j :: 0 <= i <= j < |ts| ==> (j - i + 1) as real <= p.burst + p.Accrued(ts[i], ts[j])
  }

  ghost predicate AllAdmitted(p: Params, ts: seq<real>, n: nat)
    requires n <= |ts|
  {
    forall j :: 0 <= j < n ==> Admitted(p, ts, j)
  }

  lemma {:induction false} AllAdmittedCounts(p: Params, ts: seq<real>, i: nat, j: nat)
    requires i <= j <= |ts| && AllAdmitted(p, ts, j)
    ensures Admissions(p, ts, i, j) == j - i
  {
    if i < j { AllAdmittedCounts(p, ts, i, j - 1); }
  }

  lemma {:induction false} ConformingPrefixAdmitted(p: Params, ts: seq<real>, n: nat)
    requires n <= |ts| && Conforms(p, ts)
    ensures AllAdmitted(p, ts, n)
  {
    if n > 0 {
      ConformingPrefixAdmitted(p, ts, n - 1);
      var j := n - 1;
      forall i | 0 <= i <= j
        ensures Room(p, ts, i, j) >= 1.0
      {
        AllAdmittedCounts(p, ts, i, j);
      }
      AdmittedIffRoom(p, ts, j);
    }
  }

  /** A sequence of calls on one key is wholly admitted exactly when it conforms. */
  lemma WhollyAdmittedIffConforms(p: Params, ts: seq<real>)
    ensures AllAdmitted(p, ts, |ts|) <==> Conforms(p, ts)
  {
    if Conforms(p, ts) {
      ConformingPrefixAdmitted(p, ts, |ts|);
    }
    if AllAdmitted(p, ts, |ts|) {
      forall i, j | 0 <= i <= j < |ts|
        ensures (j - i + 1) as real <= p.burst + p.Accrued(ts[i], ts[j])
      {
        AdmittedIffRoom(p, ts, j);
        AllAdmittedCounts(p, ts, i, j);
        assert Room(p, ts, i, j) >= 1.0;
      }
    }
  }
}
