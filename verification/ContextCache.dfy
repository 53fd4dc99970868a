/** The cache of analysis contexts with expiry. A lookup reads under a read lock,
    then checks the clock, then deletes under a write lock: three steps. */
module ContextCache {
  import opened Domain

  datatype Entry = Entry(context: AnalysisContext, expiresAt: Instant)

  type Contexts = map<string, Entry>

  function Stored(m: Contexts, context: AnalysisContext, ttl: int, now: Instant): Contexts {
    m[context.analysisId := Entry(context, now + ttl)]
  }

  predicate Expired(e: Entry, now: Instant) {
    now > e.expiresAt
  }

  /** An undisturbed lookup: the answer, and the table afterwards. */
  function Lookup(m: Contexts, id: string, now: Instant): (Option<AnalysisContext>, Contexts) {
    if id !in m then (None, m)
    else if Expired(m[id], now) then (None, m - {id})
    else (Some(m[id].context), m)
  }

  /** A saved context is found until its time to live is over and missed from then
      on, when the lookup also drops it; the other contexts are left alone. */
  lemma SavedUntilExpiry(m: Contexts, context: AnalysisContext, ttl: int, saved: Instant, later: Instant, other: string)
    requires other != context.analysisId
    ensures var id := context.analysisId;
            var m1 := Stored(m, context, ttl, saved);
            var (found, m2) := Lookup(m1, id, later);
            && (found == if later <= saved + ttl then Some(context) else None)
            && (id in m2 <==> later <= saved + ttl)
            && (other in m2 <==> other in m) && (other in m ==> m2[other] == m[other])
  {
  }

  /** A lookup of an id that was never saved finds nothing. */
  lemma UnsavedIsMissed(m: Contexts, id: string, now: Instant)
    requires id !in m
    ensures Lookup(m, id, now) == (None, m)
  {
  }

  class AnalysisContextCache {
    var contexts: Contexts

    constructor ()
      ensures contexts == map[]
    {
      contexts := map[];
    }

    method Save(context: AnalysisContext, ttl: int, now: Instant)
      modifies this
      ensures contexts == Stored(old(contexts), context, ttl, now)
    {
      contexts := contexts[context.analysisId := Entry(context, now + ttl)];
    }

    method Find(id: string, now: Instant) returns (found: Option<AnalysisContext>)
      modifies this
      ensures (found, contexts) == Lookup(old(contexts), id, now)
    {
      if id !in contexts {
        return None;
      }
      var item := contexts[id];
      if now > item.expiresAt {
        contexts := contexts - {id};
        return None;
      }
      found := Some(item.context);
    }
  }
}
