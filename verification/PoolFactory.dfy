/** `makePoolFactory` of packages/db/src/pool.ts: the closures that update the `cache` and
    `inflight` maps in place. Each method is one stretch of code between two `await`s and
    is proved to perform the matching step of PoolProtocol. */
module PoolFactory {
  import opened OrderedMap
  import P = PoolProtocol

  datatype Answer = Resolved(pool: P.PoolId) | Pending

  class Factory {
    const cacheSize: int
    var cache: OMap<P.Tenant, P.Entry>
    var inflight: map<P.Tenant, P.Phase>
    var timers: map<P.TimerId, P.Tenant>
    var nextTimer: P.TimerId
    var built: seq<P.Tenant>
    var ended: seq<P.PoolId>

    function Abs(): P.State
      reads this
    {
      P.State(cacheSize, cache, inflight, timers, nextTimer, built, ended)
    }

    /** The part of the invariant that the code itself relies on; P.StepKeepsInv gives the
        whole of it, since every method performs a step of the protocol. */
    ghost predicate Valid()
      reads this`cache, this`inflight
    {
      WellFormed(cache) && forall t :: t in cache.at ==> t !in inflight
    }

    constructor (cacheSize: int)
      ensures Valid() && Abs() == P.Init(cacheSize)
    {
      this.cacheSize := cacheSize;
      cache, inflight, timers, nextTimer := OMap([], map[]), map[], map[], 0;
      built, ended := [], [];
    }

    method ScheduleIdleEviction(t: P.Tenant) returns (id: P.TimerId)
      modifies this`timers, this`nextTimer
      ensures id == old(nextTimer) && nextTimer == id + 1
      ensures timers == old(timers)[id := t]
    {
      id := nextTimer;
      timers, nextTimer := timers[id := t], nextTimer + 1;
    }

    /** The synchronous part of `evict`; the caller awaits the end() it issues. */
    method Evict(t: P.Tenant)
      modifies this`cache, this`timers, this`ended
      ensures Abs() == if t in old(cache.at) then P.Evict(old(Abs()), t) else old(Abs())
    {
      if t !in cache.at { return; }
      var entry := cache.at[t];
      cache := Delete(cache, t);
      timers := timers - {entry.idleTimer};
      ended := ended + [entry.pool];
    }

    /** A call of `poolForTenant`, up to its first `await`. */
    method PoolForTenant(t: P.Tenant) returns (r: Answer)
      requires Valid()
      modifies this
      ensures Valid() && Abs() == P.Next(old(Abs()), P.Lookup(t))
      ensures r == match P.Observe(old(Abs()), P.Lookup(t)) case Hit(_, p) => Resolved(p) case _ => Pending
    {
      if t in cache.at {
        var cached := cache.at[t];
        DeleteKeeps(cache, t);
        AppendKeeps(Delete(cache, t), t, P.Entry(cached.pool, nextTimer));
        timers := timers - {cached.idleTimer};
        var timer := ScheduleIdleEviction(t);
        cache := Delete(cache, t);
        cache := Set(cache, t, P.Entry(cached.pool, timer));
        return Resolved(cached.pool);
      }
      if t !in inflight {
        inflight := inflight[t := P.Fetching];
      }
      r := Pending;
    }

    /** The secret has arrived: `load` constructs the pool. */
    method Fetched(t: P.Tenant)
      requires Valid() && t in inflight && inflight[t].Fetching?
      modifies this`built, this`inflight
      ensures Valid() && Abs() == P.Next(old(Abs()), P.FetchOk(t))
    {
      inflight := inflight[t := P.Checking(|built|)];
      built := built + [t];
    }

    /** `load` rejects: the `finally` block clears the in-flight entry. */
    method FetchFailed(t: P.Tenant)
      requires Valid() && t in inflight && inflight[t].Fetching?
      modifies this`inflight
      ensures Valid() && Abs() == P.Next(old(Abs()), P.FetchFail(t))
    {
      inflight := inflight - {t};
    }

    /** One test of the loop `while (cache.size >= cacheSize)`: evict the first key and
        suspend, or insert the loaded pool and finish. */
    method TakeTurn(t: P.Tenant) returns (r: Answer)
      requires Valid() && t in inflight && inflight[t].Checking?
      modifies this
      ensures Valid() && Abs() == P.Next(old(Abs()), P.Turn(t))
      ensures r == match P.Observe(old(Abs()), P.Turn(t)) case Inserted(_, p) => Resolved(p) case _ => Pending
    {
      var pool := inflight[t].pool;
      if |cache.order| >= cacheSize && |cache.order| > 0 {
        var oldestKey := cache.order[0];
        var victim := cache.at[oldestKey].pool;
        Evict(oldestKey);
        inflight := inflight[t := P.Evicting(pool, victim)];
        r := Pending;
      } else {
        Publish(t);
        r := Resolved(pool);
      }
    }

    /** The end of a load: cache the pool as newest entry and leave the in-flight map. */
    method Publish(t: P.Tenant)
      requires Valid() && t in inflight && inflight[t].Checking?
      modifies this`cache, this`timers, this`nextTimer, this`inflight
      ensures Valid() && cache.order == old(cache.order) + [t]
      ensures Abs() == P.Insert(old(Abs()), t, old(inflight[t].pool))
    {
      var pool := inflight[t].pool;
      AppendKeeps(cache, t, P.Entry(pool, nextTimer));
      var timer := ScheduleIdleEviction(t);
      cache := Set(cache, t, P.Entry(pool, timer));
      inflight := inflight - {t};
    }

    method EndSettled(t: P.Tenant)
      requires Valid() && t in inflight && inflight[t].Evicting?
      modifies this`inflight
      ensures Valid() && Abs() == P.Next(old(Abs()), P.EndDone(t))
    {
      inflight := inflight[t := P.Checking(inflight[t].pool)];
    }

    method IdleTimeout(id: P.TimerId)
      requires Valid() && id in timers
      modifies this
      ensures Valid() && Abs() == P.Next(old(Abs()), P.TimerFire(id))
    {
      var t := timers[id];
      if t in cache.at { DeleteKeeps(cache, t); }
      timers := timers - {id};
      Evict(t);
    }

    /** The whole capacity loop when nothing interleaves: the `k` least recently used
        entries are ended in that order, the others stay as they are and keep their order,
        and the new entry comes last. */
    method FinishLoad(t: P.Tenant) returns (pool: P.PoolId)
      requires Valid() && t in inflight && inflight[t].Checking?
      modifies this
      ensures Valid() && pool == old(inflight[t].pool)
      ensures var k := Overflow(cacheSize, |old(cache.order)|);
              && cache.order == old(cache.order)[k..] + [t]
              && ended == old(ended) + Pools(old(cache), k)
      ensures t in cache.at && cache.at[t] == P.Entry(pool, old(nextTimer))
      ensures forall x :: x in cache.at && x != t ==> x in old(cache.at) && cache.at[x] == old(cache.at)[x]
      ensures inflight == old(inflight) - {t} && built == old(built)
    {
      pool := inflight[t].pool;
      MakeRoom(t);
      Publish(t);
    }

    method MakeRoom(t: P.Tenant)
      requires Valid() && t in inflight && inflight[t].Checking?
      modifies this
      ensures Valid() && inflight == old(inflight) && built == old(built) && nextTimer == old(nextTimer)
      ensures var k := Overflow(cacheSize, |old(cache.order)|);
              && cache.order == old(cache.order)[k..]
              && ended == old(ended) + Pools(old(cache), k)
      ensures forall x :: x in cache.at ==> x in old(cache.at) && cache.at[x] == old(cache.at)[x]
    {
      ghost var k := 0;
      ghost var was := cache;
      while |cache.order| >= cacheSize && |cache.order| > 0
        invariant k <= Overflow(cacheSize, |was.order|) && cache.order == was.order[k..]
        invariant ended == old(ended) + Pools(was, k)
        invariant forall x :: x in cache.at ==> x in was.at && cache.at[x] == was.at[x]
        invariant Valid() && inflight == old(inflight) && built == old(built) && nextTimer == old(nextTimer)
        decreases |cache.order|
      {
        assert cache.order[0] == was.order[k];
        EvictOldest(t);
        k := k + 1;
      }
    }

    /** One iteration of the capacity loop with its await: a turn and the end of end(). */
    method EvictOldest(t: P.Tenant)
      requires Valid() && t in inflight && inflight[t].Checking?
      requires |cache.order| >= cacheSize && |cache.order| > 0
      modifies this
      ensures Valid() && inflight == old(inflight) && built == old(built) && nextTimer == old(nextTimer)
      ensures cache.order == old(cache.order)[1..] && cache.at == old(cache.at) - {old(cache.order)[0]}
      ensures ended == old(ended) + [old(cache.at)[old(cache.order)[0]].pool]
    {
      DeletesFirst(cache);
      ghost var loads := inflight;
      var r := TakeTurn(t);
      EndSettled(t);
      assert inflight == loads;
    }
  }

  /** How many entries must go before one more fits; all of them when the size is below 1. */
  function Overflow(cacheSize: int, cached: nat): (k: nat)
    ensures k <= cached
  {
    if cacheSize < 1 then cached
    else if cached < cacheSize then 0
    else cached - cacheSize + 1
  }

  /** The pools of the first `k` entries, oldest first. */
  ghost function Pools(m: OMap<P.Tenant, P.Entry>, k: nat): seq<P.PoolId>
    requires WellFormed(m) && k <= |m.order|
  {
    if k == 0 then [] else Pools(m, k - 1) + [m.at[m.order[k - 1]].pool]
  }
}
