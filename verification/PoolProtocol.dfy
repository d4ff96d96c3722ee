/** The per-tenant connection pool cache of packages/db/src/pool.ts as a transition system.
    A step is one stretch of code between two `await`s, so every interleaving of requests,
    loads, evictions and idle timers is a sequence of events. An event that the runtime
    could not deliver in a state leaves that state unchanged; hence every sequence of
    events is a run. */
module PoolProtocol {
  import opened Options
  import opened OrderedMap

  datatype Tenant = Tenant(id: string)
  type PoolId = nat
  type TimerId = nat

  datatype Entry = Entry(pool: PoolId, idleTimer: TimerId)

  /** Where the asynchronous load of a tenant is suspended. */
  datatype Phase =
    | Fetching                                  // awaiting load(), i.e. the secret
    | Checking(pool: PoolId)                    // about to test the capacity loop
    | Evicting(pool: PoolId, victim: PoolId)    // awaiting evict(oldestKey)

  /** `built[p]` is the tenant whose configuration pool `p` was constructed from;
      `ended` lists the calls of `pool.end()`; `timers` are the pending timeouts. */
  datatype State = State(
    cacheSize: int,
    cache: OMap<Tenant, Entry>,
    inflight: map<Tenant, Phase>,
    timers: map<TimerId, Tenant>,
    nextTimer: TimerId,
    built: seq<Tenant>,
    ended: seq<PoolId>)

  datatype Event =
    | Lookup(tenant: Tenant)       // poolForTenant is called
    | FetchOk(tenant: Tenant)      // fetchSecret resolves and the pool is constructed
    | FetchFail(tenant: Tenant)    // fetchSecret or the constructor fails
    | Turn(tenant: Tenant)         // the load tests its capacity loop
    | EndDone(tenant: Tenant)      // the end() that the load awaits settles
    | TimerFire(timer: TimerId)    // an idle timeout expires

  datatype Observation =
    | Hit(tenant: Tenant, pool: PoolId)
    | Joined(tenant: Tenant)
    | Started(tenant: Tenant)
    | Failed(tenant: Tenant)
    | Inserted(tenant: Tenant, pool: PoolId)
    | CapacityEvicted(tenant: Tenant)
    | IdleEvicted(tenant: Tenant)
    | Silent

  function Init(cacheSize: int): State {
    State(cacheSize, OMap([], map[]), map[], map[], 0, [], [])
  }

  /** A use moves the entry to the most recent end and gives it a fresh idle timer. */
  function Touch(s: State, t: Tenant): State
    requires t in s.cache.at
  {
    var e := s.cache.at[t];
    var d := Delete(s.cache, t);
    s.(cache := OMap(d.order + [t], d.at[t := Entry(e.pool, s.nextTimer)]),
       timers := (s.timers - {e.idleTimer})[s.nextTimer := t],
       nextTimer := s.nextTimer + 1)
  }

  /** Eviction removes entry and timer and ends the pool. */
  function Evict(s: State, t: Tenant): State
    requires t in s.cache.at
  {
    s.(cache := Delete(s.cache, t),
       timers := s.timers - {s.cache.at[t].idleTimer},
       ended := s.ended + [s.cache.at[t].pool])
  }

  /** The load publishes its pool as most recent entry and leaves the in-flight map. */
  function Insert(s: State, t: Tenant, p: PoolId): State {
    s.(cache := OMap(s.cache.order + [t], s.cache.at[t := Entry(p, s.nextTimer)]),
       timers := s.timers[s.nextTimer := t],
       nextTimer := s.nextTimer + 1,
       inflight := s.inflight - {t})
  }

  predicate Full(s: State) {
    |s.cache.order| >= s.cacheSize && |s.cache.order| > 0
  }

  predicate CanTurn(s: State, t: Tenant) {
    t in s.inflight && s.inflight[t].Checking? && (Full(s) ==> s.cache.order[0] in s.cache.at)
  }

  /** The load of t evicts v and waits for its pool to end. */
  function EvictFor(s: State, t: Tenant, v: Tenant): State
    requires t in s.inflight && !s.inflight[t].Fetching? && v in s.cache.at
  {
    Evict(s, v).(inflight := s.inflight[t := Evicting(s.inflight[t].pool, s.cache.at[v].pool)])
  }

  function Next(s: State, e: Event): State {
    match e
    case Lookup(t) =>
      if t in s.cache.at then Touch(s, t)
      else if t in s.inflight then s
      else s.(inflight := s.inflight[t := Fetching])
    case FetchOk(t) =>
      if t in s.inflight && s.inflight[t].Fetching? then
        s.(inflight := s.inflight[t := Checking(|s.built|)], built := s.built + [t])
      else s
    case FetchFail(t) =>
      if t in s.inflight && s.inflight[t].Fetching? then s.(inflight := s.inflight - {t}) else s
    case Turn(t) =>
      if !CanTurn(s, t) then s
      else if Full(s) then EvictFor(s, t, s.cache.order[0])
      else Insert(s, t, s.inflight[t].pool)
    case EndDone(t) =>
      if t in s.inflight && s.inflight[t].Evicting? then
        s.(inflight := s.inflight[t := Checking(s.inflight[t].pool)])
      else s
    case TimerFire(id) =>
      if id !in s.timers then s
      else
        var t := s.timers[id];
        var s' := s.(timers := s.timers - {id});
        if t in s.cache.at then Evict(s', t) else s'
  }

  /** What a caller, or an observer of the cache, sees of a step. */
  function Observe(s: State, e: Event): Observation {
    match e
    case Lookup(t) =>
      if t in s.cache.at then Hit(t, s.cache.at[t].pool)
      else if t in s.inflight then Joined(t)
      else Started(t)
    case FetchFail(t) => if t in s.inflight && s.inflight[t].Fetching? then Failed(t) else Silent
    case Turn(t) =>
      if !CanTurn(s, t) then Silent
      else if Full(s) then CapacityEvicted(s.cache.order[0])
      else Inserted(t, s.inflight[t].pool)
    case TimerFire(id) =>
      if id in s.timers && s.timers[id] in s.cache.at then IdleEvicted(s.timers[id]) else Silent
    case _ => Silent
  }

  /** The state after a sequence of events, and what was observed on the way. */
  function Exec(cacheSize: int, events: seq<Event>): State {
    if events == [] then Init(cacheSize)
    else Next(Exec(cacheSize, events[..|events| - 1]), events[|events| - 1])
  }

  function History(cacheSize: int, events: seq<Event>): (h: seq<Observation>)
    ensures |h| == |events|
  {
    if events == [] then []
    else
      var before := events[..|events| - 1];
      History(cacheSize, before) + [Observe(Exec(cacheSize, before), events[|events| - 1])]
  }

  // ---- the invariant ----

  predicate Holds(ph: Phase, p: PoolId) {
    !ph.Fetching? && ph.pool == p
  }

  ghost predicate CachedAt(at: map<Tenant, Entry>, t: Tenant, p: PoolId) {
    t in at && at[t].pool == p
  }

  ghost predicate HeldAt(inflight: map<Tenant, Phase>, t: Tenant, p: PoolId) {
    t in inflight && Holds(inflight[t], p)
  }

  ghost predicate Cached(s: State, p: PoolId)
    requires p < |s.built|
  {
    CachedAt(s.cache.at, s.built[p], p)
  }

  ghost predicate HeldByLoad(s: State, p: PoolId)
    requires p < |s.built|
  {
    HeldAt(s.inflight, s.built[p], p)
  }

  /** Cache keys and in-flight keys are disjoint; pending timers and cache entries
      correspond one to one; the cache stays within its size. */
  ghost predicate MapsAgree(s: State) {
    && WellFormed(s.cache)
    && (forall t :: t in s.cache.at ==> t !in s.inflight)
    && TimersMatch(s.cache.at, s.timers, s.nextTimer)
    && |s.cache.order| <= if s.cacheSize < 1 then 1 else s.cacheSize
  }

  ghost predicate TimersMatch(at: map<Tenant, Entry>, timers: map<TimerId, Tenant>, nextTimer: TimerId) {
    && (forall t :: t in at ==> at[t].idleTimer in timers && timers[at[t].idleTimer] == t)
    && (forall id :: id in timers ==> id < nextTimer && timers[id] in at && at[timers[id]].idleTimer == id)
  }

  /** Pools are where their tenant is, and a pool that is somewhere has not been ended. */
  ghost predicate PoolsPlaced(s: State) {
    Placed(s.cache.at, s.inflight, s.built, s.ended) && EndedOnce(s.built, s.ended)
  }

  ghost predicate Placed(at: map<Tenant, Entry>, inflight: map<Tenant, Phase>, built: seq<Tenant>, ended: seq<PoolId>) {
    && (forall t :: t in at ==> at[t].pool < |built| && built[at[t].pool] == t && at[t].pool !in ended)
    && (forall t :: t in inflight && !inflight[t].Fetching? ==>
          inflight[t].pool < |built| && built[inflight[t].pool] == t && inflight[t].pool !in ended)
    && (forall t :: t in inflight && inflight[t].Evicting? ==> inflight[t].victim in ended)
    && (forall p: nat :: p < |built| ==> p in ended || CachedAt(at, built[p], p) || HeldAt(inflight, built[p], p))
  }

  ghost predicate EndedOnce(built: seq<Tenant>, ended: seq<PoolId>) {
    && (forall i :: 0 <= i < |ended| ==> ended[i] < |built|)
    && (forall i, j :: 0 <= i < j < |ended| ==> ended[i] != ended[j])
  }

  ghost predicate Inv(s: State) {
    MapsAgree(s) && PoolsPlaced(s)
  }

  lemma {:induction false} TouchKeepsInv(s: State, t: Tenant)
    requires Inv(s) && t in s.cache.at
    ensures Inv(Touch(s, t))
  {
    TouchKeepsMaps(s, t);
    TouchKeepsPools(s, t);
  }

  lemma {:induction false} TouchKeepsPools(s: State, t: Tenant)
    requires Inv(s) && t in s.cache.at
    ensures PoolsPlaced(Touch(s, t))
  {
    var s' := Touch(s, t);
    assert forall x :: x in s.cache.at ==> s'.cache.at[x].pool == s.cache.at[x].pool;
    forall p: nat | p < |s.built|
      ensures p in s'.ended || Cached(s', p) || HeldByLoad(s', p)
    {
      assert Cached(s, p) ==> Cached(s', p);
      assert HeldByLoad(s, p) ==> HeldByLoad(s', p);
    }
  }

  lemma {:induction false} TouchKeepsMaps(s: State, t: Tenant)
    requires MapsAgree(s) && t in s.cache.at
    ensures MapsAgree(Touch(s, t))
  {
    var e := s.cache.at[t];
    DeleteKeeps(s.cache, t);
    AppendKeeps(Delete(s.cache, t), t, Entry(e.pool, s.nextTimer));
    RestartKeepsTimers(s.cache.at, s.timers, s.nextTimer, t);
    assert Touch(s, t).cache.at == s.cache.at[t := Entry(e.pool, s.nextTimer)];
  }

  lemma {:induction false} RestartKeepsTimers(
    at: map<Tenant, Entry>, timers: map<TimerId, Tenant>, nextTimer: TimerId, t: Tenant)
    requires TimersMatch(at, timers, nextTimer) && t in at
    ensures TimersMatch(at[t := Entry(at[t].pool, nextTimer)],
                        (timers - {at[t].idleTimer})[nextTimer := t], nextTimer + 1)
  {
  }

  lemma {:induction false} EvictKeepsInv(s: State, t: Tenant)
    requires Inv(s) && t in s.cache.at
    ensures Inv(Evict(s, t))
  {
    EvictKeepsMaps(s, t);
    EvictKeepsPools(s, t);
  }

  lemma {:induction false} EvictKeepsMaps(s: State, t: Tenant)
    requires MapsAgree(s) && t in s.cache.at
    ensures MapsAgree(Evict(s, t))
  {
    DeleteKeeps(s.cache, t);
  }

  lemma {:induction false} EvictKeepsPools(s: State, t: Tenant)
    requires Inv(s) && t in s.cache.at
    ensures PoolsPlaced(Evict(s, t))
  {
    var s' := Evict(s, t);
    forall p: nat | p < |s.built|
      ensures p in s'.ended || Cached(s', p) || HeldByLoad(s', p)
    {
      if Cached(s, p) {
        assert s.built[p] == t ==> s'.ended[|s.ended|] == p;
      } else if p in s.ended {
        var i :| 0 <= i < |s.ended| && s.ended[i] == p;
        assert s'.ended[i] == p;
      }
    }
  }

  lemma {:induction false} InsertKeepsInv(s: State, t: Tenant)
    requires Inv(s) && t in s.inflight && s.inflight[t].Checking? && !Full(s)
    ensures Inv(Insert(s, t, s.inflight[t].pool))
  {
    InsertKeepsMaps(s, t, s.inflight[t].pool);
    InsertKeepsPlaced(s.cache.at, s.inflight, s.built, s.ended, t, s.nextTimer);
  }

  lemma {:induction false} InsertKeepsPlaced(at: map<Tenant, Entry>, inflight: map<Tenant, Phase>, built: seq<Tenant>,
                          ended: seq<PoolId>, t: Tenant, timer: TimerId)
    requires Placed(at, inflight, built, ended) && t !in at && t in inflight && inflight[t].Checking?
    ensures Placed(at[t := Entry(inflight[t].pool, timer)], inflight - {t}, built, ended)
  {
    var at', inflight' := at[t := Entry(inflight[t].pool, timer)], inflight - {t};
    forall p: nat | p < |built|
      ensures p in ended || CachedAt(at', built[p], p) || HeldAt(inflight', built[p], p)
    {
      assert p in ended || CachedAt(at, built[p], p) || HeldAt(inflight, built[p], p);
    }
  }

  lemma {:induction false} InsertKeepsMaps(s: State, t: Tenant, p: PoolId)
    requires MapsAgree(s) && t in s.inflight && !Full(s)
    ensures MapsAgree(Insert(s, t, p))
  {
    AppendKeeps(s.cache, t, Entry(p, s.nextTimer));
  }

  lemma {:induction false} FetchOkKeepsInv(s: State, t: Tenant)
    requires Inv(s)
    ensures Inv(Next(s, FetchOk(t)))
  {
    if t in s.inflight && s.inflight[t].Fetching? {
      BuildKeepsPlaced(s.cache.at, s.inflight, s.built, s.ended, t);
    }
  }

  lemma {:induction false} BuildKeepsPlaced(at: map<Tenant, Entry>, inflight: map<Tenant, Phase>, built: seq<Tenant>,
                         ended: seq<PoolId>, t: Tenant)
    requires Placed(at, inflight, built, ended) && EndedOnce(built, ended)
    requires t in inflight && inflight[t].Fetching?
    ensures Placed(at, inflight[t := Checking(|built|)], built + [t], ended)
  {
    var inflight', built' := inflight[t := Checking(|built|)], built + [t];
    forall p: nat | p < |built'|
      ensures p in ended || CachedAt(at, built'[p], p) || HeldAt(inflight', built'[p], p)
    {
      if p < |built| {
        assert p in ended || CachedAt(at, built[p], p) || HeldAt(inflight, built[p], p);
      }
    }
  }

  lemma {:induction false} PhaseChangeKeepsInv(s: State, t: Tenant, ph: Phase)
    requires Inv(s) && t in s.inflight && !s.inflight[t].Fetching? && !ph.Fetching?
    requires ph.pool == s.inflight[t].pool && (ph.Evicting? ==> ph.victim in s.ended)
    ensures Inv(s.(inflight := s.inflight[t := ph]))
  {
    PhaseChangeKeepsPlaced(s.cache.at, s.inflight, s.built, s.ended, t, ph);
  }

  lemma {:induction false} PhaseChangeKeepsPlaced(
    at: map<Tenant, Entry>, inflight: map<Tenant, Phase>, built: seq<Tenant>,
                               ended: seq<PoolId>, t: Tenant, ph: Phase)
    requires Placed(at, inflight, built, ended) && t in inflight && !inflight[t].Fetching? && !ph.Fetching?
    requires ph.pool == inflight[t].pool && (ph.Evicting? ==> ph.victim in ended)
    ensures Placed(at, inflight[t := ph], built, ended)
  {
    forall p: nat | p < |built|
      ensures p in ended || CachedAt(at, built[p], p) || HeldAt(inflight[t := ph], built[p], p)
    {
      assert p in ended || CachedAt(at, built[p], p) || HeldAt(inflight, built[p], p);
    }
  }

  lemma {:induction false} StartKeepsInv(s: State, t: Tenant)
    requires Inv(s) && t !in s.cache.at && t !in s.inflight
    ensures Inv(s.(inflight := s.inflight[t := Fetching]))
  {
    var inflight' := s.inflight[t := Fetching];
    assert forall p: nat :: p < |s.built| && HeldAt(s.inflight, s.built[p], p) ==> HeldAt(inflight', s.built[p], p);
  }

  lemma {:induction false} FailKeepsInv(s: State, t: Tenant)
    requires Inv(s) && t in s.inflight && s.inflight[t].Fetching?
    ensures Inv(s.(inflight := s.inflight - {t}))
  {
    var inflight' := s.inflight - {t};
    assert forall p: nat :: p < |s.built| && HeldAt(s.inflight, s.built[p], p) ==> HeldAt(inflight', s.built[p], p);
  }

  lemma {:induction false} TimerFireIsEvict(s: State, id: TimerId)
    requires MapsAgree(s) && id in s.timers
    ensures s.timers[id] in s.cache.at && Next(s, TimerFire(id)) == Evict(s, s.timers[id])
  {
    assert s.timers - {id} - {id} == s.timers - {id};
  }

  lemma {:induction false} TurnIs(s: State, t: Tenant)
    requires CanTurn(s, t)
    ensures Next(s, Turn(t)) == if Full(s) then EvictFor(s, t, s.cache.order[0]) else Insert(s, t, s.inflight[t].pool)
  {
  }

  lemma {:induction false} TurnKeepsInv(s: State, t: Tenant)
    requires Inv(s)
    ensures Inv(Next(s, Turn(t)))
  {
    if CanTurn(s, t) {
      TurnIs(s, t);
      if Full(s) { EvictForKeepsInv(s, t, s.cache.order[0]); } else { InsertKeepsInv(s, t); }
    }
  }

  lemma {:induction false} EvictForKeepsInv(s: State, t: Tenant, v: Tenant)
    requires Inv(s) && v in s.cache.at && t in s.inflight && !s.inflight[t].Fetching?
    ensures Inv(EvictFor(s, t, v))
  {
    EvictKeepsInv(s, v);
    var s1 := Evict(s, v);
    assert s1.ended[|s.ended|] == s.cache.at[v].pool;
    PhaseChangeKeepsInv(s1, t, Evicting(s.inflight[t].pool, s.cache.at[v].pool));
  }

  lemma {:induction false} TimerFireKeepsInv(s: State, id: TimerId)
    requires Inv(s)
    ensures Inv(Next(s, TimerFire(id)))
  {
    if id in s.timers {
      TimerFireIsEvict(s, id);
      EvictKeepsInv(s, s.timers[id]);
    }
  }

  /** Every atomic step keeps the invariant. */
  lemma {:induction false} StepKeepsInv(s: State, e: Event)
    requires Inv(s)
    ensures Inv(Next(s, e))
  {
    match e
    case Lookup(t) =>
      if t in s.cache.at { TouchKeepsInv(s, t); } else if t !in s.inflight { StartKeepsInv(s, t); }
    case FetchOk(t) => FetchOkKeepsInv(s, t);
    case FetchFail(t) =>
      if t in s.inflight && s.inflight[t].Fetching? { FailKeepsInv(s, t); }
    case Turn(t) => TurnKeepsInv(s, t);
    case EndDone(t) =>
      if t in s.inflight && s.inflight[t].Evicting? {
        PhaseChangeKeepsInv(s, t, Checking(s.inflight[t].pool));
      }
    case TimerFire(id) => TimerFireKeepsInv(s, id);
  }

  lemma {:induction false} RunKeepsInv(cacheSize: int, events: seq<Event>)
    ensures Inv(Exec(cacheSize, events))
  {
    if events != [] {
      RunKeepsInv(cacheSize, events[..|events| - 1]);
      StepKeepsInv(Exec(cacheSize, events[..|events| - 1]), events[|events| - 1]);
    }
  }

  // ---- conservation of pools ----

  /** On every run each constructed pool is in exactly one place: ended by exactly one
      call of end(), or cached under its tenant and nowhere else, or held by its tenant's
      load and by no other. */
  lemma {:induction false} EachPoolInOnePlace(cacheSize: int, events: seq<Event>, p: PoolId)
    requires p < |Exec(cacheSize, events).built|
    ensures var s := Exec(cacheSize, events);
            && multiset(s.ended)[p] == (if Cached(s, p) || HeldByLoad(s, p) then 0 else 1)
            && !(Cached(s, p) && HeldByLoad(s, p))
            && (forall t :: t in s.cache.at && s.cache.at[t].pool == p ==> Cached(s, p) && t == s.built[p])
            && (forall t :: t in s.inflight && Holds(s.inflight[t], p) ==> HeldByLoad(s, p) && t == s.built[p])
  {
    RunKeepsInv(cacheSize, events);
    DistinctMultiplicity(Exec(cacheSize, events).ended, p);
  }

  lemma {:induction false} DistinctMultiplicity(q: seq<PoolId>, p: PoolId)
    requires forall i, j :: 0 <= i < j < |q| ==> q[i] != q[j]
    ensures multiset(q)[p] == if p in q then 1 else 0
  {
    if q != [] {
      assert q == q[..|q| - 1] + [q[|q| - 1]];
      DistinctMultiplicity(q[..|q| - 1], p);
    }
  }

  /** A tenant never has two pools that have not been ended. */
  lemma {:induction false} OnePoolPerTenant(cacheSize: int, events: seq<Event>, p: PoolId, q: PoolId)
    requires var s := Exec(cacheSize, events);
             p < |s.built| && q < |s.built| && s.built[p] == s.built[q] && p !in s.ended && q !in s.ended
    ensures p == q
  {
    RunKeepsInv(cacheSize, events);
    var s := Exec(cacheSize, events);
    assert Cached(s, p) || HeldByLoad(s, p);
    assert Cached(s, q) || HeldByLoad(s, q);
  }

  /** Cache keys and in-flight keys never meet, every cached tenant has its own pending
      timer and every pending timer its cached tenant, and the cache, hence the number of
      connections of cached pools, stays bounded. */
  lemma {:induction false} TimersMatchEntries(cacheSize: int, events: seq<Event>, maxConns: nat)
    ensures var s := Exec(cacheSize, events);
            && s.cache.at.Keys !! s.inflight.Keys
            && (forall t :: t in s.cache.at ==>
                  s.cache.at[t].idleTimer in s.timers && s.timers[s.cache.at[t].idleTimer] == t)
            && (forall id :: id in s.timers ==>
                  s.timers[id] in s.cache.at && s.cache.at[s.timers[id]].idleTimer == id)
            && |s.cache.at.Keys| <= (if cacheSize < 1 then 1 else cacheSize)
            && (cacheSize >= 1 ==> |s.cache.at.Keys| * maxConns <= cacheSize * maxConns)
  {
    RunKeepsInv(cacheSize, events);
    SizeIsFixed(cacheSize, events);
    if cacheSize >= 1 { ProductMonotone(|Exec(cacheSize, events).cache.at.Keys|, cacheSize, maxConns); }
  }

  lemma {:induction false} ProductMonotone(a: nat, b: nat, c: nat)
    requires a <= b
    ensures a * c <= b * c
  {
  }

  lemma {:induction false} SizeIsFixed(cacheSize: int, events: seq<Event>)
    ensures Exec(cacheSize, events).cacheSize == cacheSize
  {
    if events != [] {
      SizeIsFixed(cacheSize, events[..|events| - 1]);
      SizeStays(Exec(cacheSize, events[..|events| - 1]), events[|events| - 1]);
    }
  }

  lemma {:induction false} SizeStays(s: State, e: Event)
    ensures Next(s, e).cacheSize == s.cacheSize
  {
  }

  /** Every pool handed to a caller was built for the caller's tenant and is not ended. */
  lemma {:induction false} AnswersAreOwnLivePools(cacheSize: int, events: seq<Event>, e: Event)
    ensures var s := Exec(cacheSize, events);
            var o := Observe(s, e);
            o.Hit? || o.Inserted? ==>
              && o.tenant == e.tenant && o.pool < |s.built| && s.built[o.pool] == o.tenant
              && o.pool !in Next(s, e).ended
  {
    RunKeepsInv(cacheSize, events);
  }

  // ---- delivery: the caller, and those who joined its load, resume later ----

  predicate Answers(o: Observation, t: Tenant, p: PoolId) {
    o == Hit(t, p) || o == Inserted(t, p)
  }

  predicate EvictionOf(o: Observation, t: Tenant) {
    o == CapacityEvicted(t) || o == IdleEvicted(t)
  }

  /** The tenant has not been evicted after the n-th step. */
  ghost predicate KeptSince(h: seq<Observation>, n: nat, t: Tenant) {
    forall i :: n < i < |h| ==> !EvictionOf(h[i], t)
  }

  lemma {:induction false} EndedStays(s: State, e: Event, p: PoolId)
    requires p in s.ended
    ensures p in Next(s, e).ended
  {
  }

  lemma {:induction false} AnswerIsCached(s: State, e: Event, t: Tenant, p: PoolId)
    requires Answers(Observe(s, e), t, p)
    ensures CachedAt(Next(s, e).cache.at, t, p)
  {
  }

  lemma {:induction false} EvictIsPrecise(s: State, v: Tenant, t: Tenant, p: PoolId)
    requires v in s.cache.at && CachedAt(s.cache.at, t, p)
    ensures if v == t then p in Evict(s, v).ended else CachedAt(Evict(s, v).cache.at, t, p)
  {
  }

  lemma {:induction false} CachedUntilEvicted(s: State, e: Event, t: Tenant, p: PoolId)
    requires Inv(s) && CachedAt(s.cache.at, t, p)
    ensures if EvictionOf(Observe(s, e), t) then p in Next(s, e).ended else CachedAt(Next(s, e).cache.at, t, p)
  {
    match e
    case Turn(l) => if CanTurn(s, l) && Full(s) { EvictIsPrecise(s, s.cache.order[0], t, p); }
    case TimerFire(id) =>
      if id in s.timers && s.timers[id] in s.cache.at {
        EvictIsPrecise(s.(timers := s.timers - {id}), s.timers[id], t, p);
      }
    case _ =>
  }

  lemma {:induction false} CachedOrEnded(cacheSize: int, events: seq<Event>, n: nat, t: Tenant, p: PoolId)
    requires n < |events| && Answers(History(cacheSize, events)[n], t, p)
    ensures if KeptSince(History(cacheSize, events), n, t) then CachedAt(Exec(cacheSize, events).cache.at, t, p)
            else p in Exec(cacheSize, events).ended
  {
    var before, e := events[..|events| - 1], events[|events| - 1];
    var s, h := Exec(cacheSize, before), History(cacheSize, before);
    assert History(cacheSize, events) == h + [Observe(s, e)];
    RunKeepsInv(cacheSize, before);
    if n == |before| {
      AnswerIsCached(s, e, t, p);
    } else {
      CachedOrEnded(cacheSize, before, n, t, p);
      KeptSnoc(h, Observe(s, e), n, t);
      if KeptSince(h, n, t) { CachedUntilEvicted(s, e, t, p); } else { EndedStays(s, e, p); }
    }
  }

  lemma {:induction false} KeptSnoc(h: seq<Observation>, o: Observation, n: nat, t: Tenant)
    requires n < |h|
    ensures KeptSince(h + [o], n, t) <==> KeptSince(h, n, t) && !EvictionOf(o, t)
  {
    assert (h + [o])[|h|] == o && forall i :: 0 <= i < |h| ==> (h + [o])[i] == h[i];
  }

  /** A pool that step n has answered for a tenant is still live at a later moment, when its caller
      or one who joined its load resumes, if and only if the tenant has not been evicted since. */
  lemma {:induction false} LiveUntilEvicted(cacheSize: int, events: seq<Event>, n: nat, t: Tenant, p: PoolId)
    requires n < |events| && Answers(History(cacheSize, events)[n], t, p)
    ensures p !in Exec(cacheSize, events).ended <==> KeptSince(History(cacheSize, events), n, t)
    ensures p < |Exec(cacheSize, events).built| && Exec(cacheSize, events).built[p] == t
  {
    CachedOrEnded(cacheSize, events, n, t, p);
    RunKeepsInv(cacheSize, events);
    BuiltFor(cacheSize, events, n, t, p);
  }

  lemma {:induction false} BuiltFor(cacheSize: int, events: seq<Event>, n: nat, t: Tenant, p: PoolId)
    requires n < |events| && Answers(History(cacheSize, events)[n], t, p)
    ensures p < |Exec(cacheSize, events).built| && Exec(cacheSize, events).built[p] == t
  {
    var before, e := events[..|events| - 1], events[|events| - 1];
    if n == |before| {
      AnswersAreOwnLivePools(cacheSize, before, e);
    } else {
      assert History(cacheSize, events)[n] == History(cacheSize, before)[n];
      BuiltFor(cacheSize, before, n, t, p);
      BuiltStays(Exec(cacheSize, before), e, p);
    }
  }

  lemma {:induction false} BuiltStays(s: State, e: Event, p: PoolId)
    requires p < |s.built|
    ensures p < |Next(s, e).built| && Next(s, e).built[p] == s.built[p]
  {
  }

  // ---- a pool that is ended between its answer and the resumption of its caller ----

  lemma {:induction false} ExecSnoc(cacheSize: int, events: seq<Event>, e: Event)
    ensures Exec(cacheSize, events + [e]) == Next(Exec(cacheSize, events), e)
    ensures History(cacheSize, events + [e]) == History(cacheSize, events) + [Observe(Exec(cacheSize, events), e)]
  {
    assert (events + [e])[..|events|] == events;
  }

  /** Two tenants load at once into a cache for one. */
  function BothLoaded(a: Tenant, b: Tenant): State {
    Init(1).(inflight := map[a := Checking(0), b := Checking(1)], built := [a, b])
  }

  lemma {:induction false} LoadTwo(a: Tenant, b: Tenant) returns (events: seq<Event>)
    requires a != b
    ensures Exec(1, events) == BothLoaded(a, b)
  {
    var e1 := [] + [Lookup(a)];
    var e2 := e1 + [Lookup(b)];
    var e3 := e2 + [FetchOk(a)];
    ExecSnoc(1, [], Lookup(a));
    ExecSnoc(1, e1, Lookup(b));
    ExecSnoc(1, e2, FetchOk(a));
    ExecSnoc(1, e3, FetchOk(b));
    assert Exec(1, e2).inflight == map[a := Fetching, b := Fetching];
    assert Exec(1, e3).inflight == map[a := Checking(0), b := Fetching];
    events := e3 + [FetchOk(b)];
  }

  lemma {:induction false} TurnsOfTwo(a: Tenant, b: Tenant)
    requires a != b
    ensures var s := BothLoaded(a, b);
            Observe(s, Turn(a)) == Inserted(a, 0) && Next(Next(s, Turn(a)), Turn(b)).ended == [0]
  {
    var s := Next(BothLoaded(a, b), Turn(a));
    assert s.cache.order == [a] && s.cache.at == map[a := Entry(0, 0)] && s.inflight == map[b := Checking(1)];
  }

  /** The load of one tenant is answered, and the next step, the turn of the other load, ends the
      pool it was answered with: whoever waits for the first load resumes with an ended pool. */
  lemma {:induction false} EndedBeforeDelivery(a: Tenant, b: Tenant) returns (events: seq<Event>, p: PoolId)
    requires a != b
    ensures |events| >= 2 && History(1, events)[|events| - 2] == Inserted(a, p)
    ensures p in Exec(1, events).ended
  {
    var loaded := LoadTwo(a, b);
    ExecSnoc(1, loaded, Turn(a));
    ExecSnoc(1, loaded + [Turn(a)], Turn(b));
    TurnsOfTwo(a, b);
    events, p := loaded + [Turn(a)] + [Turn(b)], 0;
  }

  // ---- when a load evicts, and what a request and a timer do ----

  /** On every run a load that tests the capacity loop evicts if and only if the cache holds
      entries, and at least cacheSize of them; otherwise it publishes its pool and ends nothing. */
  lemma {:induction false} EvictsIffFull(cacheSize: int, events: seq<Event>, t: Tenant)
    requires t in Exec(cacheSize, events).inflight && Exec(cacheSize, events).inflight[t].Checking?
    ensures var s := Exec(cacheSize, events);
            var o, s' := Observe(s, Turn(t)), Next(s, Turn(t));
            var full := |s.cache.at.Keys| >= cacheSize && s.cache.at.Keys != {};
            && (o.CapacityEvicted? <==> full)
            && (o.Inserted? <==> !full)
            && (full ==>
                  && o.tenant in s.cache.at && s'.cache.at == s.cache.at - {o.tenant}
                  && s'.ended == s.ended + [s.cache.at[o.tenant].pool] && t in s'.inflight)
            && (!full ==>
                  && s'.cache.at.Keys == s.cache.at.Keys + {t} && s'.cache.at[t].pool == s.inflight[t].pool
                  && (forall x :: x in s.cache.at ==> s'.cache.at[x] == s.cache.at[x])
                  && s'.ended == s.ended && s'.inflight == s.inflight - {t})
  {
    RunKeepsInv(cacheSize, events);
    SizeIsFixed(cacheSize, events);
    var s := Exec(cacheSize, events);
    FullMeans(s);
    TurnIs(s, t);
    if Full(s) { TurnEvicts(s, t); } else { TurnInserts(s, t); }
  }

  lemma {:induction false} FullMeans(s: State)
    requires WellFormed(s.cache)
    ensures Full(s) <==> |s.cache.at.Keys| >= s.cacheSize && s.cache.at.Keys != {}
    ensures Full(s) ==> s.cache.order[0] in s.cache.at
  {
    if s.cache.order == [] { assert s.cache.at.Keys == {}; }
  }

  lemma {:induction false} TurnEvicts(s: State, t: Tenant)
    requires CanTurn(s, t) && Full(s)
    ensures var o, s' := Observe(s, Turn(t)), EvictFor(s, t, s.cache.order[0]);
            && o.CapacityEvicted? && o.tenant in s.cache.at && s'.cache.at == s.cache.at - {o.tenant}
            && s'.ended == s.ended + [s.cache.at[o.tenant].pool] && t in s'.inflight
  {
  }

  lemma {:induction false} TurnInserts(s: State, t: Tenant)
    requires CanTurn(s, t) && !Full(s) && t !in s.cache.at
    ensures var o, s' := Observe(s, Turn(t)), Insert(s, t, s.inflight[t].pool);
            && o.Inserted? && s'.cache.at.Keys == s.cache.at.Keys + {t} && s'.cache.at[t].pool == s.inflight[t].pool
            && (forall x :: x in s.cache.at ==> s'.cache.at[x] == s.cache.at[x])
            && s'.ended == s.ended && s'.inflight == s.inflight - {t}
  {
  }

  /** A request of a cached tenant is answered with its pool at once; otherwise it joins the load of
      its tenant or starts one. It never constructs, ends or drops a pool. */
  lemma {:induction false} RequestMeans(cacheSize: int, events: seq<Event>, t: Tenant)
    ensures var s := Exec(cacheSize, events);
            var o, s' := Observe(s, Lookup(t)), Next(s, Lookup(t));
            && s'.built == s.built && s'.ended == s.ended && s'.cache.at.Keys == s.cache.at.Keys
            && (forall x :: x in s.cache.at ==> s'.cache.at[x].pool == s.cache.at[x].pool)
            && (t in s.cache.at ==> o == Hit(t, s.cache.at[t].pool) && s'.inflight == s.inflight)
            && (t in s.inflight ==> o == Joined(t) && s' == s)
            && (t !in s.cache.at && t !in s.inflight ==>
                  o == Started(t) && s' == s.(inflight := s.inflight[t := Fetching]))
  {
    RunKeepsInv(cacheSize, events);
  }

  /** The secret of a load that waits for it either becomes the tenant's next pool or ends the load. */
  lemma {:induction false} FetchMeans(cacheSize: int, events: seq<Event>, t: Tenant)
    requires t in Exec(cacheSize, events).inflight && Exec(cacheSize, events).inflight[t].Fetching?
    ensures var s := Exec(cacheSize, events);
            && (var s' := Next(s, FetchOk(t));
                && s'.built == s.built + [t] && HeldAt(s'.inflight, t, |s.built|)
                && s'.inflight - {t} == s.inflight - {t} && s'.cache == s.cache && s'.ended == s.ended)
            && (var s' := Next(s, FetchFail(t));
                Observe(s, FetchFail(t)) == Failed(t) && s' == s.(inflight := s.inflight - {t}))
  {
  }

  /** A timer that is still pending when it expires evicts the tenant whose entry it belongs to. */
  lemma {:induction false} ExpiryEvicts(cacheSize: int, events: seq<Event>, t: Tenant)
    requires t in Exec(cacheSize, events).cache.at
    ensures var s := Exec(cacheSize, events);
            var e := TimerFire(s.cache.at[t].idleTimer);
            && Observe(s, e) == IdleEvicted(t) && Next(s, e).cache.at == s.cache.at - {t}
            && Next(s, e).ended == s.ended + [s.cache.at[t].pool] && Next(s, e).inflight == s.inflight
  {
    RunKeepsInv(cacheSize, events);
    TimerFireIsEvict(Exec(cacheSize, events), Exec(cacheSize, events).cache.at[t].idleTimer);
  }

  // ---- counting ----

  datatype Kind = Start | Finish | Insertion | Eviction

  /** The tenant that an observation of the given kind is about, if it is of that kind. */
  function Who(o: Observation, k: Kind): set<Tenant> {
    match o
    case Started(t) => if k == Start then {t} else {}
    case Failed(t) => if k == Finish then {t} else {}
    case Inserted(t, _) => if k == Finish || k == Insertion then {t} else {}
    case CapacityEvicted(t) => if k == Eviction then {t} else {}
    case IdleEvicted(t) => if k == Eviction then {t} else {}
    case _ => {}
  }

  /** How often a kind of observation occurs in a history, for all tenants or for one. */
  function Count(h: seq<Observation>, k: Kind, only: Option<Tenant>): nat {
    if h == [] then 0
    else Count(h[..|h| - 1], k, only) + Tally(h[|h| - 1], k, only)
  }

  function Tally(o: Observation, k: Kind, only: Option<Tenant>): nat {
    match only
    case None => |Who(o, k)|
    case Some(t) => One(t in Who(o, k))
  }

  function One(b: bool): nat { if b then 1 else 0 }

  lemma {:induction false} CountSnoc(h: seq<Observation>, o: Observation, only: Option<Tenant>)
    ensures forall k :: Count(h + [o], k, only) == Count(h, k, only) + Tally(o, k, only)
  {
    assert (h + [o])[..|h|] == h;
  }

  /** A key set gains exactly the tenants that enter and loses exactly those that leave. */
  ghost predicate Moves(before: set<Tenant>, after: set<Tenant>, enter: set<Tenant>, leave: set<Tenant>) {
    enter !! before && leave <= before && after == before - leave + enter
  }

  lemma {:induction false} MovesSize(before: set<Tenant>, after: set<Tenant>, enter: set<Tenant>, leave: set<Tenant>)
    requires Moves(before, after, enter, leave)
    ensures |after| + |leave| == |before| + |enter|
  {
    assert |before - leave| == |before| - |leave|;
  }

  /** A step changes the in-flight keys and the cache keys by exactly what is observed. */
  ghost predicate Balanced(s: State, s': State, o: Observation) {
    && Moves(s.inflight.Keys, s'.inflight.Keys, Who(o, Start), Who(o, Finish))
    && Moves(s.cache.at.Keys, s'.cache.at.Keys, Who(o, Insertion), Who(o, Eviction))
  }

  lemma {:induction false} LookupBalanced(s: State, t: Tenant)
    ensures Balanced(s, Next(s, Lookup(t)), Observe(s, Lookup(t)))
  {
    if t in s.cache.at {
      assert Next(s, Lookup(t)).cache.at.Keys == s.cache.at.Keys;
    }
  }

  lemma {:induction false} FetchBalanced(s: State, t: Tenant)
    ensures Balanced(s, Next(s, FetchOk(t)), Observe(s, FetchOk(t)))
    ensures Balanced(s, Next(s, FetchFail(t)), Observe(s, FetchFail(t)))
  {
  }

  lemma {:induction false} CapacityEvictionBalanced(s: State, t: Tenant)
    requires CanTurn(s, t) && Full(s)
    ensures Balanced(s, Next(s, Turn(t)), Observe(s, Turn(t)))
  {
    assert Next(s, Turn(t)).inflight.Keys == s.inflight.Keys;
  }

  lemma {:induction false} InsertionBalanced(s: State, t: Tenant)
    requires CanTurn(s, t) && !Full(s) && t !in s.cache.at
    ensures Balanced(s, Next(s, Turn(t)), Observe(s, Turn(t)))
  {
  }

  lemma {:induction false} StepBalanced(s: State, e: Event)
    requires e.Turn? && e.tenant in s.inflight ==> e.tenant !in s.cache.at
    ensures Balanced(s, Next(s, e), Observe(s, e))
  {
    match e
    case Lookup(t) => LookupBalanced(s, t);
    case FetchOk(t) => FetchBalanced(s, t);
    case FetchFail(t) => FetchBalanced(s, t);
    case Turn(t) =>
      if CanTurn(s, t) {
        if Full(s) { CapacityEvictionBalanced(s, t); } else { InsertionBalanced(s, t); }
      }
    case EndDone(t) => assert Next(s, e).inflight.Keys == s.inflight.Keys;
    case TimerFire(id) =>
  }

  lemma {:induction false} InsertionsAreFinishes(h: seq<Observation>)
    ensures Count(h, Insertion, None) <= Count(h, Finish, None)
  {
    if h != [] { InsertionsAreFinishes(h[..|h| - 1]); }
  }

  /** Insertions are evictions plus cached entries, and loads started are loads finished
      plus loads in flight. So capacity evictions are bounded by the loads started, however
      the awaiting `while` loops interleave. */
  lemma {:induction false} InsertionsBalanceEvictions(cacheSize: int, events: seq<Event>)
    ensures var s, h := Exec(cacheSize, events), History(cacheSize, events);
            && Count(h, Insertion, None) == Count(h, Eviction, None) + |s.cache.order|
            && Count(h, Start, None) == Count(h, Finish, None) + |s.inflight.Keys|
            && Count(h, Eviction, None) <= Count(h, Start, None)
  {
    var s', h' := Exec(cacheSize, events), History(cacheSize, events);
    RunKeepsInv(cacheSize, events);
    InsertionsAreFinishes(h');
    if events != [] {
      var before, e := events[..|events| - 1], events[|events| - 1];
      var s, h := Exec(cacheSize, before), History(cacheSize, before);
      var o := Observe(s, e);
      InsertionsBalanceEvictions(cacheSize, before);
      RunKeepsInv(cacheSize, before);
      CountSnoc(h, o, None);
      StepBalanced(s, e);
      MovesSize(s.inflight.Keys, s'.inflight.Keys, Who(o, Start), Who(o, Finish));
      MovesSize(s.cache.at.Keys, s'.cache.at.Keys, Who(o, Insertion), Who(o, Eviction));
    }
  }

  /** Racing first accesses share one load: a tenant's loads never overlap each other, and
      never overlap a cached entry of that tenant. */
  lemma {:induction false} SingleFlight(cacheSize: int, events: seq<Event>, t: Tenant)
    ensures var s, h := Exec(cacheSize, events), History(cacheSize, events);
            && Count(h, Start, Some(t)) == Count(h, Finish, Some(t)) + One(t in s.inflight.Keys)
            && Count(h, Insertion, Some(t)) == Count(h, Eviction, Some(t)) + One(t in s.cache.at.Keys)
            && !(t in s.inflight.Keys && t in s.cache.at.Keys)
  {
    RunKeepsInv(cacheSize, events);
    if events != [] {
      var before, e := events[..|events| - 1], events[|events| - 1];
      var s, h := Exec(cacheSize, before), History(cacheSize, before);
      SingleFlight(cacheSize, before, t);
      RunKeepsInv(cacheSize, before);
      CountSnoc(h, Observe(s, e), Some(t));
      StepBalanced(s, e);
    }
  }

  // ---- recency ----

  predicate IsUse(o: Observation, t: Tenant) {
    (o.Hit? || o.Inserted?) && o.tenant == t
  }

  /** The time of the last use of a tenant in a history; 0 if there is none. */
  function LastUse(h: seq<Observation>, t: Tenant): (n: nat)
    ensures n <= |h|
    ensures n > 0 ==> IsUse(h[n - 1], t)
    ensures forall i :: n <= i < |h| ==> !IsUse(h[i], t)
  {
    if h == [] then 0
    else if IsUse(h[|h| - 1], t) then |h|
    else LastUse(h[..|h| - 1], t)
  }

  ghost predicate Ascending(q: seq<Tenant>, rank: Tenant -> nat) {
    forall i, j :: 0 <= i < j < |q| ==> rank(q[i]) < rank(q[j])
  }

  ghost predicate OrderedByUse(q: seq<Tenant>, h: seq<Observation>) {
    Ascending(q, t => LastUse(h, t))
  }

  lemma {:induction false} DeleteKeepsAscending(m: OMap<Tenant, Entry>, k: Tenant, rank: Tenant -> nat)
    requires Ascending(m.order, rank) && k in m.order
    ensures Ascending(Delete(m, k).order, rank)
  {
    var i := DeletePositions(m, k);
  }

  lemma {:induction false} AppendKeepsAscending(q: seq<Tenant>, t: Tenant, rank: Tenant -> nat, rank': Tenant -> nat)
    requires Ascending(q, rank) && t !in q
    requires forall x :: x != t ==> rank'(x) == rank(x) < rank'(t)
    ensures Ascending(q + [t], rank')
  {
    assert forall i :: 0 <= i < |q| ==> q[i] != t;
  }

  /** A step that uses no tenant at most drops keys from the order. */
  lemma {:induction false} UnusedKeepsAscending(s: State, e: Event, rank: Tenant -> nat)
    requires Inv(s) && Ascending(s.cache.order, rank) && !Observe(s, e).Hit? && !Observe(s, e).Inserted?
    ensures Ascending(Next(s, e).cache.order, rank)
  {
    match e
    case Turn(t) =>
      if CanTurn(s, t) && Full(s) { DeleteKeepsAscending(s.cache, s.cache.order[0], rank); }
    case TimerFire(id) =>
      if id in s.timers {
        TimerFireIsEvict(s, id);
        KeyInOrder(s.cache, s.timers[id]);
        DeleteKeepsAscending(s.cache, s.timers[id], rank);
      }
    case _ =>
  }

  /** A step that uses a tenant puts it last and keeps the order of the others. */
  lemma {:induction false} UsedGoesLast(s: State, e: Event, t: Tenant, rank: Tenant -> nat, rank': Tenant -> nat)
    requires Inv(s) && Ascending(s.cache.order, rank) && IsUse(Observe(s, e), t)
    requires forall x :: x != t ==> rank'(x) == rank(x) < rank'(t)
    ensures Ascending(Next(s, e).cache.order, rank')
  {
    if e.Lookup? {
      DeleteKeeps(s.cache, t);
      KeyInOrder(s.cache, t);
      DeleteKeepsAscending(s.cache, t, rank);
      AppendKeepsAscending(Delete(s.cache, t).order, t, rank, rank');
    } else {
      AppendKeepsAscending(s.cache.order, t, rank, rank');
    }
  }

  /** The insertion order of the cache is the order of last use, on every run. */
  lemma {:induction false} CacheIsOrderedByUse(cacheSize: int, events: seq<Event>)
    ensures OrderedByUse(Exec(cacheSize, events).cache.order, History(cacheSize, events))
  {
    if events != [] {
      var before, e := events[..|events| - 1], events[|events| - 1];
      var s, h := Exec(cacheSize, before), History(cacheSize, before);
      var h' := History(cacheSize, events);
      CacheIsOrderedByUse(cacheSize, before);
      RunKeepsInv(cacheSize, before);
      assert h'[..|h|] == h;
      var rank, rank' := (t: Tenant) => LastUse(h, t), (t: Tenant) => LastUse(h', t);
      if Observe(s, e).Hit? || Observe(s, e).Inserted? {
        UsedGoesLast(s, e, Observe(s, e).tenant, rank, rank');
      } else {
        UnusedKeepsAscending(s, e, rank);
      }
    }
  }

  /** The timer that the n-th event of a run starts, if it starts one. */
  function TimerOf(cacheSize: int, events: seq<Event>, n: nat): TimerId
    requires 0 < n <= |events|
  {
    Exec(cacheSize, events[..n - 1]).nextTimer
  }

  lemma {:induction false} TimerOfEarlier(cacheSize: int, before: seq<Event>, e: Event, n: nat)
    requires 0 < n <= |before|
    ensures TimerOf(cacheSize, before + [e], n) == TimerOf(cacheSize, before, n)
  {
    assert (before + [e])[..n - 1] == before[..n - 1];
  }

  /** The timer of an entry is the one that the last use of its tenant has started, so a tenant is
      evicted as idle only if nothing has used it since. */
  lemma {:induction false} TimerIsOfLastUse(cacheSize: int, events: seq<Event>, t: Tenant)
    requires t in Exec(cacheSize, events).cache.at
    ensures var n := LastUse(History(cacheSize, events), t);
            n > 0 && TimerAt(Exec(cacheSize, events), t) == Some(TimerOf(cacheSize, events, n))
  {
    var before := events[..|events| - 1];
    var o := LastStep(cacheSize, events, t);
    LastUseSnoc(History(cacheSize, before), o, t);
    if !IsUse(o, t) {
      TimerIsOfLastUse(cacheSize, before, t);
      TimerOfEarlier(cacheSize, before, events[|events| - 1], LastUse(History(cacheSize, before), t));
    }
  }

  function TimerAt(s: State, t: Tenant): Option<TimerId> {
    if t in s.cache.at then Some(s.cache.at[t].idleTimer) else None
  }

  /** The last step of a run either uses the tenant and starts its timer or leaves the timer alone. */
  lemma {:induction false} LastStep(cacheSize: int, events: seq<Event>, t: Tenant) returns (o: Observation)
    requires t in Exec(cacheSize, events).cache.at
    ensures events != []
    ensures var before := events[..|events| - 1];
            && events == before + [events[|events| - 1]]
            && History(cacheSize, events) == History(cacheSize, before) + [o]
            && TimerAt(Exec(cacheSize, events), t)
               == (if IsUse(o, t) then Some(TimerOf(cacheSize, events, |events|))
                   else TimerAt(Exec(cacheSize, before), t))
            && (!IsUse(o, t) ==> t in Exec(cacheSize, before).cache.at)
  {
    var before, e := events[..|events| - 1], events[|events| - 1];
    o := Observe(Exec(cacheSize, before), e);
    RunKeepsInv(cacheSize, before);
    if IsUse(o, t) {
      UseStartsTimer(Exec(cacheSize, before), e, t);
    } else {
      UnusedKeepsTimer(Exec(cacheSize, before), e, t);
    }
  }

  lemma {:induction false} LastUseSnoc(h: seq<Observation>, o: Observation, t: Tenant)
    ensures LastUse(h + [o], t) == if IsUse(o, t) then |h| + 1 else LastUse(h, t)
  {
    assert (h + [o])[..|h|] == h;
  }

  lemma {:induction false} UseStartsTimer(s: State, e: Event, t: Tenant)
    requires IsUse(Observe(s, e), t)
    ensures t in Next(s, e).cache.at && Next(s, e).cache.at[t].idleTimer == s.nextTimer
  {
  }

  lemma {:induction false} UnusedKeepsTimer(s: State, e: Event, t: Tenant)
    requires MapsAgree(s) && !IsUse(Observe(s, e), t) && t in Next(s, e).cache.at
    ensures t in s.cache.at && Next(s, e).cache.at[t] == s.cache.at[t]
  {
    match e
    case Lookup(u) => if u in s.cache.at { TouchKeepsOther(s, u, t); }
    case Turn(u) => TurnKeepsOther(s, u, t);
    case TimerFire(id) => if id in s.timers { TimerFireIsEvict(s, id); }
    case _ =>
  }

  lemma {:induction false} TouchKeepsOther(s: State, u: Tenant, t: Tenant)
    requires u in s.cache.at && t != u && t in Touch(s, u).cache.at
    ensures t in s.cache.at && Touch(s, u).cache.at[t] == s.cache.at[t]
  {
  }

  lemma {:induction false} TurnKeepsOther(s: State, u: Tenant, t: Tenant)
    requires !IsUse(Observe(s, Turn(u)), t) && t in Next(s, Turn(u)).cache.at
    ensures t in s.cache.at && Next(s, Turn(u)).cache.at[t] == s.cache.at[t]
  {
    if CanTurn(s, u) { TurnIs(s, u); }
  }

  /** A capacity eviction removes the cached tenant whose last use is the oldest, and no
      other. */
  lemma {:induction false} CapacityEvictsLeastRecentlyUsed(
    cacheSize: int, events: seq<Event>, loader: Tenant, other: Tenant)
    requires var s := Exec(cacheSize, events);
             && Observe(s, Turn(loader)).CapacityEvicted?
             && other in s.cache.at && other != Observe(s, Turn(loader)).tenant
    ensures var s, h := Exec(cacheSize, events), History(cacheSize, events);
            var v := Observe(s, Turn(loader)).tenant;
            && LastUse(h, v) < LastUse(h, other)
            && v in s.cache.at && Next(s, Turn(loader)).cache.at == s.cache.at - {v}
  {
    CacheIsOrderedByUse(cacheSize, events);
    RunKeepsInv(cacheSize, events);
    OldestGoes(Exec(cacheSize, events), History(cacheSize, events), loader, other);
  }

  lemma {:induction false} OldestGoes(s: State, h: seq<Observation>, loader: Tenant, other: Tenant)
    requires MapsAgree(s) && OrderedByUse(s.cache.order, h)
    requires Observe(s, Turn(loader)).CapacityEvicted?
    requires other in s.cache.at && other != Observe(s, Turn(loader)).tenant
    ensures var v := Observe(s, Turn(loader)).tenant;
            && LastUse(h, v) < LastUse(h, other)
            && v in s.cache.at && Next(s, Turn(loader)).cache.at == s.cache.at - {v}
  {
    KeyInOrder(s.cache, other);
    FirstIsOldest(s.cache.order, h, other);
  }

  lemma {:induction false} FirstIsOldest(q: seq<Tenant>, h: seq<Observation>, other: Tenant)
    requires OrderedByUse(q, h) && other in q && other != q[0]
    ensures LastUse(h, q[0]) < LastUse(h, other)
  {
    var rank := (t: Tenant) => LastUse(h, t);
    var i := IndexOf(q, other);
    assert rank(q[0]) < rank(q[i]);
  }
}
