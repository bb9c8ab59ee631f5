/**
 Runs from the initial state in which two calls on one idempotency key are in flight
 together.  In both a third call reserves another key in between: its reservation expires
 the key, or evicts it.
 */
module GatewayReuse {
  import opened Wrappers
  import opened GatewayTypes
  import opened Idempotency
  import opened GatewayMachine
  import RateLimiter
  import Race = GatewayRace

  const STATUS := Tool("status", ReadOnly, "deployments:operate", false, RateLimiter.RateLimit(5, RateLimiter.Minute),
    true, true)

  /** A gateway with one tool that needs no approval. */
  function Demo(ttl: int, maxEntries: nat): Config {
    Race.DEMO.(registry := map["status" := STATUS], idempotencyTtl := ttl, maxEntries := maxEntries)
  }

  function RequestFor(key: string): Request {
    Request("engineer-token", "status", map[], key, None, Id(7), None, None)
  }

  const KEY := IdempotencyKey("engineer-1", "key")
  const OTHER := IdempotencyKey("engineer-1", "other")

  const CHECKS := RateLimiter.Key("engineer-1", "status")

  /** A call as it enters, and as it stands once it has reserved its key. */
  function AtEntry(key: string, now: Time): ToolCall {
    ToolCall(RequestFor(key), now, AtLimit, false, None)
  }

  function Holding(key: string, now: Time): ToolCall {
    ToolCall(RequestFor(key), now, AtMarkRunning, true, None)
  }

  const TICK := Tick(0, Id(0), Returned(JNull))

  function ReserveActions(tid: Tid): seq<Action> {
    [StepCall(tid, TICK), StepCall(tid, TICK)]
  }

  // ---- one call reserves

  lemma {:induction false} DropShortens(times: seq<int>, window: int, now: int)
    ensures |RateLimiter.DropExpired(times, window, now)| <= |times|
  {
    if |times| > 0 {
      DropShortens(times[1..], window, now);
    }
  }

  /** At most `n` checks have been made so far. */
  predicate Checked(calls: RateLimiter.Deques, n: nat) {
    |RateLimiter.DequeOf(calls, CHECKS)| <= n
  }

  lemma WithinRate(calls: RateLimiter.Deques, n: nat, now: Time)
    requires Checked(calls, n) && n < 5
    ensures RateLimiter.MemoryAccepts(calls, STATUS.rateLimit, RateLimiter.Call(CHECKS, now))
    ensures Checked(RateLimiter.MemoryCheck(calls, STATUS.rateLimit, RateLimiter.Call(CHECKS, now)), n + 1)
  {
    DropShortens(RateLimiter.DequeOf(calls, CHECKS), 60_000_000, now);
  }

  /** The event of a fresh reservation. */
  ghost function Reserving(cfg: Config, tid: Tid, es: Entries, k: IdempotencyKey, now: Time): Event {
    var live := Expire(es, now - cfg.idempotencyTtl);
    Reservation(tid, k, now, true, KeysOf(es) - KeysOf(live),
                KeysOf(live) + {k} - KeysOf(ReserveEntries(es, k, now, cfg.idempotencyTtl, cfg.maxEntries)))
  }

  lemma LimitPasses(cfg: Config, tid: Tid, s: Store, key: string, now: Time)
    requires cfg == Demo(cfg.idempotencyTtl, cfg.maxEntries)
    requires RateLimiter.MemoryAccepts(s.calls, STATUS.rateLimit, RateLimiter.Call(CHECKS, now))
    ensures Advance(cfg, tid, s, AtEntry(key, now), TICK)
      == StepResult(s.(calls := RateLimiter.MemoryCheck(s.calls, STATUS.rateLimit, RateLimiter.Call(CHECKS, now))),
                    AtEntry(key, now).(pc := AtReserve), [])
  {
  }

  lemma ReservePasses(cfg: Config, tid: Tid, s: Store, key: string, now: Time)
    requires cfg == Demo(cfg.idempotencyTtl, cfg.maxEntries)
    requires ReserveOutcomeOf(s.keys, IdempotencyKey("engineer-1", key), now, cfg.idempotencyTtl) == Fresh
    ensures var k := IdempotencyKey("engineer-1", key);
      Advance(cfg, tid, s, AtEntry(key, now).(pc := AtReserve), TICK)
        == StepResult(s.(keys := ReserveEntries(s.keys, k, now, cfg.idempotencyTtl, cfg.maxEntries)), Holding(key, now),
                      [Reserving(cfg, tid, s.keys, k, now)])
  {
  }

  /** The system after a call has entered and reserved its key. */
  ghost predicate HasReserved(cfg: Config, s: System, tid: Tid, key: string, now: Time, n: nat, s': System) {
    var k := IdempotencyKey("engineer-1", key);
    && s'.calls == s.calls[tid := Holding(key, now)]
    && s'.store.keys == ReserveEntries(s.store.keys, k, now, cfg.idempotencyTtl, cfg.maxEntries)
    && Checked(s'.store.calls, n + 1)
    && s'.trace == s.trace + [Reserving(cfg, tid, s.store.keys, k, now)]
  }

  lemma CallReserves(cfg: Config, s: System, tid: Tid, key: string, now: Time, n: nat)
    requires cfg == Demo(cfg.idempotencyTtl, cfg.maxEntries) && tid in s.calls && s.calls[tid] == AtEntry(key, now)
    requires Checked(s.store.calls, n) && n < 5
    requires ReserveOutcomeOf(s.store.keys, IdempotencyKey("engineer-1", key), now, cfg.idempotencyTtl) == Fresh
    ensures HasReserved(cfg, s, tid, key, now, n, From(cfg, s, ReserveActions(tid)))
  {
    var a := StepCall(tid, TICK);
    WithinRate(s.store.calls, n, now);
    LimitPasses(cfg, tid, s.store, key, now);
    Race.ActIsAdvance(cfg, s, tid, TICK, Advance(cfg, tid, s.store, AtEntry(key, now), TICK));
    var s1 := Act(cfg, s, a);
    assert s.trace + [] == s.trace;
    ReservePasses(cfg, tid, s1.store, key, now);
    Race.ActIsAdvance(cfg, s1, tid, TICK, Advance(cfg, tid, s1.store, s1.calls[tid], TICK));
    TwoSteps(cfg, s, a);
  }

  lemma TwoSteps(cfg: Config, s: System, a: Action)
    ensures From(cfg, s, [a, a]) == Act(cfg, Act(cfg, s, a), a)
  {
    assert [] + [a] == [a] && [a] + [a] == [a, a];
    FromAppend(cfg, s, [], a);
    FromAppend(cfg, s, [a], a);
  }

  // ---- three calls reserve one after another

  function Starting(a: Time, m: Time, n: Time): seq<Action> {
    [StartCall(Tid(1), RequestFor("key"), a), StartCall(Tid(2), RequestFor("key"), n),
      StartCall(Tid(3), RequestFor("other"), m)]
  }

  /** The first call reserves the key at `a`, the third another key at `m`, the second the key at `n`. */
  function Schedule(a: Time, m: Time, n: Time): seq<Action> {
    Starting(a, m, n) + ReserveActions(Tid(1)) + ReserveActions(Tid(3)) + ReserveActions(Tid(2))
  }

  /** The three calls as they stand: reserved ones hold their key, the others are about to enter. */
  ghost function CallsWhen(a: Time, m: Time, n: Time, first: bool, third: bool, second: bool): map<Tid, ToolCall> {
    map[Tid(1) := if first then Holding("key", a) else AtEntry("key", a),
        Tid(2) := if second then Holding("key", n) else AtEntry("key", n),
        Tid(3) := if third then Holding("other", m) else AtEntry("other", m)]
  }

  ghost function Started(a: Time, m: Time, n: Time): System {
    INITIAL.(calls := CallsWhen(a, m, n, false, false, false))
  }

  lemma AfterStarting(cfg: Config, a: Time, m: Time, n: Time)
    requires cfg == Demo(cfg.idempotencyTtl, cfg.maxEntries)
    ensures From(cfg, INITIAL, Starting(a, m, n)) == Started(a, m, n)
  {
    var x := Starting(a, m, n);
    assert [] + [x[0]] == [x[0]] && [x[0]] + [x[1]] == [x[0], x[1]] && [x[0], x[1]] + [x[2]] == x;
    FromAppend(cfg, INITIAL, [], x[0]);
    FromAppend(cfg, INITIAL, [x[0]], x[1]);
    FromAppend(cfg, INITIAL, [x[0], x[1]], x[2]);
    Enters(cfg, INITIAL, Tid(1), "key", a);
    Enters(cfg, Act(cfg, INITIAL, x[0]), Tid(2), "key", n);
    Enters(cfg, Act(cfg, Act(cfg, INITIAL, x[0]), x[1]), Tid(3), "other", m);
  }

  lemma Enters(cfg: Config, s: System, tid: Tid, key: string, now: Time)
    requires cfg == Demo(cfg.idempotencyTtl, cfg.maxEntries) && tid !in s.calls
    ensures Act(cfg, s, StartCall(tid, RequestFor(key), now)) == s.(calls := s.calls[tid := AtEntry(key, now)])
  {
  }

  function First(a: Time): Entries {
    [Entry(KEY, Record(a, Reserved, None))]
  }

  function Second(m: Time): Entries {
    [Entry(OTHER, Record(m, Reserved, None))]
  }

  /** The third call's reservation leaves only its own record, and the second call's is fresh. */
  ghost predicate Route(cfg: Config, a: Time, m: Time, n: Time) {
    && cfg == Demo(cfg.idempotencyTtl, cfg.maxEntries)
    && ReserveEntries([], KEY, a, cfg.idempotencyTtl, cfg.maxEntries) == First(a)
    && ReserveOutcomeOf(First(a), OTHER, m, cfg.idempotencyTtl) == Fresh
    && ReserveEntries(First(a), OTHER, m, cfg.idempotencyTtl, cfg.maxEntries) == Second(m)
    && ReserveOutcomeOf(Second(m), KEY, n, cfg.idempotencyTtl) == Fresh
  }

  /** The state the schedule ends in: both calls on the key hold it. */
  ghost predicate Shared(cfg: Config, a: Time, m: Time, n: Time, s: System) {
    && s.calls == CallsWhen(a, m, n, true, true, true)
    && s.store.keys == ReserveEntries(Second(m), KEY, n, cfg.idempotencyTtl, cfg.maxEntries)
    && s.trace == [Reserving(cfg, Tid(1), [], KEY, a), Reserving(cfg, Tid(3), First(a), OTHER, m),
      Reserving(cfg, Tid(2), Second(m), KEY, n)]
  }

  /** The state once the first call has reserved, and once the third has. */
  ghost predicate AfterFirst(cfg: Config, a: Time, m: Time, n: Time, s: System) {
    && s.calls == CallsWhen(a, m, n, true, false, false) && s.store.keys == First(a) && Checked(s.store.calls, 1)
    && s.trace == [Reserving(cfg, Tid(1), [], KEY, a)]
  }

  ghost predicate AfterThird(cfg: Config, a: Time, m: Time, n: Time, s: System) {
    && s.calls == CallsWhen(a, m, n, true, true, false) && s.store.keys == Second(m) && Checked(s.store.calls, 2)
    && s.trace == [Reserving(cfg, Tid(1), [], KEY, a), Reserving(cfg, Tid(3), First(a), OTHER, m)]
  }

  lemma CallsNext(a: Time, m: Time, n: Time)
    ensures CallsWhen(a, m, n, false, false, false)[Tid(1) := Holding("key", a)] ==
      CallsWhen(a, m, n, true, false, false)
    ensures CallsWhen(a, m, n, true, false, false)[Tid(3) := Holding("other", m)] ==
      CallsWhen(a, m, n, true, true, false)
    ensures CallsWhen(a, m, n, true, true, false)[Tid(2) := Holding("key", n)] == CallsWhen(a, m, n, true, true, true)
  {
  }

  lemma ThreeEvents(x: Event, y: Event, z: Event)
    ensures [] + [x] == [x] && [x] + [y] == [x, y] && [x, y] + [z] == [x, y, z]
  {
  }

  /** What one call's reservation makes of the state before it. */
  lemma ReservedInTurn(cfg: Config, a: Time, m: Time, n: Time, s: System, s': System)
    requires Route(cfg, a, m, n)
    ensures s == Started(a, m, n) && HasReserved(cfg, s, Tid(1), "key", a, 0, s') ==> AfterFirst(cfg, a, m, n, s')
    ensures AfterFirst(cfg, a, m, n, s) && HasReserved(cfg, s, Tid(3), "other", m, 1, s') ==>
      AfterThird(cfg, a, m, n, s')
    ensures AfterThird(cfg, a, m, n, s) && HasReserved(cfg, s, Tid(2), "key", n, 2, s') ==> Shared(cfg, a, m, n, s')
  {
    CallsNext(a, m, n);
    ThreeEvents(Reserving(cfg, Tid(1), [], KEY, a), Reserving(cfg, Tid(3), First(a), OTHER, m),
      Reserving(cfg, Tid(2), Second(m), KEY, n));
  }

  lemma FirstReserves(cfg: Config, a: Time, m: Time, n: Time)
    requires Route(cfg, a, m, n)
    ensures AfterFirst(cfg, a, m, n, From(cfg, Started(a, m, n), ReserveActions(Tid(1))))
  {
    var s := Started(a, m, n);
    CallReserves(cfg, s, Tid(1), "key", a, 0);
    ReservedInTurn(cfg, a, m, n, s, From(cfg, s, ReserveActions(Tid(1))));
  }

  lemma ThirdReserves(cfg: Config, s: System, a: Time, m: Time, n: Time)
    requires Route(cfg, a, m, n) && AfterFirst(cfg, a, m, n, s)
    ensures AfterThird(cfg, a, m, n, From(cfg, s, ReserveActions(Tid(3))))
  {
    CallReserves(cfg, s, Tid(3), "other", m, 1);
    ReservedInTurn(cfg, a, m, n, s, From(cfg, s, ReserveActions(Tid(3))));
  }

  lemma SecondReserves(cfg: Config, s: System, a: Time, m: Time, n: Time)
    requires Route(cfg, a, m, n) && AfterThird(cfg, a, m, n, s)
    ensures Shared(cfg, a, m, n, From(cfg, s, ReserveActions(Tid(2))))
  {
    CallReserves(cfg, s, Tid(2), "key", n, 2);
    ReservedInTurn(cfg, a, m, n, s, From(cfg, s, ReserveActions(Tid(2))));
  }

  lemma ScheduleShares(cfg: Config, a: Time, m: Time, n: Time)
    requires Route(cfg, a, m, n)
    ensures Shared(cfg, a, m, n, Run(cfg, Schedule(a, m, n)))
  {
    var s1 := From(cfg, Started(a, m, n), ReserveActions(Tid(1)));
    ScheduleParts(cfg, a, m, n);
    FirstReserves(cfg, a, m, n);
    ThirdReserves(cfg, s1, a, m, n);
    SecondReserves(cfg, From(cfg, s1, ReserveActions(Tid(3))), a, m, n);
  }

  lemma ScheduleParts(cfg: Config, a: Time, m: Time, n: Time)
    requires cfg == Demo(cfg.idempotencyTtl, cfg.maxEntries)
    ensures Run(cfg, Schedule(a, m, n))
      == From(cfg, From(cfg, From(cfg, Started(a, m, n), ReserveActions(Tid(1))), ReserveActions(Tid(3))),
        ReserveActions(Tid(2)))
  {
    var x, y := Starting(a, m, n), Starting(a, m, n) + ReserveActions(Tid(1));
    AfterStarting(cfg, a, m, n);
    FromThenFrom(cfg, INITIAL, x, ReserveActions(Tid(1)));
    FromThenFrom(cfg, INITIAL, y, ReserveActions(Tid(3)));
    FromThenFrom(cfg, INITIAL, y + ReserveActions(Tid(3)), ReserveActions(Tid(2)));
    RunThenFrom(cfg, [], Schedule(a, m, n));
    assert [] + Schedule(a, m, n) == Schedule(a, m, n);
  }

  // ---- the two routes

  lemma OneEntry(e: Entry, before: Time, k: IdempotencyKey, r: Record)
    ensures Expire([], before) == [] && Expire([e], before) == (if e.record.createdAt <= before then [] else [e])
    ensures Put([], k, r) == [Entry(k, r)] && Lookup([], k) == None
    ensures k != e.key ==> Put([e], k, r) == [e, Entry(k, r)] && Lookup([e], k) == None
  {
    assert [e][..0] == [] && [e][1..] == [];
  }

  /** A key a lifetime old at the third call's reading is expired by it. */
  lemma ByExpiry(ttl: int, maxEntries: nat, a: Time, m: Time, n: Time)
    requires maxEntries >= 1 && a + ttl <= m
    ensures Route(Demo(ttl, maxEntries), a, m, n)
  {
    OneEntry(First(a)[0], m - ttl, OTHER, Record(m, Reserved, None));
    OneEntry(First(a)[0], a - ttl, KEY, Record(a, Reserved, None));
    OneEntry(Second(m)[0], n - ttl, KEY, Record(n, Reserved, None));
  }

  /** In a store of one record the key is evicted by it, however young. */
  lemma ByEviction(ttl: int, a: Time, m: Time, n: Time)
    requires a <= m < a + ttl
    ensures Route(Demo(ttl, 1), a, m, n)
  {
    OneEntry(First(a)[0], m - ttl, OTHER, Record(m, Reserved, None));
    OneEntry(First(a)[0], a - ttl, KEY, Record(a, Reserved, None));
    OneEntry(Second(m)[0], n - ttl, KEY, Record(n, Reserved, None));
    var two := First(a) + Second(m);
    assert two == [First(a)[0], Second(m)[0]] && two[..1] == First(a);
    assert OldestIndex(two) == 0;
    assert RemoveAt(two, 0) == Second(m);
    assert Evict(two, 1) == Evict(Second(m), 1);
  }
}
