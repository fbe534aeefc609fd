/** db/userconfig_storage.py: the hand-rolled memory cache of `UserConfigStorage`, a plain dictionary
    that relies on its callers for its recency order. Redis and the database are input. */
module UserConfigStorage {
  import opened Text
  import opened OrderedDict
  import opened LruCache

  const MAX_SIZE: nat := 500
  const DEFAULT_TTL: int := 300

  /** `None` until the first read creates the cache. */
  type Memory = Option<Dict<Entry>>

  function MemoryGet(m: Memory, k: string, now: int): (Memory, Option<Config>) {
    match m
    case None => (Some(Empty()), None)
    case Some(d) => var (d', r) := Get(d, k, now); (Some(d'), r)
  }

  /** The assignment keeps the place of a key that is already there. */
  function MemorySet(m: Memory, k: string, v: Config, ttl: Option<int>, now: int): Memory {
    match m
    case None => None
    case Some(d) => Some(Evict(Put(d, k, Entry(v, now + OrElse(ttl, DEFAULT_TTL), 1)), MAX_SIZE))
  }

  function MemoryInvalidate(m: Memory, k: string): Memory {
    if m.Some? && Has(m.value, k) then Some(Del(m.value, k)) else m
  }

  datatype Call =
    | GetUserConfig(k: string, now: int, redis: Option<Config>, db: Option<Config>, later: int)
    | UpdateUserConfig(k: string, cfg: Config, dbFails: bool, now: int)
    | InvalidateCache(k: string)

  /** `get_user_config`: memory, Redis, database; what is found below is put into memory. */
  function AfterGet(m: Memory, c: Call): (Memory, Option<Config>)
    requires c.GetUserConfig?
  {
    var (m1, hit) := MemoryGet(m, c.k, c.now);
    if hit.Some? then (m1, hit)
    else
      var found := if c.redis.Some? then c.redis else c.db;
      (if found.Some? then MemorySet(m1, c.k, found.value, None, c.later) else m1, found)
  }

  function After(m: Memory, c: Call): Memory {
    match c
    case GetUserConfig(_, _, _, _, _) => AfterGet(m, c).0
    case UpdateUserConfig(k, cfg, dbFails, now) =>
      if dbFails then m else MemorySet(MemoryInvalidate(m, k), k, cfg, None, now)
    case InvalidateCache(k) => MemoryInvalidate(m, k)
  }

  function AfterAll(m: Memory, calls: seq<Call>): Memory
    decreases |calls|
  {
    if calls == [] then m else AfterAll(After(m, calls[0]), calls[1..])
  }

  class UserConfigStorage {
    var memory: Memory
    var hits: nat
    var misses: nat

    constructor ()
      ensures memory == None && hits == misses == 0
    {
      memory, hits, misses := None, 0, 0;
    }

    method MemoryCacheGet(k: string, now: int) returns (r: Option<Config>)
      modifies this
      ensures (memory, r) == MemoryGet(old(memory), k, now)
      ensures r.Some? ==> hits == old(hits) + 1 && misses == old(misses)
      ensures r.None? ==> hits == old(hits) && misses == if old(memory).None? then old(misses) else old(misses) + 1
    {
      if memory.None? {
        memory := Some(Empty());
        return None;
      }
      var d := memory.value;
      if !Has(d, k) {
        misses := misses + 1;
        return None;
      }
      var e := d.vals[k];
      if Expired(e, now) {
        memory := Some(Del(d, k));
        misses := misses + 1;
        return None;
      }
      d := MoveToEnd(d, k);
      memory := Some(Put(d, k, e.(accessCount := e.accessCount + 1)));
      hits := hits + 1;
      r := Some(e.value);
    }

    method MemoryCacheSet(k: string, v: Config, ttl: Option<int>, now: int)
      modifies this`memory
      ensures memory == MemorySet(old(memory), k, v, ttl, now)
    {
      if memory.None? { return; }
      var d := Put(memory.value, k, Entry(v, now + OrElse(ttl, DEFAULT_TTL), 1));
      ghost var full := d;
      while |d.order| > MAX_SIZE
        invariant Evict(d, MAX_SIZE) == Evict(full, MAX_SIZE)
        decreases |d.order|
      {
        d := Del(d, d.order[0]);
      }
      memory := Some(d);
    }

    method MemoryCacheInvalidate(k: string) returns (removed: bool)
      modifies this`memory
      ensures memory == MemoryInvalidate(old(memory), k)
      ensures removed == (old(memory).Some? && Has(old(memory).value, k))
    {
      removed := memory.Some? && Has(memory.value, k);
      if removed { memory := Some(Del(memory.value, k)); }
    }

    method GetConfig(c: Call) returns (r: Option<Config>)
      requires c.GetUserConfig?
      modifies this
      ensures (memory, r) == AfterGet(old(memory), c)
    {
      r := MemoryCacheGet(c.k, c.now);
      if r.Some? { return; }
      r := c.redis;
      if r.Some? {
        MemoryCacheSet(c.k, r.value, None, c.later);
        return;
      }
      r := c.db;
      if r.Some? { MemoryCacheSet(c.k, r.value, None, c.later); }
    }

    method UpdateConfig(c: Call) returns (raised: bool)
      requires c.UpdateUserConfig?
      modifies this
      ensures memory == After(old(memory), c) && raised == c.dbFails
    {
      if c.dbFails { return true; }
      var _ := MemoryCacheInvalidate(c.k);
      MemoryCacheSet(c.k, c.cfg, None, c.now);
      raised := false;
    }
  }

  // -------------------------------------------------------------------- recency by caller discipline

  /** A plain assignment leaves the dictionary in the order that assign-and-move-to-end would, if and
      only if the key is absent or already last. */
  lemma PlainSetKeepsRecency(d: Dict<Entry>, k: string, e: Entry)
    requires Valid(d)
    ensures Put(d, k, e) == MoveToEnd(Put(d, k, e), k) <==> k !in d.vals || d.order[|d.order| - 1] == k
  {
    hide Without;
    WithoutToEnd(d, k, e);
    if k !in d.vals {
      WithoutAbsent(d.order, k);
    } else {
      var n := |d.order| - 1;
      assert d.order != [];
      if d.order[n] == k {
        assert d.order == d.order[..n] + [k];
        WithoutAppend(d.order[..n], k);
      }
    }
  }

  lemma SetWhenAbsent(m: Memory, k: string, v: Config, now: int)
    requires m.Some? && Valid(m.value) && k !in m.value.vals
    ensures MemorySet(m, k, v, None, now) == Some(Set(m.value, k, Entry(v, now + DEFAULT_TTL, 1), MAX_SIZE))
  {
    PlainSetKeepsRecency(m.value, k, Entry(v, now + DEFAULT_TTL, 1));
  }

  lemma AbsentAfterMiss(d: Dict<Entry>, k: string, now: int)
    requires Valid(d) && Get(d, k, now).1.None?
    ensures k !in Get(d, k, now).0.vals
  {
  }

  /** The operations of an order-keeping cache that one call amounts to. */
  function OpsOf(m: Memory, c: Call): seq<Op> {
    match c
    case GetUserConfig(k, now, redis, db, later) =>
      var found := if redis.Some? then redis else db;
      var read := if m.None? then [] else [GetOp(k, now)];
      if MemoryGet(m, k, now).1.None? && found.Some? then read + [SetOp(k, Entry(found.value, later + DEFAULT_TTL, 1))]
      else read
    case UpdateUserConfig(k, cfg, dbFails, now) =>
      if dbFails || m.None? then [] else [InvalidateOp(k), SetOp(k, Entry(cfg, now + DEFAULT_TTL, 1))]
    case InvalidateCache(k) => if m.None? then [] else [InvalidateOp(k)]
  }

  /** The cache is the order-keeping cache of the history. */
  ghost predicate Tracks(m: Memory, h: History) {
    Inv(h, MAX_SIZE) && (if m.Some? then m.value == h.d else h == NEW)
  }

  lemma OneOp(h: History, a: Op)
    ensures ApplyAll(h, [a], MAX_SIZE) == Apply(h, a, MAX_SIZE)
  {
    hide Apply;
    var ops := [a];
    assert ops[1..] == [] && ApplyAll(h, ops, MAX_SIZE) == ApplyAll(Apply(h, a, MAX_SIZE), [], MAX_SIZE);
  }

  lemma TwoOps(h: History, a: Op, b: Op)
    ensures ApplyAll(h, [a, b], MAX_SIZE) == Apply(Apply(h, a, MAX_SIZE), b, MAX_SIZE)
  {
    hide Apply;
    OneOp(Apply(h, a, MAX_SIZE), b);
    assert [a, b][1..] == [b];
  }

  lemma CallTracks(m: Memory, h: History, c: Call)
    requires Tracks(m, h)
    ensures Tracks(After(m, c), ApplyAll(h, OpsOf(m, c), MAX_SIZE))
  {
    hide Inv, AfterGet, Apply, MemorySet;
    EveryRunIsLru(h, OpsOf(m, c), MAX_SIZE);
    match c
    case GetUserConfig(_, _, _, _, _) => GetTracks(m, h, c);
    case UpdateUserConfig(_, _, _, _) => UpdateTracks(m, h, c);
    case InvalidateCache(k) => InvalidateTracks(m, h, k);
  }

  lemma InvalidateTracks(m: Memory, h: History, k: string)
    requires Tracks(m, h)
    ensures var m' := MemoryInvalidate(m, k);
      && m'.Some? == m.Some?
      && (m.Some? ==> m'.value == ApplyAll(h, [InvalidateOp(k)], MAX_SIZE).d && Valid(m'.value) && k !in m'.value.vals)
      && (m.None? ==> m' == m)
  {
    OneOp(h, InvalidateOp(k));
    DelValid(h.d, k);
  }

  lemma UpdateTracks(m: Memory, h: History, c: Call)
    requires Tracks(m, h) && c.UpdateUserConfig?
    ensures var m', h' := After(m, c), ApplyAll(h, OpsOf(m, c), MAX_SIZE);
      if m.Some? then m'.Some? && m'.value == h'.d else m' == m && h' == h
  {
    hide Inv, Set, Evict, Put;
    InvalidateTracks(m, h, c.k);
    if m.Some? && !c.dbFails {
      OneOp(h, InvalidateOp(c.k));
      TwoOps(h, InvalidateOp(c.k), SetOp(c.k, Entry(c.cfg, c.now + DEFAULT_TTL, 1)));
      SetWhenAbsent(MemoryInvalidate(m, c.k), c.k, c.cfg, c.now);
    }
  }

  lemma GetTracks(m: Memory, h: History, c: Call)
    requires Tracks(m, h) && c.GetUserConfig?
    ensures After(m, c) == Some(ApplyAll(h, OpsOf(m, c), MAX_SIZE).d)
  {
    hide Evict, Put, MoveToEnd, Inv, Get, Set;
    var found := if c.redis.Some? then c.redis else c.db;
    var (m1, hit) := MemoryGet(m, c.k, c.now);
    GetKeepsTracking(m, h, c.k, c.now);
    var read := GetOp(c.k, c.now);
    OneOp(h, read);
    if hit.None? && found.Some? {
      var put := SetOp(c.k, Entry(found.value, c.later + DEFAULT_TTL, 1));
      SetWhenAbsent(m1, c.k, found.value, c.later);
      TwoOps(h, read, put);
      OneOp(h, put);
      assert [] + [put] == [put] && [read] + [put] == [read, put];
    }
  }

  lemma GetKeepsTracking(m: Memory, h: History, k: string, now: int)
    requires Tracks(m, h)
    ensures var (m1, r) := MemoryGet(m, k, now);
      && m1.Some? && Valid(m1.value) && (r.None? ==> k !in m1.value.vals)
      && m1.value == (if m.None? then h else Apply(h, GetOp(k, now), MAX_SIZE)).d
  {
    var (m1, r) := MemoryGet(m, k, now);
    if m.Some? {
      GetKeeps(h, k, now, MAX_SIZE);
      if r.None? { AbsentAfterMiss(m.value, k, now); }
    }
  }

  function HistoryOf(m: Memory, h: History, calls: seq<Call>): History
    decreases |calls|
  {
    if calls == [] then h
    else HistoryOf(After(m, calls[0]), ApplyAll(h, OpsOf(m, calls[0]), MAX_SIZE), calls[1..])
  }

  /** Dict-order LRU by caller discipline. In every sequential run of reads, updates and
      invalidations the plain dictionary is the order-keeping cache of the run's history, so its
      order is the order of last use, its size stays within the limit, and eviction removes the
      least recently used entry. */
  lemma {:induction false} SequentialRunsAreLru(m: Memory, h: History, calls: seq<Call>)
    requires Tracks(m, h)
    ensures Tracks(AfterAll(m, calls), HistoryOf(m, h, calls))
    decreases |calls|
  {
    hide Tracks, After, OpsOf, ApplyAll;
    if calls != [] {
      CallTracks(m, h, calls[0]);
      SequentialRunsAreLru(After(m, calls[0]), ApplyAll(h, OpsOf(m, calls[0]), MAX_SIZE), calls[1..]);
    }
  }

  /** The same, spelled out from a fresh storage object. */
  lemma FreshStorageIsLru(calls: seq<Call>)
    ensures var m, h := AfterAll(None, calls), HistoryOf(None, NEW, calls);
      m.Some? ==> m.value == h.d && |h.d.order| <= MAX_SIZE && InUseOrder(h.d.order, h.lastUse) && EvictedOlder(h)
  {
    SequentialRunsAreLru(None, NEW, calls);
  }

  // -------------------------------------------------------------------- what a read gives

  /** A read gives what memory holds within its lifetime, or else what Redis has, or else what the database
      has; and what it gives is in memory afterwards. */
  lemma ReadGives(m: Memory, c: Call)
    requires c.GetUserConfig? && (m.Some? ==> Valid(m.value))
    ensures var (m', r) := AfterGet(m, c);
      && r == (if m.Some? && c.k in m.value.vals && c.now <= m.value.vals[c.k].expiresAt
               then Some(m.value.vals[c.k].value) else if c.redis.Some? then c.redis else c.db)
      && m'.Some? && (r.Some? ==> c.k in m'.value.vals && m'.value.vals[c.k].value == r.value)
  {
    hide Set, Evict, Without;
    var (m1, hit) := MemoryGet(m, c.k, c.now);
    if m.Some? {
      HitIs(m.value, c.k, c.now);
      DelValid(m.value, c.k);
      if hit.None? { AbsentAfterMiss(m.value, c.k, c.now); }
    }
    var found := if c.redis.Some? then c.redis else c.db;
    if hit.None? && found.Some? { SetIsHeld(m1, c.k, found.value, None, c.later); }
  }

  /** An update that goes through is in memory for five minutes, if there is a memory; one that does not
      changes nothing. */
  lemma UpdateIsHeld(m: Memory, k: string, cfg: Config, dbFails: bool, now: int)
    requires m.Some? ==> Valid(m.value)
    ensures var m' := After(m, UpdateUserConfig(k, cfg, dbFails, now));
      if dbFails || m.None? then m' == m
      else m'.Some? && k in m'.value.vals && m'.value.vals[k] == Entry(cfg, now + 300, 1)
  {
    hide Evict, Put;
    if m.Some? && !dbFails {
      DelValid(m.value, k);
      SetIsHeld(MemoryInvalidate(m, k), k, cfg, None, now);
    }
  }

  /** What is set is in memory, for the given lifetime or for five minutes. */
  lemma SetIsHeld(m: Memory, k: string, v: Config, ttl: Option<int>, now: int)
    requires m.Some? && Valid(m.value) && (k in m.value.vals ==> |m.value.order| <= 500)
    ensures var m' := MemorySet(m, k, v, ttl, now);
      && m'.Some? && k in m'.value.vals
      && m'.value.vals[k] == Entry(v, now + (if ttl == None || ttl == Some(0) then 300 else ttl.value), 1)
  {
    hide Evict, Without;
    var e := Entry(v, now + OrElse(ttl, DEFAULT_TTL), 1);
    var d := Put(m.value, k, e);
    PutValid(m.value, k, e);
    EvictKeepsSuffix(d, MAX_SIZE);
    var kept := Evict(d, MAX_SIZE);
    if k !in m.value.vals { assert kept.order[|kept.order| - 1] == d.order[|d.order| - 1] == k; }
  }

  /** The clock never goes back from call to call. */
  predicate TimelyCalls(calls: seq<Call>, t: int) {
    calls == [] || (CallClock(calls[0], t) >= t && TimelyCalls(calls[1..], CallClock(calls[0], t)))
  }

  function CallClock(c: Call, t: int): int {
    if c.GetUserConfig? then c.now else t
  }

  function ClockAfterCalls(calls: seq<Call>, t: int): int
    decreases |calls|
  {
    if calls == [] then t else ClockAfterCalls(calls[1..], CallClock(calls[0], t))
  }

  lemma CallAccounts(m: Memory, h: History, c: Call, t: int)
    requires Tracks(m, h) && Accounted(h, t) && CallClock(c, t) >= t
    ensures Accounted(ApplyAll(h, OpsOf(m, c), MAX_SIZE), CallClock(c, t))
  {
    hide Inv, Apply, ApplyAll, Accounted;
    var ops := OpsOf(m, c);
    OpsTimely(m, c, t);
    RunAccounts(h, ops, t, MAX_SIZE);
    LaterAccounts(ApplyAll(h, ops, MAX_SIZE), ClockAfter(ops, t), CallClock(c, t));
  }

  lemma LaterAccounts(h: History, t: int, t': int)
    requires Accounted(h, t) && t <= t'
    ensures Accounted(h, t')
  {
  }

  lemma OpsTimely(m: Memory, c: Call, t: int)
    requires CallClock(c, t) >= t
    ensures Timely(OpsOf(m, c), t) && ClockAfter(OpsOf(m, c), t) <= CallClock(c, t)
  {
    var ops := OpsOf(m, c);
    assert |ops| <= 2;
    if |ops| == 1 {
      assert ops[1..] == [];
    } else if |ops| == 2 {
      var one := Clock(ops[0], t);
      assert ops[1..] == [ops[1]] && ops[1..][1..] == [];
      assert ClockAfter(ops, t) == ClockAfter(ops[1..], one) == ClockAfter([], Clock(ops[1], one));
      assert Timely([], Clock(ops[1], one)) && Timely(ops[1..], one);
    }
  }

  lemma {:induction false} CallsAccount(m: Memory, h: History, calls: seq<Call>, t: int)
    requires Tracks(m, h) && Accounted(h, t) && TimelyCalls(calls, t)
    ensures Accounted(HistoryOf(m, h, calls), ClockAfterCalls(calls, t))
    decreases |calls|
  {
    hide Tracks, After, OpsOf, ApplyAll, Accounted;
    if calls != [] {
      CallTracks(m, h, calls[0]);
      CallAccounts(m, h, calls[0], t);
      CallsAccount(After(m, calls[0]), ApplyAll(h, OpsOf(m, calls[0]), MAX_SIZE), calls[1..], CallClock(calls[0], t));
    }
  }

  /** In every sequential run at a clock that never goes back, memory answers a read if and only if the key
      was put there and not invalidated since, its lifetime is not over, and it was not evicted since. */
  lemma MemoryReadsExactly(calls: seq<Call>, k: string, start: int, now: int)
    requires TimelyCalls(calls, start) && now >= ClockAfterCalls(calls, start)
    ensures var m, h := AfterAll(None, calls), HistoryOf(None, NEW, calls);
      var r := MemoryGet(m, k, now).1;
      && (r.Some? <==> k in h.ideal && now <= h.ideal[k].1 && k !in h.evicted)
      && (r.Some? ==> r.value == h.ideal[k].0)
  {
    hide Get;
    SequentialRunsAreLru(None, NEW, calls);
    CallsAccount(None, NEW, calls, start);
    var m, h := AfterAll(None, calls), HistoryOf(None, NEW, calls);
    HitIs(h.d, k, now);
  }
}
