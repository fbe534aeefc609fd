/** db/multi_tier_cache.py: `MultiTierUserConfigCache`, memory in front of Redis in front of the
    database. Redis and the database are the environment's: how each call to them goes is input. */
module MultiTierCache {
  import opened Text
  import opened OrderedDict
  import opened LruCache

  /** How a call to Redis or to the database goes: it works, it raises, or (for Redis) it has no
      effect and, for a read, yields nothing, because the client swallows its own errors. */
  datatype IO = Works | Raises | NoEffect

  datatype Tiers = Tiers(memory: Dict<Entry>, redis: map<string, Config>, db: map<string, Config>)

  /** The fixed part of a cache: which tiers are wired in, and the sizes. */
  datatype Wiring = Wiring(hasRedis: bool, hasDb: bool, maxSize: nat, memoryTtl: int)

  function Lookup(m: map<string, Config>, k: string): Option<Config> {
    if k in m then Some(m[k]) else None
  }

  function Remember(w: Wiring, t: Tiers, k: string, c: Config, now: int): Tiers {
    t.(memory := Set(t.memory, k, Entry(c, now + w.memoryTtl, 0), w.maxSize))
  }

  function WriteRedis(t: Tiers, k: string, c: Config, io: IO): Tiers {
    if io.Works? then t.(redis := t.redis[k := c]) else t
  }

  /** Memory, then Redis, then the database; an exception from the Redis write after a database read
      is taken for a database error, and the value is not returned. */
  function GetUserConfig(w: Wiring, t: Tiers, k: string, now: int, redisRead: IO, dbRead: IO,
                         redisWrite: IO): (Tiers, Option<Config>) {
    var (memory, hit) := Get(t.memory, k, now);
    var t1 := t.(memory := memory);
    if hit.Some? then (t1, hit)
    else
      var cached := if w.hasRedis && redisRead.Works? then Lookup(t.redis, k) else None;
      if cached.Some? then (Remember(w, t1, k, cached.value, now), cached)
      else
        var stored := if w.hasDb && dbRead.Works? then Lookup(t.db, k) else None;
        if stored.None? then (t1, None)
        else
          var t2 := Remember(w, t1, k, stored.value, now);
          if !w.hasRedis then (t2, stored)
          else (WriteRedis(t2, k, stored.value, redisWrite), if redisWrite.Raises? then None else stored)
  }

  /** The database first; when that raises, nothing else happens. */
  function SetUserConfig(w: Wiring, t: Tiers, k: string, c: Config, now: int, dbWrite: IO, redisWrite: IO): (Tiers,
                         bool) {
    if w.hasDb && !dbWrite.Works? then (t, true)
    else
      var t1 := if w.hasDb then t.(db := t.db[k := c]) else t;
      var t2 := Remember(w, t1, k, c, now);
      if w.hasRedis then (WriteRedis(t2, k, c, redisWrite), redisWrite.Raises?) else (t2, false)
  }

  function Invalidate(w: Wiring, t: Tiers, k: string, redisDelete: IO): Tiers {
    var t1 := t.(memory := if Has(t.memory, k) then Del(t.memory, k) else t.memory);
    if w.hasRedis && redisDelete.Works? then t1.(redis := t1.redis - {k}) else t1
  }

  class MultiTierUserConfigCache {
    const w: Wiring
    const memory: InMemoryUserConfigCache
    var redis: map<string, Config>
    var db: map<string, Config>

    function View(): Tiers
      reads this, memory
    {
      Tiers(memory.cache, redis, db)
    }

    ghost predicate Wired()
    {
      memory.maxSize == w.maxSize && memory.defaultTtl == w.memoryTtl
    }

    constructor (hasRedis: bool, hasDb: bool, redis: map<string, Config>, db: map<string, Config>,
                 memoryTtl: int := 300)
      ensures w == Wiring(hasRedis, hasDb, 1000, memoryTtl) && Wired()
      ensures View() == Tiers(Empty(), redis, db) && fresh(memory)
    {
      w := Wiring(hasRedis, hasDb, 1000, memoryTtl);
      memory := new InMemoryUserConfigCache(1000, memoryTtl);
      this.redis, this.db := redis, db;
    }

    method GetConfig(k: string, now: int, redisRead: IO, dbRead: IO, redisWrite: IO) returns (r: Option<Config>)
      requires Wired()
      modifies this, memory
      ensures (View(), r) == GetUserConfig(w, old(View()), k, now, redisRead, dbRead, redisWrite)
    {
      r := memory.GetConfig(k, now);
      if r.Some? { return; }
      if w.hasRedis {
        r := if redisRead.Works? then Lookup(redis, k) else None;
        if r.Some? {
          memory.SetConfig(k, r.value, None, now);
          return;
        }
      }
      if w.hasDb && dbRead.Works? {
        r := Lookup(db, k);
        if r.Some? {
          memory.SetConfig(k, r.value, None, now);
          if w.hasRedis {
            match redisWrite {
              case Works => redis := redis[k := r.value];
              case NoEffect =>
              case Raises => return None;
            }
          }
          return;
        }
      }
      r := None;
    }

    method SetConfig(k: string, c: Config, now: int, dbWrite: IO, redisWrite: IO) returns (raised: bool)
      requires Wired()
      modifies this, memory
      ensures (View(), raised) == SetUserConfig(w, old(View()), k, c, now, dbWrite, redisWrite)
    {
      if w.hasDb {
        if !dbWrite.Works? { return true; }
        db := db[k := c];
      }
      memory.SetConfig(k, c, None, now);
      if w.hasRedis {
        if redisWrite.Works? { redis := redis[k := c]; }
        return redisWrite.Raises?;
      }
      raised := false;
    }

    method InvalidateConfig(k: string, redisDelete: IO)
      modifies this, memory
      ensures View() == Invalidate(w, old(View()), k, redisDelete)
    {
      var _ := memory.Invalidate(k);
      if w.hasRedis && redisDelete.Works? { redis := redis - {k}; }
    }
  }

  // -------------------------------------------------------------------- coherence

  /** Every entry of the tiers that are read in front of the database is the database's value. */
  ghost predicate Coherent(w: Wiring, t: Tiers) {
    && Valid(t.memory)
    && (forall k | k in t.memory.vals :: k in t.db && t.memory.vals[k].value == t.db[k])
    && (w.hasRedis ==> forall k | k in t.redis :: k in t.db && t.redis[k] == t.db[k])
  }

  lemma MemoryAfterSet(d: Dict<Entry>, k: string, e: Entry, max: nat)
    requires Valid(d)
    ensures Valid(Set(d, k, e, max))
    ensures forall x | x in Set(d, k, e, max).vals ::
      if x == k then Set(d, k, e, max).vals[x] == e else x in d.vals && Set(d, k, e, max).vals[x] == d.vals[x]
  {
    PutValid(d, k, e);
    MoveValid(Put(d, k, e), k);
    EvictKeepsSuffix(MoveToEnd(Put(d, k, e), k), max);
  }

  lemma MemoryAfterGet(d: Dict<Entry>, k: string, now: int)
    requires Valid(d)
    ensures Valid(Get(d, k, now).0)
    ensures forall x | x in Get(d, k, now).0.vals :: x in d.vals && Get(d, k, now).0.vals[x].value == d.vals[x].value
  {
    DelValid(d, k);
    MoveValid(d, k);
  }

  /** A read keeps the tiers coherent, and gives the database's value. It gives nothing only if the
      database has no value, cannot be read, or the value was read but the write to Redis raised. */
  lemma GetIsCoherent(w: Wiring, t: Tiers, k: string, now: int, redisRead: IO, dbRead: IO, redisWrite: IO)
    requires Coherent(w, t)
    ensures var (t', r) := GetUserConfig(w, t, k, now, redisRead, dbRead, redisWrite);
      && Coherent(w, t') && t'.db == t.db
      && (r.Some? ==> k in t.db && r.value == t.db[k])
      && (r.None? ==> k !in t.db || !w.hasDb || !dbRead.Works? || (w.hasRedis && redisWrite.Raises?))
  {
    hide Get, Set;
    MemoryAfterGet(t.memory, k, now);
    HitIsStored(t.memory, k, now);
    forall c | k in t.db && c == t.db[k]
      ensures Coherent(w, Remember(w, t.(memory := Get(t.memory, k, now).0), k, c, now))
    {
      MemoryAfterSet(Get(t.memory, k, now).0, k, Entry(c, now + w.memoryTtl, 0), w.maxSize);
    }
  }

  lemma HitIsStored(d: Dict<Entry>, k: string, now: int)
    ensures Get(d, k, now).1.Some? ==> k in d.vals && Get(d, k, now).1.value == d.vals[k].value
  {
  }

  /** Writing through the cache keeps the tiers coherent exactly when the write to Redis takes effect
      or Redis holds no other value for the key: a lost Redis write leaves a stale entry behind. */
  lemma SetIsCoherent(w: Wiring, t: Tiers, k: string, c: Config, now: int, redisWrite: IO)
    requires Coherent(w, t) && w.hasDb
    ensures var t' := SetUserConfig(w, t, k, c, now, Works, redisWrite).0;
      && t'.db == t.db[k := c]
      && (Coherent(w, t') <==> !w.hasRedis || redisWrite.Works? || k !in t.redis || t.redis[k] == c)
  {
    hide Set, Valid;
    MemoryAfterSet(t.memory, k, Entry(c, now + w.memoryTtl, 0), w.maxSize);
    var t' := SetUserConfig(w, t, k, c, now, Works, redisWrite).0;
    assert t'.db[k] == c;
    if w.hasRedis && !redisWrite.Works? && k in t.redis && t.redis[k] != c {
      assert k in t'.redis && t'.redis[k] != t'.db[k];
    }
  }

  lemma InvalidateIsCoherent(w: Wiring, t: Tiers, k: string, redisDelete: IO)
    requires Coherent(w, t)
    ensures Coherent(w, Invalidate(w, t, k, redisDelete)) && Invalidate(w, t, k, redisDelete).db == t.db
  {
    DelValid(t.memory, k);
  }

  /** After an invalidation whose delete works the key is in neither cache, and nothing else has changed; so a
      read gives what the database holds then, coherent or not. */
  lemma InvalidateForgets(w: Wiring, t: Tiers, k: string, redisDelete: IO, now: int, redisRead: IO, redisWrite: IO)
    requires Valid(t.memory) && (w.hasRedis ==> redisDelete.Works?)
    ensures var t' := Invalidate(w, t, k, redisDelete);
      && Valid(t'.memory) && t'.db == t.db
      && t'.memory.vals == t.memory.vals - {k} && k !in t'.memory.order
      && t'.redis == (if w.hasRedis then t.redis - {k} else t.redis)
    ensures var t' := Invalidate(w, t, k, redisDelete);
      forall db | w.hasDb && !(w.hasRedis && redisWrite.Raises?) ::
        GetUserConfig(w, t'.(db := db), k, now, redisRead, Works, redisWrite).1 == Lookup(db, k)
  {
    hide Set;
    DelValid(t.memory, k);
  }

  /** The first tier that answers, in order: memory within the lifetime, Redis, the database. It needs no
      coherence. Only a raising write-back to Redis loses an answer of the database. */
  lemma ReadOrder(w: Wiring, t: Tiers, k: string, now: int, redisRead: IO, dbRead: IO, redisWrite: IO)
    ensures var r := GetUserConfig(w, t, k, now, redisRead, dbRead, redisWrite).1;
      if k in t.memory.vals && now <= t.memory.vals[k].expiresAt then r == Some(t.memory.vals[k].value)
      else if w.hasRedis && redisRead == Works && k in t.redis then r == Some(t.redis[k])
      else if w.hasDb && dbRead == Works && k in t.db && !(w.hasRedis && redisWrite == Raises) then r == Some(t.db[k])
      else r == None
  {
    hide Set;
    HitIs(t.memory, k, now);
  }

  /** What a read gives is in memory afterwards, and in Redis if it came from the database and the write
      works. */
  lemma ReadFillsCaches(w: Wiring, t: Tiers, k: string, now: int, redisRead: IO, dbRead: IO, redisWrite: IO)
    requires Valid(t.memory) && w.maxSize >= 1
    ensures var (t', r) := GetUserConfig(w, t, k, now, redisRead, dbRead, redisWrite);
      r.Some? ==>
        && k in t'.memory.vals && t'.memory.vals[k].value == r.value
        && (w.memoryTtl >= 0 ==> now <= t'.memory.vals[k].expiresAt)
        && (w.hasRedis && redisWrite.Works? ==> k in t.memory.vals || (k in t'.redis && t'.redis[k] == r.value))
  {
    hide Get, Set;
    HitIsKept(t.memory, k, now);
    MemoryAfterGet(t.memory, k, now);
    if k in t.redis { SetHolds(Get(t.memory, k, now).0, k, Entry(t.redis[k], now + w.memoryTtl, 0), w.maxSize); }
    if k in t.db { SetHolds(Get(t.memory, k, now).0, k, Entry(t.db[k], now + w.memoryTtl, 0), w.maxSize); }
  }

  /** A write is in the database and in memory, and in Redis if that write works; when the database raises,
      nothing has changed. */
  lemma WriteFillsCaches(w: Wiring, t: Tiers, k: string, c: Config, now: int, dbWrite: IO, redisWrite: IO)
    requires Valid(t.memory) && w.maxSize >= 1
    ensures var (t', raised) := SetUserConfig(w, t, k, c, now, dbWrite, redisWrite);
      if w.hasDb && dbWrite != Works then raised && t' == t
      else
        && k in t'.memory.vals && t'.memory.vals[k] == Entry(c, now + w.memoryTtl, 0)
        && t'.db == (if w.hasDb then t.db[k := c] else t.db)
        && t'.redis == (if w.hasRedis && redisWrite == Works then t.redis[k := c] else t.redis)
        && raised == (w.hasRedis && redisWrite == Raises)
  {
    hide Set;
    SetHolds(t.memory, k, Entry(c, now + w.memoryTtl, 0), w.maxSize);
  }

  lemma SetHolds(d: Dict<Entry>, k: string, e: Entry, max: nat)
    requires Valid(d) && max >= 1
    ensures k in Set(d, k, e, max).vals && Set(d, k, e, max).vals[k] == e
  {
    hide Set;
    MemoryAfterSet(d, k, e, max);
    JustSetIsResident(d, k, e, max);
  }

  lemma HitIsKept(d: Dict<Entry>, k: string, now: int)
    ensures var (d', r) := Get(d, k, now);
      r.Some? ==> k in d'.vals && d'.vals[k].value == r.value && now <= d'.vals[k].expiresAt && k in d.vals
  {
  }

  lemma JustSetIsResident(d: Dict<Entry>, k: string, e: Entry, max: nat)
    requires Valid(d) && max >= 1
    ensures k in Set(d, k, e, max).vals
  {
    hide Evict, Without;
    var moved := MoveToEnd(Put(d, k, e), k);
    PutValid(d, k, e);
    MoveValid(Put(d, k, e), k);
    EvictKeepsSuffix(moved, max);
    var kept := Evict(moved, max);
    assert kept.order[|kept.order| - 1] == moved.order[|moved.order| - 1] == k;
  }

  /** A stale entry is served: after a lost Redis write, once the memory entry has expired, a read
      returns the old value although the database holds the new one. */
  lemma StaleReadAfterLostWrite(w: Wiring, t: Tiers, k: string, c: Config, now: int, later: int, dbRead: IO,
                                redisWrite: IO)
    requires Coherent(w, t) && w.hasDb && w.hasRedis && k in t.redis && t.redis[k] != c && later > now + w.memoryTtl
    ensures var t' := SetUserConfig(w, t, k, c, now, Works, NoEffect).0;
      t'.db[k] == c && GetUserConfig(w, t', k, later, Works, dbRead, redisWrite).1 == Some(t.redis[k])
  {
    hide Evict, Put, MoveToEnd, Valid;
    MemoryAfterSet(t.memory, k, Entry(c, now + w.memoryTtl, 0), w.maxSize);
    var d := Set(t.memory, k, Entry(c, now + w.memoryTtl, 0), w.maxSize);
    assert k in d.vals ==> Expired(d.vals[k], later);
  }

  // -------------------------------------------------------------------- runs

  datatype Step =
    | GetStep(k: string, now: int, redisRead: IO, dbRead: IO, redisWrite: IO)
    | SetStep(k: string, c: Config, now: int, dbWrite: IO)
    | InvalidateStep(k: string, redisDelete: IO)
    | ExpireMemory(now: int)
    | DropFromRedis(ks: set<string>)

  function Apply(w: Wiring, t: Tiers, s: Step): Tiers {
    match s
    case GetStep(k, now, redisRead, dbRead, redisWrite) => GetUserConfig(w, t, k, now, redisRead, dbRead, redisWrite).0
    case SetStep(k, c, now, dbWrite) => SetUserConfig(w, t, k, c, now, dbWrite, Works).0
    case InvalidateStep(k, redisDelete) => Invalidate(w, t, k, redisDelete)
    case ExpireMemory(now) => t.(memory := Cleanup(t.memory, now))
    case DropFromRedis(ks) => t.(redis := t.redis - ks)
  }

  function ApplyAll(w: Wiring, t: Tiers, steps: seq<Step>): Tiers
    decreases |steps|
  {
    if steps == [] then t else ApplyAll(w, Apply(w, t, steps[0]), steps[1..])
  }

  /** What the database holds after the writes that went through. */
  function Written(db: map<string, Config>, steps: seq<Step>): map<string, Config>
    decreases |steps|
  {
    if steps == [] then db
    else Written(if steps[0].SetStep? && steps[0].dbWrite.Works? then db[steps[0].k := steps[0].c] else db, steps[1..])
  }

  /** Tier coherence over runs in which each call ends before the next begins: in whatever order reads,
      writes through the cache, invalidations, expiry, lost Redis keys and failing reads follow each
      other, every cached value is the one last written, and so a read returns exactly that. Calls that
      overlap are the matter of `InterleavedTiers`. */
  lemma {:induction false} TiersStayCoherent(w: Wiring, t: Tiers, steps: seq<Step>)
    requires Coherent(w, t) && w.hasDb
    ensures Coherent(w, ApplyAll(w, t, steps)) && ApplyAll(w, t, steps).db == Written(t.db, steps)
    decreases |steps|
  {
    hide GetUserConfig, SetUserConfig, Invalidate, Cleanup;
    if steps != [] {
      var s := steps[0];
      match s {
        case GetStep(k, now, redisRead, dbRead, redisWrite) =>
          GetIsCoherent(w, t, k, now, redisRead, dbRead, redisWrite);
        case SetStep(k, c, now, dbWrite) =>
          SetIsCoherent(w, t, k, c, now, Works);
          FailedWriteChangesNothing(w, t, k, c, now, dbWrite);
        case InvalidateStep(k, redisDelete) => InvalidateIsCoherent(w, t, k, redisDelete);
        case ExpireMemory(now) => ExpiryIsCoherent(w, t, now);
        case DropFromRedis(ks) =>
      }
      TiersStayCoherent(w, Apply(w, t, s), steps[1..]);
    }
  }

  lemma ExpiryIsCoherent(w: Wiring, t: Tiers, now: int)
    requires Coherent(w, t)
    ensures Coherent(w, t.(memory := Cleanup(t.memory, now)))
  {
    SweepRemovesExactly(t.memory, ExpiredAt(now));
  }

  lemma FailedWriteChangesNothing(w: Wiring, t: Tiers, k: string, c: Config, now: int, dbWrite: IO)
    requires w.hasDb
    ensures !dbWrite.Works? ==> SetUserConfig(w, t, k, c, now, dbWrite, Works).0 == t
  {
  }
}
