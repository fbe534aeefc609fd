/** db/multi_tier_cache.py: the two operations of `MultiTierUserConfigCache` that wait for the database,
    with other calls between the wait and the write to the caches. */
module InterleavedTiers {
  import opened Text
  import opened OrderedDict
  import opened LruCache
  import opened MultiTierCache

  /** The part of a read before it waits: memory, then Redis. */
  function Look(w: Wiring, t: Tiers, k: string, now: int, redisRead: IO): (Tiers, Option<Config>) {
    var (memory, hit) := Get(t.memory, k, now);
    var t1 := t.(memory := memory);
    if hit.Some? then (t1, hit)
    else
      var cached := if w.hasRedis && redisRead.Works? then Lookup(t.redis, k) else None;
      if cached.Some? then (Remember(w, t1, k, cached.value, now), cached) else (t1, None)
  }

  /** The part of a read or of a write after it has waited: both caches get the value. */
  function Fill(w: Wiring, t: Tiers, k: string, c: Config, now: int, redisWrite: IO): Tiers {
    var t1 := Remember(w, t, k, c, now);
    if w.hasRedis then WriteRedis(t1, k, c, redisWrite) else t1
  }

  /** Nothing in between: a read is its first part, the value in the database, and its second part. */
  lemma ReadInParts(w: Wiring, t: Tiers, k: string, now: int, redisRead: IO, dbRead: IO, redisWrite: IO)
    ensures var (t1, hit) := Look(w, t, k, now, redisRead);
      var stored := if w.hasDb && dbRead.Works? then Lookup(t1.db, k) else None;
      GetUserConfig(w, t, k, now, redisRead, dbRead, redisWrite) ==
        if hit.Some? then (t1, hit)
        else if stored.None? then (t1, None)
        else (Fill(w, t1, k, stored.value, now, redisWrite), if w.hasRedis && redisWrite.Raises? then None else stored)
  {
    hide Get, Set;
  }

  /** Nothing in between: a write is the database's part and the second part. */
  lemma WriteInParts(w: Wiring, t: Tiers, k: string, c: Config, now: int, redisWrite: IO)
    requires w.hasDb
    ensures SetUserConfig(w, t, k, c, now, Works, redisWrite).0 ==
      Fill(w, t.(db := t.db[k := c]), k, c, now, redisWrite)
  {
  }

  // -------------------------------------------------------------------- interleaved runs

  /** A call that has its value from the database, or has written it there, and will fill the caches. */
  datatype Waiting = Waiting(k: string, c: Config, write: bool)

  datatype World = World(tiers: Tiers, waiting: map<nat, Waiting>)

  /** `id` names a call; a step of a call that is not there to be taken changes nothing. */
  datatype Step =
    | LookStep(k: string, now: int, redisRead: IO)
    | ReadDb(id: nat, k: string)
    | WriteDb(id: nat, k: string, c: Config)
    | FillStep(id: nat, now: int)
    | InvalidateStep(k: string, redisDelete: IO)
    | ExpireMemory(now: int)
    | DropFromRedis(ks: set<string>)

  function Apply(w: Wiring, s: World, step: Step): World {
    var t := s.tiers;
    match step
    case LookStep(k, now, redisRead) => s.(tiers := Look(w, t, k, now, redisRead).0)
    case ReadDb(id, k) =>
      if id in s.waiting || k !in t.db then s else s.(waiting := s.waiting[id := Waiting(k, t.db[k], false)])
    case WriteDb(id, k, c) =>
      if id in s.waiting then s
      else World(t.(db := t.db[k := c]), s.waiting[id := Waiting(k, c, true)])
    case FillStep(id, now) =>
      if id !in s.waiting then s
      else World(Fill(w, t, s.waiting[id].k, s.waiting[id].c, now, Works), s.waiting - {id})
    case InvalidateStep(k, redisDelete) => s.(tiers := Invalidate(w, t, k, redisDelete))
    case ExpireMemory(now) => s.(tiers := t.(memory := Cleanup(t.memory, now)))
    case DropFromRedis(ks) => s.(tiers := t.(redis := t.redis - ks))
  }

  function ApplyAll(w: Wiring, s: World, steps: seq<Step>): World {
    if steps == [] then s
    else Apply(w, ApplyAll(w, s, steps[..|steps| - 1]), steps[|steps| - 1])
  }

  /** A write of the key has reached the database, but not yet the caches. */
  ghost predicate Unsettled(s: World, k: string) {
    exists id :: id in s.waiting && s.waiting[id].write && s.waiting[id].k == k
  }

  /** What the caches hold for the key, if anything, is the database's value. */
  ghost predicate RightFor(w: Wiring, t: Tiers, k: string) {
    && (k in t.memory.vals ==> k in t.db && t.memory.vals[k].value == t.db[k])
    && (w.hasRedis && k in t.redis ==> k in t.db && t.redis[k] == t.db[k])
  }

  ghost predicate SettledKeysRight(w: Wiring, s: World) {
    forall k :: !Unsettled(s, k) ==> RightFor(w, s.tiers, k)
  }

  /** Coherence is that, for every key, and a well-formed memory. */
  lemma CoherentIs(w: Wiring, t: Tiers)
    requires Valid(t.memory)
    ensures Coherent(w, t) <==> forall k :: RightFor(w, t, k)
  {
    if forall k :: RightFor(w, t, k) {
      forall k | k in t.memory.vals ensures k in t.db && t.memory.vals[k].value == t.db[k] {
        assert RightFor(w, t, k);
      }
      forall k | w.hasRedis && k in t.redis ensures k in t.db && t.redis[k] == t.db[k] {
        assert RightFor(w, t, k);
      }
    }
  }

  /** The step fills the caches with a value that is not the database's any more, and no write of the key
      is left that will put that right. */
  ghost predicate StaleFill(w: Wiring, s: World, step: Step) {
    && step.FillStep? && step.id in s.waiting
    && var f := s.waiting[step.id];
    && (f.k !in s.tiers.db || s.tiers.db[f.k] != f.c)
    && !Unsettled(Apply(w, s, step), f.k)
  }

  ghost predicate Inv(w: Wiring, s: World) {
    Valid(s.tiers.memory) && SettledKeysRight(w, s)
  }

  lemma FillSets(w: Wiring, t: Tiers, k: string, c: Config, now: int)
    requires Valid(t.memory) && w.maxSize >= 1
    ensures var t' := Fill(w, t, k, c, now, Works);
      && Valid(t'.memory) && t'.db == t.db && k in t'.memory.vals && t'.memory.vals[k].value == c
      && (w.hasRedis ==> k in t'.redis && t'.redis[k] == c)
      && forall x | x != k && RightFor(w, t, x) :: RightFor(w, t', x)
  {
    hide Set, Valid;
    MemoryAfterSet(t.memory, k, Entry(c, now + w.memoryTtl, 0), w.maxSize);
    JustSetIsResident(t.memory, k, Entry(c, now + w.memoryTtl, 0), w.maxSize);
  }

  lemma LookKeeps(w: Wiring, t: Tiers, k: string, now: int, redisRead: IO)
    requires Valid(t.memory)
    ensures var t' := Look(w, t, k, now, redisRead).0;
      && Valid(t'.memory) && t'.db == t.db && t'.redis == t.redis
      && forall x | RightFor(w, t, x) :: RightFor(w, t', x)
  {
    hide Get, Set, Valid;
    MemoryAfterGet(t.memory, k, now);
    var d := Get(t.memory, k, now).0;
    if w.hasRedis && k in t.redis {
      MemoryAfterSet(d, k, Entry(t.redis[k], now + w.memoryTtl, 0), w.maxSize);
    }
  }

  lemma RemovalKeeps(w: Wiring, t: Tiers, step: Step)
    requires Valid(t.memory) && (step.InvalidateStep? || step.ExpireMemory? || step.DropFromRedis?)
    ensures var t' := Apply(w, World(t, map[]), step).tiers;
      && Valid(t'.memory) && t'.db == t.db
      && forall x | RightFor(w, t, x) :: RightFor(w, t', x)
  {
    match step
    case InvalidateStep(k, _) => DelValid(t.memory, k);
    case ExpireMemory(now) => SweepRemovesExactly(t.memory, ExpiredAt(now));
    case DropFromRedis(_) =>
  }

  /** One step keeps the settled keys right exactly when it is not a stale fill. */
  lemma StepKeepsExactly(w: Wiring, s: World, step: Step)
    requires Inv(w, s) && w.maxSize >= 1
    ensures Valid(Apply(w, s, step).tiers.memory)
    ensures SettledKeysRight(w, Apply(w, s, step)) <==> !StaleFill(w, s, step)
  {
    hide Valid, SettledKeysRight, Look, Fill, Invalidate, Cleanup;
    match step
    case LookStep(k, now, redisRead) =>
      LookKeeps(w, s.tiers, k, now, redisRead);
      SameWaiting(w, s, Apply(w, s, step));
    case ReadDb(id, k) => ReadKeeps(w, s, id, k);
    case WriteDb(id, k, c) => WriteKeeps(w, s, id, k, c);
    case FillStep(id, now) => FillKeepsExactly(w, s, id, now);
    case InvalidateStep(k, redisDelete) =>
      RemovalKeeps(w, s.tiers, step);
      SameWaiting(w, s, Apply(w, s, step));
    case ExpireMemory(now) =>
      RemovalKeeps(w, s.tiers, step);
      SameWaiting(w, s, Apply(w, s, step));
    case DropFromRedis(ks) =>
      RemovalKeeps(w, s.tiers, step);
      SameWaiting(w, s, Apply(w, s, step));
  }

  lemma SameWaiting(w: Wiring, s: World, s': World)
    requires SettledKeysRight(w, s) && s'.waiting == s.waiting
    requires forall x | RightFor(w, s.tiers, x) :: RightFor(w, s'.tiers, x)
    ensures SettledKeysRight(w, s')
  {
    hide RightFor;
    forall k | !Unsettled(s', k) ensures RightFor(w, s'.tiers, k) {
      assert !Unsettled(s, k);
    }
  }

  lemma ReadKeeps(w: Wiring, s: World, id: nat, k: string)
    requires Inv(w, s)
    ensures SettledKeysRight(w, Apply(w, s, ReadDb(id, k)))
  {
    hide RightFor;
    var s' := Apply(w, s, ReadDb(id, k));
    assert forall i | i in s.waiting :: i in s'.waiting && s'.waiting[i] == s.waiting[i];
    forall x ensures Unsettled(s, x) ==> Unsettled(s', x) {}
  }

  lemma WriteKeeps(w: Wiring, s: World, id: nat, k: string, c: Config)
    requires Inv(w, s)
    ensures SettledKeysRight(w, Apply(w, s, WriteDb(id, k, c)))
  {
    var s' := Apply(w, s, WriteDb(id, k, c));
    if id !in s.waiting {
      assert s'.waiting[id].write && s'.waiting[id].k == k;
      assert Unsettled(s', k);
      forall x | !Unsettled(s', x) ensures RightFor(w, s'.tiers, x) {
        assert x != k;
        forall i | i in s.waiting ensures i in s'.waiting && s'.waiting[i] == s.waiting[i] {}
        assert !Unsettled(s, x);
      }
    }
  }

  lemma FillKeepsExactly(w: Wiring, s: World, id: nat, now: int)
    requires Inv(w, s) && w.maxSize >= 1
    ensures Valid(Apply(w, s, FillStep(id, now)).tiers.memory)
    ensures SettledKeysRight(w, Apply(w, s, FillStep(id, now))) <==> !StaleFill(w, s, FillStep(id, now))
  {
    hide Fill;
    if id in s.waiting {
      var f, s' := s.waiting[id], Apply(w, s, FillStep(id, now));
      FillSets(w, s.tiers, f.k, f.c, now);
      forall x | x != f.k && !Unsettled(s', x) ensures RightFor(w, s'.tiers, x) {
        OtherWaiting(s, s', id, x);
      }
      assert RightFor(w, s'.tiers, f.k) <==> f.k in s.tiers.db && s.tiers.db[f.k] == f.c;
    }
  }

  lemma OtherWaiting(s: World, s': World, id: nat, x: string)
    requires id in s.waiting && s.waiting[id].k != x && s'.waiting == s.waiting - {id}
    ensures Unsettled(s, x) <==> Unsettled(s', x)
  {
    forall i | i in s'.waiting ensures i in s.waiting && s.waiting[i] == s'.waiting[i] {}
    forall i | i in s.waiting && i != id ensures i in s'.waiting && s.waiting[i] == s'.waiting[i] {}
  }

  /** Coherence of interleaved runs. From a coherent start, with nobody waiting: at every moment of a run
      all keys without a write under way are cached with their database values, if and only if no call
      ever fills the caches with a value that was overwritten while it waited (unless another write of
      the key is still to come). */
  lemma InterleavedRunsAreCoherentExactly(w: Wiring, t: Tiers, steps: seq<Step>)
    requires Coherent(w, t) && w.maxSize >= 1
    ensures var s := World(t, map[]);
      (forall n | 0 <= n <= |steps| :: SettledKeysRight(w, ApplyAll(w, s, steps[..n])))
      <==> (forall n | 0 <= n < |steps| :: !StaleFill(w, ApplyAll(w, s, steps[..n]), steps[n]))
  {
    hide SettledKeysRight, StaleFill, Apply, Coherent;
    var s := World(t, map[]);
    StartIsRight(w, t);
    if forall n | 0 <= n < |steps| :: !StaleFill(w, ApplyAll(w, s, steps[..n]), steps[n]) {
      forall n | 0 <= n <= |steps| ensures SettledKeysRight(w, ApplyAll(w, s, steps[..n])) {
        RunKeeps(w, s, steps, n);
      }
    }
    if forall n | 0 <= n <= |steps| :: SettledKeysRight(w, ApplyAll(w, s, steps[..n])) {
      forall n | 0 <= n < |steps| ensures !StaleFill(w, ApplyAll(w, s, steps[..n]), steps[n]) {
        MemoryStaysValid(w, s, steps, n);
        OneStep(w, s, steps, n);
        StepKeepsExactly(w, ApplyAll(w, s, steps[..n]), steps[n]);
        assert SettledKeysRight(w, ApplyAll(w, s, steps[..n + 1]));
      }
    }
  }

  lemma StartIsRight(w: Wiring, t: Tiers)
    requires Coherent(w, t)
    ensures Inv(w, World(t, map[]))
  {
  }

  lemma OneStep(w: Wiring, s: World, steps: seq<Step>, n: nat)
    requires n < |steps|
    ensures ApplyAll(w, s, steps[..n + 1]) == Apply(w, ApplyAll(w, s, steps[..n]), steps[n])
  {
    assert steps[..n + 1][..n] == steps[..n];
  }

  lemma {:induction false} RunKeeps(w: Wiring, s: World, steps: seq<Step>, n: nat)
    requires Inv(w, s) && w.maxSize >= 1 && n <= |steps|
    requires forall m | 0 <= m < |steps| :: !StaleFill(w, ApplyAll(w, s, steps[..m]), steps[m])
    ensures Inv(w, ApplyAll(w, s, steps[..n]))
  {
    hide SettledKeysRight, StaleFill, Apply;
    if n > 0 {
      RunKeeps(w, s, steps, n - 1);
      OneStep(w, s, steps, n - 1);
      StepKeepsExactly(w, ApplyAll(w, s, steps[..n - 1]), steps[n - 1]);
    }
  }

  lemma {:induction false} MemoryStaysValid(w: Wiring, s: World, steps: seq<Step>, n: nat)
    requires Valid(s.tiers.memory) && w.maxSize >= 1 && n <= |steps|
    requires forall m | 0 <= m <= |steps| :: SettledKeysRight(w, ApplyAll(w, s, steps[..m]))
    ensures Valid(ApplyAll(w, s, steps[..n]).tiers.memory)
  {
    hide SettledKeysRight, StaleFill, Apply;
    if n > 0 {
      MemoryStaysValid(w, s, steps, n - 1);
      OneStep(w, s, steps, n - 1);
      StepKeepsExactly(w, ApplyAll(w, s, steps[..n - 1]), steps[n - 1]);
    }
  }

  // -------------------------------------------------------------------- one gap

  /** One read around whole calls: with any uninterrupted reads, writes, invalidations, expiry and losses
      between its look at the database and its write to the caches, everything is coherent afterwards
      if and only if the database still holds the value that was read. */
  lemma GapDecides(w: Wiring, t: Tiers, k: string, gap: seq<MultiTierCache.Step>, now: int)
    requires Coherent(w, t) && w.hasDb && w.maxSize >= 1 && k in t.db
    ensures var t' := MultiTierCache.ApplyAll(w, t, gap);
      var db := Written(t.db, gap);
      Coherent(w, Fill(w, t', k, t.db[k], now, Works)) <==> k in db && db[k] == t.db[k]
  {
    hide Fill, MultiTierCache.ApplyAll, Written;
    TiersStayCoherent(w, t, gap);
    var t' := MultiTierCache.ApplyAll(w, t, gap);
    var after := Fill(w, t', k, t.db[k], now, Works);
    FillSets(w, t', k, t.db[k], now);
    CoherentIs(w, t');
    CoherentIs(w, after);
    assert RightFor(w, after, k) <==> k in t'.db && t'.db[k] == t.db[k];
  }

  /** Such a gap exists: a read that waits while the key is set leaves the old value in memory and Redis,
      and the next read returns it. */
  lemma ReadAcrossWriteIsStale(w: Wiring, t: Tiers, k: string, c: Config, now: int, redisRead: IO, dbRead: IO,
                               redisWrite: IO)
    requires Coherent(w, t) && w.hasDb && w.maxSize >= 1 && k in t.db && t.db[k] != c && w.memoryTtl >= 0
    ensures var t' := SetUserConfig(w, t, k, c, now, Works, Works).0;
      var after := Fill(w, t', k, t.db[k], now, Works);
      && !Coherent(w, after) && after.db[k] == c
      && (w.hasRedis ==> after.redis[k] == t.db[k])
      && GetUserConfig(w, after, k, now, redisRead, dbRead, redisWrite).1 == Some(t.db[k])
  {
    hide Set, Coherent;
    SetIsCoherent(w, t, k, c, now, Works);
    var t' := SetUserConfig(w, t, k, c, now, Works, Works).0;
    StartIsRight(w, t');
    FillSets(w, t', k, t.db[k], now);
    var after := Fill(w, t', k, t.db[k], now, Works);
    CoherentIs(w, after);
    assert !RightFor(w, after, k);
    MemoryAfterSet(t'.memory, k, Entry(t.db[k], now + w.memoryTtl, 0), w.maxSize);
    assert after.memory.vals[k] == Entry(t.db[k], now + w.memoryTtl, 0);
  }
}
