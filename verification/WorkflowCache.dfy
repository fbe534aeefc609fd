/** graph/cache.py: `WorkflowCache`, entries with a lifetime and eviction of the entry that was
    accessed least recently. Each operation is one step under the cache's lock at a clock reading. */
module WorkflowCache {
  import opened Text
  import opened OrderedDict

  datatype Workflow = Workflow(id: int)

  datatype Entry = Entry(workflow: Workflow, createdAt: int, ttl: int, accessCount: nat, lastAccessed: int)

  predicate Expired(e: Entry, now: int) {
    now - e.createdAt > e.ttl
  }

  function Get(d: Dict<Entry>, k: string, now: int): (Dict<Entry>, Option<Workflow>) {
    if k !in d.vals then (d, None)
    else
      var e := d.vals[k];
      if Expired(e, now) then (Del(d, k), None)
      else (Put(d, k, e.(accessCount := e.accessCount + 1, lastAccessed := now)), Some(e.workflow))
  }

  /** `min(keys, key=last_accessed)`: the first of the keys accessed longest ago. */
  function LruKey(order: seq<string>, vals: map<string, Entry>): (r: Option<string>)
    requires forall k | k in order :: k in vals
    ensures r.None? <==> order == []
    ensures r.Some? ==> r.value in order && forall k | k in order :: vals[r.value].lastAccessed <= vals[k].lastAccessed
  {
    if order == [] then None
    else
      var rest := LruKey(order[..|order| - 1], vals);
      var last := order[|order| - 1];
      if rest.None? || vals[last].lastAccessed < vals[rest.value].lastAccessed then Some(last) else rest
  }

  function EvictLru(d: Dict<Entry>): Dict<Entry>
    requires Valid(d)
  {
    var k := LruKey(d.order, d.vals);
    if k.None? then d else Del(d, k.value)
  }

  /** At capacity an entry is evicted first, even when the key is already present. */
  function Set(d: Dict<Entry>, k: string, e: Entry, max: nat): Dict<Entry>
    requires Valid(d)
  {
    Put(if |d.order| >= max then EvictLru(d) else d, k, e)
  }

  function ExpiredAt(now: int): Entry -> bool {
    e => Expired(e, now)
  }

  function Cleanup(d: Dict<Entry>, now: int): Dict<Entry> {
    Sweep(d, ExpiredAt(now))
  }

  class WorkflowCache {
    const maxSize: nat
    const defaultTtl: int
    var cache: Dict<Entry>

    constructor (maxSize: nat := 1000, defaultTtl: Option<int> := None)
      ensures this.maxSize == maxSize && this.defaultTtl == OrElse(defaultTtl, 300) && cache == Empty()
    {
      this.maxSize, this.defaultTtl := maxSize, OrElse(defaultTtl, 300);
      cache := Empty();
    }

    method GetWorkflow(k: string, now: int) returns (r: Option<Workflow>)
      modifies this
      ensures (cache, r) == Get(old(cache), k, now)
    {
      if !Has(cache, k) { return None; }
      var e := cache.vals[k];
      if Expired(e, now) {
        cache := Del(cache, k);
        return None;
      }
      cache := Put(cache, k, e.(accessCount := e.accessCount + 1, lastAccessed := now));
      r := Some(e.workflow);
    }

    method SetWorkflow(k: string, w: Workflow, ttl: Option<int>, now: int)
      requires Valid(cache)
      modifies this
      ensures cache == Set(old(cache), k, Entry(w, now, OrElse(ttl, defaultTtl), 0, now), maxSize)
    {
      if |cache.order| >= maxSize { Evict(); }
      cache := Put(cache, k, Entry(w, now, OrElse(ttl, defaultTtl), 0, now));
    }

    /** One pass that keeps the best key so far. */
    method Evict()
      requires Valid(cache)
      modifies this
      ensures cache == EvictLru(old(cache))
    {
      var d := cache;
      if d.order == [] { return; }
      var lru := d.order[0];
      for i := 1 to |d.order|
        invariant LruKey(d.order[..i], d.vals) == Some(lru)
      {
        var k := d.order[i];
        assert d.order[..i + 1][..i] == d.order[..i];
        if d.vals[k].lastAccessed < d.vals[lru].lastAccessed { lru := k; }
      }
      assert d.order[..|d.order|] == d.order;
      cache := Del(d, lru);
    }

    /** A hit, or the workflow `built` by the factory, stored at `later`. */
    method GetOrCreate(k: string, built: Workflow, ttl: Option<int>, now: int, later: int) returns (r: Workflow)
      requires Valid(cache)
      modifies this
      ensures var (d, hit) := Get(old(cache), k, now);
        if hit.Some? then cache == d && r == hit.value
        else
          && Valid(d) && r == built
          && cache == Set(d, k, Entry(built, later, OrElse(ttl, defaultTtl), 0, later), maxSize)
    {
      GetValid(cache, k, now);
      var hit := GetWorkflow(k, now);
      if hit.Some? { return hit.value; }
      SetWorkflow(k, built, ttl, later);
      r := built;
    }

    method Invalidate(k: string) returns (removed: bool)
      modifies this
      ensures removed == Has(old(cache), k)
      ensures cache == if removed then Del(old(cache), k) else old(cache)
    {
      removed := Has(cache, k);
      if removed { cache := Del(cache, k); }
    }

    method Clear()
      modifies this
      ensures cache == Empty()
    {
      cache := Empty();
    }

    method PeriodicCleanup(now: int)
      modifies this
      ensures cache == Cleanup(old(cache), now)
    {
      cache := RemoveWhere(cache, ExpiredAt(now));
    }
  }

  // -------------------------------------------------------------------- runs

  lemma GetValid(d: Dict<Entry>, k: string, now: int)
    requires Valid(d)
    ensures Valid(Get(d, k, now).0)
  {
    DelValid(d, k);
  }

  datatype Op =
    | GetOp(k: string, now: int)
    | SetOp(k: string, w: Workflow, ttl: int, now: int)
    | InvalidateOp(k: string, now: int)
    | ClearOp(now: int)
    | CleanupOp(now: int)

  /** A cache beside the unbounded map it stands for, whose entries only a set, an invalidation or a
      clear changes, when each key was last used (set, or read with a hit), and when each evicted key
      that has not been set again was last used. */
  datatype History = History(d: Dict<Entry>, ideal: map<string, Entry>, used: map<string, int>,
                             evicted: map<string, int>, clock: int)

  function Start(clock: int): History {
    History(Empty(), map[], map[], map[], clock)
  }

  /** A hit in the unbounded map. */
  function IdealGet(ideal: map<string, Entry>, k: string, now: int): Option<Workflow> {
    if k in ideal && now - ideal[k].createdAt <= ideal[k].ttl then Some(ideal[k].workflow) else None
  }

  function Apply(h: History, op: Op, max: nat): History
    requires Valid(h.d)
  {
    var h' := h.(clock := op.now);
    match op
    case GetOp(k, now) =>
      var (d, r) := Get(h.d, k, now);
      h'.(d := d, used := if r.Some? then h.used[k := now] else h.used)
    case SetOp(k, w, ttl, now) =>
      var e := Entry(w, now, ttl, 0, now);
      var d := Set(h.d, k, e, max);
      var lost := map x | x in h.used && x in h.d.vals && x !in d.vals :: h.used[x];
      h'.(d := d, ideal := h.ideal[k := e], used := h.used[k := now], evicted := (h.evicted - {k}) + lost)
    case InvalidateOp(k, _) => h'.(d := if Has(h.d, k) then Del(h.d, k) else h.d, ideal := h.ideal - {k})
    case ClearOp(_) => h'.(d := Empty(), ideal := map[])
    case CleanupOp(now) => h'.(d := Cleanup(h.d, now))
  }

  ghost predicate Refines(d: Dict<Entry>, ideal: map<string, Entry>) {
    forall k | k in d.vals :: k in ideal
      && ideal[k].workflow == d.vals[k].workflow
      && ideal[k].createdAt == d.vals[k].createdAt && ideal[k].ttl == d.vals[k].ttl
  }

  ghost predicate Inv(h: History, max: nat) {
    && Valid(h.d) && |h.d.order| <= max
    && Refines(h.d, h.ideal)
    && (forall k | k in h.d.vals :: k in h.used && h.used[k] == h.d.vals[k].lastAccessed <= h.clock)
    && EvictedOlder(h)
  }

  /** No key that eviction removed had been used after any resident one. */
  ghost predicate EvictedOlder(h: History) {
    && (forall x | x in h.evicted :: h.evicted[x] <= h.clock)
    && forall x, r | x in h.evicted && r in h.d.vals :: h.evicted[x] <= h.d.vals[r].lastAccessed
  }

  lemma EvictKeeps(d: Dict<Entry>)
    requires Valid(d)
    ensures var d' := EvictLru(d);
      && Valid(d') && (d.order != [] ==> |d'.order| == |d.order| - 1)
      && (forall k | k in d'.vals :: k in d.vals && d'.vals[k] == d.vals[k])
      && forall x, r | x in d.vals && x !in d'.vals && r in d.vals :: d.vals[x].lastAccessed <= d.vals[r].lastAccessed
  {
    var k := LruKey(d.order, d.vals);
    if k.Some? {
      DelValid(d, k.value);
    }
  }

  /** A set removes another key exactly when the cache is full and the key accessed longest ago is not the
      key that is set. Since room is made even for a key that is already there, renewing an entry in a full
      cache drops another live one. */
  lemma SetRemovesExactly(d: Dict<Entry>, k: string, e: Entry, max: nat, x: string)
    requires Valid(d) && x in d.vals
    ensures x !in Set(d, k, e, max).vals <==> |d.order| >= max && LruKey(d.order, d.vals) == Some(x) && x != k
  {
    var lru := LruKey(d.order, d.vals);
    if lru.Some? { DelValid(d, lru.value); }
  }

  lemma RenewalDropsAnother(d: Dict<Entry>, k: string, e: Entry)
    requires Valid(d) && k in d.vals && LruKey(d.order, d.vals) != Some(k)
    ensures var lru := LruKey(d.order, d.vals);
      lru.Some? && lru.value in d.vals && lru.value !in Set(d, k, e, |d.order|).vals
  {
    SetRemovesExactly(d, k, e, |d.order|, LruKey(d.order, d.vals).value);
  }

  lemma SetKeeps(h: History, k: string, w: Workflow, ttl: int, now: int, max: nat)
    requires Inv(h, max) && max >= 1 && now >= h.clock
    ensures Inv(Apply(h, SetOp(k, w, ttl, now), max), max)
  {
    hide Set, EvictedOlder, Valid;
    SetShape(h.d, k, Entry(w, now, ttl, 0, now), max);
    SetKeepsEvicted(h, k, w, ttl, now, max);
  }

  lemma SetShape(d: Dict<Entry>, k: string, e: Entry, max: nat)
    requires Valid(d) && |d.order| <= max && max >= 1
    ensures var d' := Set(d, k, e, max);
      && Valid(d') && |d'.order| <= max && k in d'.vals
      && (forall x | x in d'.vals :: if x == k then d'.vals[x] == e else x in d.vals && d'.vals[x] == d.vals[x])
      && forall x, r | x in d.vals && x !in d'.vals && r in d'.vals && r != k ::
        d.vals[x].lastAccessed <= d.vals[r].lastAccessed
  {
    hide EvictLru;
    EvictKeeps(d);
    PutValid(if |d.order| >= max then EvictLru(d) else d, k, e);
  }

  lemma SetKeepsEvicted(h: History, k: string, w: Workflow, ttl: int, now: int, max: nat)
    requires Inv(h, max) && max >= 1 && now >= h.clock
    ensures EvictedOlder(Apply(h, SetOp(k, w, ttl, now), max))
  {
    hide Set, Valid, Refines;
    SetShape(h.d, k, Entry(w, now, ttl, 0, now), max);
  }

  lemma {:induction false} DelAllKeeps(h: History, ks: seq<string>, max: nat)
    requires Inv(h, max)
    ensures Inv(h.(d := DelAll(h.d, ks)), max)
    decreases |ks|
  {
    if ks != [] {
      DelKeeps(h, ks[0], max);
      DelAllKeeps(h.(d := Del(h.d, ks[0])), ks[1..], max);
    }
  }

  lemma DelKeeps(h: History, k: string, max: nat)
    requires Inv(h, max)
    ensures Inv(h.(d := Del(h.d, k)), max)
  {
    DelValid(h.d, k);
  }

  lemma InvalidateKeeps(h: History, k: string, now: int, max: nat)
    requires Inv(h, max) && now >= h.clock
    ensures Inv(Apply(h, InvalidateOp(k, now), max), max)
  {
    DelKeeps(h, k, max);
    DelValid(h.d, k);
  }

  lemma GetKeeps(h: History, k: string, now: int, max: nat)
    requires Inv(h, max) && now >= h.clock
    ensures Inv(Apply(h, GetOp(k, now), max), max)
  {
    if Has(h.d, k) && Expired(h.d.vals[k], now) {
      DelKeeps(h.(clock := now), k, max);
    } else if Has(h.d, k) {
      var e := h.d.vals[k].(accessCount := h.d.vals[k].accessCount + 1, lastAccessed := now);
      PutValid(h.d, k, e);
    }
  }

  lemma StepKeeps(h: History, op: Op, max: nat)
    requires Inv(h, max) && max >= 1 && op.now >= h.clock
    ensures Inv(Apply(h, op, max), max)
  {
    hide Get, Set, Del;
    match op
    case GetOp(k, now) => GetKeeps(h, k, now, max);
    case SetOp(k, w, ttl, now) => SetKeeps(h, k, w, ttl, now, max);
    case InvalidateOp(k, now) => InvalidateKeeps(h, k, now, max);
    case ClearOp(_) =>
    case CleanupOp(now) => DelAllKeeps(h.(clock := now), KeysWhere(h.d.order, h.d.vals, ExpiredAt(now)), max);
  }

  /** The history after operations at a clock that never goes back; operations against the clock are
      not operations of any run. */
  ghost function ApplyAll(h: History, ops: seq<Op>, max: nat): (r: History)
    requires Inv(h, max) && max >= 1
    ensures Inv(r, max)
    decreases |ops|
  {
    if ops == [] || ops[0].now < h.clock then h
    else
      StepKeeps(h, ops[0], max);
      ApplyAll(Apply(h, ops[0], max), ops[1..], max)
  }

  /** In every run: the size stays within the capacity; no key that eviction removed had been used, by a
      set or a hit, after any resident one; and every hit is a hit of the unbounded map, so it returns the
      workflow last set for the key, within its lifetime, not invalidated or cleared since. */
  lemma HitsAreIdealHits(ops: seq<Op>, start: int, k: string, now: int, max: nat)
    requires max >= 1
    ensures var h := ApplyAll(Start(start), ops, max);
      && |h.d.order| <= max
      && (forall x, r | x in h.evicted && r in h.d.vals :: r in h.used && h.evicted[x] <= h.used[r])
      && (Get(h.d, k, now).1.Some? ==> Get(h.d, k, now).1 == IdealGet(h.ideal, k, now))
  {
    var h := ApplyAll(Start(start), ops, max);
  }

  // -------------------------------------------------------------------- when a read hits

  /** A workflow that was set, and not invalidated or cleared since, is in the cache, unless it was evicted or
      its lifetime is over; and what was evicted is not in the cache. */
  ghost predicate Accounted(h: History) {
    && (forall k | k in h.ideal ::
          k in h.d.vals || k in h.evicted || h.clock - h.ideal[k].createdAt > h.ideal[k].ttl)
    && (forall k | k in h.evicted :: k !in h.d.vals)
  }

  lemma StepAccounts(h: History, op: Op, max: nat)
    requires Inv(h, max) && max >= 1 && Accounted(h) && op.now >= h.clock
    ensures Accounted(Apply(h, op, max))
  {
    hide Set, Cleanup;
    match op
    case GetOp(k, now) => DelValid(h.d, k);
    case SetOp(k, w, ttl, now) => SetShape(h.d, k, Entry(w, now, ttl, 0, now), max);
    case InvalidateOp(k, _) => DelValid(h.d, k);
    case ClearOp(_) =>
    case CleanupOp(now) => CleanupRemoves(h.d, now);
  }

  lemma CleanupRemoves(d: Dict<Entry>, now: int)
    requires Valid(d)
    ensures forall k :: k in Cleanup(d, now).vals <==> k in d.vals && !(now - d.vals[k].createdAt > d.vals[k].ttl)
  {
    SweepRemovesExactly(d, ExpiredAt(now));
  }

  lemma {:induction false} RunAccounts(h: History, ops: seq<Op>, max: nat)
    requires Inv(h, max) && max >= 1 && Accounted(h)
    ensures Accounted(ApplyAll(h, ops, max))
    decreases |ops|
  {
    hide Apply, Accounted;
    if ops != [] && ops[0].now >= h.clock {
      StepAccounts(h, ops[0], max);
      StepKeeps(h, ops[0], max);
      RunAccounts(Apply(h, ops[0], max), ops[1..], max);
    }
  }

  lemma HitIs(d: Dict<Entry>, k: string, now: int)
    ensures Get(d, k, now).1.Some? <==> k in d.vals && now - d.vals[k].createdAt <= d.vals[k].ttl
    ensures Get(d, k, now).1.Some? ==> Get(d, k, now).1 == Some(d.vals[k].workflow)
  {
  }

  /** In every run a read hits if and only if the unbounded map has the key, its lifetime is not over, and it
      has not been evicted since it was set; and a hit gives the workflow that was set. */
  lemma ReadsExactly(ops: seq<Op>, start: int, k: string, now: int, max: nat)
    requires max >= 1
    ensures var h := ApplyAll(Start(start), ops, max);
      var r := Get(h.d, k, now).1;
      now >= h.clock ==>
        && (r.Some? <==> k in h.ideal && now - h.ideal[k].createdAt <= h.ideal[k].ttl && k !in h.evicted)
        && (r.Some? ==> r.value == h.ideal[k].workflow)
  {
    hide Get;
    RunAccounts(Start(start), ops, max);
    HitIs(ApplyAll(Start(start), ops, max).d, k, now);
  }
}
