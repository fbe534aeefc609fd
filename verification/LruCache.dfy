/** db/multi_tier_cache.py: `InMemoryUserConfigCache`, an insertion-ordered dictionary kept in order
    of last use, with expiry.

    Every operation is one step under the cache's lock, at a clock reading `now`; the background
    cleanup is one more operation. */
module LruCache {
  import opened Text
  import opened OrderedDict

  datatype Config = Config(content: string)

  datatype Entry = Entry(value: Config, expiresAt: int, accessCount: nat)

  predicate Expired(e: Entry, now: int) {
    now > e.expiresAt
  }

  /** Removes entries from the front until at most `max` remain. */
  function Evict(d: Dict<Entry>, max: nat): Dict<Entry>
    decreases |d.order|
  {
    if |d.order| <= max then d else Evict(Del(d, d.order[0]), max)
  }

  function Get(d: Dict<Entry>, k: string, now: int): (Dict<Entry>, Option<Config>) {
    if k !in d.vals then (d, None)
    else if Expired(d.vals[k], now) then (Del(d, k), None)
    else
      var e := d.vals[k];
      (Put(MoveToEnd(d, k), k, e.(accessCount := e.accessCount + 1)), Some(e.value))
  }

  function Set(d: Dict<Entry>, k: string, e: Entry, max: nat): Dict<Entry> {
    Evict(MoveToEnd(Put(d, k, e), k), max)
  }

  function ExpiredAt(now: int): Entry -> bool {
    e => Expired(e, now)
  }

  function Cleanup(d: Dict<Entry>, now: int): Dict<Entry> {
    Sweep(d, ExpiredAt(now))
  }

  class InMemoryUserConfigCache {
    const maxSize: nat
    const defaultTtl: int
    var cache: Dict<Entry>
    var hits: nat
    var misses: nat

    constructor (maxSize: nat := 1000, defaultTtl: int := 300)
      ensures this.maxSize == maxSize && this.defaultTtl == defaultTtl
      ensures cache == Empty() && hits == misses == 0
    {
      this.maxSize, this.defaultTtl := maxSize, defaultTtl;
      cache, hits, misses := Empty(), 0, 0;
    }

    method GetConfig(k: string, now: int) returns (r: Option<Config>)
      modifies this
      ensures (cache, r) == Get(old(cache), k, now)
      ensures r.Some? ==> hits == old(hits) + 1 && misses == old(misses)
      ensures r.None? ==> hits == old(hits) && misses == old(misses) + 1
    {
      if !Has(cache, k) {
        misses := misses + 1;
        return None;
      }
      var e := cache.vals[k];
      if Expired(e, now) {
        cache := Del(cache, k);
        misses := misses + 1;
        return None;
      }
      cache := MoveToEnd(cache, k);
      hits := hits + 1;
      cache := Put(cache, k, e.(accessCount := e.accessCount + 1));
      r := Some(e.value);
    }

    method SetConfig(k: string, v: Config, ttl: Option<int>, now: int)
      modifies this`cache
      ensures cache == Set(old(cache), k, Entry(v, now + OrElse(ttl, defaultTtl), 0), maxSize)
    {
      var expiresAt := now + OrElse(ttl, defaultTtl);
      cache := Put(cache, k, Entry(v, expiresAt, 0));
      cache := MoveToEnd(cache, k);
      while |cache.order| > maxSize
        invariant Evict(cache, maxSize) == Set(old(cache), k, Entry(v, expiresAt, 0), maxSize)
        decreases |cache.order|
      {
        var oldest := cache.order[0];
        cache := Del(cache, oldest);
      }
    }

    method Invalidate(k: string) returns (removed: bool)
      modifies this`cache
      ensures removed == Has(old(cache), k)
      ensures cache == if removed then Del(old(cache), k) else old(cache)
    {
      removed := Has(cache, k);
      if removed { cache := Del(cache, k); }
    }

    method Clear()
      modifies this
      ensures cache == Empty() && hits == misses == 0
    {
      cache, hits, misses := Empty(), 0, 0;
    }

    method PeriodicCleanup(now: int)
      modifies this`cache
      ensures cache == Cleanup(old(cache), now)
    {
      cache := RemoveWhere(cache, ExpiredAt(now));
    }
  }

  // -------------------------------------------------------------------- histories

  datatype Op =
    | GetOp(k: string, now: int)
    | SetOp(k: string, e: Entry)
    | InvalidateOp(k: string)
    | CleanupOp(now: int)
    | ClearOp

  /** A cache with its history: when each key was last used (set, or read with a hit), when each
      evicted key that has not been set again was last used, and what an unbounded cache without
      eviction would hold. */
  datatype History = History(d: Dict<Entry>, lastUse: map<string, nat>, evicted: map<string, nat>,
                             ideal: map<string, (Config, int)>, tick: nat)

  const NEW := History(Empty(), map[], map[], map[], 0)

  function Apply(h: History, op: Op, max: nat): History {
    var h' := h.(tick := h.tick + 1);
    match op
    case GetOp(k, now) =>
      var (d, r) := Get(h.d, k, now);
      h'.(d := d, lastUse := if r.Some? then h.lastUse[k := h.tick] else h.lastUse)
    case SetOp(k, e) =>
      var lastUse := h.lastUse[k := h.tick];
      var d := Set(h.d, k, e, max);
      var lost := map x | x in h.d.vals && x !in d.vals && x in lastUse :: lastUse[x];
      h'.(d := d, lastUse := lastUse, evicted := (h.evicted - {k}) + lost,
           ideal := h.ideal[k := (e.value, e.expiresAt)])
    case InvalidateOp(k) =>
      h'.(d := if Has(h.d, k) then Del(h.d, k) else h.d, ideal := h.ideal - {k})
    case CleanupOp(now) => h'.(d := Cleanup(h.d, now))
    case ClearOp => h'.(d := Empty(), ideal := map[])
  }

  function ApplyAll(h: History, ops: seq<Op>, max: nat): History
    decreases |ops|
  {
    if ops == [] then h else ApplyAll(Apply(h, ops[0], max), ops[1..], max)
  }

  /** Dictionary order is strictly the order of last use. */
  ghost predicate InUseOrder(order: seq<string>, lastUse: map<string, nat>) {
    && (forall k | k in order :: k in lastUse)
    && forall i, j | 0 <= i < j < |order| :: lastUse[order[i]] < lastUse[order[j]]
  }

  ghost predicate Inv(h: History, max: nat) {
    && Valid(h.d) && |h.d.order| <= max
    && InUseOrder(h.d.order, h.lastUse)
    && (forall k | k in h.lastUse :: h.lastUse[k] < h.tick)
    && EvictedOlder(h)
    && (forall k | k in h.d.vals :: k in h.ideal && h.ideal[k] == (h.d.vals[k].value, h.d.vals[k].expiresAt))
  }

  /** No evicted key that has not been set again was used after any resident key. */
  ghost predicate EvictedOlder(h: History) {
    forall x | x in h.evicted :: h.evicted[x] < h.tick && x !in h.d.vals
      && forall r | r in h.d.vals :: r in h.lastUse && h.evicted[x] < h.lastUse[r]
  }

  lemma {:induction false} WithoutKeepsUseOrder(s: seq<string>, k: string, lastUse: map<string, nat>)
    requires InUseOrder(s, lastUse)
    ensures InUseOrder(Without(s, k), lastUse)
    ensures forall x | x in Without(s, k) :: x in s && x != k
    decreases |s|
  {
    if s != [] {
      hide InUseOrder;
      var w := Without(s[1..], k);
      SuffixInUseOrder(s, 1, lastUse);
      FirstIsOldest(s, lastUse);
      WithoutKeepsUseOrder(s[1..], k, lastUse);
      NothingMore(w);
      if s[0] != k { InFrontKeepsUseOrder(s[0], w, lastUse); }
    }
  }

  lemma FirstIsOldest(s: seq<string>, lastUse: map<string, nat>)
    requires s != [] && InUseOrder(s, lastUse)
    ensures s[0] in lastUse && forall x | x in s[1..] :: x in lastUse && lastUse[s[0]] < lastUse[x]
  {
    forall x | x in s[1..] ensures x in lastUse && lastUse[s[0]] < lastUse[x] {
      var i :| 0 < i < |s| && s[i] == x;
    }
  }

  lemma InFrontKeepsUseOrder(k: string, s: seq<string>, lastUse: map<string, nat>)
    requires InUseOrder(s, lastUse) && k in lastUse && forall x | x in s :: lastUse[k] < lastUse[x]
    ensures InUseOrder([k] + s, lastUse)
  {
    var t := [k] + s;
    assert forall i | 0 < i < |t| :: t[i] == s[i - 1];
  }

  lemma {:induction false} WithoutAbsent(s: seq<string>, k: string)
    requires k !in s
    ensures Without(s, k) == s
  {
    if s != [] {
      assert s == [s[0]] + s[1..];
      WithoutAbsent(s[1..], k);
    }
  }

  /** Eviction keeps the most recent `max` keys: a suffix of the order. */
  lemma {:induction false} EvictKeepsSuffix(d: Dict<Entry>, max: nat)
    requires Valid(d)
    ensures Valid(Evict(d, max)) && |Evict(d, max).order| <= max
    ensures Evict(d, max).order == d.order[if |d.order| <= max then 0 else |d.order| - max..]
    ensures forall k | k in Evict(d, max).vals :: k in d.vals && Evict(d, max).vals[k] == d.vals[k]
    decreases |d.order|
  {
    if |d.order| > max {
      hide Del, Without;
      var d' := Del(d, d.order[0]);
      DelFirst(d);
      EvictKeepsSuffix(d', max);
      assert d.order[1..][if |d'.order| <= max then 0 else |d'.order| - max..] == d.order[|d.order| - max..];
    } else {
      assert d.order[0..] == d.order;
    }
  }

  lemma DelFirst(d: Dict<Entry>)
    requires Valid(d) && d.order != []
    ensures Valid(Del(d, d.order[0])) && Del(d, d.order[0]).order == d.order[1..]
    ensures forall k | k in Del(d, d.order[0]).vals :: k in d.vals && Del(d, d.order[0]).vals[k] == d.vals[k]
  {
    DelValid(d, d.order[0]);
    var rest := d.order[1..];
    assert forall i | 0 <= i < |rest| :: rest[i] == d.order[i + 1];
    WithoutAbsent(rest, d.order[0]);
  }

  /** Moving the key just set to the end puts the dictionary in use order again. */
  lemma PutToEnd(h: History, k: string, e: Entry, max: nat)
    requires Inv(h, max)
    ensures var moved := MoveToEnd(Put(h.d, k, e), k);
      && Valid(moved) && InUseOrder(moved.order, h.lastUse[k := h.tick])
      && moved.order != [] && moved.order[|moved.order| - 1] == k && moved.vals == h.d.vals[k := e]
  {
    PutValid(h.d, k, e);
    MoveValid(Put(h.d, k, e), k);
    WithoutToEnd(h.d, k, e);
    WithoutKeepsUseOrder(h.d.order, k, h.lastUse);
    UsedLast(Without(h.d.order, k), k, h.lastUse, h.tick);
  }

  /** What eviction removes was used before anything it keeps. */
  lemma EvictedIsOlder(d: Dict<Entry>, max: nat, lastUse: map<string, nat>, x: string, r: string)
    requires Valid(d) && InUseOrder(d.order, lastUse)
    requires x in d.order && x !in Evict(d, max).vals && r in Evict(d, max).vals
    ensures x in lastUse && r in lastUse && lastUse[x] < lastUse[r]
  {
    EvictKeepsSuffix(d, max);
    var kept := Evict(d, max).order;
    var n := |d.order| - |kept|;
    assert x !in kept && r in kept;
    EarlierThanSuffix(d.order, n, lastUse, x, r);
  }

  lemma EarlierThanSuffix(order: seq<string>, n: nat, lastUse: map<string, nat>, x: string, r: string)
    requires n <= |order| && InUseOrder(order, lastUse) && x in order && x !in order[n..] && r in order[n..]
    ensures lastUse[x] < lastUse[r]
  {
    assert forall i | n <= i < |order| :: order[i] == order[n..][i - n];
    var i :| 0 <= i < |order| && order[i] == x;
    var j :| 0 <= j < |order| - n && order[n..][j] == r;
    assert order[n + j] == r && i < n;
  }

  lemma SuffixInUseOrder(order: seq<string>, n: nat, lastUse: map<string, nat>)
    requires n <= |order| && InUseOrder(order, lastUse)
    ensures InUseOrder(order[n..], lastUse)
  {
    assert forall i | 0 <= i < |order| - n :: order[n..][i] == order[n + i];
  }

  lemma SetShape(h: History, k: string, e: Entry, max: nat)
    requires Inv(h, max) && max >= 1
    ensures var d := Set(h.d, k, e, max);
      && Valid(d) && |d.order| <= max && InUseOrder(d.order, h.lastUse[k := h.tick]) && k in d.vals
      && forall x | x in d.vals :: (x in h.d.vals || x == k) && d.vals[x] == (if x == k then e else h.d.vals[x])
  {
    hide Put, MoveToEnd, Evict, InUseOrder, Valid, Inv;
    var moved := MoveToEnd(Put(h.d, k, e), k);
    PutToEnd(h, k, e, max);
    EvictKeepsSuffix(moved, max);
    var d := Evict(moved, max);
    SuffixInUseOrder(moved.order, if |moved.order| <= max then 0 else |moved.order| - max, h.lastUse[k := h.tick]);
    assert d.order[|d.order| - 1] == k;
    InOrderInVals(d, k);
  }

  lemma SetKeeps(h: History, k: string, e: Entry, max: nat)
    requires Inv(h, max) && max >= 1
    ensures Inv(Apply(h, SetOp(k, e), max), max)
    ensures k in Apply(h, SetOp(k, e), max).d.vals
  {
    hide Set, InUseOrder, Valid, EvictedOlder;
    SetShape(h, k, e, max);
    EvictedKeeps(h, k, e, max);
  }

  lemma EvictedKeeps(h: History, k: string, e: Entry, max: nat)
    requires Inv(h, max) && max >= 1
    ensures EvictedOlder(Apply(h, SetOp(k, e), max))
  {
    hide Put, MoveToEnd, Evict, InUseOrder, Valid;
    var moved := MoveToEnd(Put(h.d, k, e), k);
    var lastUse := h.lastUse[k := h.tick];
    PutToEnd(h, k, e, max);
    UsedKeys(h.d, h.lastUse);
    EvictKeepsSuffix(moved, max);
    EvictedAreOlder(moved, max, lastUse);
  }

  lemma EvictedAreOlder(d: Dict<Entry>, max: nat, lastUse: map<string, nat>)
    requires Valid(d) && InUseOrder(d.order, lastUse)
    ensures forall k | k in d.vals :: k in lastUse
    ensures forall x, r | x in d.vals && x !in Evict(d, max).vals && r in Evict(d, max).vals ::
      r in lastUse && lastUse[x] < lastUse[r]
  {
    hide Evict;
    forall x, r | x in d.vals && x !in Evict(d, max).vals && r in Evict(d, max).vals
      ensures r in lastUse && lastUse[x] < lastUse[r]
    {
      EvictedIsOlder(d, max, lastUse, x, r);
    }
  }

  lemma InOrderInVals(d: Dict<Entry>, k: string)
    requires Valid(d)
    ensures k in d.order <==> k in d.vals
  {
  }

  lemma UsedKeys(d: Dict<Entry>, lastUse: map<string, nat>)
    requires Valid(d) && InUseOrder(d.order, lastUse)
    ensures forall k | k in d.vals :: k in lastUse
  {
  }

  lemma WithoutToEnd(d: Dict<Entry>, k: string, e: Entry)
    requires Valid(d)
    ensures MoveToEnd(Put(d, k, e), k).order == Without(d.order, k) + [k]
  {
    if k !in d.vals {
      WithoutAbsent(d.order, k);
      WithoutAppend(d.order, k);
    }
  }

  lemma {:induction false} WithoutAppend(s: seq<string>, k: string)
    requires k !in s
    ensures Without(s + [k], k) == s
  {
    if s == [] {
      assert [k][1..] == [] && s + [k] == [k];
    } else {
      assert (s + [k])[1..] == s[1..] + [k];
      assert s == [s[0]] + s[1..];
      WithoutAppend(s[1..], k);
    }
  }

  lemma GetKeeps(h: History, k: string, now: int, max: nat)
    requires Inv(h, max)
    ensures Inv(Apply(h, GetOp(k, now), max), max)
  {
    if Has(h.d, k) {
      if Expired(h.d.vals[k], now) {
        DelKeeps(h, k, max);
      } else {
        HitKeeps(h, k, max);
      }
    }
  }

  /** A hit makes its key the one used last. */
  lemma HitKeeps(h: History, k: string, max: nat)
    requires Inv(h, max) && Has(h.d, k)
    ensures var e := h.d.vals[k];
      var d := Put(MoveToEnd(h.d, k), k, e.(accessCount := e.accessCount + 1));
      Inv(h.(d := d, lastUse := h.lastUse[k := h.tick], tick := h.tick + 1), max)
  {
    hide Without, Valid, InUseOrder;
    var e := h.d.vals[k].(accessCount := h.d.vals[k].accessCount + 1);
    var moved := MoveToEnd(h.d, k);
    MoveValid(h.d, k);
    PutValid(moved, k, e);
    WithoutKeepsUseOrder(h.d.order, k, h.lastUse);
    UsedLast(Without(h.d.order, k), k, h.lastUse, h.tick);
    UsedKeys(h.d, h.lastUse);
  }

  lemma UsedLast(order: seq<string>, k: string, lastUse: map<string, nat>, tick: nat)
    requires InUseOrder(order, lastUse) && k !in order && forall x | x in lastUse :: lastUse[x] < tick
    ensures InUseOrder(order + [k], lastUse[k := tick])
  {
  }

  lemma {:induction false} DelAllKeeps(h: History, ks: seq<string>, max: nat)
    requires Inv(h, max)
    ensures Inv(h.(d := DelAll(h.d, ks)), max)
    decreases |ks|
  {
    if ks != [] {
      DelKeeps(h, ks[0], max);
      DelAllKeeps(h.(d := Del(h.d, ks[0])), ks[1..], max);
    }
  }

  lemma DelKeeps(h: History, k: string, max: nat)
    requires Inv(h, max)
    ensures Inv(h.(d := Del(h.d, k)), max)
  {
    DelValid(h.d, k);
    WithoutKeepsUseOrder(h.d.order, k, h.lastUse);
  }

  lemma StepKeeps(h: History, op: Op, max: nat)
    requires Inv(h, max) && max >= 1
    ensures Inv(Apply(h, op, max), max)
  {
    match op
    case GetOp(k, now) => GetKeeps(h, k, now, max);
    case SetOp(k, e) => SetKeeps(h, k, e, max);
    case InvalidateOp(k) => DelKeeps(h, k, max);
    case CleanupOp(now) => DelAllKeeps(h, KeysWhere(h.d.order, h.d.vals, ExpiredAt(now)), max);
    case ClearOp =>
  }

  /** After any sequence of operations on a cache of positive capacity: dictionary order is strictly
      the order of last use, the size stays within the capacity, no evicted key that has not been set
      again was used after any resident one, and every resident entry is the one last set for its key
      and not invalidated since. */
  lemma {:induction false} EveryRunIsLru(h: History, ops: seq<Op>, max: nat)
    requires Inv(h, max) && max >= 1
    ensures Inv(ApplyAll(h, ops, max), max)
    decreases |ops|
  {
    if ops != [] {
      StepKeeps(h, ops[0], max);
      EveryRunIsLru(Apply(h, ops[0], max), ops[1..], max);
    }
  }

  /** A hit returns the value last set for the key, within its lifetime; the key just set is resident. */
  lemma HitsAreCurrent(ops: seq<Op>, k: string, now: int, max: nat)
    requires max >= 1
    ensures var h := ApplyAll(NEW, ops, max);
      var r := Get(h.d, k, now).1;
      r.Some? ==> k in h.ideal && r.value == h.ideal[k].0 && now <= h.ideal[k].1
    ensures forall e :: k in ApplyAll(NEW, ops + [SetOp(k, e)], max).d.vals
  {
    EveryRunIsLru(NEW, ops, max);
    forall e ensures k in ApplyAll(NEW, ops + [SetOp(k, e)], max).d.vals {
      ApplyLast(NEW, ops, SetOp(k, e), max);
      SetKeeps(ApplyAll(NEW, ops, max), k, e, max);
    }
  }

  lemma {:induction false} ApplyLast(h: History, ops: seq<Op>, op: Op, max: nat)
    ensures ApplyAll(h, ops + [op], max) == Apply(ApplyAll(h, ops, max), op, max)
    decreases |ops|
  {
    hide Apply;
    var all := ops + [op];
    if ops == [] {
      assert all[1..] == [];
    } else {
      assert all[1..] == ops[1..] + [op];
      ApplyLast(Apply(h, ops[0], max), ops[1..], op, max);
    }
  }

  // -------------------------------------------------------------------- when a read hits

  /** The clock after an operation that reads it. */
  function Clock(op: Op, t: int): int {
    match op
    case GetOp(_, now) => now
    case CleanupOp(now) => now
    case _ => t
  }

  /** The clock never goes back. */
  predicate Timely(ops: seq<Op>, t: int) {
    ops == [] || (Clock(ops[0], t) >= t && Timely(ops[1..], Clock(ops[0], t)))
  }

  function ClockAfter(ops: seq<Op>, t: int): int
    decreases |ops|
  {
    if ops == [] then t else ClockAfter(ops[1..], Clock(ops[0], t))
  }

  /** A value that was set, and not invalidated or cleared since, is in the cache, unless it was evicted or its
      lifetime is over. */
  ghost predicate Accounted(h: History, t: int) {
    forall k | k in h.ideal :: k in h.d.vals || k in h.evicted || h.ideal[k].1 < t
  }

  lemma StepAccounts(h: History, op: Op, t: int, max: nat)
    requires Inv(h, max) && max >= 1 && Accounted(h, t) && Clock(op, t) >= t
    ensures Accounted(Apply(h, op, max), Clock(op, t))
  {
    hide Set, Cleanup, InUseOrder;
    match op
    case GetOp(k, now) =>
      DelValid(h.d, k);
    case SetOp(k, e) =>
      SetShape(h, k, e, max);
      UsedKeys(h.d, h.lastUse);
    case InvalidateOp(k) => DelValid(h.d, k);
    case CleanupOp(now) => CleanupRemoves(h.d, now);
    case ClearOp =>
  }

  lemma CleanupRemoves(d: Dict<Entry>, now: int)
    requires Valid(d)
    ensures forall k :: k in Cleanup(d, now).vals <==> k in d.vals && !(now > d.vals[k].expiresAt)
  {
    SweepRemovesExactly(d, ExpiredAt(now));
  }

  lemma {:induction false} RunAccounts(h: History, ops: seq<Op>, t: int, max: nat)
    requires Inv(h, max) && max >= 1 && Accounted(h, t) && Timely(ops, t)
    ensures Accounted(ApplyAll(h, ops, max), ClockAfter(ops, t))
    decreases |ops|
  {
    hide Apply, Accounted, Inv;
    if ops != [] {
      StepAccounts(h, ops[0], t, max);
      StepKeeps(h, ops[0], max);
      RunAccounts(Apply(h, ops[0], max), ops[1..], Clock(ops[0], t), max);
    }
  }

  /** What the operations have set under the key and not invalidated or cleared since, with its expiry. */
  function LastSet(ops: seq<Op>, k: string): Option<(Config, int)> {
    if ops == [] then None
    else
      match ops[|ops| - 1]
      case SetOp(x, e) => if x == k then Some((e.value, e.expiresAt)) else LastSet(ops[..|ops| - 1], k)
      case InvalidateOp(x) => if x == k then None else LastSet(ops[..|ops| - 1], k)
      case ClearOp => None
      case _ => LastSet(ops[..|ops| - 1], k)
  }

  lemma {:induction false} IdealIsLastSet(ops: seq<Op>, k: string, max: nat)
    ensures var ideal := ApplyAll(NEW, ops, max).ideal;
      LastSet(ops, k) == if k in ideal then Some(ideal[k]) else None
    decreases |ops|
  {
    hide Get, Set, Cleanup;
    if ops != [] {
      var n := |ops| - 1;
      IdealIsLastSet(ops[..n], k, max);
      ApplyLast(NEW, ops[..n], ops[n], max);
      assert ops == ops[..n] + [ops[n]];
    }
  }

  lemma HitIs(d: Dict<Entry>, k: string, now: int)
    ensures Get(d, k, now).1.Some? <==> k in d.vals && now <= d.vals[k].expiresAt
    ensures Get(d, k, now).1.Some? ==> Get(d, k, now).1 == Some(d.vals[k].value)
  {
  }

  /** In every run at a clock that never goes back, a read hits if and only if the key has been set and not
      invalidated or cleared since, the lifetime given then is not over, and it has not been evicted since;
      and a hit gives the value that was set. */
  lemma ReadsExactly(ops: seq<Op>, k: string, start: int, now: int, max: nat)
    requires max >= 1 && Timely(ops, start) && now >= ClockAfter(ops, start)
    ensures var h, last := ApplyAll(NEW, ops, max), LastSet(ops, k);
      var r := Get(h.d, k, now).1;
      && (r.Some? <==> last.Some? && now <= last.value.1 && k !in h.evicted)
      && (r.Some? ==> r.value == last.value.0)
  {
    hide Get;
    var h := ApplyAll(NEW, ops, max);
    EveryRunIsLru(NEW, ops, max);
    RunAccounts(NEW, ops, start, max);
    IdealIsLastSet(ops, k, max);
    HitIs(h.d, k, now);
  }
}
