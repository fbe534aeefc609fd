/** graph/service.py: `ComposerService` as a client of per-user workflow caches. The user's caching
    switch, the session of the caller and the built workflow are input. */
module ComposerService {
  import opened Text
  import opened OrderedDict
  import WC = WorkflowCache

  const MAX_SIZE: nat := 1000
  const TTL: int := 300

  /** Empty session ids and model names are left out of the key. */
  function Part(s: string): string {
    if s == "" then "" else "_" + s
  }

  function CacheKey(user: string, session: string, model: string): string {
    "workflow_" + user + Part(session) + Part(model)
  }

  type Caches = map<string, Dict<WC.Entry>>

  ghost predicate AllValid(c: Caches) {
    forall u | u in c :: Valid(c[u])
  }

  /** The lookup half of a composition: it creates the user's cache on first use. */
  function Lookup(c: Caches, user: string, key: string, now: int): (Caches, Option<WC.Workflow>) {
    var (d, hit) := WC.Get(if user in c then c[user] else Empty(), key, now);
    (c[user := d], hit)
  }

  /** The store half, after the workflow has been built. */
  function Store(c: Caches, user: string, key: string, w: WC.Workflow, now: int): Caches
    requires AllValid(c)
  {
    if user !in c then c else c[user := WC.Set(c[user], key, WC.Entry(w, now, TTL, 0, now), MAX_SIZE)]
  }

  lemma LookupValid(c: Caches, user: string, key: string, now: int)
    requires AllValid(c)
    ensures AllValid(Lookup(c, user, key, now).0)
  {
    WC.GetValid(if user in c then c[user] else Empty(), key, now);
  }

  /** A whole composition without anything in between: (caches, workflow, whether it was built). */
  function Compose(c: Caches, user: string, session: string, model: string, caching: bool, built: WC.Workflow,
                   now: int, later: int): (Caches, WC.Workflow, bool)
    requires AllValid(c)
  {
    if !caching then (c, built, true)
    else
      LookupValid(c, user, CacheKey(user, session, model), now);
      var (c1, hit) := Lookup(c, user, CacheKey(user, session, model), now);
      if hit.Some? then (c1, hit.value, false)
      else (Store(c1, user, CacheKey(user, session, model), built, later), built, true)
  }

  function Invalidate(c: Caches, user: string, key: string): Caches {
    if user in c && Has(c[user], key) then c[user := Del(c[user], key)] else c
  }

  class ComposerService {
    var workflowCaches: map<string, WC.WorkflowCache>

    ghost predicate Ready()
      reads this, workflowCaches.Values
    {
      && (forall u, v | u in workflowCaches && v in workflowCaches && u != v :: workflowCaches[u] != workflowCaches[v])
      && (forall u | u in workflowCaches ::
          workflowCaches[u].maxSize == MAX_SIZE && workflowCaches[u].defaultTtl == TTL
          && Valid(workflowCaches[u].cache))
    }

    ghost function View(): Caches
      reads this, workflowCaches.Values
    {
      map u | u in workflowCaches :: workflowCaches[u].cache
    }

    constructor ()
      ensures Ready() && View() == map[]
    {
      workflowCaches := map[];
    }

    /** The user's cache, created on first use. */
    method CacheFor(user: string) returns (cache: WC.WorkflowCache)
      requires Ready()
      modifies this
      ensures Ready() && user in workflowCaches && workflowCaches[user] == cache
      ensures View() == if user in old(View()) then old(View()) else old(View())[user := Empty()]
      ensures cache in old(workflowCaches.Values) || fresh(cache)
      ensures forall o | o in workflowCaches.Values :: o in old(workflowCaches.Values) || o == cache
    {
      if user !in workflowCaches {
        cache := new WC.WorkflowCache(MAX_SIZE, None);
        workflowCaches := workflowCaches[user := cache];
        assert View() == old(View())[user := Empty()];
      } else {
        cache := workflowCaches[user];
      }
    }

    method LookupWorkflow(user: string, key: string, now: int) returns (hit: Option<WC.Workflow>)
      requires Ready()
      modifies this, workflowCaches.Values
      ensures Ready() && user in workflowCaches
      ensures (View(), hit) == Lookup(old(View()), user, key, now)
      ensures forall o | o in workflowCaches.Values :: o in old(workflowCaches.Values) || fresh(o)
    {
      hide WC.Get, Ready, View;
      var _ := CacheFor(user);
      ghost var mid := View();
      assert user in mid && mid[user] == if user in old(View()) then old(View())[user] else Empty();
      hit := LookupIn(user, key, now);
      ghost var d := WC.Get(mid[user], key, now).0;
      assert mid[user := d] == old(View())[user := d];
    }

    method LookupIn(user: string, key: string, now: int) returns (hit: Option<WC.Workflow>)
      requires Ready() && user in workflowCaches
      modifies workflowCaches.Values
      ensures Ready()
      ensures user in old(View()) && var (d, r) := WC.Get(old(View())[user], key, now);
        View() == old(View())[user := d] && hit == r
    {
      hide WC.Get;
      var cache := workflowCaches[user];
      WC.GetValid(cache.cache, key, now);
      hit := cache.GetWorkflow(key, now);
    }

    method StoreWorkflow(user: string, key: string, w: WC.Workflow, now: int)
      requires Ready() && user in workflowCaches
      modifies workflowCaches.Values
      ensures Ready() && AllValid(old(View()))
      ensures View() == Store(old(View()), user, key, w, now)
    {
      var cache := workflowCaches[user];
      SetValid(cache.cache, key, WC.Entry(w, now, TTL, 0, now));
      cache.SetWorkflow(key, w, None, now);
    }

    method ComposeWorkflow(user: string, session: string, model: string, caching: bool, built: WC.Workflow,
                           now: int, later: int)
      returns (r: WC.Workflow, ghost rebuilt: bool)
      requires Ready()
      modifies this, workflowCaches.Values
      ensures Ready() && AllValid(old(View()))
      ensures (View(), r, rebuilt) == Compose(old(View()), user, session, model, caching, built, now, later)
    {
      hide Lookup, Store;
      if !caching { return built, true; }
      var key := "workflow_" + user;
      if session != "" { key := key + ("_" + session); }
      if model != "" { key := key + ("_" + model); }
      assert key == CacheKey(user, session, model) by {
        assert ("workflow_" + user) + "" == "workflow_" + user && key + "" == key;
      }
      var hit := LookupWorkflow(user, key, now);
      if hit.Some? { return hit.value, false; }
      StoreWorkflow(user, key, built, later);
      r, rebuilt := built, true;
    }

    method InvalidateWorkflow(user: string, session: string, model: string) returns (evicted: bool)
      requires Ready()
      modifies workflowCaches.Values
      ensures Ready()
      ensures View() == Invalidate(old(View()), user, CacheKey(user, session, model))
      ensures evicted == (user in old(View()) && Has(old(View())[user], CacheKey(user, session, model)))
    {
      hide CacheKey;
      var key := CacheKey(user, session, model);
      if user !in workflowCaches { return false; }
      var cache := workflowCaches[user];
      DelKey(cache.cache, key);
      evicted := cache.Invalidate(key);
    }

    /** Closing clears every cache, also for compositions that still hold one. */
    method Shutdown()
      requires Ready()
      modifies this, workflowCaches.Values
      ensures Ready() && View() == map[]
      ensures forall o | o in old(workflowCaches.Values) :: o.cache == Empty()
    {
      var users := workflowCaches.Keys;
      while users != {}
        invariant workflowCaches == old(workflowCaches) && users <= workflowCaches.Keys
        invariant forall u | u in workflowCaches && u !in users :: workflowCaches[u].cache == Empty()
        decreases |users|
      {
        var u :| u in users;
        workflowCaches[u].Clear();
        users := users - {u};
      }
      workflowCaches := map[];
    }
  }

  lemma DelKey(d: Dict<WC.Entry>, k: string)
    requires Valid(d)
    ensures Valid(Del(d, k))
  {
    DelValid(d, k);
  }

  lemma SetValid(d: Dict<WC.Entry>, k: string, e: WC.Entry)
    requires Valid(d)
    ensures Valid(WC.Set(d, k, e, MAX_SIZE)) && WC.Set(d, k, e, MAX_SIZE).vals[k] == e
  {
    WC.EvictKeeps(d);
    PutValid(if |d.order| >= MAX_SIZE then WC.EvictLru(d) else d, k, e);
  }

  // -------------------------------------------------------------------- rebuilding

  /** A composition that finds its key cached within the lifetime returns the workflow that was built
      for the key, and builds nothing. */
  lemma ComposeReuses(c: Caches, user: string, session: string, model: string, first: WC.Workflow, second: WC.Workflow,
                      now: int, stored: int, again: int, later: int)
    requires AllValid(c) && again <= stored + 300
    ensures var (c1, w1, built1) := Compose(c, user, session, model, true, first, now, stored);
      built1 ==>
        && AllValid(c1)
        && var (_, w2, built2) := Compose(c1, user, session, model, true, second, again, later);
           w2 == w1 == first && !built2
  {
    var key := CacheKey(user, session, model);
    LookupValid(c, user, key, now);
    var (c0, hit) := Lookup(c, user, key, now);
    if hit.None? {
      SetValid(c0[user], key, WC.Entry(first, stored, TTL, 0, stored));
    }
  }

  /** With caching switched off the workflow is built, and no cache changes. */
  lemma UncachedBuilds(c: Caches, user: string, session: string, model: string, built: WC.Workflow,
                       now: int, later: int)
    requires AllValid(c)
    ensures Compose(c, user, session, model, false, built, now, later) == (c, built, true)
  {
  }

  /** A workflow is built if and only if there is no entry for the key, or its lifetime is over; a workflow
      that is not built is that of the entry, and one that is built is stored under the key for 300 seconds. */
  lemma BuildsExactlyWhen(c: Caches, user: string, session: string, model: string, built: WC.Workflow,
                          now: int, later: int)
    requires AllValid(c)
    ensures var (c', w, rebuilt) := Compose(c, user, session, model, true, built, now, later);
      var key := CacheKey(user, session, model);
      var held := user in c && key in c[user].vals && now - c[user].vals[key].createdAt <= c[user].vals[key].ttl;
      && rebuilt == !held && w == (if held then c[user].vals[key].workflow else built)
      && user in c' && (rebuilt ==> key in c'[user].vals && c'[user].vals[key] == WC.Entry(built, later, 300, 0, later))
      && forall u | u != user :: (u in c' <==> u in c) && (u in c ==> c'[u] == c[u])
  {
    hide CacheKey;
    var key := CacheKey(user, session, model);
    LookupValid(c, user, key, now);
    WC.HitIs(if user in c then c[user] else Empty(), key, now);
    var (c0, hit) := Lookup(c, user, key, now);
    if hit.None? { SetValid(c0[user], key, WC.Entry(built, later, TTL, 0, later)); }
  }

  datatype Step =
    | LookupStep(user: string, key: string, now: int)
    | StoreStep(user: string, key: string, w: WC.Workflow, now: int)
    | InvalidateStep(user: string, key: string)
    | CleanupStep(user: string, now: int)
    | ShutdownStep

  function Apply(c: Caches, s: Step): Caches
    requires AllValid(c)
  {
    match s
    case LookupStep(user, key, now) => Lookup(c, user, key, now).0
    case StoreStep(user, key, w, now) => Store(c, user, key, w, now)
    case InvalidateStep(user, key) => Invalidate(c, user, key)
    case CleanupStep(user, now) => if user in c then c[user := WC.Cleanup(c[user], now)] else c
    case ShutdownStep => map[]
  }

  ghost predicate Absent(c: Caches, user: string, key: string) {
    user in c ==> key !in c[user].vals
  }

  lemma StepKeepsAbsent(c: Caches, s: Step, user: string, key: string)
    requires AllValid(c)
    ensures AllValid(Apply(c, s))
    ensures Absent(c, user, key) && !(s.StoreStep? && s.user == user && s.key == key) ==> Absent(Apply(c, s), user, key)
  {
    match s
    case LookupStep(u, k, now) => LookupValid(c, u, k, now);
    case StoreStep(u, k, w, now) =>
      if u in c {
        SetValid(c[u], k, WC.Entry(w, now, TTL, 0, now));
        WC.EvictKeeps(c[u]);
      }
    case InvalidateStep(u, k) => if u in c { DelValid(c[u], k); }
    case CleanupStep(u, now) =>
      if u in c { SweepRemovesExactly(c[u], WC.ExpiredAt(now)); }
    case ShutdownStep =>
  }

  ghost function ApplyAll(c: Caches, steps: seq<Step>): (r: Caches)
    requires AllValid(c)
    ensures AllValid(r)
    decreases |steps|
  {
    if steps == [] then c
    else
      StepKeepsAbsent(c, steps[0], "", "");
      ApplyAll(Apply(c, steps[0]), steps[1..])
  }

  lemma {:induction false} StaysAbsent(c: Caches, steps: seq<Step>, user: string, key: string)
    requires AllValid(c) && Absent(c, user, key)
    requires forall s | s in steps :: !(s.StoreStep? && s.user == user && s.key == key)
    ensures Absent(ApplyAll(c, steps), user, key)
    decreases |steps|
  {
    hide Apply;
    if steps != [] {
      StepKeepsAbsent(c, steps[0], user, key);
      StaysAbsent(Apply(c, steps[0]), steps[1..], user, key);
    }
  }

  /** Invalidating forces a rebuild: whatever lookups, stores under other keys, evictions, cleanups and
      shutdowns follow, the next composition for the same user, session and model builds anew, unless
      a composition for the key that was already past its lookup stores its workflow in between. */
  lemma InvalidateForcesRebuild(c: Caches, steps: seq<Step>, user: string, session: string, model: string,
                                built: WC.Workflow, now: int, later: int)
    requires AllValid(c)
    requires forall s | s in steps :: !(s.StoreStep? && s.user == user && s.key == CacheKey(user, session, model))
    ensures AllValid(Invalidate(c, user, CacheKey(user, session, model)))
    ensures var c' := ApplyAll(Invalidate(c, user, CacheKey(user, session, model)), steps);
      Compose(c', user, session, model, true, built, now, later).1 == built
      && Compose(c', user, session, model, true, built, now, later).2
  {
    hide ApplyAll;
    var key := CacheKey(user, session, model);
    if user in c { DelValid(c[user], key); }
    StaysAbsent(Invalidate(c, user, key), steps, user, key);
  }

  /** The exception is real: a composition that was building while the entry was invalidated stores
      its stale workflow, and the next composition returns it. */
  lemma InFlightStoreSurvivesInvalidation(c: Caches, user: string, session: string, model: string,
                                          stale: WC.Workflow, built: WC.Workflow, now: int, later: int)
    requires AllValid(c) && user in c && now <= later <= now + TTL
    ensures AllValid(Invalidate(c, user, CacheKey(user, session, model)))
    ensures var key := CacheKey(user, session, model);
      var c1 := Store(Invalidate(c, user, key), user, key, stale, now);
      AllValid(c1) && Compose(c1, user, session, model, true, built, later, later).1 == stale
  {
    var key := CacheKey(user, session, model);
    DelValid(c[user], key);
    SetValid(Invalidate(c, user, key)[user], key, WC.Entry(stale, now, TTL, 0, now));
  }

  // -------------------------------------------------------------------- keys

  /** Session `t` with model `n` spells the model `m` of the shorter session `s`, or of no session. */
  predicate Overlaps(s: string, m: string, t: string, n: string) {
    if s == "" then t != "" && m == t + Part(n)
    else m != "" && |s| < |t| && t[..|s|] == s && t[|s|] == '_' && m == t[|s| + 1..] + Part(n)
  }

  /** Two compositions of one user share a cache key exactly when session and model are the same, or
      the longer session id is the shorter one (and an underscore, unless there is no shorter one)
      followed by the start of the other model name. So sessions do not always get their own workflow.
      Session ids without underscores keep two sessions apart, but not a session from no session. */
  lemma KeysCollideExactlyWhen(user: string, s: string, m: string, t: string, n: string)
    ensures CacheKey(user, s, m) == CacheKey(user, t, n) <==>
      (s == t && m == n) || Overlaps(s, m, t, n) || Overlaps(t, n, s, m)
    ensures s != "" && t != "" && '_' !in s && '_' !in t ==>
      (CacheKey(user, s, m) == CacheKey(user, t, n) <==> s == t && m == n)
  {
    var head := "workflow_" + user;
    assert CacheKey(user, s, m) == CacheKey(user, t, n) <==> Part(s) + Part(m) == Part(t) + Part(n) by {
      Regroup(head, Part(s), Part(m));
      Regroup(head, Part(t), Part(n));
      SamePrefix(head, Part(s) + Part(m), head, Part(t) + Part(n));
    }
    if s == "" || t == "" {
      NoSession(s, m, t, n);
    } else {
      SameTail(s, m, t, n);
      if |s| == |t| {
        SameLength(s, m, t, n);
      } else if |s| < |t| {
        ShorterFirst(s, m, t, n);
      } else {
        ShorterFirst(t, n, s, m);
      }
    }
  }

  /** A caller without a session shares the workflow of a session whose id is its model's name. */
  lemma NoSessionSharesKey(user: string, name: string)
    requires name != ""
    ensures CacheKey(user, "", name) == CacheKey(user, name, "")
  {
    NothingMore(name);
    KeysCollideExactlyWhen(user, "", name, name, "");
  }

  lemma SameTail(s: string, m: string, t: string, n: string)
    requires s != "" && t != ""
    ensures Part(s) + Part(m) == Part(t) + Part(n) <==> s + Part(m) == t + Part(n)
  {
    Regroup("_", s, Part(m));
    Regroup("_", t, Part(n));
    SamePrefix("_", s + Part(m), "_", t + Part(n));
  }

  lemma NoSession(s: string, m: string, t: string, n: string)
    requires s == "" || t == ""
    ensures Part(s) + Part(m) == Part(t) + Part(n) <==>
      (s == t && m == n) || Overlaps(s, m, t, n) || Overlaps(t, n, s, m)
  {
    NothingMore(Part(m));
    NothingMore(Part(n));
    if s == "" && t == "" {
      PartInjective(m, n);
    } else if s == "" {
      Regroup("_", t, Part(n));
      PartInjective(m, t + Part(n));
    } else {
      Regroup("_", s, Part(m));
      PartInjective(n, s + Part(m));
    }
  }

  lemma PartInjective(m: string, n: string)
    ensures Part(m) == Part(n) <==> m == n
  {
    assert m != "" ==> Part(m)[1..] == m;
    assert n != "" ==> Part(n)[1..] == n;
  }

  lemma SameLength(s: string, m: string, t: string, n: string)
    requires |s| == |t|
    ensures s + Part(m) == t + Part(n) <==> s == t && m == n
  {
    var x, y := s + Part(m), t + Part(n);
    if x == y {
      assert x[..|s|] == s && y[..|t|] == t && x[|s|..] == Part(m) && y[|t|..] == Part(n);
      assert m != "" ==> Part(m)[1..] == m;
      assert n != "" ==> Part(n)[1..] == n;
    }
  }

  lemma ShorterFirst(s: string, m: string, t: string, n: string)
    requires s != "" && |s| < |t|
    ensures s + Part(m) == t + Part(n) <==> Overlaps(s, m, t, n)
  {
    var p, rest := t[..|s|], t[|s|..];
    assert t == p + rest;
    Regroup(p, rest, Part(n));
    SamePrefix(s, Part(m), p, rest + Part(n));
    TailIs(m, rest, Part(n));
    assert rest[1..] == t[|s| + 1..];
  }

  lemma SamePrefix(s: string, a: string, p: string, b: string)
    requires |s| == |p|
    ensures s + a == p + b <==> s == p && a == b
  {
    if s + a == p + b {
      assert (s + a)[..|s|] == s && (p + b)[..|s|] == p && (s + a)[|s|..] == a && (p + b)[|s|..] == b;
    }
  }

  lemma TailIs(m: string, rest: string, more: string)
    requires rest != ""
    ensures Part(m) == rest + more <==> m != "" && rest[0] == '_' && m == rest[1..] + more
  {
    assert rest == [rest[0]] + rest[1..];
    Regroup([rest[0]], rest[1..], more);
    if m != "" {
      SamePrefix("_", m, [rest[0]], rest[1..] + more);
      assert ("_" == [rest[0]]) <==> rest[0] == '_';
    }
  }
}
