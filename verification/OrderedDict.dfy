/** Python dictionaries keyed by string, with their insertion order. */
module OrderedDict {
  import opened Text

  datatype Dict<V> = Dict(order: seq<string>, vals: map<string, V>)

  ghost predicate Distinct(s: seq<string>) {
    forall i, j | 0 <= i < j < |s| :: s[i] != s[j]
  }

  ghost predicate Valid<V>(d: Dict<V>) {
    Distinct(d.order) && forall k :: k in d.order <==> k in d.vals
  }

  function Empty<V>(): Dict<V> {
    Dict([], map[])
  }

  function Has<V>(d: Dict<V>, k: string): bool {
    k in d.vals
  }

  /** `d[k] = v`: an existing key keeps its place, a new one goes to the end. */
  function Put<V>(d: Dict<V>, k: string, v: V): Dict<V> {
    Dict(if k in d.vals then d.order else d.order + [k], d.vals[k := v])
  }

  function Without(s: seq<string>, k: string): (r: seq<string>)
    ensures |r| <= |s| && (k in s ==> |r| < |s|)
  {
    if s == [] then [] else (if s[0] == k then [] else [s[0]]) + Without(s[1..], k)
  }

  /** `del d[k]`. */
  function Del<V>(d: Dict<V>, k: string): Dict<V> {
    Dict(Without(d.order, k), d.vals - {k})
  }

  function DelAll<V>(d: Dict<V>, ks: seq<string>): Dict<V>
    decreases |ks|
  {
    if ks == [] then d else DelAll(Del(d, ks[0]), ks[1..])
  }

  function KeysWhere<V>(order: seq<string>, vals: map<string, V>, p: V -> bool): seq<string> {
    if order == [] then []
    else (if order[0] in vals && p(vals[order[0]]) then [order[0]] else []) + KeysWhere(order[1..], vals, p)
  }

  /** The dictionary without the entries for which `p` holds. */
  function Sweep<V>(d: Dict<V>, p: V -> bool): Dict<V> {
    DelAll(d, KeysWhere(d.order, d.vals, p))
  }

  /** `d.move_to_end(k)`, or deleting and re-inserting. */
  function MoveToEnd<V>(d: Dict<V>, k: string): Dict<V> {
    if k in d.vals then Dict(Without(d.order, k) + [k], d.vals) else d
  }

  /** `d.items()`. */
  function Items<V>(d: Dict<V>): seq<(string, V)> {
    ItemsOf(d.order, d.vals)
  }

  function ItemsOf<V>(order: seq<string>, vals: map<string, V>): seq<(string, V)> {
    if order == [] then []
    else (if order[0] in vals then [(order[0], vals[order[0]])] else []) + ItemsOf(order[1..], vals)
  }

  lemma {:induction false} WithoutProperties(s: seq<string>, k: string)
    requires Distinct(s)
    ensures Distinct(Without(s, k)) && (forall x :: x in Without(s, k) <==> x in s && x != k)
    ensures |Without(s, k)| == |s| - if k in s then 1 else 0
  {
    if s != [] {
      var t := s[1..];
      assert forall i | 0 <= i < |t| :: t[i] == s[i + 1];
      WithoutProperties(t, k);
      assert s == [s[0]] + t;
      assert s[0] !in t;
      var w := Without(t, k);
      assert Without(s, k) == (if s[0] == k then [] else [s[0]]) + w;
      assert s[0] !in w;
    }
  }

  lemma PutValid<V>(d: Dict<V>, k: string, v: V)
    requires Valid(d)
    ensures Valid(Put(d, k, v))
  {
  }

  lemma DelValid<V>(d: Dict<V>, k: string)
    requires Valid(d)
    ensures Valid(Del(d, k)) && |Del(d, k).order| == |d.order| - if k in d.vals then 1 else 0
    ensures forall x :: x in Del(d, k).vals <==> x in d.vals && x != k
  {
    WithoutProperties(d.order, k);
  }

  lemma MoveValid<V>(d: Dict<V>, k: string)
    requires Valid(d)
    ensures Valid(MoveToEnd(d, k)) && |MoveToEnd(d, k).order| == |d.order|
  {
    WithoutProperties(d.order, k);
  }

  // -------------------------------------------------------------------- sweeping

  lemma KeysWhereNext<V>(d: Dict<V>, p: V -> bool, i: nat)
    requires i < |d.order|
    ensures var k := d.order[i];
      KeysWhere(d.order[i..], d.vals, p) ==
        (if Has(d, k) && p(d.vals[k]) then [k] else []) + KeysWhere(d.order[i + 1..], d.vals, p)
  {
    assert d.order[i..][1..] == d.order[i + 1..];
  }

  lemma KeysWhereDone<V>(d: Dict<V>, p: V -> bool)
    ensures KeysWhere(d.order[0..], d.vals, p) == KeysWhere(d.order, d.vals, p)
    ensures KeysWhere(d.order[|d.order|..], d.vals, p) == []
  {
    assert d.order[0..] == d.order && d.order[|d.order|..] == [];
  }

  /** Collects the keys first and deletes them afterwards. */
  method RemoveWhere<V>(d: Dict<V>, p: V -> bool) returns (r: Dict<V>)
    ensures r == Sweep(d, p)
  {
    hide KeysWhere, DelAll;
    var ks: seq<string> := [];
    KeysWhereDone(d, p);
    NothingMore(KeysWhere(d.order, d.vals, p));
    for i := 0 to |d.order|
      invariant KeysWhere(d.order, d.vals, p) == ks + KeysWhere(d.order[i..], d.vals, p)
    {
      var k := d.order[i];
      KeysWhereNext(d, p, i);
      Regroup(ks, if Has(d, k) && p(d.vals[k]) then [k] else [], KeysWhere(d.order[i + 1..], d.vals, p));
      NothingMore(ks);
      if Has(d, k) && p(d.vals[k]) { ks := ks + [k]; }
    }
    NothingMore(ks);
    r := RemoveKeys(d, ks);
  }

  method RemoveKeys<V>(d: Dict<V>, ks: seq<string>) returns (r: Dict<V>)
    ensures r == DelAll(d, ks)
  {
    r := d;
    assert ks[0..] == ks;
    for i := 0 to |ks|
      invariant DelAll(d, ks) == DelAll(r, ks[i..])
    {
      r := Del(r, ks[i]);
      assert ks[i..][1..] == ks[i + 1..];
    }
    assert ks[|ks|..] == [];
  }

  lemma {:induction false} KeysWhereAre<V>(order: seq<string>, vals: map<string, V>, p: V -> bool)
    ensures forall k :: k in KeysWhere(order, vals, p) <==> k in order && k in vals && p(vals[k])
  {
    if order != [] {
      KeysWhereAre(order[1..], vals, p);
      assert order == [order[0]] + order[1..];
    }
  }

  lemma {:induction false} DelAllRemoves<V>(d: Dict<V>, ks: seq<string>)
    requires Valid(d)
    ensures Valid(DelAll(d, ks))
    ensures forall k :: k in DelAll(d, ks).vals <==> k in d.vals && k !in ks
    ensures forall k | k in DelAll(d, ks).vals :: k in d.vals && DelAll(d, ks).vals[k] == d.vals[k]
    decreases |ks|
  {
    if ks != [] {
      DelValid(d, ks[0]);
      DelAllRemoves(Del(d, ks[0]), ks[1..]);
      assert ks == [ks[0]] + ks[1..];
    }
  }

  /** A sweep removes exactly the entries for which `p` holds, and changes no other. */
  lemma SweepRemovesExactly<V>(d: Dict<V>, p: V -> bool)
    requires Valid(d)
    ensures Valid(Sweep(d, p))
    ensures forall k :: k in Sweep(d, p).vals <==> k in d.vals && !p(d.vals[k])
    ensures forall k | k in Sweep(d, p).vals :: k in d.vals && Sweep(d, p).vals[k] == d.vals[k]
  {
    hide KeysWhere, DelAll;
    KeysWhereAre(d.order, d.vals, p);
    DelAllRemoves(d, KeysWhere(d.order, d.vals, p));
  }
}
