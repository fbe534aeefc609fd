/** db/memory_storage.py: fitting embeddings to 768 dimensions, in exact arithmetic. The square root is
    input: `root` is only asked for numbers whose root it has to give. */
module EmbeddingReduction {

  const TARGET: nat := 768
  const EPSILON: real := 0.0000000001

  function Sum(v: seq<real>): real {
    if v == [] then 0.0 else Sum(v[..|v| - 1]) + v[|v| - 1]
  }

  function SumSquares(v: seq<real>): real {
    if v == [] then 0.0 else SumSquares(v[..|v| - 1]) + v[|v| - 1] * v[|v| - 1]
  }

  // -------------------------------------------------------------------- buckets

  /** `floor(i * ratio)` for the ratio `n / target`. */
  function Floor(i: nat, n: nat, target: nat): nat
    requires target > 0
  {
    i * n / target
  }

  function BucketEnd(i: nat, n: nat, target: nat): nat
    requires target > 0
  {
    var e := Floor(i + 1, n, target);
    if e < n then e else n
  }

  /** One entry of the reduced vector before normalisation: the average of its bucket, with a
      fallback for an empty bucket. */
  function Entry(v: seq<real>, target: nat, i: nat): real
    requires target > 0
  {
    var lo, hi := Floor(i, |v|, target), BucketEnd(i, |v|, target);
    if lo >= hi then (if i < |v| then v[i] else 0.0)
    else Sum(v[lo..hi]) / (hi - lo) as real
  }

  function Averages(v: seq<real>, target: nat): seq<real>
    requires target > 0
  {
    seq(target, i requires 0 <= i < target => Entry(v, target, i))
  }

  /** `root` gives the square root of the squared length of `v`, if that is not negligible. */
  predicate RootOf(root: real -> real, v: seq<real>) {
    var s := SumSquares(v);
    s >= EPSILON ==> root(s) > 0.0 && root(s) * root(s) == s
  }

  function Scaled(v: seq<real>, m: real): seq<real>
    requires m != 0.0
  {
    seq(|v|, i requires 0 <= i < |v| => v[i] / m)
  }

  method NormalizeVector(v: seq<real>, root: real -> real) returns (r: seq<real>)
    requires RootOf(root, v)
    ensures |r| == |v|
    ensures SumSquares(v) < EPSILON ==> r == v
    ensures SumSquares(v) >= EPSILON ==> SumSquares(r) == 1.0 && r == Scaled(v, root(SumSquares(v)))
  {
    var s := 0.0;
    for i := 0 to |v|
      invariant s == SumSquares(v[..i])
    {
      assert v[..i + 1][..i] == v[..i];
      s := s + v[i] * v[i];
    }
    assert v[..|v|] == v;
    if s < EPSILON { return v; }
    var magnitude := root(s);
    r := Scaled(v, magnitude);
    ScaledSquares(v, magnitude);
    DivideBySelf(s, magnitude, SumSquares(r));
  }

  lemma {:induction false} ScaledSquares(v: seq<real>, m: real)
    requires m > 0.0
    ensures SumSquares(Scaled(v, m)) * (m * m) == SumSquares(v)
    decreases |v|
  {
    if v != [] {
      var n := |v| - 1;
      var w := Scaled(v, m);
      assert w[..n] == Scaled(v[..n], m);
      ScaledSquares(v[..n], m);
      var x, q := v[n], v[n] / m;
      assert q * m == x;
      SquareOfProduct(q, m, x);
      Distribute(SumSquares(w[..n]), q * q, m * m);
    }
  }

  lemma SquareOfProduct(q: real, m: real, x: real)
    requires q * m == x
    ensures (q * q) * (m * m) == x * x
  {
    calc {
      x * x;
      (q * m) * (q * m);
      (q * q) * (m * m);
    }
  }

  lemma Distribute(a: real, b: real, c: real)
    ensures (a + b) * c == a * c + b * c
  {
  }

  lemma DivideBySelf(s: real, m: real, t: real)
    requires s > 0.0 && m * m == s && t * (m * m) == s
    ensures t == 1.0
  {
    assert (t - 1.0) * s == t * s - s == 0.0;
  }

  method ReduceVector(v: seq<real>, target: nat, root: real -> real) returns (r: seq<real>)
    requires target > 0 && RootOf(root, Averages(v, target))
    ensures |r| == target
    ensures var a := Averages(v, target);
      if SumSquares(a) < EPSILON then r == a else SumSquares(r) == 1.0 && r == Scaled(a, root(SumSquares(a)))
  {
    var n := |v|;
    var result := new real[target](_ => 0.0);
    for i := 0 to target
      invariant forall j | 0 <= j < i :: result[j] == Entry(v, target, j)
      invariant forall j | i <= j < target :: result[j] == 0.0
    {
      var lo := Floor(i, n, target);
      var hi := if Floor(i + 1, n, target) < n then Floor(i + 1, n, target) else n;
      if lo >= hi {
        if i < n { result[i] := v[i]; }
        continue;
      }
      result[i] := Sum(v[lo..hi]) / (hi - lo) as real;
    }
    assert result[..] == Averages(v, target);
    r := NormalizeVector(result[..], root);
  }

  function PadVector(v: seq<real>, target: nat): seq<real> {
    v + if |v| < target then seq(target - |v|, _ => 0.0) else []
  }

  method ProcessEmbedding(v: seq<real>, root: real -> real) returns (r: seq<real>, original: nat)
    requires |v| > TARGET ==> RootOf(root, Averages(v, TARGET))
    ensures |r| == TARGET && original == |v|
    ensures |v| <= TARGET ==> v <= r && SumSquares(r) == SumSquares(v)
    ensures |v| > TARGET ==>
      var a := Averages(v, TARGET);
      if SumSquares(a) < EPSILON then r == a else SumSquares(r) == 1.0 && r == Scaled(a, root(SumSquares(a)))
  {
    original := |v|;
    if original == TARGET {
      r := v;
    } else if original < TARGET {
      r := PadVector(v, TARGET);
      ZerosAddNothing(v, TARGET - original);
    } else {
      r := ReduceVector(v, TARGET, root);
    }
  }

  lemma {:induction false} ZerosAddNothing(v: seq<real>, k: nat)
    ensures SumSquares(v + seq(k, _ => 0.0)) == SumSquares(v)
    decreases k
  {
    var w := v + seq(k, _ => 0.0);
    if k == 0 {
      assert w == v;
    } else {
      ZerosAddNothing(v, k - 1);
      assert w[..|w| - 1] == v + seq(k - 1, _ => 0.0);
    }
  }

  // -------------------------------------------------------------------- the partition

  lemma FloorGrows(i: nat, n: nat, target: nat)
    requires target > 0
    ensures Floor(i, n, target) <= Floor(i + 1, n, target)
    ensures n >= target ==> Floor(i, n, target) < Floor(i + 1, n, target)
  {
    var a := i * n;
    assert (i + 1) * n == a + n;
    DivGrows(a, n, target);
  }

  lemma DivGrows(a: nat, n: nat, target: nat)
    requires target > 0
    ensures a / target <= (a + n) / target
    ensures n >= target ==> a / target < (a + n) / target
  {
    var q, p := a / target, (a + n) / target;
    assert a == q * target + a % target && a + n == p * target + (a + n) % target;
    assert (p + 1) * target == p * target + target && (q + 1) * target == q * target + target;
    LessByFactor(q, p + 1, target);
    if n >= target {
      LessByFactor(q + 1, p + 1, target);
    }
  }

  lemma LessByFactor(x: nat, y: nat, target: nat)
    requires x * target < y * target
    ensures x < y
  {
    if y <= x { MulGrows(y, x, target); }
  }

  lemma MulGrows(x: nat, y: nat, target: nat)
    requires x <= y
    ensures x * target <= y * target
  {
  }

  lemma DivExact(n: nat, target: nat)
    requires target > 0
    ensures n * target / target == n
  {
    var a := n * target;
    var q := a / target;
    assert a == q * target + a % target;
    assert (q + 1) * target == q * target + target && (n + 1) * target == a + target;
    LessByFactor(n, q + 1, target);
    LessByFactor(q, n + 1, target);
  }

  lemma {:induction false} FloorMonotone(i: nat, j: nat, n: nat, target: nat)
    requires target > 0 && i <= j
    ensures Floor(i, n, target) <= Floor(j, n, target)
    decreases j - i
  {
    if i < j {
      FloorMonotone(i, j - 1, n, target);
      FloorGrows(j - 1, n, target);
    }
  }

  lemma FloorAtEnds(n: nat, target: nat)
    requires target > 0
    ensures Floor(0, n, target) == 0 && Floor(target, n, target) == n
  {
    assert target * n == n * target;
    DivExact(n, target);
  }

  /** Up to the last bucket, each bucket ends where the next one starts. */
  lemma Contiguous(i: nat, n: nat, target: nat)
    requires target > 0 && i < target
    ensures BucketEnd(i, n, target) == Floor(i + 1, n, target) <= n
  {
    FloorMonotone(i + 1, target, n, target);
    FloorAtEnds(n, target);
  }

  /** A bucket holds index `k`. */
  predicate Holds(i: nat, k: nat, n: nat, target: nat)
    requires target > 0
  {
    Floor(i, n, target) <= k < BucketEnd(i, n, target)
  }

  /** The bucket, among the first `m`, that holds index `k`. */
  function BucketOf(k: nat, n: nat, target: nat, m: nat): nat
    requires target > 0
  {
    if m <= 1 || k >= Floor(m - 1, n, target) then (if m == 0 then 0 else m - 1) else BucketOf(k, n, target, m - 1)
  }

  lemma {:induction false} BucketOfHolds(k: nat, n: nat, target: nat, m: nat)
    requires target > 0 && m <= target && k < Floor(m, n, target)
    ensures BucketOf(k, n, target, m) < target && Holds(BucketOf(k, n, target, m), k, n, target)
    decreases m
  {
    FloorAtEnds(n, target);
    Contiguous(m - 1, n, target);
    if k < Floor(m - 1, n, target) {
      BucketOfHolds(k, n, target, m - 1);
    }
  }

  /** The buckets partition the source: they start at its first index, end at its last one, follow each
      other without gaps, and every source index is in exactly one of them. */
  lemma BucketsPartition(n: nat, target: nat)
    requires target > 0
    ensures Floor(0, n, target) == 0 && BucketEnd(target - 1, n, target) == n
    ensures forall i: nat | i + 1 < target :: BucketEnd(i, n, target) == Floor(i + 1, n, target)
    ensures forall k | 0 <= k < n ::
      BucketOf(k, n, target, target) < target && Holds(BucketOf(k, n, target, target), k, n, target)
    ensures forall i: nat, j: nat, k: nat |
      i < target && j < target && Holds(i, k, n, target) && Holds(j, k, n, target) :: i == j
  {
    FloorAtEnds(n, target);
    Contiguous(target - 1, n, target);
    forall i: nat | i + 1 < target ensures BucketEnd(i, n, target) == Floor(i + 1, n, target) {
      Contiguous(i, n, target);
    }
    forall k | 0 <= k < n
      ensures BucketOf(k, n, target, target) < target && Holds(BucketOf(k, n, target, target), k, n, target)
    {
      BucketOfHolds(k, n, target, target);
    }
    forall i: nat, j: nat, k: nat | i < target && j < target && Holds(i, k, n, target) && Holds(j, k, n, target)
      ensures i == j
    {
      Contiguous(i, n, target);
      Contiguous(j, n, target);
      if i < j { FloorMonotone(i + 1, j, n, target); }
      if j < i { FloorMonotone(j + 1, i, n, target); }
    }
  }

  /** No bucket is empty, so the fallback is never taken, exactly when the source is not shorter than
      the target; `process_embedding` reduces only longer ones. */
  lemma FallbackUnreachable(n: nat, target: nat)
    requires target > 0
    ensures (forall i: nat | i < target :: Floor(i, n, target) < BucketEnd(i, n, target)) <==> n >= target
  {
    forall i: nat | i < target ensures n >= target ==> Floor(i, n, target) < BucketEnd(i, n, target) {
      FloorGrows(i, n, target);
      Contiguous(i, n, target);
    }
    FloorAtEnds(n, target);
    if n < target {
      assert Floor(1, n, target) == n / target == 0;
      assert !(Floor(0, n, target) < BucketEnd(0, n, target));
    }
  }

  function Size(i: nat, n: nat, target: nat): int
    requires target > 0
  {
    BucketEnd(i, n, target) - Floor(i, n, target)
  }

  /** The sum of the first `m` averages, each weighted with the size of its bucket. */
  function Weighted(v: seq<real>, target: nat, m: nat): real
    requires target > 0 && m <= target
  {
    if m == 0 then 0.0
    else Weighted(v, target, m - 1) + Averages(v, target)[m - 1] * Size(m - 1, |v|, target) as real
  }

  lemma {:induction false} SumOfParts(v: seq<real>, a: nat, b: nat)
    requires a <= b <= |v|
    ensures Sum(v[..b]) == Sum(v[..a]) + Sum(v[a..b])
    decreases b
  {
    if a < b {
      SumOfParts(v, a, b - 1);
      assert v[..b][..b - 1] == v[..b - 1] && v[a..b][..b - a - 1] == v[a..b - 1];
    } else {
      assert v[a..b] == [];
    }
  }

  lemma BucketTotal(v: seq<real>, target: nat, i: nat)
    requires target > 0 && i < target && |v| >= target
    ensures var lo, hi := Floor(i, |v|, target), Floor(i + 1, |v|, target);
      lo < hi <= |v| && Averages(v, target)[i] * Size(i, |v|, target) as real == Sum(v[lo..hi])
  {
    hide Floor, Sum;
    Contiguous(i, |v|, target);
    FloorGrows(i, |v|, target);
    var lo, hi := Floor(i, |v|, target), Floor(i + 1, |v|, target);
    assert Averages(v, target)[i] == Entry(v, target, i) == Sum(v[lo..hi]) / (hi - lo) as real;
    TimesQuotient(Sum(v[lo..hi]), (hi - lo) as real);
  }

  lemma {:induction false} WeightedPrefix(v: seq<real>, target: nat, m: nat)
    requires target > 0 && m <= target && |v| >= target
    ensures Floor(m, |v|, target) <= |v| && Weighted(v, target, m) == Sum(v[..Floor(m, |v|, target)])
    decreases m
  {
    hide Floor, Averages, Size;
    FloorAtEnds(|v|, target);
    FloorMonotone(m, target, |v|, target);
    if m > 0 {
      WeightedPrefix(v, target, m - 1);
      BucketTotal(v, target, m - 1);
      SumOfParts(v, Floor(m - 1, |v|, target), Floor(m, |v|, target));
    }
  }

  lemma TimesQuotient(s: real, w: real)
    requires w != 0.0
    ensures s / w * w == s
  {
  }

  /** Averaging loses no weight: the averages, weighted with the sizes of their buckets, add up to the
      total of the source. */
  lemma AveragesKeepTotal(v: seq<real>, target: nat)
    requires target > 0 && |v| >= target
    ensures Weighted(v, target, target) == Sum(v)
  {
    WeightedPrefix(v, target, target);
    FloorAtEnds(|v|, target);
    assert v[..|v|] == v;
  }
}
