/** Brace counting, as both the stream buffer and the bare-JSON parser do it: every `{` and `}`
    counts, including those inside JSON strings. */
module Braces {
  import opened Text

  function Delta(c: char): int {
    if c == '{' then 1 else if c == '}' then -1 else 0
  }

  /** Opening minus closing braces in `s`. */
  function Depth(s: string): int {
    if s == "" then 0 else Depth(s[..|s| - 1]) + Delta(s[|s| - 1])
  }

  /** A `}` at index `e - 1` brings the count of the prefix `s[..e]` to zero. */
  predicate ClosesAt(s: string, e: nat) {
    0 < e <= |s| && s[e - 1] == '}' && Depth(s[..e]) == 0
  }

  /** The least end past `from` at which the braces close. */
  function FirstClose(s: string, from: nat): (r: Option<nat>)
    requires from <= |s|
    ensures r.Some? ==> from < r.value && ClosesAt(s, r.value) && forall e | from < e < r.value :: !ClosesAt(s, e)
    ensures r.None? ==> forall e | from < e :: !ClosesAt(s, e)
    decreases |s| - from
  {
    if from == |s| then None
    else if ClosesAt(s, from + 1) then Some(from + 1)
    else FirstClose(s, from + 1)
  }

  lemma DepthStep(s: string, i: nat)
    requires i < |s|
    ensures Depth(s[..i + 1]) == Depth(s[..i]) + Delta(s[i])
  {
    assert s[..i + 1][..i] == s[..i];
  }

  /** `s[..e]` is the shortest non-empty prefix of `s` whose braces balance. */
  ghost predicate IsShortestBalanced(s: string, e: nat) {
    0 < e <= |s| && Depth(s[..e]) == 0 && forall d | 0 < d < e :: Depth(s[..d]) > 0
  }

  lemma {:induction false} OpenUntilClosed(s: string, d: nat)
    requires 0 < d <= |s| && s[0] == '{'
    requires forall e | 0 < e <= d :: !ClosesAt(s, e)
    ensures Depth(s[..d]) > 0
    decreases d
  {
    DepthStep(s, d - 1);
    assert !ClosesAt(s, d);
    if d > 1 {
      OpenUntilClosed(s, d - 1);
    } else {
      assert s[..d - 1] == "";
    }
  }

  /** On text that starts with `{`, the first closing brace that brings the count to zero ends the
      shortest balanced prefix, and there is no balanced prefix when there is no such brace. */
  lemma FirstCloseIsShortest(s: string)
    requires s != "" && s[0] == '{'
    ensures FirstClose(s, 0).Some? ==> IsShortestBalanced(s, FirstClose(s, 0).value)
    ensures FirstClose(s, 0).None? ==> forall d | 0 < d <= |s| :: Depth(s[..d]) > 0
  {
    var n := match FirstClose(s, 0) case Some(e) => e - 1 case None => |s|;
    forall d | 0 < d <= n ensures Depth(s[..d]) > 0 {
      OpenUntilClosed(s, d);
    }
  }

  /** Cutting the shortest balanced prefix out and scanning it again gives all of it back. */
  lemma FirstCloseOfPrefix(s: string, n: nat)
    requires n <= |s| && FirstClose(s, 0) == Some(n)
    ensures FirstClose(s[..n], 0) == Some(n)
  {
    forall e | 0 < e <= n ensures ClosesAt(s[..n], e) <==> ClosesAt(s, e) {
      assert s[..n][..e] == s[..e];
    }
  }
}
