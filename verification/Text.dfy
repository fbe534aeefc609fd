/** Shared basics: options, regrouping of sequences, and the Python string primitives that the
    tool-call recognisers use: whitespace as `str.isspace` and the regular-expression class `\s` see
    it, stripping, leftmost substring search and case-insensitive literals. */
module Text {

  datatype Option<+T> = None | Some(value: T) {
    predicate IsFailure() { None? }

    function PropagateFailure<U>(): Option<U>
      requires None?
    {
      None
    }

    function Extract(): T
      requires Some?
    {
      value
    }
  }

  /** `given or default`, for numbers: zero stands for absent. */
  function OrElse(given: Option<int>, default: int): int {
    if given.Some? && given.value != 0 then given.value else default
  }

  predicate IsSpace(c: char) {
    || '\t' <= c <= '\r' || '\U{1C}' <= c <= ' ' || c == '\U{85}' || c == '\U{A0}' || c == '\U{1680}'
    || '\U{2000}' <= c <= '\U{200A}' || c == '\U{2028}' || c == '\U{2029}' || c == '\U{202F}'
    || c == '\U{205F}' || c == '\U{3000}'
  }

  /** The first index at or after `i` that does not hold whitespace (`\s*`, greedily). */
  function SkipSpaces(s: string, i: nat): (r: nat)
    requires i <= |s|
    ensures i <= r <= |s|
    ensures forall j | i <= j < r :: IsSpace(s[j])
    ensures r < |s| ==> !IsSpace(s[r])
    decreases |s| - i
  {
    if i < |s| && IsSpace(s[i]) then SkipSpaces(s, i + 1) else i
  }

  /** One past the last index before `i` that does not hold whitespace. */
  function DropSpaces(s: string, i: nat): (r: nat)
    requires i <= |s|
    ensures r <= i
    ensures forall j | r <= j < i :: IsSpace(s[j])
    ensures r > 0 ==> !IsSpace(s[r - 1])
  {
    if i > 0 && IsSpace(s[i - 1]) then DropSpaces(s, i - 1) else i
  }

  function LStrip(s: string): string {
    s[SkipSpaces(s, 0)..]
  }

  function RStrip(s: string): string {
    s[..DropSpaces(s, |s|)]
  }

  function Strip(s: string): string {
    RStrip(LStrip(s))
  }

  /** A string that `strip` leaves alone: empty, or with no whitespace at either end. */
  predicate Stripped(s: string) {
    s != "" ==> !IsSpace(s[0]) && !IsSpace(s[|s| - 1])
  }

  lemma StripOfStripped(s: string)
    ensures Stripped(Strip(s))
    ensures Stripped(s) ==> Strip(s) == s
  {
    var t := LStrip(s);
    if t != "" {
      assert !IsSpace(t[0]);
      assert DropSpaces(t, |t|) > 0;
    }
  }

  predicate Blank(s: string) {
    forall c | c in s :: IsSpace(c)
  }

  /** Stripping takes off whitespace at both ends, all of it, and nothing else. */
  lemma StripIs(s: string) returns (front: string, back: string)
    ensures s == front + Strip(s) + back && Blank(front) && Blank(back) && Stripped(Strip(s))
  {
    var t := LStrip(s);
    front, back := s[..SkipSpaces(s, 0)], t[DropSpaces(t, |t|)..];
    assert s == front + t && t == Strip(s) + back;
    StripOfStripped(s);
  }

  /** `p` occurs in `s` at index `i`. */
  predicate At(s: string, i: nat, p: string) {
    i + |p| <= |s| && s[i..i + |p|] == p
  }

  lemma AtFirst(s: string, i: nat, p: string)
    requires p != ""
    ensures At(s, i, p) ==> s[i] == p[0]
  {
    if At(s, i, p) { assert s[i..i + |p|][0] == s[i]; }
  }

  /** `s.find(p, from)`. */
  function Find(s: string, p: string, from: nat): (r: Option<nat>)
    ensures r.Some? ==> from <= r.value && At(s, r.value, p) && forall j | from <= j < r.value :: !At(s, j, p)
    ensures r.None? ==> forall j | from <= j :: !At(s, j, p)
    decreases |s| - from
  {
    if from + |p| > |s| then None
    else if At(s, from, p) then Some(from)
    else Find(s, p, from + 1)
  }

  lemma FindFits(s: string, p: string, from: nat)
    ensures Find(s, p, from).Some? ==> Find(s, p, from).value + |p| <= |s|
  {
    hide Find;
  }

  /** `s.rfind(p)`, searching starts below `to`. */
  function FindLast(s: string, p: string, to: nat): (r: Option<nat>)
    ensures r.Some? ==> r.value < to && At(s, r.value, p) && forall j | r.value < j < to :: !At(s, j, p)
    ensures r.None? ==> forall j | 0 <= j < to :: !At(s, j, p)
  {
    if to == 0 then None
    else if At(s, to - 1, p) then Some(to - 1)
    else FindLast(s, p, to - 1)
  }

  predicate Contains(s: string, p: string) {
    Find(s, p, 0).Some?
  }

  /** The first index at or after `i` that holds `c`. */
  function FindChar(s: string, c: char, i: nat): (r: Option<nat>)
    requires i <= |s|
    ensures r.Some? ==> i <= r.value < |s| && s[r.value] == c && forall j | i <= j < r.value :: s[j] != c
    ensures r.None? ==> forall j | i <= j < |s| :: s[j] != c
    decreases |s| - i
  {
    if i == |s| then None else if s[i] == c then Some(i) else FindChar(s, c, i + 1)
  }

  /** `c` matches the lower-case pattern character `p` under `re.IGNORECASE`, including the four
      non-ASCII letters that Python folds onto ASCII ones. */
  predicate EqIgnoreCase(c: char, p: char) {
    || c == p
    || ('a' <= p <= 'z' && c as int + 32 == p as int)
    || (p == 'i' && (c == '\U{130}' || c == '\U{131}'))
    || (p == 's' && c == '\U{17F}')
    || (p == 'k' && c == '\U{212A}')
  }

  /** The literal `p` matches at `i`; under `re.IGNORECASE` it is written in lower case. */
  predicate WordAt(s: string, i: nat, p: string, anyCase: bool) {
    i + |p| <= |s| && forall k | 0 <= k < |p| :: if anyCase then EqIgnoreCase(s[i + k], p[k]) else s[i + k] == p[k]
  }

  function Concat(parts: seq<string>): string {
    if parts == [] then "" else parts[0] + Concat(parts[1..])
  }

  lemma NothingMore<T>(s: seq<T>)
    ensures s + [] == s && [] + s == s
  {
  }

  lemma CancelTail<T>(a: seq<T>, b: seq<T>, c: seq<T>)
    ensures a + c == b + c <==> a == b
  {
    if a + c == b + c {
      assert |a| == |b|;
      assert a == (a + c)[..|a|] && b == (b + c)[..|b|];
    }
  }

  lemma Regroup<T>(a: seq<T>, b: seq<T>, c: seq<T>)
    ensures a + (b + c) == (a + b) + c
  {
  }

  lemma {:induction false} ConcatAppend(a: seq<string>, b: seq<string>)
    ensures Concat(a + b) == Concat(a) + Concat(b)
  {
    if a == [] {
      assert a + b == b;
    } else {
      assert (a + b)[1..] == a[1..] + b;
      ConcatAppend(a[1..], b);
    }
  }

  /** Decimal digits of `n`, as `str(n)` prints them. */
  function Decimal(n: nat): (r: string)
    ensures r != ""
    ensures forall c | c in r :: '0' <= c <= '9'
  {
    var digit := [(n % 10 + '0' as int) as char];
    if n < 10 then digit else Decimal(n / 10) + digit
  }

  lemma {:induction false} DecimalInjective(m: nat, n: nat)
    requires Decimal(m) == Decimal(n)
    ensures m == n
    decreases m
  {
    var a, b := Decimal(m), Decimal(n);
    assert a[|a| - 1] == b[|b| - 1];
    assert m % 10 == n % 10;
    assert m >= 10 <==> |a| >= 2;
    assert n >= 10 <==> |b| >= 2;
    if m >= 10 {
      assert Decimal(m / 10) == a[..|a| - 1] && Decimal(n / 10) == b[..|b| - 1];
      DecimalInjective(m / 10, n / 10);
    }
  }
}
