/** What the regular expressions mean, apart from how they are matched: a text matches a list of pieces if
    it can be cut, anywhere, into parts that match one piece each. The matcher of `Patterns`, which takes
    the most it can and never goes back, finds exactly these texts in the expressions used here. */
module Expressions {
  import opened Text
  import opened Patterns
  import opened Tags
  import opened ToolCallParser
  import SB = StreamBuffer

  /** The texts are equal up to case, as `WordAt` compares them. */
  predicate Same(x: string, p: string, anyCase: bool) {
    |x| == |p| && WordAt(x, 0, p, anyCase)
  }

  predicate PieceMatches(piece: Piece, x: string) {
    match piece
    case Spaces => Blank(x)
    case Optional(c) => x == "" || x == [c]
    case Word(p, anyCase) => Same(x, p, anyCase)
    case Either(p, q, anyCase) => Same(x, p, anyCase) || Same(x, q, anyCase)
    case Not(c) => x != "" && c !in x
  }

  ghost predicate Matches(ps: seq<Piece>, x: string)
    decreases |ps|
  {
    if ps == [] then x == ""
    else exists k | 0 <= k <= |x| :: PieceMatches(ps[0], x[..k]) && Matches(ps[1..], x[k..])
  }

  // -------------------------------------------------------------------- what is found matches

  lemma SameAt(s: string, i: nat, e: nat, p: string, anyCase: bool)
    requires i <= e <= |s|
    ensures Same(s[i..e], p, anyCase) <==> e == i + |p| && WordAt(s, i, p, anyCase)
  {
    var x := s[i..e];
    assert forall k | 0 <= k < |x| :: x[k] == s[i + k];
    if e == i + |p| { assert WordAt(x, 0, p, anyCase) <==> WordAt(s, i, p, anyCase); }
  }

  lemma PieceFound(piece: Piece, s: string, i: nat, j: nat)
    requires i <= |s| && PieceEnd(piece, s, i) == Some(j)
    ensures PieceMatches(piece, s[i..j])
  {
    match piece
    case Spaces =>
      forall c | c in s[i..j] ensures IsSpace(c) {
        var k :| i <= k < j && s[k] == c;
      }
    case Optional(c) =>
    case Word(p, anyCase) => SameAt(s, i, j, p, anyCase);
    case Either(p, q, anyCase) =>
      SameAt(s, i, j, p, anyCase);
      SameAt(s, i, j, q, anyCase);
    case Not(c) =>
  }

  lemma {:induction false} FoundMatches(ps: seq<Piece>, s: string, i: nat, e: nat)
    requires i <= |s| && MatchEnd(ps, s, i) == Some(e)
    ensures Matches(ps, s[i..e])
    decreases |ps|
  {
    if ps != [] {
      var j := PieceEnd(ps[0], s, i).value;
      PieceFound(ps[0], s, i, j);
      FoundMatches(ps[1..], s, j, e);
      var x := s[i..e];
      assert x[..j - i] == s[i..j] && x[j - i..] == s[j..e];
    }
  }

  // -------------------------------------------------------------------- what matches is found

  /** No text that matches starts with a character like `c`, or is empty. */
  predicate Avoids(ps: seq<Piece>, c: char)
    decreases |ps|
  {
    ps != [] &&
    match ps[0]
    case Spaces => !IsSpace(c) && Avoids(ps[1..], c)
    case Optional(d) => d != c && Avoids(ps[1..], c)
    case Word(p, anyCase) => p != "" && !Like(c, p[0], anyCase)
    case Either(p, q, anyCase) => p != "" && q != "" && !Like(c, p[0], anyCase) && !Like(c, q[0], anyCase)
    case Not(_) => false
  }

  predicate Like(c: char, p: char, anyCase: bool) {
    if anyCase then EqIgnoreCase(c, p) else c == p
  }

  /** A text that matches starts with a character that is no whitespace. */
  predicate StartsBlack(ps: seq<Piece>) {
    ps != [] &&
    match ps[0]
    case Word(p, _) => p != "" && !IsSpace(p[0])
    case Either(p, q, _) => p != "" && q != "" && !IsSpace(p[0]) && !IsSpace(q[0])
    case _ => false
  }

  /** Whitespace in front does not change whether a text matches. */
  predicate Absorbs(ps: seq<Piece>)
    decreases |ps|
  {
    ps != [] && (ps[0].Spaces? || (ps[0].Optional? && !IsSpace(ps[0].c) && Absorbs(ps[1..])))
  }

  /** What follows a piece leaves it no choice. */
  predicate Forced(piece: Piece, rest: seq<Piece>) {
    match piece
    case Spaces => Absorbs(rest) || StartsBlack(rest)
    case Optional(c) => Avoids(rest, c)
    case Word(p, _) => true
    case Either(p, q, anyCase) => p != "" && q != "" && Apart(p[0], q[0], anyCase)
    case Not(c) => rest != [] && rest[0].Word? && !rest[0].anyCase && rest[0].p != "" && rest[0].p[0] == c
  }

  /** No character is like both. */
  predicate Apart(p: char, q: char, anyCase: bool) {
    p != q && (anyCase ==> Plain(p) && Plain(q))
  }

  /** A small letter, or a character that has no other case. */
  predicate Plain(c: char) {
    'a' <= c <= 'z' || c == '_' || c == '-'
  }

  predicate Regular(ps: seq<Piece>) {
    forall k | 0 <= k < |ps| :: Forced(ps[k], ps[k + 1..])
  }

  lemma RegularRest(ps: seq<Piece>)
    requires ps != [] && Regular(ps)
    ensures Forced(ps[0], ps[1..]) && Regular(ps[1..])
  {
    var rest := ps[1..];
    forall k | 0 <= k < |rest| ensures Forced(rest[k], rest[k + 1..]) {
      assert rest[k] == ps[k + 1] && rest[k + 1..] == ps[k + 2..];
    }
  }

  lemma LikeNoSpace(c: char, p: char, anyCase: bool)
    requires Like(c, p, anyCase) && !IsSpace(p)
    ensures !IsSpace(c)
  {
  }

  lemma ApartIs(c: char, p: char, q: char, anyCase: bool)
    requires Apart(p, q, anyCase) && Like(c, p, anyCase)
    ensures !Like(c, q, anyCase)
  {
  }

  lemma SameStarts(x: string, p: string, anyCase: bool)
    requires Same(x, p, anyCase) && p != ""
    ensures x != "" && Like(x[0], p[0], anyCase)
  {
    assert x[0 + 0] == x[0];
  }

  lemma {:induction false} AvoidsIs(ps: seq<Piece>, c: char, x: string)
    requires Avoids(ps, c) && Matches(ps, x)
    ensures x != "" && x[0] != c
    decreases |ps|
  {
    hide IsSpace, EqIgnoreCase;
    var k :| 0 <= k <= |x| && PieceMatches(ps[0], x[..k]) && Matches(ps[1..], x[k..]);
    match ps[0]
    case Spaces =>
      AvoidsIs(ps[1..], c, x[k..]);
      assert k > 0 ==> x[0] in x[..k];
    case Optional(d) => if k == 0 { AvoidsIs(ps[1..], c, x[k..]); } else { assert x[0] == x[..k][0]; }
    case Word(p, anyCase) =>
      SameStarts(x[..k], p, anyCase);
      LikeItself(c, p[0], anyCase);
    case Either(p, q, anyCase) =>
      if Same(x[..k], p, anyCase) { SameStarts(x[..k], p, anyCase); } else { SameStarts(x[..k], q, anyCase); }
      LikeItself(c, p[0], anyCase);
      LikeItself(c, q[0], anyCase);
  }

  lemma LikeItself(c: char, p: char, anyCase: bool)
    ensures !Like(c, p, anyCase) ==> c != p
  {
  }

  lemma StartsBlackIs(ps: seq<Piece>, x: string)
    requires StartsBlack(ps) && Matches(ps, x)
    ensures x != "" && !IsSpace(x[0])
  {
    hide IsSpace, EqIgnoreCase;
    var k :| 0 <= k <= |x| && PieceMatches(ps[0], x[..k]) && Matches(ps[1..], x[k..]);
    match ps[0]
    case Word(p, anyCase) =>
      SameStarts(x[..k], p, anyCase);
      LikeNoSpace(x[0], p[0], anyCase);
    case Either(p, q, anyCase) =>
      var w := if Same(x[..k], p, anyCase) then p else q;
      SameStarts(x[..k], w, anyCase);
      LikeNoSpace(x[0], w[0], anyCase);
  }

  lemma MatchesNothing(piece: Piece, ps: seq<Piece>, x: string)
    requires PieceMatches(piece, "") && Matches(ps, x)
    ensures Matches([piece] + ps, x)
  {
    var all := [piece] + ps;
    assert all[1..] == ps && x[..0] == "" && x[0..] == x;
  }

  /** Whitespace does not reach past a character that is none. */
  lemma BlankEnds(s: string, i: nat, m: nat, j: nat)
    requires i <= m <= |s| && i <= j <= |s| && Blank(s[i..m]) && (j < |s| ==> !IsSpace(s[j]))
    ensures m <= j
  {
    assert forall n | i <= n < m :: s[n] in s[i..m];
  }

  lemma OptionalIsEmpty(c: char, s: string, i: nat, m: nat)
    requires i <= m <= |s| && PieceMatches(Optional(c), s[i..m]) && i < |s| && IsSpace(s[i]) && !IsSpace(c)
    ensures m == i
  {
    assert forall n | i <= n < m :: s[n] in s[i..m];
  }

  /** If whitespace up to `j` can be matched, it need not be. */
  lemma {:induction false} AbsorbSpaces(ps: seq<Piece>, s: string, i: nat, j: nat, e: nat)
    requires i <= j <= |s| && i <= e <= |s| && Absorbs(ps) && Regular(ps)
    requires (forall k | i <= k < j :: IsSpace(s[k])) && (j < |s| ==> !IsSpace(s[j]))
    requires Matches(ps, s[i..e])
    ensures j <= e && Matches(ps, s[j..e])
    decreases |ps|, 0
  {
    hide IsSpace, EqIgnoreCase, Forced, Matches;
    if i < j {
      var m := TakeFirst(ps, s, i, e);
      var rest := ps[1..];
      RegularRest(ps);
      if ps[0].Spaces? {
        BlankEnds(s, i, m, j);
        if m < j { SpacesBefore(rest, s, m, j, e); }
      } else {
        OptionalIsEmpty(ps[0].c, s, i, m);
        AbsorbSpaces(rest, s, i, j, e);
      }
      assert ps == [ps[0]] + rest;
      MatchesNothing(ps[0], rest, s[j..e]);
    }
  }

  /** Where the part for the first piece ends. */
  lemma TakeFirst(ps: seq<Piece>, s: string, i: nat, e: nat) returns (m: nat)
    requires i <= e <= |s| && ps != [] && Matches(ps, s[i..e])
    ensures i <= m <= e && PieceMatches(ps[0], s[i..m]) && Matches(ps[1..], s[m..e])
  {
    hide PieceMatches;
    var x := s[i..e];
    var k :| 0 <= k <= |x| && PieceMatches(ps[0], x[..k]) && Matches(ps[1..], x[k..]);
    m := i + k;
    assert x[..k] == s[i..m] && x[k..] == s[m..e];
  }

  /** What follows `\\s*` when it has not taken all whitespace. */
  lemma {:induction false} SpacesBefore(rest: seq<Piece>, s: string, i: nat, j: nat, e: nat)
    requires i < j <= |s| && i <= e <= |s| && Regular(rest) && Forced(Spaces, rest) && Matches(rest, s[i..e])
    requires (forall k | i <= k < j :: IsSpace(s[k])) && (j < |s| ==> !IsSpace(s[j]))
    ensures j <= e && Matches(rest, s[j..e])
    decreases |rest|, 1
  {
    hide IsSpace, EqIgnoreCase;
    if Absorbs(rest) {
      AbsorbSpaces(rest, s, i, j, e);
    } else {
      StartsBlackIs(rest, s[i..e]);
      assert false;
    }
  }

  lemma {:induction false} MatchesIsFound(ps: seq<Piece>, s: string, i: nat, e: nat)
    requires i <= e <= |s| && Regular(ps) && Matches(ps, s[i..e])
    ensures MatchEnd(ps, s, i) == Some(e)
    decreases |ps|
  {
    hide IsSpace, EqIgnoreCase, Forced;
    if ps != [] {
      var j := TakeFirst(ps, s, i, e);
      var rest := ps[1..];
      RegularRest(ps);
      var g := PieceTakes(ps[0], rest, s, i, j, e);
      MatchesIsFound(rest, s, g, e);
    }
  }

  /** The piece takes what it can, and the rest still matches what remains. */
  lemma PieceTakes(piece: Piece, rest: seq<Piece>, s: string, i: nat, j: nat, e: nat) returns (g: nat)
    requires i <= j <= e <= |s| && Forced(piece, rest) && Regular(rest)
    requires PieceMatches(piece, s[i..j]) && Matches(rest, s[j..e])
    ensures PieceEnd(piece, s, i) == Some(g) && g <= e && Matches(rest, s[g..e])
  {
    hide IsSpace, EqIgnoreCase;
    g := j;
    match piece
    case Spaces =>
      g := SkipSpaces(s, i);
      assert forall n | i <= n < j :: s[n] in s[i..j];
      if j < g { SpacesBefore(rest, s, j, g, e); }
    case Optional(c) => OptionalTakes(c, rest, s, i, j, e);
    case Word(p, anyCase) => SameAt(s, i, j, p, anyCase);
    case Either(p, q, anyCase) =>
      SameAt(s, i, j, p, anyCase);
      SameAt(s, i, j, q, anyCase);
      EitherTakes(p, q, anyCase, s, i, j);
    case Not(c) => NotTakes(c, rest, s, i, j, e);
  }

  lemma OptionalTakes(c: char, rest: seq<Piece>, s: string, i: nat, j: nat, e: nat)
    requires i <= j <= e <= |s| && Avoids(rest, c)
    requires PieceMatches(Optional(c), s[i..j]) && Matches(rest, s[j..e])
    ensures PieceEnd(Optional(c), s, i) == Some(j)
  {
    AvoidsIs(rest, c, s[j..e]);
    assert s[j] == s[j..e][0];
    assert i < j ==> s[i] == s[i..j][0];
  }

  lemma NotTakes(c: char, rest: seq<Piece>, s: string, i: nat, j: nat, e: nat)
    requires i <= j <= e <= |s| && Forced(Not(c), rest)
    requires PieceMatches(Not(c), s[i..j]) && Matches(rest, s[j..e])
    ensures PieceEnd(Not(c), s, i) == Some(j)
  {
    FirstIs(rest, c, s[j..e]);
    assert s[j] == s[j..e][0];
    assert forall n | i <= n < j :: s[n] in s[i..j];
  }

  lemma FirstIs(rest: seq<Piece>, c: char, x: string)
    requires Forced(Not(c), rest) && Matches(rest, x)
    ensures x != "" && x[0] == c
  {
    var k :| 0 <= k <= |x| && PieceMatches(rest[0], x[..k]) && Matches(rest[1..], x[k..]);
    SameStarts(x[..k], rest[0].p, false);
  }

  lemma EitherTakes(p: string, q: string, anyCase: bool, s: string, i: nat, j: nat)
    requires i <= j <= |s| && p != "" && q != "" && Apart(p[0], q[0], anyCase)
    requires (j == i + |p| && WordAt(s, i, p, anyCase)) || (j == i + |q| && WordAt(s, i, q, anyCase))
    ensures PieceEnd(Either(p, q, anyCase), s, i) == Some(j)
  {
    hide IsSpace, EqIgnoreCase;
    assert WordAt(s, i, p, anyCase) ==> Like(s[i + 0], p[0], anyCase);
    assert WordAt(s, i, q, anyCase) ==> Like(s[i + 0], q[0], anyCase);
    if i < |s| && Like(s[i], q[0], anyCase) { ApartOther(s[i], p[0], q[0], anyCase); }
    assert i < |s| ==> (StartsLike(s, i, p, anyCase) <==> Like(s[i + 0], p[0], anyCase));
  }

  lemma ApartOther(c: char, p: char, q: char, anyCase: bool)
    requires Apart(p, q, anyCase) && Like(c, q, anyCase)
    ensures !Like(c, p, anyCase)
  {
  }

  /** The matcher finds a text at an index exactly when the text matches. In particular at most one text
      matches there, so the greedy reading, the lazy one and any other are the same. */
  lemma MatcherIsExact(ps: seq<Piece>, s: string, i: nat, e: nat)
    requires i <= e <= |s| && Regular(ps)
    ensures MatchEnd(ps, s, i) == Some(e) <==> Matches(ps, s[i..e])
  {
    if MatchEnd(ps, s, i) == Some(e) { FoundMatches(ps, s, i, e); }
    if Matches(ps, s[i..e]) { MatchesIsFound(ps, s, i, e); }
  }

  // -------------------------------------------------------------------- the texts of each expression

  /** Whitespace with at most one bar in it. */
  predicate Margin(x: string) {
    && (forall c | c in x :: IsSpace(c) || c == '|')
    && forall i, j | 0 <= i < j < |x| :: !(x[i] == '|' && x[j] == '|')
  }

  predicate TagName(x: string) {
    || Same(x, "tool_call", true) || Same(x, "tool-call", true)
    || Same(x, "function_call", true) || Same(x, "function-call", true)
  }

  /** What stands between the `<` and the name: in a closing tag there is a slash in front of the margin. */
  ghost predicate Front(kind: TagKind, x: string) {
    match kind
    case Open => Margin(x)
    case Close => exists k | 0 <= k < |x| && x[k] == '/' :: Blank(x[..k]) && Margin(x[k + 1..])
  }

  ghost predicate TagText(kind: TagKind, x: string) {
    && x != "" && x[0] == '<' && x[|x| - 1] == '>'
    && exists a, b | 1 <= a <= b < |x| :: Front(kind, x[1..a]) && TagName(x[a..b]) && Margin(x[b..|x| - 1])
  }

  const MARGIN: seq<Piece> := [Spaces, Optional('|'), Spaces]
  const NAME: seq<Piece> := [Either("tool", "function", true), Either("_", "-", false), Word("call", true)]

  lemma {:induction false} Join(ps: seq<Piece>, qs: seq<Piece>, x: string, k: nat)
    requires k <= |x| && Matches(ps, x[..k]) && Matches(qs, x[k..])
    ensures Matches(ps + qs, x)
    decreases |ps|
  {
    hide PieceMatches;
    var all, y := ps + qs, x[..k];
    if ps == [] {
      assert all == qs && y == "" && x[k..] == x;
    } else {
      var m :| 0 <= m <= |y| && PieceMatches(ps[0], y[..m]) && Matches(ps[1..], y[m..]);
      var z := x[m..];
      assert z[..k - m] == y[m..] && z[k - m..] == x[k..] && y[..m] == x[..m];
      Join(ps[1..], qs, z, k - m);
      assert all[0] == ps[0] && all[1..] == ps[1..] + qs;
    }
  }

  lemma {:induction false} Split(ps: seq<Piece>, qs: seq<Piece>, x: string) returns (k: nat)
    requires Matches(ps + qs, x)
    ensures k <= |x| && Matches(ps, x[..k]) && Matches(qs, x[k..])
    decreases |ps|
  {
    hide PieceMatches;
    var all := ps + qs;
    if ps == [] {
      assert all == qs && x[0..] == x;
      k := 0;
    } else {
      assert all[0] == ps[0] && all[1..] == ps[1..] + qs;
      var m :| 0 <= m <= |x| && PieceMatches(all[0], x[..m]) && Matches(all[1..], x[m..]);
      var r := Split(ps[1..], qs, x[m..]);
      k := m + r;
      var y := x[..k];
      assert y[..m] == x[..m] && y[m..] == x[m..][..r] && x[m..][r..] == x[k..];
    }
  }

  lemma MatchesOne(piece: Piece, x: string)
    ensures Matches([piece], x) <==> PieceMatches(piece, x)
  {
    var n := |x|;
    assert [piece][1..] == [] && x[..n] == x && x[n..] == "";
    forall k | 0 <= k <= |x| && Matches([], x[k..]) ensures x[..k] == x {}
  }

  lemma MarginIs(x: string)
    ensures Matches(MARGIN, x) <==> Margin(x)
  {
    hide IsSpace, Matches;
    assert MARGIN == [Spaces] + ([Optional('|')] + [Spaces]);
    if Matches(MARGIN, x) {
      var k := Split([Spaces], [Optional('|')] + [Spaces], x);
      var y := x[k..];
      var m := Split([Optional('|')], [Spaces], y);
      MatchesOne(Spaces, x[..k]);
      MatchesOne(Optional('|'), y[..m]);
      MatchesOne(Spaces, y[m..]);
      BarBetween(x, k, m);
    }
    if Margin(x) {
      var k, m := CutAtBar(x);
      var y := x[k..];
      MatchesOne(Spaces, x[..k]);
      MatchesOne(Optional('|'), y[..m]);
      MatchesOne(Spaces, y[m..]);
      Join([Optional('|')], [Spaces], y, m);
      Join([Spaces], [Optional('|')] + [Spaces], x, k);
    }
  }

  lemma BarBetween(x: string, k: nat, m: nat)
    requires k + m <= |x| && Blank(x[..k]) && (x[k..][..m] == "" || x[k..][..m] == "|") && Blank(x[k..][m..])
    ensures Margin(x)
  {
    forall i | 0 <= i < |x|
      ensures if k <= i < k + m then x[i] == '|' else IsSpace(x[i]) && x[i] != '|'
    {
      if i < k { assert x[i] in x[..k]; }
      else if i < k + m { assert x[i] == x[k..][..m][i - k]; }
      else { assert x[i] == x[k..][m..][i - k - m]; }
    }
    assert m == |x[k..][..m]|;
  }

  lemma CutAtBar(x: string) returns (k: nat, m: nat)
    requires Margin(x)
    ensures k + m <= |x| && Blank(x[..k]) && (x[k..][..m] == "" || x[k..][..m] == "|") && Blank(x[k..][m..])
  {
    if '|' in x {
      k, m := (var k :| 0 <= k < |x| && x[k] == '|'; k), 1;
      forall c | c in x[k..][m..] ensures IsSpace(c) {
        var i :| 0 <= i < |x[k..][m..]| && x[k..][m..][i] == c;
        assert x[k + 1 + i] == c;
      }
    } else {
      k, m := |x|, 0;
    }
  }

  lemma SameJoins(x: string, k: nat, p: string, q: string)
    requires k <= |x| && Same(x[..k], p, true) && Same(x[k..], q, true)
    ensures Same(x, p + q, true)
  {
    hide EqIgnoreCase;
    var w := p + q;
    forall n | 0 <= n < |w| ensures EqIgnoreCase(x[0 + n], w[n]) {
      if n < k { assert x[..k][0 + n] == x[n]; } else { assert x[k..][0 + (n - k)] == x[n]; }
    }
  }

  lemma SameSplits(x: string, p: string, q: string)
    requires Same(x, p + q, true)
    ensures |p| <= |x| && Same(x[..|p|], p, true) && Same(x[|p|..], q, true)
  {
    hide EqIgnoreCase;
    var w, k := p + q, |p|;
    assert |w| == |x|;
    forall n | 0 <= n < k ensures EqIgnoreCase(x[..k][0 + n], p[n]) {
      assert x[0 + n] == x[..k][0 + n] && w[n] == p[n];
    }
    forall n | 0 <= n < |q| ensures EqIgnoreCase(x[k..][0 + n], q[n]) {
      assert x[0 + (k + n)] == x[k..][0 + n] && w[k + n] == q[n];
    }
  }

  lemma NameWords()
    ensures "tool" + ("_" + "call") == "tool_call" && "tool" + ("-" + "call") == "tool-call"
    ensures "function" + ("_" + "call") == "function_call" && "function" + ("-" + "call") == "function-call"
  {
  }

  lemma NameParts(x: string) returns (p: string, q: string)
    requires TagName(x)
    ensures (p == "tool" || p == "function") && (q == "_" || q == "-") && Same(x, p + (q + "call"), true)
  {
    hide Same;
    NameWords();
    p, q := "tool", "_";
    if Same(x, "tool_call", true) { return; }
    q := "-";
    if Same(x, "tool-call", true) { return; }
    p := "function";
    if Same(x, "function-call", true) { return; }
    q := "_";
  }

  /** The characters between the words have one case. */
  lemma EitherCase(x: string)
    ensures Same(x, "_", true) <==> Same(x, "_", false)
    ensures Same(x, "-", true) <==> Same(x, "-", false)
  {
  }

  lemma NameIs(x: string)
    ensures Matches(NAME, x) <==> TagName(x)
  {
    hide Matches, Same;
    var first, middle, last := Either("tool", "function", true), Either("_", "-", false), Word("call", true);
    assert NAME == [first] + ([middle] + [last]);
    if Matches(NAME, x) {
      var k := Split([first], [middle] + [last], x);
      var y := x[k..];
      var m := Split([middle], [last], y);
      MatchesOne(first, x[..k]);
      MatchesOne(middle, y[..m]);
      MatchesOne(last, y[m..]);
      var p := if Same(x[..k], "tool", true) then "tool" else "function";
      var q := if Same(y[..m], "_", false) then "_" else "-";
      EitherCase(y[..m]);
      SameJoins(y, m, q, "call");
      SameJoins(x, k, p, q + "call");
      assert Same(x, p + (q + "call"), true);
      NameWords();
    }
    if TagName(x) {
      var p, q := NameParts(x);
      SameSplits(x, p, q + "call");
      var y := x[|p|..];
      SameSplits(y, q, "call");
      EitherCase(y[..1]);
      MatchesOne(first, x[..|p|]);
      MatchesOne(middle, y[..1]);
      MatchesOne(last, y[1..]);
      Join([middle], [last], y, 1);
      Join([first], [middle] + [last], x, |p|);
    }
  }

  function FrontPieces(kind: TagKind): seq<Piece> {
    match kind
    case Open => MARGIN
    case Close => [Spaces] + ([Word("/", false)] + MARGIN)
  }

  lemma FrontIs(kind: TagKind, x: string)
    ensures Matches(FrontPieces(kind), x) <==> Front(kind, x)
  {
    hide Matches, Margin, IsSpace;
    var slash := Word("/", false);
    match kind
    case Open => MarginIs(x);
    case Close =>
      if Matches(FrontPieces(kind), x) {
        var k := Split([Spaces], [slash] + MARGIN, x);
        var y := x[k..];
        var m := Split([slash], MARGIN, y);
        MatchesOne(Spaces, x[..k]);
        MatchesOne(slash, y[..m]);
        LiteralIs(y[..m], "/");
        MarginIs(y[m..]);
        assert y[0] == y[..m][0] && y[m..] == x[k + 1..];
      }
      if Front(kind, x) {
        var k :| 0 <= k < |x| && x[k] == '/' && Blank(x[..k]) && Margin(x[k + 1..]);
        var y := x[k..];
        assert y[..1] == "/" && y[1..] == x[k + 1..];
        MatchesOne(Spaces, x[..k]);
        MatchesOne(slash, y[..1]);
        LiteralIs(y[..1], "/");
        MarginIs(y[1..]);
        Join([slash], MARGIN, y, 1);
        Join([Spaces], [slash] + MARGIN, x, k);
      }
  }

  lemma LiteralIs(x: string, p: string)
    ensures Same(x, p, false) <==> x == p
  {
    assert Same(x, p, false) ==> forall n | 0 <= n < |p| :: x[0 + n] == p[n];
  }

  lemma TagIs(kind: TagKind, x: string)
    ensures Matches(TagPattern(kind), x) <==> TagText(kind, x)
  {
    hide Matches, Margin, TagName, Front, FrontPieces;
    var open, close := Word("<", false), Word(">", false);
    var front := FrontPieces(kind);
    var afterName := MARGIN + [close];
    TagPieces(kind);
    if Matches(TagPattern(kind), x) {
      var k := Split([open], front + (NAME + afterName), x);
      var y := x[k..];
      var a := Split(front, NAME + afterName, y);
      var b := Split(NAME, afterName, y[a..]);
      var c := Split(MARGIN, [close], y[a..][b..]);
      MatchesOne(open, x[..k]);
      LiteralIs(x[..k], "<");
      FrontIs(kind, y[..a]);
      NameIs(y[a..][..b]);
      MarginIs(y[a..][b..][..c]);
      MatchesOne(close, y[a..][b..][c..]);
      LiteralIs(y[a..][b..][c..], ">");
      PartsOfTag(x, y, a, b, c);
    }
    if TagText(kind, x) { TextIsTag(kind, x); }
  }

  lemma TextIsTag(kind: TagKind, x: string)
    requires TagText(kind, x)
    ensures Matches(TagPattern(kind), x)
  {
    hide Matches, Margin, TagName, Front, FrontPieces;
    var open, close := Word("<", false), Word(">", false);
    var front := FrontPieces(kind);
    var afterName := MARGIN + [close];
    TagPieces(kind);
    var a, b :| 1 <= a <= b < |x| && Front(kind, x[1..a]) && TagName(x[a..b]) && Margin(x[b..|x| - 1]);
    var y, c := x[1..], |x| - 1 - b;
    FrontIs(kind, x[1..a]);
    NameIs(x[a..b]);
    MarginIs(x[b..|x| - 1]);
    MatchesOne(open, x[..1]);
    MatchesOne(close, x[|x| - 1..]);
    LiteralIs(x[..1], "<");
    LiteralIs(x[|x| - 1..], ">");
    var z := x[b..];
    assert z[..c] == x[b..|x| - 1] && z[c..] == x[|x| - 1..] == ">";
    Join(MARGIN, [close], z, c);
    var v := x[a..];
    assert v[..b - a] == x[a..b] && v[b - a..] == z;
    Join(NAME, afterName, v, b - a);
    assert y[..a - 1] == x[1..a] && y[a - 1..] == v;
    Join(front, NAME + afterName, y, a - 1);
    Join([open], front + (NAME + afterName), x, 1);
  }

  lemma TagPieces(kind: TagKind)
    ensures TagPattern(kind) == [Word("<", false)] + (FrontPieces(kind) + (NAME + (MARGIN + [Word(">", false)])))
  {
  }

  lemma PartsOfTag(x: string, y: string, a: nat, b: nat, c: nat)
    requires |x| > 0 && x[..1] == "<" && y == x[1..] && a + b + c <= |y| && y[a..][b..][c..] == ">"
    ensures x[0] == '<' && x[|x| - 1] == '>' && 1 <= a + 1 <= a + 1 + b < |x|
    ensures x[1..a + 1] == y[..a] && x[a + 1..a + 1 + b] == y[a..][..b]
    ensures x[a + 1 + b..|x| - 1] == y[a..][b..][..c]
  {
    assert x[0] == x[..1][0];
    var last := y[a..][b..][c..];
    assert |last| == |y| - a - b - c;
    assert last[0] == x[|x| - 1];
  }

  lemma NextPieces(ps: seq<Piece>, k: nat)
    requires k < |ps|
    ensures k + 1 < |ps| ==> ps[k + 1..][0] == ps[k + 1]
    ensures k + 2 < |ps| ==> ps[k + 1..][1..] != [] && ps[k + 1..][1..][0] == ps[k + 2]
  {
  }

  /** The next two pieces show that the piece at `k` has no choice. */
  predicate Settled(ps: seq<Piece>, k: nat)
    requires k < |ps|
  {
    match ps[k]
    case Spaces => k + 1 < |ps| && (StartsBlack([ps[k + 1]]) ||
      (ps[k + 1].Optional? && !IsSpace(ps[k + 1].c) && k + 2 < |ps| && ps[k + 2].Spaces?))
    case Optional(c) => k + 2 < |ps| && !IsSpace(c) && ps[k + 1].Spaces? && Avoids([ps[k + 2]], c)
    case Word(_, _) => true
    case Either(p, q, anyCase) => p != "" && q != "" && Apart(p[0], q[0], anyCase)
    case Not(c) => k + 1 < |ps| && ps[k + 1] == Word([c], false)
  }

  lemma SettledIsRegular(ps: seq<Piece>)
    requires forall k | 0 <= k < |ps| :: Settled(ps, k)
    ensures Regular(ps)
  {
    forall k | 0 <= k < |ps| ensures Forced(ps[k], ps[k + 1..]) { SettledIsForced(ps, k); }
  }

  lemma SettledIsForced(ps: seq<Piece>, k: nat)
    requires k < |ps| && Settled(ps, k)
    ensures Forced(ps[k], ps[k + 1..])
  {
    NextPieces(ps, k);
    var rest := ps[k + 1..];
    match ps[k]
    case Spaces => assert StartsBlack(rest) || (rest[0].Optional? && Absorbs(rest[1..]));
    case Optional(c) =>
      var one := [ps[k + 2]];
      assert one[1..] == [] && !Avoids(one[1..], c);
      assert Avoids(rest[1..], c);
    case _ =>
  }

  lemma TagsAreRegular(kind: TagKind)
    ensures Regular(TagPattern(kind))
  {
    var ps := TagPattern(kind);
    forall k | 0 <= k < |ps| ensures Settled(ps, k) {}
    SettledIsRegular(ps);
  }

  /** A tag starts at an index and ends at another exactly when what stands between them is the text of one.
      In particular a tag has one end. */
  lemma TagEndIs(kind: TagKind, s: string, i: nat, e: nat)
    requires i <= e <= |s|
    ensures TagEnd(kind, s, i) == Some(e) <==> TagText(kind, s[i..e])
  {
    hide Matches, TagText;
    TagsAreRegular(kind);
    MatcherIsExact(TagPattern(kind), s, i, e);
    TagIs(kind, s[i..e]);
  }

  ghost predicate Parts(ps: seq<Piece>, parts: seq<string>, x: string) {
    |parts| == |ps| && x == Concat(parts) && forall k | 0 <= k < |ps| :: PieceMatches(ps[k], parts[k])
  }

  lemma {:induction false} CutIntoParts(ps: seq<Piece>, x: string) returns (parts: seq<string>)
    requires Matches(ps, x)
    ensures Parts(ps, parts, x)
    decreases |ps|
  {
    hide PieceMatches;
    parts := [];
    if ps != [] {
      var k :| 0 <= k <= |x| && PieceMatches(ps[0], x[..k]) && Matches(ps[1..], x[k..]);
      var rest := CutIntoParts(ps[1..], x[k..]);
      parts := [x[..k]] + rest;
      assert parts[1..] == rest && x == x[..k] + x[k..];
    }
  }

  lemma {:induction false} PartsMatch(ps: seq<Piece>, parts: seq<string>, x: string)
    requires Parts(ps, parts, x)
    ensures Matches(ps, x)
    decreases |ps|
  {
    hide PieceMatches;
    if ps != [] {
      var k := |parts[0]|;
      assert x[..k] == parts[0] && x[k..] == Concat(parts[1..]);
      PartsMatch(ps[1..], parts[1..], x[k..]);
    }
  }

  /** The start of a bare call: an object whose first field is a non-empty name and whose second is called
      "arguments" or "args", up to the colon. */
  ghost predicate BareText(x: string) {
    exists b: seq<string>, name: string, field: string | |b| == 6 ::
      && (forall k | 0 <= k < 6 :: Blank(b[k])) && name != "" && '"' !in name
      && (field == "\"arguments\"" || field == "\"args\"")
      && x == Concat(BareParts(b, name, field))
  }

  function BareParts(b: seq<string>, name: string, field: string): seq<string>
    requires |b| == 6
  {
    ["{", b[0], "\"name\"", b[1], ":", b[2], "\"", name, "\"", b[3], ",", b[4], field, b[5], ":"]
  }

  lemma BareOpens(x: string)
    requires Matches(SB.BARE_JSON, x)
    ensures BareText(x)
  {
    hide Matches, Concat, PieceMatches;
    var ps := CutIntoParts(SB.BARE_JSON, x);
    BarePieces(ps);
    FieldInParts(ps);
    var b, field := [ps[1], ps[3], ps[5], ps[9], ps[11], ps[15]], ps[12] + ps[13] + ps[14];
    assert ps[12] + ps[13] + ps[14] == "\"arg" + ps[13] + "\"";
    assert "\"arg" + "uments" + "\"" == "\"arguments\"" && "\"arg" + "s" + "\"" == "\"args\"";
    assert ps[..12] + [field] + ps[15..] == BareParts(b, ps[7], field);
  }

  lemma OpensBare(x: string)
    requires BareText(x)
    ensures Matches(SB.BARE_JSON, x)
  {
    hide Matches, Concat, PieceMatches;
    var b: seq<string>, name: string, field: string :|
      && |b| == 6 && (forall k | 0 <= k < 6 :: Blank(b[k])) && name != "" && '"' !in name
      && (field == "\"arguments\"" || field == "\"args\"") && x == Concat(BareParts(b, name, field));
    var ps := FinerParts(b, name, field);
    var parts := BareParts(b, name, field);
    assert forall k | 0 <= k < 12 :: ps[k] == ps[..12][k] == parts[k];
    BarePieces(ps);
    PartsMatch(SB.BARE_JSON, ps, x);
  }

  /** The parts with the second field cut where the expression cuts it. */
  lemma FinerParts(b: seq<string>, name: string, field: string) returns (ps: seq<string>)
    requires |b| == 6 && (field == "\"arguments\"" || field == "\"args\"")
    ensures |ps| == 17 && ps[..12] == BareParts(b, name, field)[..12] && ps[12] == "\"arg" && ps[14] == "\""
    ensures (ps[13] == "uments" || ps[13] == "s") && ps[15] == b[5] && ps[16] == ":"
    ensures Concat(ps) == Concat(BareParts(b, name, field))
  {
    hide Concat;
    var parts := BareParts(b, name, field);
    var middle := if field == "\"args\"" then "s" else "uments";
    ps := parts[..12] + ["\"arg", middle, "\""] + parts[13..];
    assert ps[12] == "\"arg" && ps[13] == middle && ps[14] == "\"" && ps[15] == parts[13] && ps[16] == parts[14];
    assert "\"arg" + middle + "\"" == field;
    FieldInParts(ps);
    assert ps[..12] == parts[..12] && ps[15..] == parts[13..];
    assert parts[..12] + [field] + parts[13..] == parts;
  }

  lemma BarePieces(ps: seq<string>)
    requires |ps| == 17
    ensures (forall k | 0 <= k < 17 :: PieceMatches(SB.BARE_JSON[k], ps[k])) <==>
      && ps[0] == "{" && Blank(ps[1]) && ps[2] == "\"name\"" && Blank(ps[3]) && ps[4] == ":" && Blank(ps[5])
      && ps[6] == "\"" && ps[7] != "" && '"' !in ps[7] && ps[8] == "\"" && Blank(ps[9]) && ps[10] == ","
      && Blank(ps[11]) && ps[12] == "\"arg" && (ps[13] == "uments" || ps[13] == "s") && ps[14] == "\""
      && Blank(ps[15]) && ps[16] == ":"
  {
    hide Same, IsSpace;
    forall x: string, p: string ensures Same(x, p, false) <==> x == p { LiteralIs(x, p); }
  }

  lemma FieldInParts(ps: seq<string>)
    requires |ps| == 17
    ensures Concat(ps) == Concat(ps[..12] + [ps[12] + ps[13] + ps[14]] + ps[15..])
  {
    var front, field, back := ps[..12], ps[12..15], ps[15..];
    assert ps == front + field + back;
    ConcatAppend(front + field, back);
    ConcatAppend(front, field);
    ConcatAppend(front + [ps[12] + ps[13] + ps[14]], back);
    ConcatAppend(front, [ps[12] + ps[13] + ps[14]]);
    ConcatOfThree(ps[12], ps[13], ps[14]);
    assert field == [ps[12], ps[13], ps[14]];
  }

  lemma ConcatOfThree(a: string, b: string, c: string)
    ensures Concat([a, b, c]) == a + b + c && Concat([a + b + c]) == a + b + c
  {
    assert [a, b, c][1..] == [b, c] && [b, c][1..] == [c] && [c][1..] == [] && [a + b + c][1..] == [];
    assert Concat([c]) == c + Concat([]) && Concat([b, c]) == b + Concat([c]);
    assert Concat([a, b, c]) == a + (b + c);
    Regroup(a, b, c);
    assert Concat([a + b + c]) == (a + b + c) + Concat([]);
  }

  lemma BareIsRegular()
    ensures Regular(SB.BARE_JSON)
  {
    forall k | 0 <= k < 17 ensures Settled(SB.BARE_JSON, k) {}
    SettledIsRegular(SB.BARE_JSON);
  }

  /** Object mode starts exactly at the texts that open a bare call. */
  lemma BareEndIs(s: string, i: nat, e: nat)
    requires i <= e <= |s|
    ensures MatchEnd(SB.BARE_JSON, s, i) == Some(e) <==> BareText(s[i..e])
  {
    hide Matches, BareText;
    BareIsRegular();
    MatcherIsExact(SB.BARE_JSON, s, i, e);
    if Matches(SB.BARE_JSON, s[i..e]) { BareOpens(s[i..e]); }
    if BareText(s[i..e]) { OpensBare(s[i..e]); }
  }

  lemma MarkerEndIs(s: string, i: nat, e: nat)
    requires i <= e <= |s|
    ensures MatchEnd(SB.MISTRAL_MARKER, s, i) == Some(e) <==> Same(s[i..e], "[tool_calls]", true)
  {
    hide Matches, Same;
    forall k | 0 <= k < 1 ensures Settled(SB.MISTRAL_MARKER, k) {}
    SettledIsRegular(SB.MISTRAL_MARKER);
    MatcherIsExact(SB.MISTRAL_MARKER, s, i, e);
    MatchesOne(SB.MISTRAL_MARKER[0], s[i..e]);
  }

  /** The word up to case, a value without `>` and the `>` that ends it. */
  predicate ValueTag(w: string, x: string) {
    && |w| + 1 < |x| && Same(x[..|w|], w, true)
    && '>' !in x[|w|..|x| - 1] && x[|x| - 1] == '>'
  }

  lemma ValueTagIs(w: string, x: string)
    ensures Matches([Word(w, true), Not('>'), Word(">", false)], x) <==> ValueTag(w, x)
  {
    hide Matches;
    var first, value, last := Word(w, true), Not('>'), Word(">", false);
    assert [first, value, last] == [first] + ([value] + [last]);
    if Matches([first] + ([value] + [last]), x) {
      var k := Split([first], [value] + [last], x);
      var y := x[k..];
      var m := Split([value], [last], y);
      MatchesOne(first, x[..k]);
      MatchesOne(value, y[..m]);
      MatchesOne(last, y[m..]);
      LiteralIs(y[m..], ">");
      assert y[..m] == x[|w|..|x| - 1] && y[m..][0] == x[|x| - 1];
    }
    if ValueTag(w, x) {
      var k, m := |w|, |x| - 1 - |w|;
      var y := x[k..];
      assert y[..m] == x[k..|x| - 1] && y[m..] == ">";
      LiteralIs(y[m..], ">");
      MatchesOne(first, x[..k]);
      MatchesOne(value, y[..m]);
      MatchesOne(last, y[m..]);
      Join([value], [last], y, m);
      Join([first], [value] + [last], x, k);
    }
  }

  lemma ValueTagEndIs(ps: seq<Piece>, w: string, s: string, i: nat, e: nat)
    requires i <= e <= |s|
    requires (ps == FUNCTION_TAG && w == "<function=") || (ps == PARAMETER_TAG && w == "<parameter=")
    ensures MatchEnd(ps, s, i) == Some(e) <==> ValueTag(w, s[i..e])
  {
    hide Matches, ValueTag;
    forall k | 0 <= k < 3 ensures Settled(ps, k) {}
    SettledIsRegular(ps);
    MatcherIsExact(ps, s, i, e);
    ValueTagIs(w, s[i..e]);
  }
}
