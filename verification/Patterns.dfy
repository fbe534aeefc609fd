/** The regular expressions of the recognisers, as lists of pieces that are matched from left to
    right without backtracking.

    Every expression modelled this way is a sequence in which each greedy part (`\s*`, `\|?`,
    `[^"]+`) is followed by something that cannot start with a character the part would take, and
    the two words of an alternation start with different characters. Giving characters back or
    trying the other word therefore never helps: the greedy match is the only match. */
module Patterns {
  import opened Text

  datatype Piece =
    | Spaces                                        // \s*
    | Optional(c: char)                             // c?
    | Word(p: string, anyCase: bool)                // a literal
    | Either(p: string, q: string, anyCase: bool)   // (?:p|q)
    | Not(c: char)                                  // [^c]+

  datatype Span = Span(start: nat, end: nat)

  predicate StartsLike(s: string, i: nat, p: string, anyCase: bool) {
    i < |s| && p != "" && WordAt(s, i, p[..1], anyCase)
  }

  /** End of the match of one piece at `i`. */
  function PieceEnd(piece: Piece, s: string, i: nat): (r: Option<nat>)
    requires i <= |s|
    ensures r.Some? ==> i <= r.value <= |s|
  {
    match piece
    case Spaces => Some(SkipSpaces(s, i))
    case Optional(c) => Some(if i < |s| && s[i] == c then i + 1 else i)
    case Word(p, anyCase) => if WordAt(s, i, p, anyCase) then Some(i + |p|) else None
    case Either(p, q, anyCase) =>
      var w := if StartsLike(s, i, p, anyCase) then p else q;
      if WordAt(s, i, w, anyCase) then Some(i + |w|) else None
    case Not(c) =>
      var j := match FindChar(s, c, i) case Some(k) => k case None => |s|;
      if i < j then Some(j) else None
  }

  /** End of the match of a pattern at `i` (`re.match`). */
  function MatchEnd(ps: seq<Piece>, s: string, i: nat): (r: Option<nat>)
    requires i <= |s|
    ensures r.Some? ==> i <= r.value <= |s|
    decreases |ps|
  {
    if ps == [] then Some(i)
    else
      var j :- PieceEnd(ps[0], s, i);
      MatchEnd(ps[1..], s, j)
  }

  lemma MatchFirst(piece: Piece, ps: seq<Piece>, s: string, i: nat)
    requires i <= |s|
    ensures MatchEnd([piece] + ps, s, i) ==
      match PieceEnd(piece, s, i) case None => None case Some(j) => MatchEnd(ps, s, j)
  {
    assert ([piece] + ps)[1..] == ps;
  }

  /** Leftmost match that starts at or after `from` (`re.search`). */
  function Search(ps: seq<Piece>, s: string, from: nat): (r: Option<Span>)
    requires from <= |s|
    ensures r.Some? ==>
      && from <= r.value.start <= r.value.end <= |s|
      && MatchEnd(ps, s, r.value.start) == Some(r.value.end)
      && forall j | from <= j < r.value.start :: MatchEnd(ps, s, j).None?
    ensures r.None? ==> forall j | from <= j <= |s| :: MatchEnd(ps, s, j).None?
    decreases |s| - from
  {
    match MatchEnd(ps, s, from)
    case Some(e) => Some(Span(from, e))
    case None => if from == |s| then None else Search(ps, s, from + 1)
  }

  /** A pattern that ends in a non-empty literal: its matches do not look past their own end. */
  predicate Anchored(ps: seq<Piece>) {
    ps != [] && ps[|ps| - 1].Word? && ps[|ps| - 1].p != ""
  }

  lemma {:induction false} AnchoredMatchAdvances(ps: seq<Piece>, s: string, i: nat)
    requires i <= |s| && Anchored(ps) && MatchEnd(ps, s, i).Some?
    ensures i < MatchEnd(ps, s, i).value
    decreases |ps|
  {
    if |ps| > 1 {
      AnchoredMatchAdvances(ps[1..], s, PieceEnd(ps[0], s, i).value);
    }
  }

  /** `w` holds `s` at offset `d`. */
  ghost predicate Window(w: string, d: nat, s: string) {
    d + |s| <= |w| && forall k | 0 <= k < |s| :: w[d + k] == s[k]
  }

  lemma {:induction false} SkipSpacesIs(s: string, i: nat, r: nat)
    requires i <= r <= |s| && (forall j | i <= j < r :: IsSpace(s[j])) && (r < |s| ==> !IsSpace(s[r]))
    ensures SkipSpaces(s, i) == r
  {
    var q := SkipSpaces(s, i);
    assert q >= r && r >= q;
  }

  lemma PieceLocal(piece: Piece, w: string, d: nat, s: string, i: nat, j: nat)
    requires Window(w, d, s) && i <= j <= |s| && (j < |s| || piece.Word?)
    ensures PieceEnd(piece, s, i) == Some(j) <==> PieceEnd(piece, w, d + i) == Some(d + j)
  {
    match piece {
      case Spaces =>
        forall k | i <= k <= j ensures w[d + k] == s[k] {}
        if SkipSpaces(s, i) == j {
          forall k | d + i <= k < d + j ensures IsSpace(w[k]) { assert w[k] == s[k - d]; }
          SkipSpacesIs(w, d + i, d + j);
        }
        if SkipSpaces(w, d + i) == d + j {
          forall k | i <= k < j ensures IsSpace(s[k]) { assert IsSpace(w[d + k]); }
          SkipSpacesIs(s, i, j);
        }
      case Optional(c) =>
      case Word(p, anyCase) =>
        if i + |p| <= |s| { WordLocal(w, d, s, i, p, anyCase); }
      case Either(p, q, anyCase) =>
        if i < |s| {
          if p != "" { WordLocal(w, d, s, i, p[..1], anyCase); }
          if i + |p| <= |s| { WordLocal(w, d, s, i, p, anyCase); }
          if i + |q| <= |s| { WordLocal(w, d, s, i, q, anyCase); }
        }
      case Not(c) =>
        forall k | i <= k <= j ensures w[d + k] == s[k] {}
        if PieceEnd(piece, s, i) == Some(j) {
          assert FindChar(w, c, d + i) == Some(d + j) by {
            forall k | d + i <= k < d + j ensures w[k] != c { assert w[k] == s[k - d]; }
          }
        }
        if PieceEnd(piece, w, d + i) == Some(d + j) {
          assert FindChar(w, c, d + i) == Some(d + j);
          forall k | i <= k < j ensures s[k] != c { assert w[d + k] == s[k]; }
          assert s[j] == c;
        }
    }
  }

  lemma WordLocal(w: string, d: nat, s: string, i: nat, p: string, anyCase: bool)
    requires Window(w, d, s) && i + |p| <= |s|
    ensures WordAt(s, i, p, anyCase) <==> WordAt(w, d + i, p, anyCase)
  {
    forall k | 0 <= k < |p| ensures w[d + (i + k)] == s[i + k] && p[k] == p[k] {}
  }

  lemma {:induction false} MatchWidens(ps: seq<Piece>, w: string, d: nat, s: string, i: nat)
    requires Anchored(ps) && Window(w, d, s) && i <= |s| && MatchEnd(ps, s, i).Some?
    ensures MatchEnd(ps, w, d + i) == Some(d + MatchEnd(ps, s, i).value)
    decreases |ps|
  {
    var j := PieceEnd(ps[0], s, i).value;
    if |ps| > 1 {
      AnchoredMatchAdvances(ps[1..], s, j);
      MatchWidens(ps[1..], w, d, s, j);
    }
    PieceLocal(ps[0], w, d, s, i, j);
  }

  lemma {:induction false} MatchNarrows(ps: seq<Piece>, w: string, d: nat, s: string, i: nat)
    requires Anchored(ps) && Window(w, d, s) && i <= |s|
    requires MatchEnd(ps, w, d + i).Some? && MatchEnd(ps, w, d + i).value <= d + |s|
    ensures MatchEnd(ps, s, i) == Some(MatchEnd(ps, w, d + i).value - d)
    decreases |ps|
  {
    var j := PieceEnd(ps[0], w, d + i).value - d;
    if |ps| > 1 {
      AnchoredMatchAdvances(ps[1..], w, d + j);
      MatchNarrows(ps[1..], w, d, s, j);
    }
    PieceLocal(ps[0], w, d, s, i, j);
  }

  /** Matching is local: an anchored pattern matches a stretch of text in any surroundings alike. */
  lemma MatchLocal(ps: seq<Piece>, w: string, d: nat, s: string, i: nat, e: nat)
    requires Anchored(ps) && Window(w, d, s) && i <= |s| && e <= |s|
    ensures MatchEnd(ps, s, i) == Some(e) <==> MatchEnd(ps, w, d + i) == Some(d + e)
  {
    if MatchEnd(ps, s, i) == Some(e) { MatchWidens(ps, w, d, s, i); }
    if MatchEnd(ps, w, d + i) == Some(d + e) { MatchNarrows(ps, w, d, s, i); }
  }
}
