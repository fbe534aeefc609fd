/** The opening and closing tags of raw tool-call blocks.

    Both kinds contain exactly one `<`, at the start, and one `>`, at the end. The proofs about
    chunked streams rest on that: a tag cannot straddle another `<`, and once found it cannot be
    changed by text that arrives later. */
module Tags {
  import opened Text
  import opened Patterns

  datatype TagKind = Open | Close

  // \s*\|?\s*(?:tool_call|function_call|tool-call|function-call)\s*\|?\s*>
  const NAME_PART: seq<Piece> := [
    Spaces, Optional('|'), Spaces, Either("tool", "function", true), Either("_", "-", false), Word("call", true),
    Spaces, Optional('|'), Spaces, Word(">", false)]

  function TagPattern(kind: TagKind): (ps: seq<Piece>)
    ensures Anchored(ps)
  {
    match kind
    case Open => [Word("<", false)] + NAME_PART
    case Close => [Word("<", false), Spaces, Word("/", false)] + NAME_PART
  }

  /** End of the tag of the given kind that starts at `i`. */
  function TagEnd(kind: TagKind, s: string, i: nat): (r: Option<nat>)
    requires i <= |s|
    ensures r.Some? ==> i < r.value <= |s|
  {
    var e :- MatchEnd(TagPattern(kind), s, i);
    AnchoredMatchAdvances(TagPattern(kind), s, i);
    Some(e)
  }

  /** Leftmost tag of the given kind that starts at or after `from`. */
  function FindTag(kind: TagKind, s: string, from: nat): (r: Option<Span>)
    requires from <= |s|
    ensures r.Some? ==>
      && from <= r.value.start < r.value.end <= |s|
      && TagEnd(kind, s, r.value.start) == Some(r.value.end)
      && forall j | from <= j < r.value.start :: TagEnd(kind, s, j).None?
    ensures r.None? ==> forall j | from <= j <= |s| :: TagEnd(kind, s, j).None?
  {
    Search(TagPattern(kind), s, from)
  }

  predicate HasTag(kind: TagKind, s: string) {
    FindTag(kind, s, 0).Some?
  }

  /** What can stand inside a tag: no angle bracket, and no bracket or brace that starts a marker. */
  predicate Inner(c: char) {
    c != '<' && c != '>' && c != '[' && c != '{'
  }

  /** A pattern whose matches hold only inner characters before the `>` they end with. */
  ghost predicate ClosesOnce(ps: seq<Piece>) {
    && Anchored(ps) && ps[|ps| - 1] == Word(">", false)
    && forall k | 0 <= k < |ps| - 1 :: match ps[k]
        case Spaces => true
        case Optional(c) => Inner(c)
        case Word(p, _) => forall c | c in p :: Inner(c)
        case Either(p, q, _) => (forall c | c in p :: Inner(c)) && forall c | c in q :: Inner(c)
        case Not(_) => false
  }

  lemma PieceIsInner(piece: Piece, s: string, i: nat, j: nat)
    requires ClosesOnce([piece, Word(">", false)]) && i <= |s| && PieceEnd(piece, s, i) == Some(j)
    ensures forall k | i <= k < j :: Inner(s[k])
  {
    assert [piece, Word(">", false)][0] == piece;
    forall k | i <= k < j ensures Inner(s[k]) {
      match piece {
        case Spaces => assert IsSpace(s[k]);
        case Optional(c) =>
        case Word(p, _) => assert p[k - i] in p; assert s[i + (k - i)] == s[k];
        case Either(p, q, anyCase) =>
          var w := if StartsLike(s, i, p, anyCase) then p else q;
          assert w[k - i] in w;
          assert s[i + (k - i)] == s[k];
      }
    }
  }

  lemma {:induction false} MatchHasInner(ps: seq<Piece>, s: string, i: nat, e: nat)
    requires ClosesOnce(ps) && i <= |s| && MatchEnd(ps, s, i) == Some(e)
    ensures i < e && s[e - 1] == '>' && forall k | i <= k < e - 1 :: Inner(s[k])
    decreases |ps|
  {
    if |ps| > 1 {
      var j := PieceEnd(ps[0], s, i).value;
      assert ClosesOnce([ps[0], Word(">", false)]);
      PieceIsInner(ps[0], s, i, j);
      MatchHasInner(ps[1..], s, j, e);
    } else {
      assert MatchEnd(ps[1..], s, i + 1) == Some(e);
      assert s[i + 0] == ">"[0];
    }
  }

  lemma NamePartClosesOnce()
    ensures ClosesOnce(NAME_PART)
  {
    forall k | 0 <= k < |NAME_PART| - 1
      ensures ClosesOnce([NAME_PART[k], Word(">", false)])
    {
      assert k == 0 || k == 1 || k == 2 || k == 3 || k == 4 || k == 5 || k == 6 || k == 7 || k == 8;
    }
    forall k | 0 <= k < |NAME_PART| - 1
      ensures NAME_PART[k] == [NAME_PART[k], Word(">", false)][0] {}
  }

  lemma TagPatternClosesOnce(kind: TagKind)
    ensures TagPattern(kind)[0] == Word("<", false) && ClosesOnce(TagPattern(kind)[1..])
  {
    var ps := TagPattern(kind);
    NamePartClosesOnce();
    match kind {
      case Open => assert ps[1..] == NAME_PART;
      case Close => assert ps[1..] == [Spaces, Word("/", false)] + NAME_PART;
    }
  }

  /** Every tag has the shape `<...>` with only inner characters in between. */
  lemma TagShape(kind: TagKind, s: string, i: nat)
    requires i <= |s| && TagEnd(kind, s, i).Some?
    ensures i + 2 <= TagEnd(kind, s, i).value && s[i] == '<' && s[TagEnd(kind, s, i).value - 1] == '>'
    ensures forall k | i < k < TagEnd(kind, s, i).value - 1 :: Inner(s[k])
  {
    var ps := TagPattern(kind);
    TagPatternClosesOnce(kind);
    assert s[i + 0] == "<"[0];
    MatchHasInner(ps[1..], s, i + 1, TagEnd(kind, s, i).value);
  }

  /** A stretch of text matches a tag in any surroundings exactly as it does alone. */
  lemma TagLocal(kind: TagKind, w: string, d: nat, s: string, i: nat, e: nat)
    requires Window(w, d, s) && i <= |s| && e <= |s|
    ensures TagEnd(kind, s, i) == Some(e) <==> TagEnd(kind, w, d + i) == Some(d + e)
  {
    MatchLocal(TagPattern(kind), w, d, s, i, e);
  }

  /** Leftmost-match stability: appending text never moves a match that has already been found. */
  lemma FindTagStable(kind: TagKind, s: string, t: string)
    requires HasTag(kind, s)
    ensures FindTag(kind, s + t, 0) == FindTag(kind, s, 0)
  {
    hide TagEnd, FindTag;
    var w, m := s + t, FindTag(kind, s, 0).value;
    TagLocal(kind, w, 0, s, m.start, m.end);
    TagShape(kind, s, m.start);
    forall j | 0 <= j < m.start ensures TagEnd(kind, w, j).None? {
      if TagEnd(kind, w, j).Some? {
        var e := TagEnd(kind, w, j).value;
        TagShape(kind, w, j);
        assert w[m.start] == '<';
        TagLocal(kind, w, 0, s, j, e);
      }
    }
  }

  /** A prefix that ends before the leftmost match ends holds no tag of that kind at all. */
  lemma NoTagBeforeMatchEnds(kind: TagKind, s: string, n: nat)
    requires HasTag(kind, s) && n < FindTag(kind, s, 0).value.end
    ensures !HasTag(kind, s[..n])
  {
    hide TagEnd, FindTag;
    if HasTag(kind, s[..n]) {
      assert s[..n] + s[n..] == s;
      FindTagStable(kind, s[..n], s[n..]);
    }
  }

  /** No tag straddles a boundary at which a new `<` starts. */
  lemma NoTagAcross(kind: TagKind, a: string, b: string)
    requires !HasTag(kind, a) && !HasTag(kind, b) && (b == "" || b[0] == '<')
    ensures !HasTag(kind, a + b)
  {
    hide TagEnd, FindTag;
    var w := a + b;
    if HasTag(kind, w) {
      var m := FindTag(kind, w, 0).value;
      TagShape(kind, w, m.start);
      if m.start < |a| {
        assert b != "" ==> w[|a|] == '<';
        TagLocal(kind, w, 0, a, m.start, m.end);
      } else {
        TagLocal(kind, w, |a|, b, m.start - |a|, m.end - |a|);
      }
    }
  }

  /** Text without a `<` holds no tag. */
  lemma NoTagWithoutAngle(kind: TagKind, s: string)
    requires '<' !in s
    ensures !HasTag(kind, s)
  {
    hide TagEnd, FindTag;
    if HasTag(kind, s) {
      TagShape(kind, s, FindTag(kind, s, 0).value.start);
    }
  }
}
