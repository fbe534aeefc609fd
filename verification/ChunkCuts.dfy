/** graph/content_parser.py: when it matters where a stream is cut into chunks. */
module ChunkCuts {
  import opened Text
  import opened Patterns
  import opened Tags
  import opened Braces
  import opened StreamBuffer
  import opened StreamBufferProperties

  // -------------------------------------------------------------------- outcomes

  /** The text shown in front of the first block, between the blocks, and after the last one. */
  function Between(segs: seq<Segment>): (r: seq<string>)
    ensures |r| == |Blocks(segs)| + 1
  {
    if segs == [] then [""]
    else
      var rest := Between(segs[1..]);
      if segs[0].Block? then [""] + rest else [segs[0].text + rest[0]] + rest[1..]
  }

  /** Two outcomes that differ at most in how the shown text is divided into pieces. */
  ghost predicate SameOutcome(x: Fed, y: Fed) {
    x.state == y.state && Blocks(x.segs) == Blocks(y.segs) && Between(x.segs) == Between(y.segs)
  }

  function Join(x: seq<string>, y: seq<string>): seq<string>
    requires x != [] && y != []
  {
    x[..|x| - 1] + [x[|x| - 1] + y[0]] + y[1..]
  }

  lemma JoinCancels(x: seq<string>, y: seq<string>, z: seq<string>)
    requires x != [] && y != [] && z != []
    ensures Join(x, y) == Join(x, z) <==> y == z
  {
    if Join(x, y) == Join(x, z) {
      var n := |x| - 1;
      assert Join(x, y)[n] == x[n] + y[0] && Join(x, z)[n] == x[n] + z[0];
      assert (x[n] + y[0])[|x[n]|..] == y[0] && (x[n] + z[0])[|x[n]|..] == z[0];
      assert Join(x, y)[n + 1..] == y[1..] && Join(x, z)[n + 1..] == z[1..];
      assert y == [y[0]] + y[1..] && z == [z[0]] + z[1..];
    }
  }

  lemma {:induction false} BetweenAppend(a: seq<Segment>, b: seq<Segment>)
    ensures Between(a + b) == Join(Between(a), Between(b))
  {
    hide Blocks;
    var z := Between(b);
    if a == [] {
      assert a + b == b && "" + z[0] == z[0];
    } else {
      assert (a + b)[0] == a[0] && (a + b)[1..] == a[1..] + b;
      BetweenAppend(a[1..], b);
      JoinGrows(Between(a[1..]), z, a[0].text);
    }
  }

  lemma JoinGrows(x: seq<string>, z: seq<string>, t: string)
    requires x != [] && z != []
    ensures Join([""] + x, z) == [""] + Join(x, z)
    ensures Join([t + x[0]] + x[1..], z) == [t + Join(x, z)[0]] + Join(x, z)[1..]
  {
    if |x| == 1 { Regroup(t, x[0], z[0]); }
  }

  /** Equal outcomes show the same text. */
  lemma {:induction false} BetweenSpells(segs: seq<Segment>)
    ensures Concat(Between(segs)) == SafeText(segs)
  {
    if segs == [] {
      assert [""][1..] == [];
    } else {
      BetweenSpells(segs[1..]);
      var rest := Between(segs[1..]);
      var r := Between(segs);
      if segs[0].Block? {
        assert r[1..] == rest;
      } else {
        assert r[1..] == rest[1..];
        Regroup(segs[0].text, rest[0], Concat(rest[1..]));
      }
    }
  }

  /** What two outcomes have in common at the start does not matter. */
  lemma SameTail(pre: seq<Segment>, x: Fed, y: Fed)
    ensures SameOutcome(Fed(x.state, pre + x.segs), Fed(y.state, pre + y.segs)) <==> SameOutcome(x, y)
  {
    hide Between, Blocks;
    BetweenAppend(pre, x.segs);
    BetweenAppend(pre, y.segs);
    SegmentsAppend(pre, x.segs);
    SegmentsAppend(pre, y.segs);
    JoinCancels(Between(pre), Between(x.segs), Between(y.segs));
    CancelFront(Blocks(pre), Blocks(x.segs), Blocks(y.segs));
  }

  lemma CancelFront<T>(a: seq<T>, b: seq<T>, c: seq<T>)
    ensures a + b == a + c <==> b == c
  {
    if a + b == a + c { assert b == (a + b)[|a|..] && c == (a + c)[|a|..]; }
  }

  /** It does not matter that a text is shown in two pieces. */
  lemma MergeSafe(a: string, x: string, segs: seq<Segment>)
    ensures var split, whole := [Safe(a)] + ([Safe(x)] + segs), [Safe(a + x)] + segs;
      Blocks(split) == Blocks(whole) && Between(split) == Between(whole)
  {
    var split, whole := [Safe(a)] + ([Safe(x)] + segs), [Safe(a + x)] + segs;
    assert split[1..] == [Safe(x)] + segs && split[1..][1..] == segs && whole[1..] == segs;
    Regroup(a, x, Between(segs)[0]);
  }

  /** What is shown in front of the first block starts with the first piece of text. */
  lemma FirstText(x: string, segs: seq<Segment>)
    ensures var between := Between([Safe(x)] + segs);
      |between[0]| >= |x| && (segs == [] || segs[0].Block? ==> |between[0]| == |x|)
  {
    assert ([Safe(x)] + segs)[1..] == segs;
  }

  // -------------------------------------------------------------------- markers in a tail

  /** Cutting unmarked text off the front moves the marker, and changes nothing else. */
  lemma MarkerOfTail(a: string, t: string)
    requires Marker(a + t).None? || Marker(a + t).value.1 >= |a|
    ensures Marker(t) == match Marker(a + t)
      case None => None
      case Some((mode, start)) => Some((mode, start - |a|))
  {
    hide TagEnd, MatchEnd;
    TagOfTail(a, t);
    SearchOfTail(MISTRAL_MARKER, a, t);
    SearchOfTail(BARE_JSON, a, t);
  }

  lemma TagOfTail(a: string, t: string)
    ensures var x, y := FindTag(Open, a + t, 0), FindTag(Open, t, 0);
      && (x.None? ==> y.None?)
      && (x.Some? && x.value.start >= |a| ==> y == Some(Span(x.value.start - |a|, x.value.end - |a|)))
  {
    hide TagEnd, MatchEnd, Search;
    SearchOfTail(TagPattern(Open), a, t);
  }

  lemma SearchOfTail(ps: seq<Piece>, a: string, t: string)
    requires Anchored(ps)
    ensures var x, y := Search(ps, a + t, 0), Search(ps, t, 0);
      && (x.None? ==> y.None?)
      && (x.Some? && x.value.start >= |a| ==> y == Some(Span(x.value.start - |a|, x.value.end - |a|)))
  {
    hide MatchEnd, Search;
    var w := a + t;
    var x, y := Search(ps, w, 0), Search(ps, t, 0);
    if y.Some? {
      MatchLocal(ps, w, |a|, t, y.value.start, y.value.end);
    }
    if x.Some? && x.value.start >= |a| {
      MatchLocal(ps, w, |a|, t, x.value.start - |a|, x.value.end - |a|);
      assert y.Some? && y.value.start <= x.value.start - |a|;
    }
  }

  lemma AdvanceStarts(b: Buffer)
    ensures var r := Advance(b); r.state.mode == b.mode && (r.segs == [] || r.segs[0].Block?)
  {
    hide FindTag, Search, FirstClose, Depth, MistralBracket;
  }

  /** A feed that finds a marker hands out a block or holds text. */
  lemma MarkerActs(b: Buffer, t: string)
    requires !b.buffering && Marker(t).Some?
    ensures var r := AfterFeed(b, t);
      (r.state.buffering || Blocks(r.segs) != []) && r.state.mode == Marker(t).value.0
  {
    hide FindTag, TagEnd, MatchEnd, Search, FirstClose, MistralBracket, Depth, Marker;
    MarkerWithin(t);
    var (mode, start) := Marker(t).value;
    var held := Buffer(t[start..], true, mode, if mode.Json? then Depth(t[start..]) else b.depth);
    MarkerEnters(t, held.depth);
    if mode.Mistral? { MistralClosesAtOnce(held); }
    AdvanceStarts(held);
    SegmentsAppend([Safe(t[..start])], Advance(held).segs);
  }

  // -------------------------------------------------------------------- a cut after shown text

  /** All of `rest + t` is shown: `t` by itself must then hold no marker. */
  lemma ShownWhole(rest: string, t: string, idle: Buffer)
    requires !idle.buffering
    ensures var two := AfterFeed(idle, t);
      SameOutcome(Fed(idle, [Safe(rest + t)]), Fed(two.state, [Safe(rest)] + two.segs)) <==> Marker(t).None?
  {
    hide Marker, Advance, Between;
    var two := AfterFeed(idle, t);
    NoBlockInText(rest + t);
    if Marker(t).None? {
      MergeSafe(rest, t, []);
      NothingMore([Safe(t)]);
      NothingMore([Safe(rest + t)]);
    } else {
      MarkerActs(idle, t);
      SegmentsAppend([Safe(rest)], two.segs);
      NoBlockInText(rest);
      NothingMore(Blocks(two.segs));
    }
  }

  /** Something is found before the end of `rest`: too late once `rest` has been shown. */
  lemma FoundEarly(x: string, r: Fed, rest: string, y: Fed)
    requires |x| < |rest| && (r.segs == [] || r.segs[0].Block?)
    ensures !SameOutcome(Fed(r.state, [Safe(x)] + r.segs), Fed(y.state, [Safe(rest)] + y.segs))
  {
    hide Between;
    FirstText(x, r.segs);
    FirstText(rest, y.segs);
  }

  /** Two different lengths of text in front of the first block. */
  lemma OtherFront(x: string, r: Fed, z: string, y: Fed)
    requires |x| != |z| && (r.segs == [] || r.segs[0].Block?) && (y.segs == [] || y.segs[0].Block?)
    ensures !SameOutcome(Fed(r.state, [Safe(x)] + r.segs), Fed(y.state, [Safe(z)] + y.segs))
  {
    hide Between;
    FirstText(x, r.segs);
    FirstText(z, y.segs);
  }

  /** Something is found `k` characters after `rest`. */
  lemma FoundLater(rest: string, front: string, r: Fed, y: Fed)
    ensures var parts := [Safe(rest)] + ([Safe(front)] + y.segs);
      SameOutcome(Fed(r.state, [Safe(rest + front)] + r.segs), Fed(y.state, parts)) <==> SameOutcome(r, y)
  {
    hide Between, Blocks;
    MergeSafe(rest, front, y.segs);
    SameTail([Safe(rest + front)], r, y);
  }

  // -------------------------------------------------------------------- pass-through

  /** A chunk `a` without a marker may be fed separately from `t` if and only if no marker of `a + t`
      starts inside `a`. A marker that the cut divides is not recognised. */
  lemma PassThroughSplit(b: Buffer, a: string, t: string)
    requires !b.buffering && Marker(a).None?
    ensures var second := AfterFeed(b, t);
      SameOutcome(AfterFeed(b, a + t), Fed(second.state, [Safe(a)] + second.segs))
      <==> (Marker(a + t).None? || Marker(a + t).value.1 >= |a|)
  {
    hide Advance, Marker, SameOutcome;
    MarkerWithin(a + t);
    var second := AfterFeed(b, t);
    if Marker(a + t).None? {
      MarkerOfTail(a, t);
      ShownWhole(a, t, b);
    } else {
      var (mode, start) := Marker(a + t).value;
      var held := (a + t)[start..];
      var r := Advance(Buffer(held, true, mode, if mode.Json? then Depth(held) else b.depth));
      AdvanceStarts(Buffer(held, true, mode, if mode.Json? then Depth(held) else b.depth));
      if start >= |a| {
        MarkerOfTail(a, t);
        CutOfSum(t, "", 0);
        assert held == t[start - |a|..] && (a + t)[..start] == a + t[..start - |a|];
        FoundLater(a, t[..start - |a|], r, r);
        ItselfIsSame(r);
      } else {
        FoundEarly((a + t)[..start], r, a, second);
      }
    }
  }

  lemma ItselfIsSame(r: Fed)
    ensures SameOutcome(r, r)
  {
  }

  // -------------------------------------------------------------------- after an XML block

  function LastText(segs: seq<Segment>): string {
    if segs == [] then "" else segs[|segs| - 1].text
  }

  /** How the XML loop goes on after a block. */
  function XmlOn(w: string, depth: int): Fed {
    match FindTag(Open, w, 0)
    case None => Fed(Buffer("", false, Xml, depth), [Safe(w)])
    case Some(o) =>
      var (segs, pending, buffering) := XmlSplit(w[o.start..]);
      Fed(Buffer(pending, buffering, Xml, depth), [Safe(w[..o.start])] + segs)
  }

  lemma {:induction false} XmlSplitOn(p: string, t: string, depth: int)
    requires !XmlSplit(p).2
    ensures var (segs, pending, _) := XmlSplit(p);
      var on := XmlOn(LastText(segs) + t, depth);
      && segs != [] && segs[|segs| - 1].Safe? && pending == ""
      && XmlSplit(p + t) == (segs[..|segs| - 1] + on.segs, on.state.pending, on.state.buffering)
    decreases |p|
  {
    hide FindTag, TagEnd;
    var c := FindTag(Close, p, 0).value;
    var rest := p[c.end..];
    FindTagStable(Close, p, t);
    CutOfSum(p, t, c.end);
    match FindTag(Open, rest, 0)
    case None =>
      var segs := XmlSplit(p).0;
      assert segs[..1] == [Block(p[..c.end])];
      LastCut(Block(p[..c.end]), rest, t, depth);
    case Some(o) =>
      FindTagStable(Open, rest, t);
      CutOfSum(rest, t, o.start);
      XmlSplitOn(rest[o.start..], t, depth);
      var more := XmlSplit(rest[o.start..]).0;
      var cut := [Block(p[..c.end]), Safe(rest[..o.start])];
      assert (cut + more)[..|cut + more| - 1] == cut + more[..|more| - 1];
      Regroup(cut, more[..|more| - 1], XmlOn(LastText(more) + t, depth).segs);
  }

  lemma LastCut(block: Segment, rest: string, t: string, depth: int)
    ensures match FindTag(Open, rest + t, 0)
      case None => [block] + XmlOn(rest + t, depth).segs == [block, Safe(rest + t)]
      case Some(o) =>
        var more := XmlSplit((rest + t)[o.start..]).0;
        [block] + XmlOn(rest + t, depth).segs == [block, Safe((rest + t)[..o.start])] + more
  {
    hide FindTag, XmlSplit;
    if FindTag(Open, rest + t, 0).Some? {
      var o := FindTag(Open, rest + t, 0).value;
      Regroup([block], [Safe((rest + t)[..o.start])], XmlSplit((rest + t)[o.start..]).0);
    }
  }

  /** After a block, the text `rest` may be shown before `t` arrives if and only if the next opening tag
      does not start in it, and `t` brings in no marker of another kind when there is none. */
  predicate XmlRestFree(rest: string, t: string) {
    var o := FindTag(Open, rest + t, 0);
    if o.Some? then o.value.start >= |rest| else Marker(t).None?
  }

  lemma XmlOnCut(rest: string, t: string, depth: int)
    ensures var idle := Buffer("", false, Xml, depth);
      var two := AfterFeed(idle, t);
      SameOutcome(XmlOn(rest + t, depth), Fed(two.state, [Safe(rest)] + two.segs)) <==> XmlRestFree(rest, t)
  {
    hide TagEnd, MatchEnd, FindTag, Search, XmlSplit, SameOutcome;
    var idle := Buffer("", false, Xml, depth);
    match FindTag(Open, rest + t, 0)
    case None => ShownWhole(rest, t, idle);
    case Some(o) =>
      var held := (rest + t)[o.start..];
      var (segs, pending, buffering) := XmlSplit(held);
      var r := Fed(Buffer(pending, buffering, Xml, depth), segs);
      AdvanceStarts(Buffer(held, true, Xml, depth));
      if o.start >= |rest| {
        TagOfTail(rest, t);
        var k := o.start - |rest|;
        assert held == t[k..] && (rest + t)[..o.start] == rest + t[..k];
        FoundLater(rest, t[..k], r, r);
        ItselfIsSame(r);
      } else {
        FoundEarly((rest + t)[..o.start], r, rest, AfterFeed(idle, t));
      }
  }

  // -------------------------------------------------------------------- after a bare object

  /** How a feed goes on after a complete object. */
  function JsonOn(w: string): Fed {
    match Search(BARE_JSON, w, 0)
    case None => Fed(Buffer("", false, Json, 0), [Safe(w)])
    case Some(m) => Fed(Buffer(w[m.start..], true, Json, Depth(w[m.start..])), [Safe(w[..m.start])])
  }

  /** After an object, the text `rest` may be handled before `t` arrives if and only if the next object
      starts where it would, and is not completed by `t`: a second object is held even when it is
      complete. */
  predicate JsonRestFree(rest: string, t: string) {
    var before, after := Search(BARE_JSON, rest, 0), Search(BARE_JSON, rest + t, 0);
    if before.Some? then
      && after.Some? && after.value.start == before.value.start
      && FirstClose(rest[before.value.start..] + t, 0).None?
    else if after.Some? then
      && after.value.start >= |rest| && Marker(t) == Some((Json, after.value.start - |rest|))
      && FirstClose(t[after.value.start - |rest|..], 0).None?
    else Marker(t).None?
  }

  /** An object that is held as it is, or looked at. */
  lemma HeldOrClosed(w: string, depth: int)
    ensures SameOutcome(Fed(Buffer(w, true, Json, Depth(w)), []), Advance(Buffer(w, true, Json, depth)))
      <==> FirstClose(w, 0).None?
  {
    hide Search, FirstClose, Depth;
    JsonBlocks(Buffer(w, true, Json, depth));
  }

  lemma JsonOnCut(rest: string, t: string)
    ensures var one := JsonOn(rest);
      var two := AfterFeed(one.state, t);
      SameOutcome(JsonOn(rest + t), Fed(two.state, one.segs + two.segs)) <==> JsonRestFree(rest, t)
  {
    hide TagEnd, MatchEnd, FindTag, Search, Marker, SameOutcome, FirstClose, Depth;
    var one := JsonOn(rest);
    var two := AfterFeed(one.state, t);
    match Search(BARE_JSON, rest, 0)
    case Some(m) => JsonHeldCut(rest, t);
    case None =>
      match Search(BARE_JSON, rest + t, 0) {
        case None => ShownWhole(rest, t, one.state);
        case Some(n) =>
          var w := (rest + t)[n.start..];
          var r := Fed(Buffer(w, true, Json, Depth(w)), []);
          NothingMore([Safe((rest + t)[..n.start])]);
          if n.start < |rest| {
            FoundEarly((rest + t)[..n.start], r, rest, two);
          } else {
            JsonFoundLater(rest, t, n.start - |rest|);
          }
      }
  }

  lemma JsonHeldCut(rest: string, t: string)
    requires Search(BARE_JSON, rest, 0).Some?
    ensures var one := JsonOn(rest);
      var two := AfterFeed(one.state, t);
      SameOutcome(JsonOn(rest + t), Fed(two.state, one.segs + two.segs)) <==> JsonRestFree(rest, t)
  {
    hide TagEnd, MatchEnd, FindTag, Search, Marker, SameOutcome, FirstClose, Depth;
    var m := Search(BARE_JSON, rest, 0).value;
    var one := JsonOn(rest);
    var two := AfterFeed(one.state, t);
    var held := one.state.(pending := one.state.pending + t);
    AdvanceStarts(held);
    JsonMarkerStartsObject(rest, m.start);
    match Search(BARE_JSON, rest + t, 0)
    case None =>
      NothingMore([Safe(rest + t)]);
      OtherFront(rest + t, Fed(Buffer("", false, Json, 0), []), rest[..m.start], two);
    case Some(n) =>
      var w := (rest + t)[n.start..];
      var r := Fed(Buffer(w, true, Json, Depth(w)), []);
      NothingMore([Safe((rest + t)[..n.start])]);
      if n.start != m.start {
        OtherFront((rest + t)[..n.start], r, rest[..m.start], two);
      } else {
        CutOfSum(rest, t, m.start);
        SameTail([Safe(rest[..m.start])], r, two);
        HeldOrClosed(w, one.state.depth);
      }
  }

  lemma JsonFoundLater(rest: string, t: string, k: nat)
    requires Search(BARE_JSON, rest, 0).None? && Search(BARE_JSON, rest + t, 0).Some?
    requires Search(BARE_JSON, rest + t, 0).value.start == |rest| + k
    ensures var one := JsonOn(rest);
      var two := AfterFeed(one.state, t);
      SameOutcome(JsonOn(rest + t), Fed(two.state, one.segs + two.segs)) <==> JsonRestFree(rest, t)
  {
    hide TagEnd, MatchEnd, FindTag, Search, FirstClose, Depth, Between, Blocks;
    var idle := Buffer("", false, Json, 0);
    var two := AfterFeed(idle, t);
    SearchOfTail(BARE_JSON, rest, t);
    var w := t[k..];
    var r := Fed(Buffer(w, true, Json, Depth(w)), []);
    assert (rest + t)[|rest| + k..] == w && (rest + t)[..|rest| + k] == rest + t[..k];
    NothingMore([Safe(rest + t[..k])]);
    if Marker(t) == Some((Json, k)) {
      HeldOrClosed(w, Depth(w));
      FoundLater(rest, t[..k], r, Advance(Buffer(w, true, Json, Depth(w))));
    } else {
      MarkerActs(idle, t);
    }
  }

  // -------------------------------------------------------------------- every cut

  /** What a feed of `a` works on, and in which mode. */
  function Works(b: Buffer, a: string): Option<(Mode, string)> {
    if b.buffering then Some((b.mode, b.pending + a))
    else
      MarkerWithin(a);
      match Marker(a) case None => None case Some((mode, start)) => Some((mode, a[start..]))
  }

  /** The held text may be worked on before `t` arrives. */
  predicate HeldIsFree(mode: Mode, held: string, t: string) {
    match mode
    case Xml => XmlSplit(held).2 || XmlRestFree(LastText(XmlSplit(held).0), t)
    case Json => FirstClose(held, 0).None? || JsonRestFree(held[FirstClose(held, 0).value..], t)
    case Mistral => MistralBracket(held + t) == MistralBracket(held) && Marker(t).None?
  }

  /** The chunk `a` may be fed before `t` arrives. */
  predicate CutIsFree(b: Buffer, a: string, t: string) {
    match Works(b, a)
    case None => Marker(a + t).None? || Marker(a + t).value.1 >= |a|
    case Some((mode, held)) => (b.buffering || Marker(a + t) == Marker(a)) && HeldIsFree(mode, held, t)
  }

  /** Every cut: from any state of a stream, `a` may be fed before `t` if and only if the cut is free.
      Where it is not, text or blocks come out differently. */
  lemma CutMattersExactly(b: Buffer, a: string, t: string)
    requires Inv(b)
    ensures var one := AfterFeed(b, a);
      var two := AfterFeed(one.state, t);
      SameOutcome(AfterFeed(b, a + t), Fed(two.state, one.segs + two.segs)) <==> CutIsFree(b, a, t)
  {
    hide TagEnd, MatchEnd, FindTag, Search, Marker, SameOutcome, Advance, XmlRestFree, JsonRestFree, XmlSplit;
    hide MistralBracket, FirstClose, Inv;
    MarkerWithin(a);
    if b.buffering {
      Regroup(b.pending, a, t);
      BufferingIsNotMistral(b);
      HeldCut(b.(pending := b.pending + a), t);
    } else if Marker(a).None? {
      PassThroughSplit(b, a, t);
    } else {
      EntryCut(b, a, t);
    }
  }

  lemma BufferingIsNotMistral(b: Buffer)
    requires Inv(b)
    ensures b.buffering ==> !b.mode.Mistral?
  {
    hide TagEnd, MatchEnd, FindTag;
  }

  /** From held text on: XML or JSON. */
  lemma HeldCut(held: Buffer, t: string)
    requires held.buffering && !held.mode.Mistral?
    ensures var one := Advance(held);
      var two := AfterFeed(one.state, t);
      var whole := Advance(held.(pending := held.pending + t));
      SameOutcome(whole, Fed(two.state, one.segs + two.segs)) <==> HeldIsFree(held.mode, held.pending, t)
  {
    hide TagEnd, MatchEnd, FindTag, Search, Marker, SameOutcome, XmlRestFree, JsonRestFree, XmlSplit, FirstClose, Depth;
    if held.mode.Xml? {
      XmlHeldCut(held, t);
    } else {
      JsonObjectCut(held, t);
    }
  }

  lemma XmlHeldCut(held: Buffer, t: string)
    requires held.buffering && held.mode.Xml?
    ensures var one := Advance(held);
      var two := AfterFeed(one.state, t);
      var whole := Advance(held.(pending := held.pending + t));
      SameOutcome(whole, Fed(two.state, one.segs + two.segs)) <==> HeldIsFree(Xml, held.pending, t)
  {
    hide TagEnd, MatchEnd, FindTag, Search, Marker, SameOutcome, XmlRestFree, XmlSplit, XmlOn;
    var p := held.pending;
    var one := Advance(held);
    var two := AfterFeed(one.state, t);
    if XmlSplit(p).2 {
      XmlSplitGrows(p, t);
      ItselfIsSame(Fed(two.state, one.segs + two.segs));
    } else {
      XmlSplitOn(p, t, held.depth);
      var n := |one.segs| - 1;
      var rest := LastText(one.segs);
      assert one.segs == one.segs[..n] + [Safe(rest)];
      Regroup(one.segs[..n], [Safe(rest)], two.segs);
      var on := XmlOn(rest + t, held.depth);
      XmlOnCut(rest, t, held.depth);
      XmlOnState(rest + t, held.depth);
      SameTail(one.segs[..n], on, Fed(two.state, [Safe(rest)] + two.segs));
    }
  }

  lemma XmlOnState(w: string, depth: int)
    ensures var s := XmlOn(w, depth).state; s.mode == Xml && s.depth == depth
  {
    hide FindTag, XmlSplit;
  }

  lemma {:induction false} FirstCloseStable(s: string, t: string)
    requires FirstClose(s, 0).Some?
    ensures FirstClose(s + t, 0) == FirstClose(s, 0)
  {
    hide FirstClose;
    var e := FirstClose(s, 0).value;
    forall d | 0 < d <= e ensures ClosesAt(s + t, d) <==> ClosesAt(s, d) {
      assert (s + t)[..d] == s[..d];
    }
  }

  lemma JsonObjectCut(held: Buffer, t: string)
    requires held.buffering && held.mode.Json?
    ensures var one := Advance(held);
      var two := AfterFeed(one.state, t);
      var whole := Advance(held.(pending := held.pending + t));
      SameOutcome(whole, Fed(two.state, one.segs + two.segs)) <==> HeldIsFree(Json, held.pending, t)
  {
    hide TagEnd, MatchEnd, FindTag, Search, Marker, SameOutcome, JsonRestFree, FirstClose, Depth;
    var p := held.pending;
    var one := Advance(held);
    var two := AfterFeed(one.state, t);
    match FirstClose(p, 0)
    case None =>
      NothingMore(two.segs);
      DepthIgnored(held.(pending := p + t), one.state.(pending := p + t));
      ItselfIsSame(two);
    case Some(e) =>
      FirstCloseStable(p, t);
      CutOfSum(p, t, e);
      var rest, block := p[e..], [Block(p[..e])];
      AdvanceJsonOn(p, e, held.depth);
      AdvanceJsonOn(p + t, e, held.depth);
      JsonOnCut(rest, t);
      Regroup(block, JsonOn(rest).segs, two.segs);
      SameTail(block, JsonOn(rest + t), Fed(two.state, JsonOn(rest).segs + two.segs));
  }

  lemma AdvanceJsonOn(p: string, e: nat, depth: int)
    requires FirstClose(p, 0) == Some(e)
    ensures Advance(Buffer(p, true, Json, depth)) == Fed(JsonOn(p[e..]).state, [Block(p[..e])] + JsonOn(p[e..]).segs)
  {
    hide Search, FirstClose, Depth;
  }

  /** From a marker in `a` on. */
  lemma EntryCut(b: Buffer, a: string, t: string)
    requires !b.buffering && Marker(a).Some?
    ensures var one := AfterFeed(b, a);
      var two := AfterFeed(one.state, t);
      SameOutcome(AfterFeed(b, a + t), Fed(two.state, one.segs + two.segs)) <==> CutIsFree(b, a, t)
  {
    hide TagEnd, MatchEnd, FindTag, Search, Marker, SameOutcome, Advance, XmlRestFree, JsonRestFree, XmlSplit;
    hide MistralBracket, FirstClose, Depth;
    MarkerWithin(a);
    var start := Marker(a).value.1;
    var held := Started(b, a);
    var front := [Safe(a[..start])];
    var r := Advance(held);
    var two := AfterFeed(r.state, t);
    Regroup(front, r.segs, two.segs);
    if Marker(a + t) == Marker(a) {
      CutOfSum(a, t, start);
      var grown := held.(pending := held.pending + t);
      MarkedCut(b, a, t);
      StartedGrown(b, a, t);
      SameTail(front, Advance(grown), Fed(two.state, r.segs + two.segs));
    } else {
      OtherEntry(b, a, t);
    }
  }

  /** The text held once the marker of `a` has been found. */
  function Started(b: Buffer, a: string): Buffer
    requires Marker(a).Some?
  {
    MarkerWithin(a);
    var (mode, start) := Marker(a).value;
    Buffer(a[start..], true, mode, if mode.Json? then Depth(a[start..]) else b.depth)
  }

  lemma StartedGrown(b: Buffer, a: string, t: string)
    requires Marker(a).Some? && Marker(a + t) == Marker(a)
    ensures var held := Started(b, a); Advance(Started(b, a + t)) == Advance(held.(pending := held.pending + t))
  {
    hide Marker, AdvanceXml, AdvanceMistral;
    MarkerWithin(a);
    CutOfSum(a, t, Marker(a).value.1);
    var held := Started(b, a);
    if held.mode.Json? { DepthIgnored(Started(b, a + t), held.(pending := held.pending + t)); }
  }

  /** The depth counted before does not matter. */
  lemma DepthIgnored(b: Buffer, c: Buffer)
    requires b.mode.Json? && c == b.(depth := c.depth)
    ensures Advance(b) == Advance(c)
  {
    hide Search, FirstClose, Depth;
  }

  lemma MarkedCut(b: Buffer, a: string, t: string)
    requires !b.buffering && Marker(a).Some?
    ensures var held := Started(b, a);
      var one := Advance(held);
      var two := AfterFeed(one.state, t);
      var whole := Advance(held.(pending := held.pending + t));
      SameOutcome(whole, Fed(two.state, one.segs + two.segs)) <==> HeldIsFree(held.mode, held.pending, t)
  {
    hide TagEnd, MatchEnd, Marker, SameOutcome, Advance, HeldIsFree, Depth;
    var held := Started(b, a);
    if held.mode.Mistral? {
      MarkerEnters(a, held.depth);
      MistralCut(held, t);
    } else {
      HeldCut(held, t);
    }
  }

  /** The bracket that ends the block must not move, and what follows must not hold a marker. */
  lemma MistralCut(held: Buffer, t: string)
    requires held.buffering && held.mode.Mistral? && MatchEnd(MISTRAL_MARKER, held.pending, 0).Some?
    ensures var one := Advance(held);
      var two := AfterFeed(one.state, t);
      var whole := Advance(held.(pending := held.pending + t));
      SameOutcome(whole, Fed(two.state, one.segs + two.segs)) <==> HeldIsFree(Mistral, held.pending, t)
  {
    hide MatchEnd, MistralBracket, Marker, Between, Blocks;
    var p, grown := held.pending, held.(pending := held.pending + t);
    MatchWidens(MISTRAL_MARKER, p + t, 0, p, 0);
    MistralBlock(held);
    MistralBlock(grown);
    var k, k' := MistralBracket(p).value, MistralBracket(p + t).value;
    var rest, idle := p[k + 1..], held.(pending := "", buffering := false);
    var two := AfterFeed(idle, t);
    var block := [Block(p[..k + 1])];
    Regroup(block, [Safe(rest)], two.segs);
    if k == k' {
      CutOfSum(p, t, k + 1);
      ShownWhole(rest, t, idle);
      SameTail(block, Fed(idle, [Safe(rest + t)]), Fed(two.state, [Safe(rest)] + two.segs));
    } else {
      FirstBlock((p + t)[..k' + 1], [Safe((p + t)[k' + 1..])]);
      FirstBlock(p[..k + 1], [Safe(rest)] + two.segs);
      assert |(p + t)[..k' + 1]| != |p[..k + 1]|;
      OtherFirst((p + t)[..k' + 1], Blocks([Safe((p + t)[k' + 1..])]), p[..k + 1], Blocks([Safe(rest)] + two.segs));
    }
  }

  lemma OtherFirst(x: string, xs: seq<string>, y: string, ys: seq<string>)
    requires |x| != |y|
    ensures [x] + xs != [y] + ys
  {
    assert ([x] + xs)[0] == x && ([y] + ys)[0] == y;
  }

  lemma FirstBlock(x: string, segs: seq<Segment>)
    ensures Blocks([Block(x)] + segs) == [x] + Blocks(segs)
  {
    assert ([Block(x)] + segs)[1..] == segs;
  }

  lemma MistralBlock(b: Buffer)
    requires b.mode.Mistral? && MatchEnd(MISTRAL_MARKER, b.pending, 0).Some?
    ensures var k := MistralBracket(b.pending);
      && k.Some? && k.value < |b.pending|
      && Advance(b) == Fed(b.(pending := "", buffering := false),
           [Block(b.pending[..k.value + 1])] + [Safe(b.pending[k.value + 1..])])
  {
    hide MatchEnd, Find, FindLast, Flatten;
    MistralClosesAtOnce(b);
    FindFits(b.pending, "]\n", 0);
  }

  lemma EmptyIsHeld(b: Buffer)
    requires b.buffering
    ensures Advance(b).segs == [] ==> Advance(b).state.buffering
  {
    hide FindTag, Search, FirstClose, Depth, MistralBracket;
  }

  /** `t` brings in another marker, which starts elsewhere: the first text shown differs. */
  lemma OtherEntry(b: Buffer, a: string, t: string)
    requires !b.buffering && Marker(a).Some? && Marker(a + t) != Marker(a)
    ensures var one := AfterFeed(b, a);
      var two := AfterFeed(one.state, t);
      !SameOutcome(AfterFeed(b, a + t), Fed(two.state, one.segs + two.segs))
  {
    hide TagEnd, MatchEnd, Marker, SameOutcome, Advance, Depth;
    MarkerWithin(a);
    MarkerWithin(a + t);
    MarkerStartsWith(a);
    var start := Marker(a).value.1;
    var held := Started(b, a);
    var r := Advance(held);
    var two := AfterFeed(r.state, t);
    AdvanceStarts(held);
    EmptyIsHeld(held);
    AdvanceStarts(r.state.(pending := r.state.pending + t));
    Regroup([Safe(a[..start])], r.segs, two.segs);
    var rest := Fed(two.state, r.segs + two.segs);
    if Marker(a + t).Some? {
      var start' := Marker(a + t).value.1;
      OtherMarker(a, t);
      AdvanceStarts(Started(b, a + t));
      OtherFront((a + t)[..start'], Advance(Started(b, a + t)), a[..start], rest);
    } else {
      NothingMore([Safe(a + t)]);
      OtherFront(a + t, Fed(b, []), a[..start], rest);
    }
  }

  // -------------------------------------------------------------------- divided tags

  /** Such cuts exist: wherever an opening tag is divided, its first part is shown, and so is all of the
      rest up to the next marker, while the undivided text starts a block. */
  lemma DividedOpeningTagIsShown(b: Buffer, tag: string, n: nat, rest: string)
    requires !b.buffering && TagEnd(Open, tag, 0) == Some(|tag|) && 0 < n < |tag|
    ensures AfterFeed(b, tag[..n]) == Fed(b, [Safe(tag[..n])])
    ensures Marker(rest).None? ==> AfterFeed(b, tag[n..] + rest) == Fed(b, [Safe(tag[n..] + rest)])
    ensures var second := AfterFeed(b, tag[n..] + rest);
      !SameOutcome(AfterFeed(b, tag + rest), Fed(second.state, [Safe(tag[..n])] + second.segs))
  {
    hide TagEnd, MatchEnd, Search, FindTag, Marker, Advance, SameOutcome;
    var pre, tail := tag[..n], tag[n..];
    TagShape(Open, tag, 0);
    PartOfTagHasNoMarker(tag, n);
    MarkerStartsWith(tail + rest);
    MarkerOfTail(tail, rest);
    assert pre + (tail + rest) == tag + rest;
    TagInFront(tag, rest);
    PassThroughSplit(b, pre, tail + rest);
  }

  lemma PartOfTagHasNoMarker(tag: string, n: nat)
    requires TagEnd(Open, tag, 0) == Some(|tag|) && 0 < n < |tag|
    ensures Marker(tag[..n]).None?
  {
    hide TagEnd, MatchEnd, Search, FindTag;
    TagShape(Open, tag, 0);
    MarkerStartsWith(tag[..n]);
    if HasTag(Open, tag[..n]) {
      TagShape(Open, tag[..n], FindTag(Open, tag[..n], 0).value.start);
    }
  }

  lemma TagInFront(tag: string, rest: string)
    requires TagEnd(Open, tag, 0) == Some(|tag|)
    ensures Marker(tag + rest) == Some((Xml, 0))
  {
    hide TagEnd, FindTag;
    assert FindTag(Open, tag, 0) == Some(Span(0, |tag|));
    FindTagStable(Open, tag, rest);
  }

  /** The same right after a block: what follows the block is searched for an opening tag, but not again
      when the rest of the tag arrives. */
  lemma DividedTagAfterBlockMatters(b: Buffer, block: string, tag: string, n: nat, rest: string)
    requires Inv(b) && !b.buffering && WholeTaggedBlock(block)
    requires TagEnd(Open, tag, 0) == Some(|tag|) && 0 < n < |tag|
    ensures var one := AfterFeed(b, block + tag[..n]);
      var two := AfterFeed(one.state, tag[n..] + rest);
      && one == Fed(Buffer("", false, Xml, b.depth), [Safe(""), Block(block), Safe(tag[..n])])
      && !SameOutcome(AfterFeed(b, block + tag[..n] + (tag[n..] + rest)), Fed(two.state, one.segs + two.segs))
  {
    hide TagEnd, FindTag, MatchEnd, Search, SameOutcome, Marker;
    var a, t := block + tag[..n], tag[n..] + rest;
    BlockInFront(block, tag[..n]);
    PartOfTagHasNoMarker(tag, n);
    NoMarkerNoTag(tag[..n]);
    TagInFront(tag, rest);
    assert tag[..n] + t == tag + rest;
    MarkerIsTag(tag + rest);
    assert a[0..] == a && a[..0] == "";
    var one := AfterFeed(b, a);
    assert XmlSplit(a) == ([Block(block), Safe(tag[..n])], "", false);
    assert [Safe("")] + [Block(block), Safe(tag[..n])] == [Safe(""), Block(block), Safe(tag[..n])];
    assert LastText([Block(block), Safe(tag[..n])]) == tag[..n];
    CutMattersExactly(b, a, t);
  }

  lemma BlockInFront(block: string, x: string)
    requires WholeTaggedBlock(block)
    ensures Marker(block + x) == Some((Xml, 0))
    ensures FindTag(Close, block + x, 0).Some? && FindTag(Close, block + x, 0).value.end == |block|
    ensures (block + x)[..|block|] == block && (block + x)[|block|..] == x
  {
    hide TagEnd, FindTag;
    assert FindTag(Open, block, 0).Some? && FindTag(Open, block, 0).value.start == 0;
    FindTagStable(Open, block, x);
    FindTagStable(Close, block, x);
  }

  lemma NoMarkerNoTag(x: string)
    requires Marker(x).None?
    ensures FindTag(Open, x, 0).None?
  {
    hide TagEnd, FindTag;
  }

  lemma MarkerIsTag(x: string)
    requires Marker(x) == Some((Xml, 0))
    ensures FindTag(Open, x, 0).Some? && FindTag(Open, x, 0).value.start == 0
  {
    hide TagEnd, FindTag, Search, MatchEnd;
  }

  // -------------------------------------------------------------------- a block after an object

  const OBJECT := "{\"name\":\"f\",\"args\":{"

  lemma PieceStep(k: nat, s: string, i: nat, j: nat)
    requires k < |BARE_JSON| && i <= |s| && PieceEnd(BARE_JSON[k], s, i) == Some(j)
    ensures MatchEnd(BARE_JSON[k..], s, i) == MatchEnd(BARE_JSON[k + 1..], s, j)
  {
    hide MatchEnd;
    assert BARE_JSON[k..] == [BARE_JSON[k]] + BARE_JSON[k + 1..];
    MatchFirst(BARE_JSON[k], BARE_JSON[k + 1..], s, i);
  }

  lemma NoSpaces(k: nat, s: string, i: nat)
    requires k < |BARE_JSON| && BARE_JSON[k] == Spaces && i < |s| && !IsSpace(s[i])
    ensures MatchEnd(BARE_JSON[k..], s, i) == MatchEnd(BARE_JSON[k + 1..], s, i)
  {
    PieceStep(k, s, i, i);
  }

  lemma WordStep(k: nat, s: string, i: nat, p: string)
    requires k < |BARE_JSON| && BARE_JSON[k] == Word(p, false) && At(s, i, p)
    ensures MatchEnd(BARE_JSON[k..], s, i) == MatchEnd(BARE_JSON[k + 1..], s, i + |p|)
  {
    hide MatchEnd;
    forall n | 0 <= n < |p| ensures s[i + n] == p[n] {
      assert s[i..i + |p|][n] == p[n];
    }
    PieceStep(k, s, i, i + |p|);
  }

  lemma CharStep(k: nat, s: string, i: nat, c: char)
    requires k < |BARE_JSON| && BARE_JSON[k] == Word([c], false) && i < |s| && s[i] == c
    ensures MatchEnd(BARE_JSON[k..], s, i) == MatchEnd(BARE_JSON[k + 1..], s, i + 1)
  {
    hide MatchEnd;
    PieceStep(k, s, i, i + 1);
  }

  lemma ObjectWords()
    ensures At(OBJECT, 1, "\"name\"") && At(OBJECT, 12, "\"arg")
  {
  }

  lemma ObjectFront()
    ensures MatchEnd(BARE_JSON, OBJECT, 0) == MatchEnd(BARE_JSON[7..], OBJECT, 9)
  {
    hide MatchEnd, WordAt, At;
    var s := OBJECT;
    ObjectWords();
    assert BARE_JSON[0..] == BARE_JSON;
    CharStep(0, s, 0, '{');
    NoSpaces(1, s, 1);
    WordStep(2, s, 1, "\"name\"");
    NoSpaces(3, s, 7);
    CharStep(4, s, 7, ':');
    NoSpaces(5, s, 8);
    CharStep(6, s, 8, '"');
  }

  lemma ObjectName()
    ensures MatchEnd(BARE_JSON[7..], OBJECT, 9) == MatchEnd(BARE_JSON[8..], OBJECT, 10)
  {
    hide MatchEnd, WordAt;
    assert FindChar(OBJECT, '"', 9) == Some(10) by {
      hide FindChar;
      assert OBJECT[9] == 'f' && OBJECT[10] == '"';
    }
    PieceStep(7, OBJECT, 9, 10);
  }

  lemma ObjectMiddle()
    ensures MatchEnd(BARE_JSON[8..], OBJECT, 10) == MatchEnd(BARE_JSON[13..], OBJECT, 16)
  {
    hide MatchEnd, WordAt, At;
    var s := OBJECT;
    ObjectWords();
    CharStep(8, s, 10, '"');
    NoSpaces(9, s, 11);
    CharStep(10, s, 11, ',');
    NoSpaces(11, s, 12);
    WordStep(12, s, 12, "\"arg");
  }

  lemma ObjectEnd()
    ensures MatchEnd(BARE_JSON[13..], OBJECT, 16) == Some(19)
  {
    hide MatchEnd;
    var s := OBJECT;
    assert BARE_JSON[17..] == [];
    assert s[16] == 's' && "uments"[0] == 'u' && WordAt(s, 16, "s", false);
    assert PieceEnd(BARE_JSON[13], s, 16) == Some(17);
    PieceStep(13, s, 16, 17);
    hide WordAt;
    CharStep(14, s, 17, '"');
    NoSpaces(15, s, 18);
    CharStep(16, s, 18, ':');
    EmptyPattern(s, 19);
  }

  lemma EmptyPattern(s: string, i: nat)
    requires i <= |s|
    ensures MatchEnd([], s, i) == Some(i)
  {
  }

  lemma ObjectMatches()
    ensures MatchEnd(BARE_JSON, OBJECT, 0) == Some(19)
  {
    hide MatchEnd;
    ObjectFront();
    ObjectName();
    ObjectMiddle();
    ObjectEnd();
  }

  lemma ObjectDepths()
    ensures FirstClose(OBJECT, 0).None? && FirstClose(OBJECT + "}}", 0) == Some(22)
  {
    hide FirstClose, Depth;
    var s := OBJECT + "}}";
    assert |OBJECT| == 20 && '}' !in OBJECT && s[0] == s[19] == '{' && s[20] == s[21] == '}';
    assert forall k | 0 <= k < 20 :: s[k] == OBJECT[k];
    assert forall k | 1 <= k < 19 :: OBJECT[k] != '{';
    assert Depth(s[..0]) == 0 by { NoDepth(s[..0]); }
    DepthStep(s, 0);
    FlatDepth(s, 1, 19);
    DepthStep(s, 19);
    DepthStep(s, 20);
    DepthStep(s, 21);
    assert ClosesAt(s, 22);
    forall e | 0 < e < 22 ensures !ClosesAt(s, e) {
      assert e <= 20 ==> s[e - 1] != '}';
    }
    forall e | 0 < e <= 20 ensures !ClosesAt(OBJECT, e) {
      assert OBJECT[e - 1] in OBJECT;
    }
  }

  lemma NoDepth(s: string)
    requires s == ""
    ensures Depth(s) == 0
  {
  }

  lemma {:induction false} FlatDepth(s: string, i: nat, j: nat)
    requires i <= j <= |s| && forall k | i <= k < j :: s[k] != '{' && s[k] != '}'
    ensures Depth(s[..j]) == Depth(s[..i])
    decreases j
  {
    if i < j {
      FlatDepth(s, i, j - 1);
      DepthStep(s, j - 1);
    }
  }

  /** An input on which a whole tagged block is shown: an object in two chunks, the second of which goes
      on with the block. */
  lemma BlockAfterObjectExample(block: string)
    requires WholeTaggedBlock(block) && Search(BARE_JSON, block, 0).None?
    ensures var one := AfterFeed(EMPTY, OBJECT);
      var two := AfterFeed(one.state, "}}" + block);
      one.state.buffering && two.segs == [Block(OBJECT + "}}"), Safe(block)] && ShowsTag(two.segs)
  {
    hide TagEnd, MatchEnd, FindTag, FirstClose, Depth, ShowsTag, Search;
    ObjectMatches();
    ObjectDepths();
    ObjectIsMarker();
    var one := AfterFeed(EMPTY, OBJECT);
    FeedConserves(EMPTY, OBJECT);
    var p := OBJECT + ("}}" + block);
    Regroup(OBJECT, "}}", block);
    FirstCloseStable(OBJECT + "}}", block);
    assert one.state.pending == OBJECT && p[22..] == block && p[..22] == OBJECT + "}}";
    BlockAfterObjectIsShown(one.state, "}}" + block, 22);
  }

  lemma ObjectIsMarker()
    ensures Marker(OBJECT) == Some((Json, 0))
  {
    hide TagEnd, MatchEnd, FindTag, Search;
    ObjectMatches();
    NoTagWithoutAngle(Open, OBJECT);
    if Search(MISTRAL_MARKER, OBJECT, 0).Some? {
      MistralMarkerBrackets(OBJECT, Search(MISTRAL_MARKER, OBJECT, 0).value.start);
    }
  }
}
