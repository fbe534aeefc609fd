/** What the stream buffer keeps over whole streams: nothing is lost or reordered, raw blocks are
    held back, and (inside a tagged block) it does not matter where the stream was cut. */
module StreamBufferProperties {
  import opened Text
  import opened Patterns
  import opened Tags
  import opened Braces
  import opened StreamBuffer

  /** Holds of every state between feeds. */
  ghost predicate Inv(b: Buffer) {
    && (b.buffering <==> b.pending != "")
    && (b.buffering && b.mode.Xml? ==> TagEnd(Open, b.pending, 0).Some? && !HasTag(Close, b.pending))
    && (b.buffering && b.mode.Json? ==> MatchEnd(BARE_JSON, b.pending, 0).Some?)
    && (b.buffering ==> !b.mode.Mistral?)
  }

  // -------------------------------------------------------------------- single steps

  lemma JsonMarkerStartsObject(s: string, i: nat)
    requires i <= |s| && MatchEnd(BARE_JSON, s, i).Some?
    ensures i < |s| && s[i] == '{'
  {
    assert WordAt(s, i, "{", false);
    assert s[i + 0] == "{"[0];
  }

  lemma MistralMarkerBrackets(s: string, i: nat)
    requires i <= |s| && MatchEnd(MISTRAL_MARKER, s, i).Some?
    ensures i + 12 <= |s| && s[i] == '[' && s[i + 11] == ']'
  {
    var w := "[tool_calls]";
    assert WordAt(s, i, w, true);
    assert EqIgnoreCase(s[i + 0], w[0]) && EqIgnoreCase(s[i + 11], w[11]);
  }

  /** A match moves to the front when the text before it is cut off. */
  lemma MatchAtCut(ps: seq<Piece>, s: string, i: nat)
    requires Anchored(ps) && i <= |s| && MatchEnd(ps, s, i).Some?
    ensures MatchEnd(ps, s[i..], 0).Some?
  {
    MatchLocal(ps, s, i, s[i..], 0, MatchEnd(ps, s, i).value - i);
  }

  lemma TagAtCut(kind: TagKind, s: string, i: nat)
    requires i <= |s| && TagEnd(kind, s, i).Some?
    ensures TagEnd(kind, s[i..], 0).Some?
  {
    MatchAtCut(TagPattern(kind), s, i);
  }

  lemma {:induction false} XmlSplitKeeps(p: string)
    requires p != "" && TagEnd(Open, p, 0).Some?
    ensures var (segs, pending, buffering) := XmlSplit(p);
      && Flatten(segs) + pending == p
      && (buffering <==> pending != "")
      && (buffering ==> TagEnd(Open, pending, 0).Some? && !HasTag(Close, pending))
    decreases |p|
  {
    hide FindTag, TagEnd, SafeText, Blocks;
    match FindTag(Close, p, 0)
    case None =>
    case Some(c) =>
      var rest := p[c.end..];
      match FindTag(Open, rest, 0) {
        case None =>
          BlockThenSafe(p[..c.end], rest);
        case Some(o) =>
          var block, part, held := p[..c.end], rest[..o.start], rest[o.start..];
          TagAtCut(Open, rest, o.start);
          XmlSplitKeeps(held);
          var (more, pending, _) := XmlSplit(held);
          BlockThenSafe(block, part);
          FlattenAppend([Block(block), Safe(part)], more);
          Regroup(block + part, Flatten(more), pending);
          Regroup(block, part, held);
          assert part + held == rest && block + rest == p;
      }
  }

  /** A `[TOOL_CALLS]` marker is a block by itself as soon as it is seen: the `]` of the marker ends it. */
  lemma MistralClosesAtOnce(b: Buffer)
    requires b.mode.Mistral? && MatchEnd(MISTRAL_MARKER, b.pending, 0).Some?
    ensures var r := AdvanceMistral(b);
      && !r.state.buffering && r.state.pending == ""
      && |r.segs| == 2 && r.segs[0].Block? && r.segs[1].Safe? && Flatten(r.segs) == b.pending
  {
    hide MatchEnd, Flatten, SafeText, Blocks;
    var p := b.pending;
    MistralMarkerBrackets(p, 0);
    assert At(p, 0, "[") && At(p, 11, "]");
    assert MistralBracket(p).Some? && MistralBracket(p).value > 0 by {
      if Find(p, "]\n", 0).Some? {
        assert !At(p, 0, "]\n");
      } else {
        assert FindLast(p, "]", |p|).value >= 11;
      }
    }
    var k := MistralBracket(p).value;
    BlockThenSafe(p[..k + 1], p[k + 1..]);
    assert p == p[..k + 1] + p[k + 1..];
  }

  /** Where a `[TOOL_CALLS]` block ends: at the `]` of the first `]` and newline, or, when there is none, at
      the last `]` of all. */
  lemma MistralBlockEnds(b: Buffer)
    requires b.mode.Mistral? && MatchEnd(MISTRAL_MARKER, b.pending, 0).Some?
    ensures var r := Advance(b);
      && |r.segs| == 2 && r.segs[0].Block? && r.segs[1].Safe?
      && var block, rest := r.segs[0].text, r.segs[1].text;
         && block + rest == b.pending && block != "" && block[|block| - 1] == ']'
         && ((rest != "" && rest[0] == '\n' && forall j | 0 <= j < |block| - 1 :: !At(b.pending, j, "]\n"))
             || ((forall j | 0 <= j <= |b.pending| :: !At(b.pending, j, "]\n")) && ']' !in rest))
  {
    hide MatchEnd, Find, FindLast, At;
    var p := b.pending;
    MistralClosesAtOnce(b);
    MistralMarkerBrackets(p, 0);
    FindFits(p, "]\n", 0);
    var k := MistralBracket(p).value;
    if Find(p, "]\n", 0).Some? {
      TwoCharsAt(p, k);
    } else {
      LastOne(p);
    }
  }

  lemma TwoCharsAt(p: string, k: nat)
    requires At(p, k, "]\n")
    ensures k + 2 <= |p| && p[k] == ']' && p[k + 1] == '\n'
  {
    assert p[k..k + 2][0] == ']' && p[k..k + 2][1] == '\n';
  }

  lemma LastOne(p: string)
    requires FindLast(p, "]", |p|).Some?
    ensures var k := FindLast(p, "]", |p|).value; p[k] == ']' && ']' !in p[k + 1..]
  {
    var k := FindLast(p, "]", |p|).value;
    assert p[k..k + 1][0] == ']';
    forall j | k < j < |p| ensures p[j] != ']' {
      OneCharAt(p, j);
    }
  }

  lemma OneCharAt(p: string, j: nat)
    requires j < |p|
    ensures At(p, j, "]") <==> p[j] == ']'
  {
    assert p[j..j + 1] == [p[j]];
  }

  lemma TwoCharsAre(p: string, j: nat)
    requires j + 1 < |p|
    ensures At(p, j, "]\n") <==> p[j] == ']' && p[j + 1] == '\n'
  {
    assert p[j..j + 2] == [p[j], p[j + 1]];
  }

  lemma JsonSplitKeeps(b: Buffer)
    requires b.mode.Json? && b.buffering && MatchEnd(BARE_JSON, b.pending, 0).Some?
    ensures var r := AdvanceJson(b);
      Inv(r.state) && Flatten(r.segs) + r.state.pending == b.pending
  {
    hide MatchEnd, Search, FirstClose, Depth, SafeText, Blocks, Flatten;
    var p := b.pending;
    JsonMarkerStartsObject(p, 0);
    FlattenNothing();
    match FirstClose(p, 0)
    case None =>
    case Some(e) =>
      var rest := p[e..];
      Cut(p, e);
      match Search(BARE_JSON, rest, 0) {
        case None =>
          BlockThenSafe(p[..e], rest);
        case Some(m) =>
          BlockThenSafe(p[..e], rest[..m.start]);
          JsonMarkerStartsObject(rest, m.start);
          MatchAtCut(BARE_JSON, rest, m.start);
          Cut(rest, m.start);
          Regroup(p[..e], rest[..m.start], rest[m.start..]);
      }
  }

  lemma FlattenNothing()
    ensures Flatten([]) == ""
  {
  }

  lemma Cut(s: string, k: nat)
    requires k <= |s|
    ensures s[..k] + s[k..] == s
  {
  }

  /** The held text of a fresh marker is well formed for its mode. */
  ghost predicate Entered(b: Buffer) {
    && b.buffering && b.pending != ""
    && match b.mode
       case Xml => TagEnd(Open, b.pending, 0).Some?
       case Mistral => MatchEnd(MISTRAL_MARKER, b.pending, 0).Some?
       case Json => MatchEnd(BARE_JSON, b.pending, 0).Some?
  }

  lemma MarkerEnters(text: string, depth: int)
    requires Marker(text).Some?
    ensures var (mode, start) := Marker(text).value; Entered(Buffer(text[start..], true, mode, depth))
  {
    match FindTag(Open, text, 0)
    case Some(m) => TagAtCut(Open, text, m.start);
    case None =>
      match Search(MISTRAL_MARKER, text, 0)
      case Some(m) =>
        MistralMarkerBrackets(text, m.start);
        MatchAtCut(MISTRAL_MARKER, text, m.start);
      case None =>
        var m := Search(BARE_JSON, text, 0).value;
        JsonMarkerStartsObject(text, m.start);
        MatchAtCut(BARE_JSON, text, m.start);
  }

  lemma AdvanceKeeps(b: Buffer)
    requires Entered(b)
    ensures var r := Advance(b); Inv(r.state) && Flatten(r.segs) + r.state.pending == b.pending
  {
    match b.mode
    case Xml => XmlSplitKeeps(b.pending);
    case Json => JsonSplitKeeps(b);
    case Mistral => MistralClosesAtOnce(b);
  }

  lemma GrownIsEntered(b: Buffer, text: string)
    requires Inv(b) && b.buffering
    ensures Entered(b.(pending := b.pending + text))
  {
    var ps := if b.mode.Xml? then TagPattern(Open) else BARE_JSON;
    MatchLocal(ps, b.pending + text, 0, b.pending, 0, MatchEnd(ps, b.pending, 0).value);
  }

  /** Every feed keeps the invariant and conserves the stream: what was held, followed by the new
      chunk, is exactly what comes out, in order, followed by what is now held. */
  lemma FeedConserves(b: Buffer, text: string)
    requires Inv(b)
    ensures var r := AfterFeed(b, text);
      Inv(r.state) && Flatten(r.segs) + r.state.pending == b.pending + text
  {
    hide Advance, Marker, TagEnd, MatchEnd, HasTag, Depth;
    if b.buffering {
      GrownIsEntered(b, text);
      AdvanceKeeps(b.(pending := b.pending + text));
    } else if Marker(text).Some? {
      var (mode, start) := Marker(text).value;
      var held := Buffer(text[start..], true, mode, if mode.Json? then Depth(text[start..]) else b.depth);
      MarkerEnters(text, held.depth);
      AdvanceKeeps(held);
      FlattenAppend([Safe(text[..start])], Advance(held).segs);
      assert Flatten([Safe(text[..start])]) == text[..start];
    }
  }

  // -------------------------------------------------------------------- whole streams

  function FeedAll(b: Buffer, chunks: seq<string>): Fed
    decreases |chunks|
  {
    if chunks == [] then Fed(b, [])
    else
      var first := AfterFeed(b, chunks[0]);
      var rest := FeedAll(first.state, chunks[1..]);
      Fed(rest.state, first.segs + rest.segs)
  }

  lemma {:induction false} StreamConserved(b: Buffer, chunks: seq<string>)
    requires Inv(b)
    ensures var r := FeedAll(b, chunks);
      Inv(r.state) && Flatten(r.segs) + r.state.pending == b.pending + Concat(chunks)
    decreases |chunks|
  {
    hide AfterFeed, TagEnd, MatchEnd, HasTag, SafeText, Blocks;
    if chunks == [] {
      assert FeedAll(b, chunks) == Fed(b, []);
    } else {
      var first := AfterFeed(b, chunks[0]);
      FeedConserves(b, chunks[0]);
      StreamConserved(first.state, chunks[1..]);
      var rest := FeedAll(first.state, chunks[1..]);
      FlattenAppend(first.segs, rest.segs);
      Regroup(Flatten(first.segs), Flatten(rest.segs), rest.state.pending);
      Regroup(Flatten(first.segs), first.state.pending, Concat(chunks[1..]));
      Regroup(b.pending, chunks[0], Concat(chunks[1..]));
    }
  }

  /** A whole stream, fed chunk by chunk and flushed: the pieces handed out spell the stream, flush
      hands out no text, and nothing stays behind. */
  lemma NothingIsLost(chunks: seq<string>)
    ensures var fed := FeedAll(EMPTY, chunks);
      var last := AfterFlush(fed.state);
      && Flatten(fed.segs + last.segs) == Concat(chunks)
      && SafeText(last.segs) == ""
      && !last.state.buffering && last.state.pending == ""
  {
    hide FeedAll, TagEnd, MatchEnd, HasTag;
    StreamConserved(EMPTY, chunks);
    var fed := FeedAll(EMPTY, chunks);
    var last := AfterFlush(fed.state);
    FlattenAppend(fed.segs, last.segs);
    assert EMPTY.pending + Concat(chunks) == Concat(chunks);
    if last.segs != [] {
      assert last.segs[1..] == [] && SafeText(last.segs[1..]) == "" && Flatten(last.segs[1..]) == "";
    }
  }

  // -------------------------------------------------------------------- hold-back

  /** A block cut by the XML loop: an opening tag at its start and exactly one closing tag, at its end. */
  ghost predicate WholeTaggedBlock(t: string) {
    TagEnd(Open, t, 0).Some? && HasTag(Close, t) && FindTag(Close, t, 0).value.end == |t|
  }

  ghost predicate CleanPieces(segs: seq<Segment>) {
    forall k | 0 <= k < |segs| ::
      if segs[k].Safe? then !HasTag(Open, segs[k].text) else WholeTaggedBlock(segs[k].text)
  }

  lemma {:induction false} XmlSplitIsClean(p: string)
    requires TagEnd(Open, p, 0).Some?
    ensures CleanPieces(XmlSplit(p).0)
    decreases |p|
  {
    hide TagEnd, FindTag, WholeTaggedBlock;
    match FindTag(Close, p, 0)
    case None =>
    case Some(c) =>
      BlockIsWhole(p);
      var rest := p[c.end..];
      match FindTag(Open, rest, 0) {
        case None =>
        case Some(o) =>
          NoTagBeforeMatchEnds(Open, rest, o.start);
          TagAtCut(Open, rest, o.start);
          XmlSplitIsClean(rest[o.start..]);
      }
  }

  lemma BlockIsWhole(p: string)
    requires TagEnd(Open, p, 0).Some? && HasTag(Close, p)
    ensures WholeTaggedBlock(p[..FindTag(Close, p, 0).value.end])
  {
    hide TagEnd, FindTag;
    var c := FindTag(Close, p, 0).value;
    var t := p[..c.end];
    var o := TagEnd(Open, p, 0).value;
    OpenIsNotClose(p, 0);
    TagShape(Open, p, 0);
    TagShape(Close, p, c.start);
    assert Inner(p[c.start]) || !(0 < c.start < o - 1);
    TagLocal(Open, p, 0, t, 0, o);
    TagLocal(Close, p, 0, t, c.start, c.end);
    assert t + p[c.end..] == p;
    FindTagStable(Close, t, p[c.end..]);
  }

  lemma OpenIsNotClose(s: string, i: nat)
    requires i <= |s| && TagEnd(Open, s, i).Some?
    ensures TagEnd(Close, s, i).None?
  {
    hide TagEnd;
    OpenTagNames(s, i);
    if TagEnd(Close, s, i).Some? {
      CloseTagSlashes(s, i);
      NoNameAt(s, i + 1);
    }
  }

  lemma OpenTagNames(s: string, i: nat)
    requires i <= |s| && TagEnd(Open, s, i).Some?
    ensures i < |s| && MatchEnd(NAME_PART, s, i + 1).Some?
  {
    var ps := TagPattern(Open);
    assert ps[0] == Word("<", false) && ps[1..] == NAME_PART;
  }

  lemma CloseTagSlashes(s: string, i: nat)
    requires i <= |s| && TagEnd(Close, s, i).Some?
    ensures i < |s| && var j := SkipSpaces(s, i + 1); j < |s| && s[j] == '/'
  {
    hide MatchEnd, SkipSpaces, IsSpace;
    var slash := [Word("/", false)] + NAME_PART;
    assert TagPattern(Close) == [Word("<", false)] + ([Spaces] + slash);
    MatchFirst(Word("<", false), [Spaces] + slash, s, i);
    MatchFirst(Spaces, slash, s, i + 1);
    var j := SkipSpaces(s, i + 1);
    MatchFirst(Word("/", false), NAME_PART, s, j);
    assert s[j + 0] == "/"[0];
  }

  /** A tag name starts with whitespace, a pipe, or the first letter of one of the words. */
  lemma NoNameAt(s: string, i: nat)
    requires i <= |s|
    requires var j := SkipSpaces(s, i); j < |s| && s[j] in {'/', 'a'}
    ensures MatchEnd(NAME_PART, s, i).None?
  {
    hide SkipSpaces, MatchEnd;
    var j := SkipSpaces(s, i);
    SkipSpacesIs(s, j, j);
    var either := NAME_PART[3];
    assert NAME_PART == [Spaces] + ([Optional('|')] + ([Spaces] + ([either] + NAME_PART[4..])));
    MatchFirst(Spaces, [Optional('|')] + ([Spaces] + ([either] + NAME_PART[4..])), s, i);
    MatchFirst(Optional('|'), [Spaces] + ([either] + NAME_PART[4..]), s, j);
    MatchFirst(Spaces, [either] + NAME_PART[4..], s, j);
    MatchFirst(either, NAME_PART[4..], s, j);
    assert !EqIgnoreCase(s[j + 0], "tool"[0]) && !EqIgnoreCase(s[j + 0], "function"[0]);
    assert PieceEnd(either, s, j).None?;
  }

  lemma TagFreeStretch(kind: TagKind, s: string, lo: nat, hi: nat)
    requires lo <= hi <= |s| && !HasTag(kind, s)
    ensures !HasTag(kind, s[lo..hi])
    ensures (lo == 0 ==> !HasTag(kind, s[..hi])) && (hi == |s| ==> !HasTag(kind, s[lo..]))
  {
    hide TagEnd, FindTag;
    assert lo == 0 ==> s[lo..hi] == s[..hi];
    assert hi == |s| ==> s[lo..hi] == s[lo..];
    if HasTag(kind, s[lo..hi]) {
      var m := FindTag(kind, s[lo..hi], 0).value;
      TagLocal(kind, s, lo, s[lo..hi], m.start, m.end);
    }
  }

  /** No piece of text that a feed shows contains a complete opening tag, unless the feed started
      inside a bare JSON object. In XML mode every block handed out is one whole tagged block. */
  lemma ShownTextHasNoOpeningTag(b: Buffer, text: string)
    requires Inv(b) && (b.buffering ==> b.mode.Xml?)
    ensures var r := AfterFeed(b, text);
      && (forall k | 0 <= k < |r.segs| && r.segs[k].Safe? :: !HasTag(Open, r.segs[k].text))
      && (b.buffering || HasTag(Open, text) ==> CleanPieces(r.segs))
  {
    if b.buffering {
      GrownIsEntered(b, text);
      XmlSplitIsClean(b.pending + text);
    } else if Marker(text).Some? {
      var (mode, start) := Marker(text).value;
      MarkerEnters(text, 0);
      match mode {
        case Xml =>
          NoTagBeforeMatchEnds(Open, text, start);
          XmlSplitIsClean(text[start..]);
        case Mistral => UntaggedRemainder(b, text);
        case Json => UntaggedRemainder(b, text);
      }
    }
  }

  /** The text that is shown once the object at the start of `p` is complete. */
  function ShownAfterObject(p: string): Option<string> {
    match FirstClose(p, 0)
    case None => None
    case Some(e) =>
      match Search(BARE_JSON, p[e..], 0)
      case None => Some(p[e..])
      case Some(m) => Some(p[e..][..m.start])
  }

  ghost predicate ShowsTag(segs: seq<Segment>) {
    exists k | 0 <= k < |segs| :: segs[k].Safe? && HasTag(Open, segs[k].text)
  }

  /** A feed shows a piece with a complete opening tag if and only if it completes a bare JSON object
      that was held before, and the tag stands between that object and the next one: the remainder is
      searched for objects only. */
  lemma OpeningTagIsShownExactlyWhen(b: Buffer, text: string)
    requires Inv(b)
    ensures ShowsTag(AfterFeed(b, text).segs) <==>
      && b.buffering && b.mode.Json?
      && var shown := ShownAfterObject(b.pending + text);
         shown.Some? && HasTag(Open, shown.value)
  {
    if b.buffering && b.mode.Json? {
      HeldJsonShows(b.(pending := b.pending + text));
    } else {
      ShownTextHasNoOpeningTag(b, text);
    }
  }

  lemma HeldJsonShows(b: Buffer)
    ensures ShowsTag(AdvanceJson(b).segs) <==>
      var shown := ShownAfterObject(b.pending); shown.Some? && HasTag(Open, shown.value)
  {
    hide TagEnd, MatchEnd, Search, FirstClose, Depth, FindTag;
    var shown := ShownAfterObject(b.pending);
    if shown.Some? {
      assert AdvanceJson(b).segs[1] == Safe(shown.value);
    }
  }

  /** A family of inputs: whatever follows a completed object is shown at once, if it is not another
      object; so is a whole tagged block. */
  lemma BlockAfterObjectIsShown(b: Buffer, text: string, e: nat)
    requires Inv(b) && b.buffering && b.mode.Json? && FirstClose(b.pending + text, 0) == Some(e)
    requires var rest := (b.pending + text)[e..]; WholeTaggedBlock(rest) && Search(BARE_JSON, rest, 0).None?
    ensures var rest := (b.pending + text)[e..];
      && AfterFeed(b, text) == Fed(Buffer("", false, Json, 0), [Block((b.pending + text)[..e]), Safe(rest)])
      && ShowsTag(AfterFeed(b, text).segs)
  {
    hide TagEnd, MatchEnd, Search, FirstClose, Depth, FindTag;
    var rest := (b.pending + text)[e..];
    assert AfterFeed(b, text).segs[1] == Safe(rest);
  }

  lemma UntaggedRemainder(b: Buffer, text: string)
    requires !b.buffering && Marker(text).Some? && !HasTag(Open, text)
    ensures forall k | 0 <= k < |AfterFeed(b, text).segs| && AfterFeed(b, text).segs[k].Safe? ::
      !HasTag(Open, AfterFeed(b, text).segs[k].text)
  {
    hide TagEnd, MatchEnd, Search, FirstClose, Depth, FindTag;
    var (mode, start) := Marker(text).value;
    var held := text[start..];
    TagFreeStretch(Open, text, 0, start);
    TagFreeStretch(Open, text, start, |text|);
    if mode.Json? {
      if FirstClose(held, 0).Some? {
        var e := FirstClose(held, 0).value;
        TagFreeStretch(Open, held, e, |held|);
        if Search(BARE_JSON, held[e..], 0).Some? {
          TagFreeStretch(Open, held[e..], 0, Search(BARE_JSON, held[e..], 0).value.start);
        }
      }
    } else if MistralBracket(held).Some? {
      TagFreeStretch(Open, held, MistralBracket(held).value + 1, |held|);
    }
  }

  // -------------------------------------------------------------------- independence of the cuts

  /** Text appended to held text that ends up held is handled as if it had been there from the start. */
  lemma {:induction false} XmlSplitGrows(p: string, t: string)
    requires XmlSplit(p).2
    ensures XmlSplit(p + t) ==
      (XmlSplit(p).0 + XmlSplit(XmlSplit(p).1 + t).0, XmlSplit(XmlSplit(p).1 + t).1, XmlSplit(XmlSplit(p).1 + t).2)
    decreases |p|
  {
    hide FindTag, TagEnd;
    match FindTag(Close, p, 0)
    case None =>
      assert [] + XmlSplit(p + t).0 == XmlSplit(p + t).0;
    case Some(c) =>
      var rest := p[c.end..];
      var o := FindTag(Open, rest, 0).value;
      var held := rest[o.start..];
      FindTagStable(Close, p, t);
      FindTagStable(Open, rest, t);
      CutOfSum(p, t, c.end);
      CutOfSum(rest, t, o.start);
      XmlSplitGrows(held, t);
      Regroup([Block(p[..c.end]), Safe(rest[..o.start])], XmlSplit(held).0, XmlSplit(XmlSplit(held).1 + t).0);
  }

  lemma CutOfSum(p: string, t: string, k: nat)
    requires k <= |p|
    ensures (p + t)[..k] == p[..k] && (p + t)[k..] == p[k..] + t
  {
  }

  /** Chunk-split independence: from any reachable state, if feeding `a` leaves the buffer inside a
      tagged block, then feeding `a` and then `t` is feeding `a + t`: the same pieces in the same
      order and the same state. */
  lemma ChunkSplitIndependence(b: Buffer, a: string, t: string)
    requires Inv(b) && AfterFeed(b, a).state.buffering && AfterFeed(b, a).state.mode.Xml?
    ensures var one, two := AfterFeed(b, a), AfterFeed(AfterFeed(b, a).state, t);
      AfterFeed(b, a + t) == Fed(two.state, one.segs + two.segs)
  {
    hide XmlSplit, FindTag, TagEnd, Flatten, SafeText, Blocks, MatchEnd, Search, FirstClose;
    var one, two := AfterFeed(b, a), AfterFeed(AfterFeed(b, a).state, t);
    if b.buffering {
      XmlModeStays(b, a);
      Regroup(b.pending, a, t);
      XmlSplitGrows(b.pending + a, t);
    } else {
      XmlEntered(b, a);
      var m := FindTag(Open, a, 0).value;
      FindTagStable(Open, a, t);
      CutOfSum(a, t, m.start);
      XmlSplitGrows(a[m.start..], t);
      var pre := [Safe(a[..m.start])];
      assert pre + (XmlSplit(a[m.start..]).0 + two.segs) == (pre + XmlSplit(a[m.start..]).0) + two.segs;
    }
  }

  lemma XmlModeStays(b: Buffer, a: string)
    requires Inv(b) && b.buffering && AfterFeed(b, a).state.buffering && AfterFeed(b, a).state.mode.Xml?
    ensures b.mode.Xml?
  {
    hide XmlSplit, FirstClose, Search, Depth, Find, FindLast, TagEnd, MatchEnd;
  }

  lemma XmlEntered(b: Buffer, a: string)
    requires Inv(b) && !b.buffering && AfterFeed(b, a).state.buffering && AfterFeed(b, a).state.mode.Xml?
    ensures HasTag(Open, a) && Marker(a) == Some((Xml, FindTag(Open, a, 0).value.start))
  {
    hide XmlSplit, FirstClose, Depth, Find, FindLast, TagEnd, MatchEnd, FindTag;
  }

  /** The feed of `text` works on a bare JSON object: one that is held, or one whose marker it finds. */
  predicate JsonFeed(b: Buffer, text: string) {
    if b.buffering then b.mode.Json? else Marker(text).Some? && Marker(text).value.0.Json?
  }

  /** The text that the object is looked for in. */
  function HeldBy(b: Buffer, text: string): string
    requires JsonFeed(b, text)
  {
    if b.buffering then b.pending + text
    else
      MarkerWithin(text);
      text[Marker(text).value.1..]
  }

  lemma MarkerWithin(text: string)
    ensures Marker(text).Some? ==> Marker(text).value.1 <= |text|
  {
    hide TagEnd, MatchEnd, FindTag, Search;
  }

  /** The same for a bare JSON object that `a` does not complete. When `a` itself starts the object, the
      cut does not matter if and only if `t` does not bring in a marker that takes precedence. */
  lemma JsonSplitIndependence(b: Buffer, a: string, t: string)
    requires Inv(b) && JsonFeed(b, a) && FirstClose(HeldBy(b, a), 0).None?
    ensures var one, two := AfterFeed(b, a), AfterFeed(AfterFeed(b, a).state, t);
      AfterFeed(b, a + t) == Fed(two.state, one.segs + two.segs) <==> b.buffering || Marker(a + t) == Marker(a)
  {
    hide FirstClose, Search, Depth, TagEnd, MatchEnd, Inv, Marker;
    MarkerWithin(a);
    if b.buffering {
      Regroup(b.pending, a, t);
      NothingMore(AfterFeed(AfterFeed(b, a).state, t).segs);
    } else {
      JsonEntrySplit(b, a, t);
    }
  }

  lemma JsonEntrySplit(b: Buffer, a: string, t: string)
    requires !b.buffering && JsonFeed(b, a) && FirstClose(HeldBy(b, a), 0).None?
    ensures var one, two := AfterFeed(b, a), AfterFeed(AfterFeed(b, a).state, t);
      AfterFeed(b, a + t) == Fed(two.state, one.segs + two.segs) <==> Marker(a + t) == Marker(a)
  {
    hide FirstClose, Search, Depth, TagEnd, MatchEnd, Marker;
    MarkerWithin(a);
    MarkerWithin(a + t);
    var (_, start) := Marker(a).value;
    var one, two := AfterFeed(b, a), AfterFeed(AfterFeed(b, a).state, t);
    var whole := AfterFeed(b, a + t);
    CutOfSum(a, t, start);
    if Marker(a + t) == Marker(a) {
      NothingMore([Safe(a[..start])]);
    } else {
      assert one.segs + two.segs == [Safe(a[..start])] + two.segs;
      assert (one.segs + two.segs)[0] == Safe(a[..start]);
      FirstPiece(b, a + t);
      if Marker(a + t).Some? { OtherMarker(a, t); }
    }
  }

  lemma FirstPiece(b: Buffer, text: string)
    requires !b.buffering
    ensures var r := AfterFeed(b, text);
      r.segs != [] && r.segs[0] == Safe(match Marker(text) case None => text case Some((_, start)) => text[..start])
  {
    hide FirstClose, Search, Depth, TagEnd, MatchEnd, Marker, Advance;
    MarkerWithin(text);
  }

  lemma MarkerStartsWith(text: string)
    ensures Marker(text).Some? ==>
      var (mode, start) := Marker(text).value;
      start < |text| && text[start] == match mode case Xml => '<' case Mistral => '[' case Json => '{'
  {
    hide TagEnd, MatchEnd, FindTag, Search;
    if Marker(text).Some? {
      var (mode, start) := Marker(text).value;
      match mode
      case Xml => TagShape(Open, text, start);
      case Mistral => MistralMarkerBrackets(text, start);
      case Json => JsonMarkerStartsObject(text, start);
    }
  }

  /** Markers of different kinds start with different characters, so another marker starts elsewhere. */
  lemma OtherMarker(a: string, t: string)
    requires Marker(a).Some? && Marker(a + t).Some? && Marker(a + t) != Marker(a)
    ensures Marker(a + t).value.1 != Marker(a).value.1
  {
    hide Marker;
    MarkerStartsWith(a);
    MarkerStartsWith(a + t);
    assert (a + t)[Marker(a).value.1] == a[Marker(a).value.1];
  }

  // -------------------------------------------------------------------- blocks from chunks

  /** Chunks that add up to nothing produce nothing. */
  lemma {:induction false} EmptyChunks(b: Buffer, chunks: seq<string>)
    requires !b.buffering && Concat(chunks) == ""
    ensures var r := FeedAll(b, chunks); r.state == b && SafeText(r.segs) == "" && Blocks(r.segs) == []
    decreases |chunks|
  {
    hide TagEnd, MatchEnd, Search;
    if chunks != [] {
      assert chunks[0] == "" && Concat(chunks[1..]) == "";
      NoMarkerInNothing();
      EmptyChunks(b, chunks[1..]);
      SegmentsAppend([Safe("")], FeedAll(b, chunks[1..]).segs);
      assert [Safe("")][1..] == [];
    }
  }

  lemma NoMarkerInNothing()
    ensures Marker("").None?
  {
    hide TagEnd, MatchEnd, Search;
    NoTagWithoutAngle(Open, "");
    if Search(MISTRAL_MARKER, "", 0).Some? { MistralMarkerBrackets("", 0); }
    if Search(BARE_JSON, "", 0).Some? { JsonMarkerStartsObject("", 0); }
  }

  /** The chunks after the opening tag of a whole tagged block `t`, however it is cut: `t` comes out
      as one block, and no text is shown. */
  lemma {:induction false} RestOfBlock(b: Buffer, t: string, chunks: seq<string>)
    requires WholeTaggedBlock(t) && b.buffering && b.mode.Xml?
    requires b.pending + Concat(chunks) == t && |b.pending| < |t|
    ensures var r := FeedAll(b, chunks);
      !r.state.buffering && r.state.pending == "" && SafeText(r.segs) == "" && Blocks(r.segs) == [t]
    decreases |chunks|
  {
    hide TagEnd, MatchEnd, Search, FindTag, HasTag;
    assert chunks != [];
    var grown := b.pending + chunks[0];
    var first := AfterFeed(b, chunks[0]);
    Regroup(b.pending, chunks[0], Concat(chunks[1..]));
    assert grown + Concat(chunks[1..]) == t;
    var rest := FeedAll(first.state, chunks[1..]);
    SegmentsAppend(first.segs, rest.segs);
    if |grown| < |t| {
      assert t[..|grown|] == grown;
      HeldBeforeEnd(t, |grown|);
      RestOfBlock(first.state, t, chunks[1..]);
      assert [] + rest.segs == rest.segs;
    } else {
      assert grown == t && Concat(chunks[1..]) == "";
      WholeBlockSplits(t);
      EmptyChunks(first.state, chunks[1..]);
      BlockThenSafe(t, "");
    }
  }

  lemma HeldBeforeEnd(t: string, n: nat)
    requires WholeTaggedBlock(t) && n < |t|
    ensures XmlSplit(t[..n]) == ([], t[..n], true)
  {
    hide TagEnd, MatchEnd;
    NoTagBeforeMatchEnds(Close, t, n);
  }

  lemma WholeBlockSplits(t: string)
    requires WholeTaggedBlock(t)
    ensures XmlSplit(t) == ([Block(t), Safe("")], "", false)
  {
    hide TagEnd, MatchEnd;
    var c := FindTag(Close, t, 0).value;
    assert t[..c.end] == t && t[c.end..] == "";
    NoTagWithoutAngle(Open, "");
  }

  /** A whole tagged block, cut into chunks anywhere after its opening tag, is recognised whole,
      from any state in which nothing is held. */
  lemma BlockFromChunks(b: Buffer, t: string, chunks: seq<string>)
    requires !b.buffering && b.pending == "" && WholeTaggedBlock(t) && Concat(chunks) == t
    requires chunks != [] && |chunks[0]| >= TagEnd(Open, t, 0).value
    ensures var r := FeedAll(b, chunks);
      !r.state.buffering && r.state.pending == "" && SafeText(r.segs) == "" && Blocks(r.segs) == [t]
  {
    hide TagEnd, MatchEnd, Search, AfterFeed, FindTag;
    var c0, o := chunks[0], TagEnd(Open, t, 0).value;
    assert c0 == t[..|c0|];
    TagLocal(Open, t, 0, c0, 0, o);
    TagAtFrontEnters(b, c0);
    var first := AfterFeed(b, c0);
    var rest := FeedAll(first.state, chunks[1..]);
    SegmentsAppend(first.segs, rest.segs);
    SegmentsAppend([Safe("")], XmlSplit(c0).0);
    assert [Safe("")][1..] == [];
    if |c0| < |t| {
      HeldBeforeEnd(t, |c0|);
      RestOfBlock(first.state, t, chunks[1..]);
    } else {
      WholeBlockSplits(t);
      EmptyChunks(first.state, chunks[1..]);
      BlockThenSafe(t, "");
    }
  }

  lemma TagAtFrontEnters(b: Buffer, c: string)
    requires !b.buffering && TagEnd(Open, c, 0).Some?
    ensures var (segs, pending, buffering) := XmlSplit(c);
      AfterFeed(b, c) == Fed(Buffer(pending, buffering, Xml, b.depth), [Safe("")] + segs)
  {
    hide TagEnd, MatchEnd, Search, XmlSplit;
    assert FindTag(Open, c, 0) == Some(Span(0, TagEnd(Open, c, 0).value));
    assert c[..0] == "" && c[0..] == c;
  }

  /** Text after an opening tag that is never closed is all held, and is one block when the stream ends. */
  lemma {:induction false} UnclosedIsHeld(b: Buffer, chunks: seq<string>)
    requires b.buffering && b.mode.Xml? && !HasTag(Close, b.pending + Concat(chunks))
    ensures var r := FeedAll(b, chunks);
      && r.state == b.(pending := b.pending + Concat(chunks))
      && SafeText(r.segs) == "" && Blocks(r.segs) == []
    decreases |chunks|
  {
    hide TagEnd, MatchEnd, Search, FindTag, SafeText, Blocks;
    NothingMore(b.pending);
    NoPieces();
    if chunks != [] {
      var grown := b.pending + chunks[0];
      Regroup(b.pending, chunks[0], Concat(chunks[1..]));
      TagFreeStretch(Close, grown + Concat(chunks[1..]), 0, |grown|);
      assert (grown + Concat(chunks[1..]))[..|grown|] == grown;
      assert AfterFeed(b, chunks[0]) == Fed(b.(pending := grown), []);
      UnclosedIsHeld(b.(pending := grown), chunks[1..]);
      NothingMore(FeedAll(b.(pending := grown), chunks[1..]).segs);
    }
  }

  lemma NoPieces()
    ensures SafeText([]) == "" && Blocks([]) == []
  {
  }

  // -------------------------------------------------------------------- JSON and Mistral blocks

  lemma HeldStartsObject(b: Buffer, text: string)
    requires Inv(b) && JsonFeed(b, text)
    ensures HeldBy(b, text) != "" && HeldBy(b, text)[0] == '{'
  {
    hide TagEnd, MatchEnd, FindTag, Search;
    if b.buffering {
      JsonMarkerStartsObject(b.pending, 0);
    } else {
      JsonMarkerStartsObject(text, Marker(text).value.1);
    }
  }

  /** Every block completed in JSON mode, also by the feed that enters it, is the shortest
      brace-balanced prefix of the held text, and a feed completes at most one. */
  lemma JsonBlockIsShortestBalanced(b: Buffer, text: string)
    requires Inv(b) && JsonFeed(b, text)
    ensures var p, blocks := HeldBy(b, text), Blocks(AfterFeed(b, text).segs);
      if FirstClose(p, 0).None? then blocks == []
      else blocks == [p[..FirstClose(p, 0).value]] && IsShortestBalanced(p, FirstClose(p, 0).value)
  {
    hide TagEnd, MatchEnd, Search, FirstClose, Depth, Inv, Marker, IsShortestBalanced, AdvanceJson;
    var p := HeldBy(b, text);
    HeldStartsObject(b, text);
    FirstCloseIsShortest(p);
    if b.buffering {
      JsonBlocks(b.(pending := p));
    } else {
      var held := Buffer(p, true, Json, Depth(p));
      JsonBlocks(held);
      SegmentsAppend([Safe(text[..Marker(text).value.1])], AdvanceJson(held).segs);
      NoBlockInText(text[..Marker(text).value.1]);
      NothingMore(Blocks(AdvanceJson(held).segs));
    }
  }

  lemma NoBlockInText(x: string)
    ensures Blocks([Safe(x)]) == []
  {
    assert [Safe(x)][1..] == [];
  }

  lemma JsonBlocks(b: Buffer)
    ensures Blocks(AdvanceJson(b).segs) ==
      if FirstClose(b.pending, 0).Some? then [b.pending[..FirstClose(b.pending, 0).value]] else []
  {
    hide MatchEnd, Search, FirstClose, Depth;
    if FirstClose(b.pending, 0).Some? {
      BlockThenSafe(b.pending[..FirstClose(b.pending, 0).value], AdvanceJson(b).segs[1].text);
    }
  }

  /** No feed ever leaves a Mistral block unfinished. */
  lemma MistralIsNeverHeld(b: Buffer, text: string)
    requires Inv(b)
    ensures AfterFeed(b, text).state.mode.Mistral? ==> !AfterFeed(b, text).state.buffering
  {
    FeedConserves(b, text);
  }
}
