/** graph/content_parser.py: `RawToolCallStreamBuffer`, the state machine that splits a token stream
    into safe text and raw tool-call blocks. */
module StreamBuffer {
  import opened Text
  import opened Patterns
  import opened Tags
  import opened Braces

  // \[TOOL_CALLS\] under re.IGNORECASE
  const MISTRAL_MARKER: seq<Piece> := [Word("[tool_calls]", true)]

  // \{\s*"name"\s*:\s*"[^"]+"\s*,\s*"(?:arguments|args)"\s*:
  const BARE_JSON: seq<Piece> := [
    Word("{", false), Spaces, Word("\"name\"", false), Spaces, Word(":", false), Spaces,
    Word("\"", false), Not('"'), Word("\"", false), Spaces, Word(",", false), Spaces,
    Word("\"arg", false), Either("uments", "s", false), Word("\"", false), Spaces, Word(":", false)]

  datatype Mode = Xml | Json | Mistral

  datatype Buffer = Buffer(pending: string, buffering: bool, mode: Mode, depth: int)

  /** What one feed hands out, in stream order: text to show, or a block to parse. */
  datatype Segment = Safe(text: string) | Block(text: string)

  datatype Fed = Fed(state: Buffer, segs: seq<Segment>)

  const EMPTY := Buffer("", false, Xml, 0)

  function SafeText(segs: seq<Segment>): string {
    if segs == [] then ""
    else (if segs[0].Safe? then segs[0].text else "") + SafeText(segs[1..])
  }

  function Blocks(segs: seq<Segment>): seq<string> {
    if segs == [] then []
    else (if segs[0].Block? then [segs[0].text] else []) + Blocks(segs[1..])
  }

  /** The stream text that the segments came from. */
  function Flatten(segs: seq<Segment>): string {
    if segs == [] then "" else segs[0].text + Flatten(segs[1..])
  }

  lemma {:induction false} SegmentsAppend(a: seq<Segment>, b: seq<Segment>)
    ensures SafeText(a + b) == SafeText(a) + SafeText(b)
    ensures Blocks(a + b) == Blocks(a) + Blocks(b)
  {
    if a == [] {
      assert a + b == b;
    } else {
      assert (a + b)[0] == a[0] && (a + b)[1..] == a[1..] + b;
      SegmentsAppend(a[1..], b);
      Regroup(if a[0].Safe? then a[0].text else "", SafeText(a[1..]), SafeText(b));
      Regroup(if a[0].Block? then [a[0].text] else [], Blocks(a[1..]), Blocks(b));
    }
  }

  lemma {:induction false} FlattenAppend(a: seq<Segment>, b: seq<Segment>)
    ensures Flatten(a + b) == Flatten(a) + Flatten(b)
  {
    if a == [] {
      assert a + b == b;
    } else {
      assert (a + b)[0] == a[0] && (a + b)[1..] == a[1..] + b;
      FlattenAppend(a[1..], b);
    }
  }

  /** The pieces that close one block. */
  lemma BlockThenSafe(block: string, part: string)
    ensures var cut := [Block(block), Safe(part)];
      SafeText(cut) == part && Blocks(cut) == [block] && Flatten(cut) == block + part && Concat([part]) == part
  {
    var tail := [Safe(part)];
    assert [Block(block), Safe(part)][1..] == tail;
    assert tail[1..] == [] && SafeText(tail) == part && Blocks(tail) == [] && Flatten(tail) == part;
    assert [part][1..] == [];
  }

  /** The first tool-call marker of the highest-priority kind, and where it starts. */
  function Marker(text: string): (r: Option<(Mode, nat)>)
    ensures r.Some? ==> r.value.1 <= |text|
  {
    match FindTag(Open, text, 0)
    case Some(m) => Some((Xml, m.start))
    case None =>
      match Search(MISTRAL_MARKER, text, 0)
      case Some(m) => Some((Mistral, m.start))
      case None =>
        match Search(BARE_JSON, text, 0)
        case Some(m) => Some((Json, m.start))
        case None => None
  }

  /** Cuts complete XML blocks off held text: (pieces, text still held, still buffering). */
  function XmlSplit(p: string): (r: (seq<Segment>, string, bool))
    decreases |p|
  {
    match FindTag(Close, p, 0)
    case None => ([], p, true)
    case Some(c) =>
      var rest := p[c.end..];
      match FindTag(Open, rest, 0)
      case None => ([Block(p[..c.end]), Safe(rest)], "", false)
      case Some(o) =>
        var r := XmlSplit(rest[o.start..]);
        ([Block(p[..c.end]), Safe(rest[..o.start])] + r.0, r.1, r.2)
  }

  function AdvanceXml(b: Buffer): Fed {
    var (segs, pending, buffering) := XmlSplit(b.pending);
    Fed(b.(pending := pending, buffering := buffering), segs)
  }

  /** At most one JSON object is cut off; a further one that starts in the remainder is held. */
  function AdvanceJson(b: Buffer): Fed {
    match FirstClose(b.pending, 0)
    case None => Fed(b.(depth := Depth(b.pending)), [])
    case Some(e) =>
      var rest := b.pending[e..];
      match Search(BARE_JSON, rest, 0)
      case None => Fed(Buffer("", false, Json, 0), [Block(b.pending[..e]), Safe(rest)])
      case Some(m) =>
        Fed(Buffer(rest[m.start..], true, Json, Depth(rest[m.start..])), [Block(b.pending[..e]), Safe(rest[..m.start])])
  }

  /** The last index of the block: the `]` of the first `]\n`, else the last `]`. */
  function MistralBracket(p: string): Option<nat> {
    match Find(p, "]\n", 0)
    case Some(k) => Some(k)
    case None => FindLast(p, "]", |p|)
  }

  function AdvanceMistral(b: Buffer): Fed {
    var bracket := MistralBracket(b.pending);
    var opening := Find(b.pending, "[", 0);
    if bracket.Some? && (opening.None? || bracket.value > opening.value) then
      Fed(b.(pending := "", buffering := false),
          [Block(b.pending[..bracket.value + 1]), Safe(b.pending[bracket.value + 1..])])
    else Fed(b, [])
  }

  function Advance(b: Buffer): Fed {
    match b.mode
    case Xml => AdvanceXml(b)
    case Json => AdvanceJson(b)
    case Mistral => AdvanceMistral(b)
  }

  function AfterFeed(b: Buffer, text: string): Fed {
    if b.buffering then Advance(b.(pending := b.pending + text))
    else
      match Marker(text)
      case None => Fed(b, [Safe(text)])
      case Some((mode, start)) =>
        var held := text[start..];
        var r := Advance(Buffer(held, true, mode, if mode.Json? then Depth(held) else b.depth));
        Fed(r.state, [Safe(text[..start])] + r.segs)
  }

  function AfterFlush(b: Buffer): Fed {
    if !b.buffering || b.pending == "" then Fed(b, []) else Fed(EMPTY, [Block(b.pending)])
  }

  /** Where the XML loop stands: pieces `done` have been cut off `whole`, and `p` is held. */
  ghost predicate Drained(whole: string, done: seq<Segment>, p: string, buffering: bool) {
    XmlSplit(whole) == if buffering then (done + XmlSplit(p).0, XmlSplit(p).1, XmlSplit(p).2) else (done, p, false)
  }

  lemma DrainStep(whole: string, done: seq<Segment>, p: string)
    requires Drained(whole, done, p, true) && HasTag(Close, p)
    ensures
      var c := FindTag(Close, p, 0).value;
      match FindTag(Open, p[c.end..], 0)
      case None => Drained(whole, done + [Block(p[..c.end]), Safe(p[c.end..])], "", false)
      case Some(o) =>
        var cut := [Block(p[..c.end]), Safe(p[c.end..][..o.start])];
        Drained(whole, done + cut, p[c.end..][o.start..], true)
  {
    var c := FindTag(Close, p, 0).value;
    match FindTag(Open, p[c.end..], 0)
    case None =>
    case Some(o) =>
      var cut := [Block(p[..c.end]), Safe(p[c.end..][..o.start])];
      var more := XmlSplit(p[c.end..][o.start..]).0;
      assert done + (cut + more) == (done + cut) + more;
  }

  /** The text parts and blocks collected so far are those of the pieces cut off. */
  ghost predicate Handed(parts: seq<string>, blocks: seq<string>, segs: seq<Segment>) {
    Concat(parts) == SafeText(segs) && blocks == Blocks(segs)
  }

  lemma NothingHanded()
    ensures Handed([], [], [])
  {
  }

  lemma PiecesAppend(parts: seq<string>, blocks: seq<string>, segs: seq<Segment>, block: string, part: string)
    requires Handed(parts, blocks, segs)
    ensures Handed(parts + [part], blocks + [block], segs + [Block(block), Safe(part)])
  {
    ConcatAppend(parts, [part]);
    SegmentsAppend(segs, [Block(block), Safe(part)]);
    BlockThenSafe(block, part);
  }

  class RawToolCallStreamBuffer {
    var pending: string
    var buffering: bool
    var mode: Mode
    var depth: int

    function State(): Buffer
      reads this
    {
      Buffer(pending, buffering, mode, depth)
    }

    constructor ()
      ensures State() == EMPTY
    {
      pending, buffering, mode, depth := "", false, Xml, 0;
    }

    method Feed(text: string) returns (safe: string, blocks: seq<string>, ghost segs: seq<Segment>)
      modifies this
      ensures Fed(State(), segs) == AfterFeed(old(State()), text)
      ensures safe == SafeText(segs) && blocks == Blocks(segs)
    {
      var prefix := "";
      ghost var before := State();
      segs := [];
      if !buffering {
        var open := FindTag(Open, text, 0);
        if open.Some? {
          prefix, pending, buffering, mode := text[..open.value.start], text[open.value.start..], true, Xml;
        } else {
          var mistral := Search(MISTRAL_MARKER, text, 0);
          if mistral.Some? {
            prefix, pending, buffering, mode := text[..mistral.value.start], text[mistral.value.start..], true, Mistral;
          } else {
            var json := Search(BARE_JSON, text, 0);
            if json.Some? {
              prefix, pending, buffering, mode := text[..json.value.start], text[json.value.start..], true, Json;
              CountBraces();
            } else {
              segs := [Safe(text)];
              return text, [], segs;
            }
          }
        }
        segs := [Safe(prefix)];
      } else {
        pending := pending + text;
      }
      var parts;
      ghost var more;
      match mode {
        case Xml => parts, blocks, more := DrainXml();
        case Json => parts, blocks, more := DrainJson();
        case Mistral => parts, blocks, more := DrainMistral();
      }
      SegmentsAppend(segs, more);
      segs := segs + more;
      safe := prefix + Concat(parts);
    }

    /** `_brace_depth` over the whole of the held text. */
    method CountBraces()
      modifies this`depth
      ensures depth == Depth(pending)
    {
      depth := 0;
      for i := 0 to |pending|
        invariant depth == Depth(pending[..i])
      {
        DepthStep(pending, i);
        if pending[i] == '{' { depth := depth + 1; } else if pending[i] == '}' { depth := depth - 1; }
      }
      assert pending[..|pending|] == pending;
    }

    method DrainXml() returns (parts: seq<string>, blocks: seq<string>, ghost segs: seq<Segment>)
      requires buffering && mode.Xml?
      modifies this`pending, this`buffering
      ensures Fed(State(), segs) == AdvanceXml(old(State()))
      ensures Handed(parts, blocks, segs)
    {
      parts, blocks, segs := [], [], [];
      ghost var whole := pending;
      assert [] + XmlSplit(whole).0 == XmlSplit(whole).0;
      while buffering && pending != ""
        invariant Drained(whole, segs, pending, buffering)
        invariant Handed(parts, blocks, segs)
        decreases buffering, |pending|
      {
        var close := FindTag(Close, pending, 0);
        if close.None? { break; }
        DrainStep(whole, segs, pending);
        var block := pending[..close.value.end];
        var remainder := pending[close.value.end..];
        var next := FindTag(Open, remainder, 0);
        var part := if next.None? then remainder else remainder[..next.value.start];
        pending, buffering := remainder[|part|..], next.Some?;
        PiecesAppend(parts, blocks, segs, block, part);
        blocks, parts := blocks + [block], parts + [part];
        segs := segs + [Block(block), Safe(part)];
      }
      assert segs + [] == segs;
    }

    /** Counts braces up to the `}` that closes the first object, if there is one. */
    method ScanBraces() returns (end: Option<nat>)
      modifies this`depth
      ensures end == FirstClose(pending, 0)
      ensures depth == if end.Some? then 0 else Depth(pending)
    {
      depth := 0;
      for i := 0 to |pending|
        invariant depth == Depth(pending[..i])
        invariant forall e | 0 < e <= i :: !ClosesAt(pending, e)
      {
        DepthStep(pending, i);
        if pending[i] == '{' {
          depth := depth + 1;
        } else if pending[i] == '}' {
          depth := depth - 1;
          if depth == 0 {
            assert ClosesAt(pending, i + 1);
            return Some(i + 1);
          }
        }
      }
      assert pending[..|pending|] == pending;
      end := None;
    }

    method DrainJson() returns (parts: seq<string>, blocks: seq<string>, ghost segs: seq<Segment>)
      requires buffering && mode.Json?
      modifies this
      ensures Fed(State(), segs) == AdvanceJson(old(State()))
      ensures Handed(parts, blocks, segs)
    {
      parts, blocks, segs := [], [], [];
      var end := ScanBraces();
      if end.Some? {
        var block := pending[..end.value];
        var remainder := pending[end.value..];
        blocks := [block];
        pending, buffering := "", false;
        var next := Search(BARE_JSON, remainder, 0);
        if next.Some? {
          parts := [remainder[..next.value.start]];
          pending, buffering, mode := remainder[next.value.start..], true, Json;
          CountBraces();
        } else {
          parts := [remainder];
        }
        segs := [Block(block), Safe(parts[0])];
        BlockThenSafe(block, parts[0]);
      }
    }

    method DrainMistral() returns (parts: seq<string>, blocks: seq<string>, ghost segs: seq<Segment>)
      requires buffering && mode.Mistral?
      modifies this
      ensures Fed(State(), segs) == AdvanceMistral(old(State()))
      ensures Handed(parts, blocks, segs)
    {
      hide Find, FindLast, At, Concat, SafeText, Blocks, Flatten;
      NothingHanded();
      parts, blocks, segs := [], [], [];
      FindFits(pending, "]\n", 0);
      var bracket := Find(pending, "]\n", 0);
      if bracket.None? {
        bracket := FindLast(pending, "]", |pending|);
      }
      var opening := Find(pending, "[", 0);
      if bracket.Some? && (opening.None? || bracket.value > opening.value) {
        blocks := [pending[..bracket.value + 1]];
        parts := [pending[bracket.value + 1..]];
        segs := [Block(blocks[0]), Safe(parts[0])];
        BlockThenSafe(blocks[0], parts[0]);
        pending, buffering := "", false;
      }
    }

    method Flush() returns (safe: string, blocks: seq<string>, ghost segs: seq<Segment>)
      modifies this
      ensures Fed(State(), segs) == AfterFlush(old(State()))
      ensures safe == SafeText(segs) == "" && blocks == Blocks(segs)
    {
      if !buffering || pending == "" {
        return "", [], [];
      }
      safe, blocks, segs := "", [pending], [Block(pending)];
      pending, buffering, mode, depth := "", false, Xml, 0;
    }
  }
}
