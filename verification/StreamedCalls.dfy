/** The executor, the stream buffer and the parser together: what becomes of a model's text when it
    arrives in chunks. */
module StreamedCalls {
  import opened Text
  import opened Patterns
  import opened Tags
  import opened ToolCallParser
  import opened OrderedDict
  import opened Executor
  import opened ExecutorRuns
  import ER = ExecutorRuns
  import JC = JsonCalls
  import RT = RoundTrips
  import SB = StreamBuffer
  import SP = StreamBufferProperties

  /** One stream event per piece of content. */
  function ChunkEvents(chunks: seq<string>): seq<Event> {
    if chunks == [] then [] else [Chunk(Usage(0, 0), false, "", [chunks[0]])] + ChunkEvents(chunks[1..])
  }

  lemma {:induction false} ChunkEventsFeed(codec: Codec, r: Run, chunks: seq<string>)
    ensures ProcessAll(codec, r, ChunkEvents(chunks)) == FeedParts(codec, r, chunks)
    decreases |chunks|
  {
    hide FeedPart;
    if chunks != [] && !r.failed {
      OneChunk(codec, r, chunks[0]);
      ChunkEventsFeed(codec, FeedPart(codec, r, chunks[0]), chunks[1..]);
    }
  }

  lemma OneChunk(codec: Codec, r: Run, c: string)
    requires !r.failed
    ensures Process(codec, r, Chunk(Usage(0, 0), false, "", [c])) == FeedPart(codec, r, c)
  {
    hide FeedPart;
    var next := FeedPart(codec, r, c);
    assert [c][1..] == [];
    assert FeedParts(codec, r, [c]) == FeedParts(codec, next, []);
  }

  lemma RawKeepsText(codec: Codec, r: Run, blocks: seq<string>)
    ensures EmitRaw(codec, r, blocks).text == r.text && EmitRaw(codec, r, blocks).buf == r.buf
  {
    hide ParseBlocks, Keyed, Register;
  }

  /** The accumulated text is the safe text of the buffer, whatever the blocks contain: parsing never
      adds to it and never takes from it. */
  lemma {:induction false} TextFollowsBuffer(codec: Codec, r: Run, chunks: seq<string>)
    requires !FeedParts(codec, r, chunks).failed
    ensures var fed, end := SP.FeedAll(r.buf, chunks), FeedParts(codec, r, chunks);
      end.buf == fed.state && end.text == r.text + SB.SafeText(fed.segs)
    decreases |chunks|
  {
    hide SB.AfterFeed, EmitRaw, SB.Blocks;
    if chunks == [] {
      NothingMore(r.text);
    } else {
      var fed := SB.AfterFeed(r.buf, chunks[0]);
      var safe := SB.SafeText(fed.segs);
      var r1 := r.(buf := fed.state);
      var r2 := if safe != "" then EmitText(r1, safe) else r1;
      var next := FeedPart(codec, r, chunks[0]);
      RawKeepsText(codec, r2, SB.Blocks(fed.segs));
      NothingMore(r.text);
      TextFollowsBuffer(codec, next, chunks[1..]);
      var rest := SP.FeedAll(next.buf, chunks[1..]).segs;
      SB.SegmentsAppend(fed.segs, rest);
      Regroup(r.text, safe, SB.SafeText(rest));
    }
  }

  /** Chunks out of which the buffer makes one block and no text have the effect of that block. */
  lemma {:induction false} QuietChunks(codec: Codec, r: Run, chunks: seq<string>, blocks: seq<string>)
    requires !r.failed && |blocks| <= 1 && ParseBlocks(codec, blocks).Returned?
    requires var fed := SP.FeedAll(r.buf, chunks); SB.SafeText(fed.segs) == "" && SB.Blocks(fed.segs) == blocks
    ensures var r' := r.(buf := SP.FeedAll(r.buf, chunks).state);
      FeedParts(codec, r, chunks) == if blocks == [] then r' else EmitRaw(codec, r', blocks)
    decreases |chunks|
  {
    hide SB.AfterFeed, SB.Blocks, SB.SafeText, ParseBlocks, EmitRaw;
    if chunks != [] {
      var fed := SB.AfterFeed(r.buf, chunks[0]);
      var rest := SP.FeedAll(fed.state, chunks[1..]);
      SB.SegmentsAppend(fed.segs, rest.segs);
      var here, later := SB.Blocks(fed.segs), SB.Blocks(rest.segs);
      var r1 := r.(buf := fed.state);
      NothingParses(codec);
      BufferIsApart(codec, r1, here, rest.state);
      assert SB.SafeText(fed.segs) == "" && SB.SafeText(rest.segs) == "";
      assert |here| + |later| == |blocks|;
      if here == [] {
        assert later == blocks;
        QuietChunks(codec, r1, chunks[1..], blocks);
      } else {
        assert later == [] && here == blocks;
        QuietChunks(codec, EmitRaw(codec, r1, blocks), chunks[1..], []);
      }
    } else {
      SegmentsOfNothing();
    }
  }

  lemma SegmentsOfNothing()
    ensures SB.SafeText([]) == "" && SB.Blocks([]) == []
  {
  }

  lemma NothingParses(codec: Codec)
    ensures ParseBlocks(codec, []) == Returned([])
  {
  }

  /** Emitting calls does not look at the buffer. */
  lemma BufferIsApart(codec: Codec, r: Run, blocks: seq<string>, b: SB.Buffer)
    ensures EmitRaw(codec, r.(buf := b), blocks) == EmitRaw(codec, r, blocks).(buf := b)
    ensures EmitRaw(codec, r, blocks).buf == r.buf
    ensures ParseBlocks(codec, blocks).Returned? ==> EmitRaw(codec, r, blocks).failed == r.failed
  {
    hide ParseBlocks, Keyed, Register;
  }

  /** Deltas for these texts: the first one with the state before it, the others in the responding state. */
  function Deltas(state: Option<Gen>, prev: Option<Gen>, texts: seq<string>): seq<Out>
    decreases |texts|
  {
    if texts == [] then []
    else [Delta(state, prev, texts[0])] + Deltas(Some(Responding), Some(Responding), texts[1..])
  }

  /** Text without markers is streamed as it comes, chunk by chunk, in the responding state. */
  lemma {:induction false} PlainTextIsStreamed(codec: Codec, r: Run, chunks: seq<string>)
    requires !r.failed && !r.buf.buffering && forall c | c in chunks :: c != "" && SB.Marker(c).None?
    ensures var end := ProcessAll(codec, r, ChunkEvents(chunks));
      end.out == r.out + Deltas(r.state, r.prev, chunks) && end.text == r.text + Concat(chunks) && !end.failed
    decreases |chunks|
  {
    hide SB.Marker, Process;
    NothingMore(r.out);
    NothingMore(r.text);
    if chunks != [] {
      var c := chunks[0];
      assert c in chunks && forall x | x in chunks[1..] :: x in chunks;
      OneChunk(codec, r, c);
      PlainChunk(codec, r, c);
      var next := EmitText(r, c);
      PlainTextIsStreamed(codec, next, chunks[1..]);
      Regroup(r.out, [Delta(r.state, r.prev, c)], Deltas(next.state, next.prev, chunks[1..]));
      Regroup(r.text, c, Concat(chunks[1..]));
    }
  }

  lemma PlainChunk(codec: Codec, r: Run, c: string)
    requires !r.buf.buffering && c != "" && SB.Marker(c).None?
    ensures FeedPart(codec, r, c) == EmitText(r, c)
  {
    hide SB.Marker;
    assert [SB.Safe(c)][1..] == [] && c + "" == c;
    SegmentsOfNothing();
  }

  // -------------------------------------------------------------------- one model turn

  /** The number of responses that carry a call under key `k`. */
  function TimesStreamed(out: seq<Out>, k: string): nat {
    if out == [] then 0
    else
      var n := |out| - 1;
      TimesStreamed(out[..n], k) + if out[n].Calls? && LastIn(out[n].calls, k).Some? then 1 else 0
  }

  /** The content of the model-end event is parsed although the stream has been parsed already. */
  predicate Repeats(r: Run, e: Event)
    requires e.ModelEnd?
  {
    e.content != [] && r.text == "" && e.calls == [] && !r.sawToolChunks
  }

  lemma OneMoreTime(out: seq<Out>, o: Out, k: string)
    ensures TimesStreamed(out + [o], k) == TimesStreamed(out, k) + if o.Calls? && LastIn(o.calls, k).Some? then 1 else 0
  {
    var all := out + [o];
    assert all[..|all| - 1] == out && all[|all| - 1] == o;
  }

  lemma EmitCounts(r: Run, t: string, cs: seq<(string, Record)>, k: string)
    ensures TimesStreamed(EmitText(r, t).out, k) == TimesStreamed(r.out, k)
    ensures TimesStreamed(EmitCalls(r, cs).out, k) == TimesStreamed(r.out, k) + if LastIn(cs, k).Some? then 1 else 0
  {
    OneMoreTime(r.out, Delta(r.state, r.prev, t), k);
    OneMoreTime(r.out, Calls(r.state, r.prev, cs), k);
  }

  lemma {:induction false} FreshAreNew(known: set<string>, calls: seq<EndCall>, runId: string, k: string)
    requires k in known
    ensures LastIn(FreshCalls(known, calls, runId), k).None?
    decreases |calls|
  {
    if calls != [] {
      var id := if calls[0].id != "" then calls[0].id else runId;
      FreshAreNew(known, calls[1..], runId, k);
      FreshAreNew(known + {id}, calls[1..], runId, k);
      var rest := FreshCalls(known + {id}, calls[1..], runId);
      var entry := (id, Record(ToolCall(calls[0].name, calls[0].args, id), None));
      assert ([entry] + rest)[1..] == rest;
    }
  }

  /** A model turn after its stream has been handled and nothing is held back. */
  function TurnEnd(codec: Codec, s: Run, e: Event): Run
    requires e.ModelEnd?
  {
    EndContent(codec, StructuredCalls(TakeUsage(s, e.usage), e), e)
  }

  lemma ModelEndIsTurnEnd(codec: Codec, s: Run, e: Event)
    requires e.ModelEnd? && !s.failed && !s.buf.buffering && !TurnEnd(codec, s, e).failed
    ensures var end, turn := Process(codec, s, e), TurnEnd(codec, s, e);
      end == TakeUsage(turn.(finish := FinishReason(e.finish)), e.tokens)
  {
    hide EndContent, StructuredCalls, EmitRaw;
    var u := TakeUsage(s, e.usage);
    SegmentsOfNothing();
    NothingMore(u.text);
    assert FlushBuffer(codec, u) == u;
  }

  /** One block without text around it, in chunks: the state after the chunks. */
  function AfterBlock(codec: Codec, r: Run, t: string, chunks: seq<string>): Run {
    var r' := r.(buf := SP.FeedAll(r.buf, chunks).state);
    var tcs := CallsIn(codec, t);
    if tcs == [] then r' else EmitCalls(r', Keyed(tcs))
  }

  lemma BlockStreams(codec: Codec, r: Run, t: string, chunks: seq<string>)
    requires !r.failed && !r.buf.buffering && r.buf.pending == "" && StripRawToolCalls(codec, t).Returned?
    requires SP.WholeTaggedBlock(t) && Concat(chunks) == t
    requires chunks != [] && |chunks[0]| >= TagEnd(Open, t, 0).value
    ensures ProcessAll(codec, r, ChunkEvents(chunks)) == AfterBlock(codec, r, t, chunks)
    ensures !SP.FeedAll(r.buf, chunks).state.buffering
  {
    hide StripRawToolCalls, SP.WholeTaggedBlock, TagEnd, FeedParts;
    hide SP.FeedAll, SB.Blocks, SB.SafeText, Keyed, EmitCalls;
    hide ChunkEvents, ProcessAll;
    SP.BlockFromChunks(r.buf, t, chunks);
    SingleBlock(codec, t);
    ChunkEventsFeed(codec, r, chunks);
    QuietChunks(codec, r, chunks, [t]);
  }

  lemma BlockIsStripped(t: string)
    requires SP.WholeTaggedBlock(t)
    ensures Strip(t) == t
  {
    hide TagEnd, FindTag, Strip;
    TagShape(Open, t, 0);
    TagShape(Close, t, FindTag(Close, t, 0).value.start);
    StripOfStripped(t);
  }

  lemma EndContentIs(codec: Codec, r: Run, e: Event, t: string)
    requires e.ModelEnd? && (e.content == [] || Concat(e.content) == t)
    requires Strip(t) == t && StripRawToolCalls(codec, t).Returned?
    ensures var (part, tcs) := StripRawToolCalls(codec, t).value;
      EndContent(codec, r, e) ==
        if !Repeats(r, e) then r
        else
          var r1 := if part != "" then EmitText(r, part) else r;
          if tcs != [] then EmitCalls(r1, Keyed(tcs)) else r1
  {
    hide StripRawToolCalls, Strip, EmitCalls, EmitText, Keyed;
  }

  // -------------------------------------------------------------------- whole runs

  /** End to end: a model's turn is one call in tags, in any format that the body parser reads, and
      arrives in chunks cut anywhere after the opening tag. The whole run, model-end event included,
      shows no text and ends with a message that holds exactly that call. It streams the call once if
      the model-end event has no content, and a second time if it has the text again. */
  lemma StreamedCallIsReported(codec: Codec, body: string, tc: ToolCall, chunks: seq<string>, e: Event,
                               onRaise: Failure)
    requires body != "" && Strip(body) == body && !HasTag(Close, body)
    requires ParseOne(codec, true, body, 0) == Returned(Some(tc))
    requires Concat(chunks) == RT.Wrapped(body) && chunks != [] && |chunks[0]| >= |"<tool_call>"|
    requires e.ModelEnd? && e.calls == [] && (e.content == [] || Concat(e.content) == RT.Wrapped(body))
    requires FinishReason(e.finish) in FINISH_REASONS
    ensures var cs := [(Key(tc), Record(tc, None))];
      var again := if e.content == [] then [] else [Calls(Some(Executing), Some(Executing), cs)];
      var input, output := NonZero(e.tokens.input, e.usage.input), NonZero(e.tokens.output, e.usage.output);
      var last := Final("", cs, FinishReason(e.finish), input, output);
      StreamWorkflow(codec, ChunkEvents(chunks) + [e], None, onRaise) ==
        ([Calls(None, None, cs)] + again + [last], false)
  {
    hide StripRawToolCalls, RT.Wrapped, HasTag, Strip, ParseOne, SP.FeedAll, SB.Blocks, SB.SafeText, Items, ProcessAll;
    hide ChunkEvents, Process, SP.WholeTaggedBlock, TagEnd, FinishReason;
    hide EndContent, Register, FINISH_REASONS, Keyed, Key;
    var t := RT.Wrapped(body);
    RT.WrappedEndToEnd(codec, SB.EMPTY, body, tc, chunks);
    RT.PrintedIsWholeBlock(body);
    BlockStreams(codec, START, t, chunks);
    ProcessAllStep(codec, START, ChunkEvents(chunks), e);
    BlockIsStripped(t);
    OneKeyed(tc);
    var cs := [(Key(tc), Record(tc, None))];
    var s := AfterBlock(codec, START, t, chunks);
    EndContentIs(codec, TakeUsage(s, e.usage), e, t);
    ModelEndIsTurnEnd(codec, s, e);
    RegisterOne(Empty(), Key(tc), Record(tc, None));
    RegisterOne(Put(Empty(), Key(tc), Record(tc, None)), Key(tc), Record(tc, None));
    OnlyItem(Key(tc), Record(tc, None));
    var end := ProcessAll(codec, START, ChunkEvents(chunks) + [e]);
    var first, again: Out := Calls(None, None, cs), Calls(Some(Executing), Some(Executing), cs);
    assert [] + [first] == [first] && [first] + [] == [first];
    assert s.out == [first] && s.state == s.prev == Some(Executing) && s.text == "" && !s.sawToolChunks;
    var part := StripRawToolCalls(codec, t).value.0;
    assert part == "" && CallsIn(codec, t) == [tc];
    assert end.out == if e.content == [] then [first] else [first] + [again];
    assert end.calls == Put(Empty(), Key(tc), Record(tc, None)) && end.text == "" && !end.failed;
  }

  lemma OneKeyed(tc: ToolCall)
    ensures Keyed([tc]) == [(Key(tc), Record(tc, None))]
  {
    assert [tc][1..] == [];
  }

  lemma RegisterOne(calls: Dict<Record>, k: string, rec: Record)
    ensures Register(calls, [(k, rec)]) == Put(calls, k, rec)
    ensures Put(Put(calls, k, rec), k, rec) == Put(calls, k, rec)
  {
    assert [(k, rec)][1..] == [];
  }

  lemma OnlyItem(k: string, rec: Record)
    ensures Items(Put(Empty(), k, rec)) == [(k, rec)]
  {
    var d := Put(Empty(), k, rec);
    assert d.order == [k] && [k][1..] == [];
    assert ItemsOf(d.order, d.vals) == [(k, rec)] + ItemsOf([k][1..], d.vals);
  }

  // -------------------------------------------------------------------- markup that is shown

  /** A text without an opening bracket, brace or backtick holds no call outside tags. */
  lemma NoCallOutsideTags(codec: Codec, s: string)
    requires '[' !in s && '{' !in s && '`' !in s
    ensures StripMistral(codec, s) == Returned((s, []))
  {
    hide MistralArray, CodeBlocks, Search, MatchEnd, Gaps;
    forall j | 0 <= j <= |s| ensures !At(s, j, "[TOOL_CALLS]") { AtFirst(s, j, "[TOOL_CALLS]"); }
    JC.NoArray(s, 0);
    JC.NoFenceNoBlock(s, 0);
    var m := Search(SB.BARE_JSON, s, 0);
    if m.Some? { SP.JsonMarkerStartsObject(s, m.value.start); }
    assert StrippedBodies([]) == [];
  }

  /** A family of inputs whose markup is shown: calls in GLM form without arguments. */
  lemma ArgumentlessCallIsShown(codec: Codec, r: Run, name: string, chunks: seq<string>, e: Event)
    requires !r.failed && !r.buf.buffering && r.buf.pending == ""
    requires RT.GlmName(name) && Stripped(name) && '[' !in name && '{' !in name && '`' !in name
    requires var t := RT.Wrapped(name); Concat(chunks) == t && e.ModelEnd? && Concat(e.content) == t
    requires chunks != [] && |chunks[0]| >= |"<tool_call>"| && Repeats(r, e)
    ensures var end := ProcessAll(codec, r, ChunkEvents(chunks) + [e]); !end.failed && end.text == RT.Wrapped(name)
  {
    hide StripRawToolCalls, HasTag, Strip, SP.FeedAll, ProcessAll, ChunkEvents, SP.WholeTaggedBlock, TagEnd, FindTag;
    hide Process, EndContent, FinishReason;
    var t, s := RT.Wrapped(name), AfterBlock(codec, r, RT.Wrapped(name), chunks);
    ArgumentlessHasNoCall(codec, name);
    StripOfStripped(name);
    RT.PrintedIsWholeBlock(name);
    BlockStreams(codec, r, t, chunks);
    BlockIsStripped(t);
    ProcessAllStep(codec, r, ChunkEvents(chunks), e);
    EndContentIs(codec, TakeUsage(s, e.usage), e, t);
    ModelEndIsTurnEnd(codec, s, e);
    assert "" + t == t;
  }

  lemma ArgumentlessHasNoCall(codec: Codec, name: string)
    requires RT.GlmName(name) && Stripped(name) && '[' !in name && '{' !in name && '`' !in name
    ensures StripRawToolCalls(codec, RT.Wrapped(name)) == Returned((RT.Wrapped(name), []))
    ensures CallsIn(codec, RT.Wrapped(name)) == []
  {
    hide HasTag, Strip, TagEnd, FindTag, BlockBodies, ParseOne, StripMistral, RT.GlmName, RT.Wrapped, Collect;
    var t := RT.Wrapped(name);
    BareNameIsNoCall(codec, name);
    RT.PrintedIsWholeBlock(name);
    assert t[0..] == t;
    CollectStep(codec, true, [], name);
    NothingMore([name]);
    WrappedIsPlain(name);
    NoCallOutsideTags(codec, t);
  }

  lemma BareNameIsNoCall(codec: Codec, name: string)
    requires RT.GlmName(name) && Stripped(name)
    ensures name != "" && Strip(name) == name && !HasTag(Close, name)
    ensures ParseOne(codec, true, name, 0) == Returned(None)
  {
    hide HasTag, Strip, ParseOne, Contains, WordAt;
    RT.GlmBodyParses(codec, name, [], 0);
    NothingMore(name);
    assert RT.PrintGlmArgs([]) == "" && name + "" == name;
  }

  lemma WrappedIsPlain(name: string)
    requires '[' !in name && '{' !in name && '`' !in name
    ensures var t := RT.Wrapped(name); '[' !in t && '{' !in t && '`' !in t
  {
  }
}
