/** graph/executor.py: what a whole model turn does: any stream events, cut and flushed in any way, and
    the model-end event. */
module Turns {
  import opened Text
  import opened Patterns
  import opened Tags
  import opened ToolCallParser
  import opened OrderedDict
  import opened Executor
  import opened ExecutorRuns
  import opened StreamedCalls
  import ER = ExecutorRuns
  import RT = RoundTrips
  import SB = StreamBuffer
  import SP = StreamBufferProperties

  predicate ChunkTurn(cs: seq<Event>) {
    forall c | c in cs :: c.Chunk?
  }

  function PartsOf(cs: seq<Event>): seq<string>
    requires ChunkTurn(cs)
  {
    if cs == [] then [] else assert cs[0] in cs; cs[0].parts + PartsOf(cs[1..])
  }

  /** The blocks that each feed completes. */
  function Batches(b: SB.Buffer, parts: seq<string>): seq<seq<string>>
    decreases |parts|
  {
    if parts == [] then []
    else
      var fed := SB.AfterFeed(b, parts[0]);
      [SB.Blocks(fed.segs)] + Batches(fed.state, parts[1..])
  }

  function Flushed(b: SB.Buffer): seq<string> {
    SB.Blocks(SB.AfterFlush(b).segs)
  }

  /** The blocks of a turn, the flush included, one batch for each response they may give. */
  function TurnBatches(b: SB.Buffer, parts: seq<string>): seq<seq<string>> {
    Batches(b, parts) + [Flushed(SP.FeedAll(b, parts).state)]
  }

  function AllBlocks(batches: seq<seq<string>>): seq<string> {
    if batches == [] then [] else batches[0] + AllBlocks(batches[1..])
  }

  /** How many batches hold a call of this name at index `i` of a block. */
  function Carrying(codec: Codec, batches: seq<seq<string>>, name: string, i: nat): nat {
    if batches == [] then 0
    else (if LastWith(codec, batches[0], name, i).Some? then 1 else 0) + Carrying(codec, batches[1..], name, i)
  }

  // -------------------------------------------------------------------- batches

  lemma {:induction false} AllBlocksAppend(a: seq<seq<string>>, b: seq<seq<string>>)
    ensures AllBlocks(a + b) == AllBlocks(a) + AllBlocks(b)
  {
    if a == [] {
      assert a + b == b;
    } else {
      assert (a + b)[0] == a[0] && (a + b)[1..] == a[1..] + b;
      AllBlocksAppend(a[1..], b);
      Regroup(a[0], AllBlocks(a[1..]), AllBlocks(b));
    }
  }

  lemma {:induction false} CarryingAppend(codec: Codec, a: seq<seq<string>>, b: seq<seq<string>>, name: string, i: nat)
    ensures Carrying(codec, a + b, name, i) == Carrying(codec, a, name, i) + Carrying(codec, b, name, i)
  {
    hide LastWith;
    if a == [] {
      assert a + b == b;
    } else {
      assert (a + b)[0] == a[0] && (a + b)[1..] == a[1..] + b;
      CarryingAppend(codec, a[1..], b, name, i);
    }
  }

  lemma {:induction false} FeedAllAppend(b: SB.Buffer, p: seq<string>, q: seq<string>)
    ensures var one := SP.FeedAll(b, p);
      var two := SP.FeedAll(one.state, q);
      && SP.FeedAll(b, p + q) == SB.Fed(two.state, one.segs + two.segs)
      && Batches(b, p + q) == Batches(b, p) + Batches(one.state, q)
    decreases |p|
  {
    hide SB.AfterFeed, SB.Blocks;
    if p == [] {
      assert p + q == q;
      NothingMore(SP.FeedAll(b, q).segs);
    } else {
      assert (p + q)[0] == p[0] && (p + q)[1..] == p[1..] + q;
      var fed := SB.AfterFeed(b, p[0]);
      FeedAllAppend(fed.state, p[1..], q);
      var one := SP.FeedAll(fed.state, p[1..]);
      Regroup(fed.segs, one.segs, SP.FeedAll(one.state, q).segs);
      Regroup([SB.Blocks(fed.segs)], Batches(fed.state, p[1..]), Batches(one.state, q));
    }
  }

  // -------------------------------------------------------------------- what the blocks leave

  function Prefer(tc: Option<ToolCall>, other: Option<Record>): Option<Record> {
    if tc.Some? then Some(Record(tc.value, None)) else other
  }

  /** Between `r` and `r'` the batches have been emitted, as far as name and index are concerned. */
  ghost predicate Tracks(codec: Codec, r: Run, r': Run, batches: seq<seq<string>>, name: string, i: nat) {
    var k := ExecId(name, i);
    && Valid(r'.calls)
    && ER.Lookup(r'.calls, k) == Prefer(LastWith(codec, AllBlocks(batches), name, i), ER.Lookup(r.calls, k))
    && TimesStreamed(r'.out, k) == TimesStreamed(r.out, k) + Carrying(codec, batches, name, i)
  }

  lemma TracksOn(codec: Codec, r: Run, mid: Run, end: Run, a: seq<seq<string>>, b: seq<seq<string>>,
                 name: string, i: nat)
    requires Tracks(codec, r, mid, a, name, i) && Tracks(codec, mid, end, b, name, i)
    ensures Tracks(codec, r, end, a + b, name, i)
  {
    hide LastWith, Carrying, TimesStreamed, ExecId, Valid, AllBlocks;
    AllBlocksAppend(a, b);
    LastWithSplits(codec, AllBlocks(a), AllBlocks(b), name, i);
    CarryingAppend(codec, a, b, name, i);
  }

  lemma NothingTracks(codec: Codec, r: Run, r': Run, name: string, i: nat)
    requires Valid(r.calls) && r'.calls == r.calls
    requires TimesStreamed(r'.out, ExecId(name, i)) == TimesStreamed(r.out, ExecId(name, i))
    ensures Tracks(codec, r, r', [], name, i)
  {
    hide TimesStreamed, ExecId;
  }

  lemma {:induction false} ParsedAll(codec: Codec, blocks: seq<string>)
    requires ParseBlocks(codec, blocks).Returned?
    ensures AllParse(codec, blocks)
  {
    hide StripRawToolCalls;
    if blocks != [] {
      var n := |blocks| - 1;
      ParsedAll(codec, blocks[..n]);
      assert blocks == blocks[..n] + [blocks[n]];
    }
  }

  lemma RawTracks(codec: Codec, r: Run, blocks: seq<string>, name: string, i: nat)
    requires Valid(r.calls) && !EmitRaw(codec, r, blocks).failed && !r.failed
    ensures Tracks(codec, r, EmitRaw(codec, r, blocks), [blocks], name, i)
  {
    hide StripRawToolCalls, ExecId, LastWith, ParseBlocks, LastIn, TimesStreamed, Register, Keyed;
    var k := ExecId(name, i);
    ParsedAll(codec, blocks);
    RegisteredIsLast(codec, r, blocks, name, i);
    BlocksLookUp(codec, blocks, name, i);
    var tcs := ParseBlocks(codec, blocks).value;
    EmitCounts(r, "", Keyed(tcs), k);
    NoneKeyed(k);
    OneBatch(codec, blocks, name, i);
  }

  lemma NoneKeyed(k: string)
    ensures LastIn(Keyed([]), k).None?
  {
  }

  lemma OneBatch(codec: Codec, blocks: seq<string>, name: string, i: nat)
    ensures AllBlocks([blocks]) == blocks
    ensures Carrying(codec, [blocks], name, i) == if LastWith(codec, blocks, name, i).Some? then 1 else 0
  {
    hide LastWith;
    assert [blocks][1..] == [] && AllBlocks([]) == [];
    NothingMore(blocks);
  }

  lemma PartTracks(codec: Codec, r: Run, part: string, name: string, i: nat)
    requires Valid(r.calls) && !r.failed && !FeedPart(codec, r, part).failed
    ensures var fed := SB.AfterFeed(r.buf, part);
      Tracks(codec, r, FeedPart(codec, r, part), [SB.Blocks(fed.segs)], name, i)
      && FeedPart(codec, r, part).buf == fed.state
  {
    hide SB.AfterFeed, SB.SafeText, SB.Blocks, EmitRaw, TimesStreamed, LastWith, Carrying, AllBlocks, ExecId, Valid;
    var fed := SB.AfterFeed(r.buf, part);
    var safe, blocks := SB.SafeText(fed.segs), SB.Blocks(fed.segs);
    var r1 := r.(buf := fed.state);
    var r2 := if safe != "" then EmitText(r1, safe) else r1;
    EmitCounts(r1, safe, [], ExecId(name, i));
    EmptyIsNothing(codec, r2);
    RawTracks(codec, r2, blocks, name, i);
    RawKeepsText(codec, r2, blocks);
  }

  lemma EmptyIsNothing(codec: Codec, r: Run)
    ensures EmitRaw(codec, r, []) == r
  {
  }

  lemma {:induction false} PartsTrack(codec: Codec, r: Run, parts: seq<string>, name: string, i: nat)
    requires Valid(r.calls) && !r.failed && !FeedParts(codec, r, parts).failed
    ensures Tracks(codec, r, FeedParts(codec, r, parts), Batches(r.buf, parts), name, i)
    decreases |parts|
  {
    hide SB.AfterFeed, SB.Blocks, FeedPart, TimesStreamed, Tracks;
    if parts == [] {
      NothingTracks(codec, r, r, name, i);
    } else {
      var next := FeedPart(codec, r, parts[0]);
      PartsKeepCounts(codec, next, parts[1..]);
      PartTracks(codec, r, parts[0], name, i);
      TracksValid(codec, r, next, [SB.Blocks(SB.AfterFeed(r.buf, parts[0]).segs)], name, i);
      PartsTrack(codec, next, parts[1..], name, i);
      var first, later := [SB.Blocks(SB.AfterFeed(r.buf, parts[0]).segs)], Batches(next.buf, parts[1..]);
      TracksOn(codec, r, next, FeedParts(codec, r, parts), first, later, name, i);
    }
  }

  lemma TracksValid(codec: Codec, r: Run, r': Run, batches: seq<seq<string>>, name: string, i: nat)
    requires Tracks(codec, r, r', batches, name, i)
    ensures Valid(r'.calls)
  {
  }

  /** What the stream events before the content parts change does not bear on calls. */
  function BeforeParts(r: Run, e: Event): Run
    requires e.Chunk?
  {
    var u := TakeUsage(r, e.usage);
    var flagged := u.(sawToolChunks := u.sawToolChunks || e.toolChunks);
    if e.reasoning != "" then flagged.(out := flagged.out + [Thinking(flagged.state, flagged.prev, e.reasoning)])
    else flagged
  }

  lemma {:induction false} PartsKeepFlag(codec: Codec, r: Run, parts: seq<string>)
    ensures FeedParts(codec, r, parts).sawToolChunks == r.sawToolChunks
    decreases |parts|
  {
    hide SB.AfterFeed, SB.SafeText, SB.Blocks, ParseBlocks;
    if parts != [] && !r.failed { PartsKeepFlag(codec, FeedPart(codec, r, parts[0]), parts[1..]); }
  }

  /** One stream event. */
  lemma ChunkTracks(codec: Codec, r: Run, e: Event, name: string, i: nat)
    requires e.Chunk? && Valid(r.calls) && !r.failed && !Process(codec, r, e).failed
    ensures var r' := Process(codec, r, e);
      && Tracks(codec, r, r', Batches(r.buf, e.parts), name, i)
      && r'.buf == SP.FeedAll(r.buf, e.parts).state
      && r'.text == r.text + SB.SafeText(SP.FeedAll(r.buf, e.parts).segs)
      && r'.sawToolChunks == (r.sawToolChunks || e.toolChunks)
  {
    hide FeedParts, TimesStreamed, LastWith, AllBlocks, Batches, SP.FeedAll, SB.SafeText, ExecId, Carrying;
    var u := BeforeParts(r, e);
    assert Process(codec, r, e) == FeedParts(codec, u, e.parts);
    OneMoreTime(r.out, Thinking(r.state, r.prev, e.reasoning), ExecId(name, i));
    PartsTrack(codec, u, e.parts, name, i);
    TextFollowsBuffer(codec, u, e.parts);
    PartsKeepFlag(codec, u, e.parts);
  }

  predicate Flagged(cs: seq<Event>) {
    exists c :: c in cs && c.Chunk? && c.toolChunks
  }

  /** All stream events of a turn. */
  lemma {:induction false} StreamTracks(codec: Codec, r: Run, cs: seq<Event>, name: string, i: nat)
    requires ChunkTurn(cs) && Valid(r.calls) && !r.failed && !ProcessAll(codec, r, cs).failed
    ensures var s, fed := ProcessAll(codec, r, cs), SP.FeedAll(r.buf, PartsOf(cs));
      && Tracks(codec, r, s, Batches(r.buf, PartsOf(cs)), name, i)
      && s.buf == fed.state && s.text == r.text + SB.SafeText(fed.segs)
      && s.sawToolChunks == (r.sawToolChunks || Flagged(cs))
    decreases |cs|
  {
    hide Process, TimesStreamed, Tracks, SB.AfterFeed, SB.Blocks;
    if cs == [] {
      NothingTracks(codec, r, r, name, i);
      NothingMore(r.text);
    } else {
      assert cs[0] in cs;
      var next, rest := Process(codec, r, cs[0]), cs[1..];
      FailedStays(codec, next, rest);
      ChunkTracks(codec, r, cs[0], name, i);
      TracksValid(codec, r, next, Batches(r.buf, cs[0].parts), name, i);
      StreamTracks(codec, next, rest, name, i);
      FeedAllAppend(r.buf, cs[0].parts, PartsOf(rest));
      var first, later := Batches(r.buf, cs[0].parts), Batches(next.buf, PartsOf(rest));
      TracksOn(codec, r, next, ProcessAll(codec, r, cs), first, later, name, i);
      var one := SP.FeedAll(r.buf, cs[0].parts);
      SB.SegmentsAppend(one.segs, SP.FeedAll(one.state, PartsOf(rest)).segs);
      Regroup(r.text, SB.SafeText(one.segs), SB.SafeText(SP.FeedAll(one.state, PartsOf(rest)).segs));
      assert Flagged(cs) <==> cs[0].toolChunks || Flagged(rest) by { FlaggedFirst(cs); }
    }
  }

  lemma FlaggedFirst(cs: seq<Event>)
    requires cs != [] && cs[0].Chunk?
    ensures Flagged(cs) <==> cs[0].toolChunks || Flagged(cs[1..])
  {
    assert cs == [cs[0]] + cs[1..];
  }

  // -------------------------------------------------------------------- the model-end event

  /** The structured call that an id brings in: the first one that has it. */
  function StructuredWith(calls: seq<EndCall>, runId: string, k: string): Option<Record> {
    if calls == [] then None
    else
      var id := if calls[0].id != "" then calls[0].id else runId;
      if id == k then Some(Record(ToolCall(calls[0].name, calls[0].args, id), None))
      else StructuredWith(calls[1..], runId, k)
  }

  lemma {:induction false} FreshFinds(known: set<string>, calls: seq<EndCall>, runId: string, k: string)
    requires k !in known
    ensures LastIn(FreshCalls(known, calls, runId), k) == StructuredWith(calls, runId, k)
    decreases |calls|
  {
    if calls != [] {
      var id := if calls[0].id != "" then calls[0].id else runId;
      if id in known {
        FreshFinds(known, calls[1..], runId, k);
      } else {
        var rest := FreshCalls(known + {id}, calls[1..], runId);
        var entry := (id, Record(ToolCall(calls[0].name, calls[0].args, id), None));
        assert ([entry] + rest)[1..] == rest;
        if id == k {
          FreshAreNew(known + {id}, calls[1..], runId, k);
        } else {
          FreshFinds(known + {id}, calls[1..], runId, k);
        }
      }
    }
  }

  /** The call of this name at index `i` of the content, if the content is parsed. */
  function ContentCall(codec: Codec, s: Run, e: Event, name: string, i: nat): Option<ToolCall>
    requires e.ModelEnd?
  {
    if !Repeats(s, e) then None
    else
      var calls := CallsIn(codec, Strip(Concat(e.content)));
      if i < |calls| && calls[i].name == name then Some(calls[i]) else None
  }

  /** The text of the content that is shown, if the content is parsed. */
  function ContentText(codec: Codec, s: Run, e: Event): string
    requires e.ModelEnd?
  {
    if !Repeats(s, e) then ""
    else match StripRawToolCalls(codec, Strip(Concat(e.content))) case Returned((text, _)) => text case Raised => ""
  }

  lemma FlushTracks(codec: Codec, u: Run, name: string, i: nat)
    requires Valid(u.calls) && !u.failed && !FlushBuffer(codec, u).failed
    ensures var f := FlushBuffer(codec, u);
      && Tracks(codec, u, f, [Flushed(u.buf)], name, i) && f.text == u.text && f.sawToolChunks == u.sawToolChunks
  {
    hide EmitRaw, TimesStreamed, LastWith, Carrying, AllBlocks, ExecId, Valid;
    var fed := SB.AfterFlush(u.buf);
    assert fed.segs == [] || (fed.segs == [SB.Block(u.buf.pending)] && fed.segs[1..] == []);
    assert SB.SafeText(fed.segs) == "" && u.text + "" == u.text;
    var u1 := u.(buf := fed.state);
    EmptyIsNothing(codec, u1);
    RawTracks(codec, u1, SB.Blocks(fed.segs), name, i);
    RawKeepsText(codec, u1, SB.Blocks(fed.segs));
    RawKeepsFlag(codec, u1, SB.Blocks(fed.segs));
  }

  lemma RawKeepsFlag(codec: Codec, r: Run, blocks: seq<string>)
    ensures EmitRaw(codec, r, blocks).sawToolChunks == r.sawToolChunks
  {
    hide ParseBlocks, Keyed, Register;
  }

  lemma StructuredDecides(f: Run, e: Event, k: string)
    requires e.ModelEnd? && Valid(f.calls)
    ensures var v, old' := StructuredCalls(f, e), ER.Lookup(f.calls, k);
      var added := StructuredWith(e.calls, e.runId, k);
      && Valid(v.calls) && v.failed == f.failed && v.text == f.text && v.sawToolChunks == f.sawToolChunks
      && ER.Lookup(v.calls, k) == (if old'.Some? then old' else added)
      && TimesStreamed(v.out, k) == TimesStreamed(f.out, k) + if old'.None? && added.Some? then 1 else 0
  {
    hide TimesStreamed, LastIn, Register;
    if e.calls != [] {
      var known := f.calls.vals.Keys;
      var cs := FreshCalls(known, e.calls, e.runId);
      if k in known {
        FreshAreNew(known, e.calls, e.runId, k);
      } else {
        FreshFinds(known, e.calls, e.runId, k);
      }
      EmitCounts(f, "", cs, k);
      RegisterLooksUp(f.calls, cs);
    }
  }

  lemma ContentDecides(codec: Codec, v: Run, e: Event, name: string, i: nat)
    requires e.ModelEnd? && Valid(v.calls) && !v.failed && !EndContent(codec, v, e).failed
    ensures var w, k, again := EndContent(codec, v, e), ExecId(name, i), ContentCall(codec, v, e, name, i);
      && ER.Lookup(w.calls, k) == Prefer(again, ER.Lookup(v.calls, k))
      && TimesStreamed(w.out, k) == TimesStreamed(v.out, k) + (if again.Some? then 1 else 0)
      && w.text == v.text + ContentText(codec, v, e)
  {
    hide StripRawToolCalls, Strip, TimesStreamed, LastIn, Register, Keyed, ExecId, Valid;
    var k := ExecId(name, i);
    NothingMore(v.text);
    if Repeats(v, e) {
      var (text, tcs) := StripRawToolCalls(codec, Strip(Concat(e.content))).value;
      var v1 := if text != "" then EmitText(v, text) else v;
      RT.CallsAreNumbered(codec, Strip(Concat(e.content)));
      LastInNumbered(tcs, name, i);
      EmitCounts(v, text, [], k);
      EmitCounts(v1, "", Keyed(tcs), k);
      RegisterLooksUp(v.calls, Keyed(tcs));
    }
  }

  // -------------------------------------------------------------------- the turn

  /** A whole turn. What is registered under the id of a name and an index is the content's call, if the
      content is parsed and has one there; else the call of the last block that has one there; else what
      was registered before; else a structured call with that id. The id is streamed once for each feed
      and flush that completes a block with such a call, once more if the content has one, and once for a
      structured call with a new id. The text is what the buffer let through, and the content's text. */
  lemma TurnDecides(codec: Codec, r: Run, cs: seq<Event>, e: Event, name: string, i: nat)
    requires ChunkTurn(cs) && e.ModelEnd? && Valid(r.calls) && !r.failed && !ProcessAll(codec, r, cs + [e]).failed
    ensures var s, end := ProcessAll(codec, r, cs), ProcessAll(codec, r, cs + [e]);
      var k, fed := ExecId(name, i), SP.FeedAll(r.buf, PartsOf(cs));
      var batches := TurnBatches(r.buf, PartsOf(cs));
      var again, streamed := ContentCall(codec, s, e, name, i), LastWith(codec, AllBlocks(batches), name, i);
      var before, added := ER.Lookup(r.calls, k), StructuredWith(e.calls, e.runId, k);
      && ER.Lookup(end.calls, k) == Prefer(again, Prefer(streamed, if before.Some? then before else added))
      && TimesStreamed(end.out, k) ==
           TimesStreamed(r.out, k) + Carrying(codec, batches, name, i) + (if again.Some? then 1 else 0)
           + (if streamed.None? && before.None? && added.Some? then 1 else 0)
      && end.text == r.text + SB.SafeText(fed.segs) + ContentText(codec, s, e)
      && (Repeats(s, e) <==>
            && e.content != [] && r.text + SB.SafeText(fed.segs) == ""
            && e.calls == [] && !r.sawToolChunks && !Flagged(cs))
      && Valid(end.calls)
  {
    hide Process, TimesStreamed, LastWith, Carrying, AllBlocks;
    hide Batches, Flushed, SP.FeedAll, SB.SafeText, ExecId, Valid;
    hide ContentCall, ContentText, FlushBuffer, StructuredCalls, EndContent, FinishReason, StructuredWith;
    var s := ProcessAll(codec, r, cs);
    ProcessAllStep(codec, r, cs, e);
    StreamTracks(codec, r, cs, name, i);
    ModelEndInParts(codec, s, e);
    var u := TakeUsage(s, e.usage);
    var f := FlushBuffer(codec, u);
    FlushTracks(codec, u, name, i);
    TracksOn(codec, r, s, f, Batches(r.buf, PartsOf(cs)), [Flushed(s.buf)], name, i);
    var v := StructuredCalls(f, e);
    StructuredDecides(f, e, ExecId(name, i));
    ContentDecides(codec, v, e, name, i);
    SameContent(codec, s, v, e, name, i);
    EndStaysValid(codec, v, e);
  }

  /** A block that the turn leaves unfinished, as a truncated answer does, is flushed as if it were
      complete; a call in it is streamed a second time when its text comes again as content. */
  lemma TruncatedCallIsStreamedTwice(codec: Codec, r: Run, cs: seq<Event>, e: Event, tc: ToolCall)
    requires ChunkTurn(cs) && e.ModelEnd? && Valid(r.calls) && !r.failed && !ProcessAll(codec, r, cs + [e]).failed
    requires var held := SP.FeedAll(r.buf, PartsOf(cs)).state;
      && held.buffering && held.pending != "" && AllBlocks(Batches(r.buf, PartsOf(cs))) == []
      && CallsIn(codec, held.pending) == [tc] && Strip(Concat(e.content)) == held.pending
    requires Repeats(ProcessAll(codec, r, cs), e)
    ensures TimesStreamed(ProcessAll(codec, r, cs + [e]).out, Key(tc)) == TimesStreamed(r.out, Key(tc)) + 2
  {
    hide Process, ProcessAll, TimesStreamed, LastWith, Carrying, AllBlocks, Batches, SP.FeedAll, SB.SafeText;
    hide ExecId, Strip, StripRawToolCalls, Valid, Repeats, StructuredWith;
    var held := SP.FeedAll(r.buf, PartsOf(cs)).state;
    TurnDecides(codec, r, cs, e, tc.name, 0);
    RT.CallsAreNumbered(codec, held.pending);
    NumberedKey(tc, 0);
    CarryingAppend(codec, Batches(r.buf, PartsOf(cs)), [Flushed(held)], tc.name, 0);
    AllBlocksAppend(Batches(r.buf, PartsOf(cs)), [Flushed(held)]);
    NothingCarried(codec, Batches(r.buf, PartsOf(cs)), tc.name, 0);
    FlushedBlock(held);
    OneBatch(codec, [held.pending], tc.name, 0);
    NothingMore([held.pending]);
    LastIsHere(codec, [held.pending], tc.name, 0);
  }

  lemma FlushedBlock(b: SB.Buffer)
    requires b.buffering && b.pending != ""
    ensures Flushed(b) == [b.pending]
  {
    var segs := [SB.Block(b.pending)];
    assert SB.AfterFlush(b).segs == segs && segs[1..] == [];
    SegmentsOfNothing();
    assert SB.Blocks(segs) == [b.pending] + SB.Blocks(segs[1..]);
  }

  lemma {:induction false} NothingCarried(codec: Codec, batches: seq<seq<string>>, name: string, i: nat)
    requires AllBlocks(batches) == []
    ensures Carrying(codec, batches, name, i) == 0
  {
    if batches != [] {
      assert |batches[0]| + |AllBlocks(batches[1..])| == |AllBlocks(batches)|;
      assert batches[0] == [] && AllBlocks(batches[1..]) == [];
      NothingCarried(codec, batches[1..], name, i);
    }
  }

  lemma ModelEndInParts(codec: Codec, s: Run, e: Event)
    requires e.ModelEnd? && !s.failed && !Process(codec, s, e).failed
    ensures var f := FlushBuffer(codec, TakeUsage(s, e.usage));
      var w, end := EndContent(codec, StructuredCalls(f, e), e), Process(codec, s, e);
      && !f.failed && !w.failed && end.calls == w.calls && end.out == w.out && end.text == w.text
  {
    hide FlushBuffer, StructuredCalls, EndContent, FinishReason;
  }

  /** Whether and how the content is parsed depends on the text, the flag and the event only. */
  lemma SameContent(codec: Codec, s: Run, v: Run, e: Event, name: string, i: nat)
    requires e.ModelEnd? && v.text == s.text && v.sawToolChunks == s.sawToolChunks
    ensures Repeats(v, e) == Repeats(s, e)
    ensures ContentCall(codec, v, e, name, i) == ContentCall(codec, s, e, name, i)
    ensures ContentText(codec, v, e) == ContentText(codec, s, e)
  {
    hide StripRawToolCalls, Strip, CallsIn;
  }

  lemma EndStaysValid(codec: Codec, v: Run, e: Event)
    requires e.ModelEnd? && Valid(v.calls)
    ensures Valid(EndContent(codec, v, e).calls)
  {
    hide StripRawToolCalls, Strip, Register, Keyed;
    var c := StripRawToolCalls(codec, Strip(Concat(e.content)));
    if c.Returned? { RegisterLooksUp(v.calls, Keyed(c.value.1)); }
  }

  // -------------------------------------------------------------------- when a turn raises

  lemma ParsesExactly(codec: Codec, blocks: seq<string>)
    ensures ParseBlocks(codec, blocks).Returned? <==> AllParse(codec, blocks)
  {
    hide StripRawToolCalls, ParseBlocks, AllParse;
    if ParseBlocks(codec, blocks).Returned? { ParsedAll(codec, blocks); }
    if AllParse(codec, blocks) { BlocksLookUp(codec, blocks, "", 0); }
  }

  lemma AllParseSplits(codec: Codec, a: seq<string>, b: seq<string>)
    ensures AllParse(codec, a + b) <==> AllParse(codec, a) && AllParse(codec, b)
  {
    hide StripRawToolCalls;
    if AllParse(codec, a + b) {
      forall t | t in a ensures StripRawToolCalls(codec, t).Returned? { assert t in a + b; }
      forall t | t in b ensures StripRawToolCalls(codec, t).Returned? { assert t in a + b; }
    }
  }

  lemma PartFailsExactly(codec: Codec, r: Run, part: string)
    requires !r.failed
    ensures var fed, next := SB.AfterFeed(r.buf, part), FeedPart(codec, r, part);
      (next.failed <==> !AllParse(codec, SB.Blocks(fed.segs))) && next.buf == fed.state
  {
    hide SB.AfterFeed, SB.SafeText, SB.Blocks, StripRawToolCalls, AllParse, Keyed, Register, ParseBlocks;
    var blocks := SB.Blocks(SB.AfterFeed(r.buf, part).segs);
    ParsesExactly(codec, blocks);
    NothingParses(codec);
    ParsesExactly(codec, []);
  }

  lemma {:induction false} PartsFailExactly(codec: Codec, r: Run, parts: seq<string>)
    requires !r.failed
    ensures FeedParts(codec, r, parts).failed <==> !AllParse(codec, AllBlocks(Batches(r.buf, parts)))
    ensures !FeedParts(codec, r, parts).failed ==> FeedParts(codec, r, parts).buf == SP.FeedAll(r.buf, parts).state
    decreases |parts|
  {
    hide SB.AfterFeed, SB.Blocks, FeedPart, StripRawToolCalls;
    if parts != [] {
      var fed, next := SB.AfterFeed(r.buf, parts[0]), FeedPart(codec, r, parts[0]);
      PartFailsExactly(codec, r, parts[0]);
      AllParseSplits(codec, SB.Blocks(fed.segs), AllBlocks(Batches(fed.state, parts[1..])));
      if next.failed {
        PartsKeepCounts(codec, next, parts[1..]);
      } else {
        PartsFailExactly(codec, next, parts[1..]);
      }
    }
  }

  lemma {:induction false} StreamFailsExactly(codec: Codec, r: Run, cs: seq<Event>)
    requires ChunkTurn(cs) && !r.failed
    ensures var s := ProcessAll(codec, r, cs);
      && (s.failed <==> !AllParse(codec, AllBlocks(Batches(r.buf, PartsOf(cs)))))
      && (!s.failed ==> s.buf == SP.FeedAll(r.buf, PartsOf(cs)).state)
    decreases |cs|
  {
    hide FeedParts, AllParse, SB.AfterFeed, SB.Blocks;
    if cs == [] {
      NothingFails(codec);
    } else {
      assert cs[0] in cs;
      var e, rest := cs[0], cs[1..];
      var u, next := BeforeParts(r, e), Process(codec, r, e);
      assert next == FeedParts(codec, u, e.parts);
      PartsFailExactly(codec, u, e.parts);
      FeedAllAppend(r.buf, e.parts, PartsOf(rest));
      AllBlocksAppend(Batches(r.buf, e.parts), Batches(SP.FeedAll(r.buf, e.parts).state, PartsOf(rest)));
      AllParseSplits(codec, AllBlocks(Batches(r.buf, e.parts)),
                     AllBlocks(Batches(SP.FeedAll(r.buf, e.parts).state, PartsOf(rest))));
      FailedStays(codec, next, rest);
      if !next.failed { StreamFailsExactly(codec, next, rest); }
    }
  }

  lemma NothingFails(codec: Codec)
    ensures AllParse(codec, AllBlocks([]))
  {
  }

  /** A turn raises if and only if a block that it completes or flushes cannot be parsed, or its content is
      parsed and cannot be. */
  lemma TurnFailsExactlyWhen(codec: Codec, r: Run, cs: seq<Event>, e: Event)
    requires ChunkTurn(cs) && e.ModelEnd? && !r.failed
    ensures var s, end := ProcessAll(codec, r, cs), ProcessAll(codec, r, cs + [e]);
      end.failed <==>
        || !AllParse(codec, AllBlocks(TurnBatches(r.buf, PartsOf(cs))))
        || (Repeats(s, e) && StripRawToolCalls(codec, Strip(Concat(e.content))).Raised?)
  {
    hide Process, AllParse, Batches, Flushed, AllBlocks, SP.FeedAll, StripRawToolCalls, Strip;
    var s := ProcessAll(codec, r, cs);
    ProcessAllStep(codec, r, cs, e);
    StreamFailsExactly(codec, r, cs);
    var batches, flushed := Batches(r.buf, PartsOf(cs)), Flushed(SP.FeedAll(r.buf, PartsOf(cs)).state);
    AllBlocksAppend(batches, [flushed]);
    OneBlockBatch(flushed);
    AllParseSplits(codec, AllBlocks(batches), flushed);
    if !s.failed { EndFailsExactly(codec, s, e); }
  }

  lemma EndFailsExactly(codec: Codec, s: Run, e: Event)
    requires e.ModelEnd? && !s.failed
    ensures Process(codec, s, e).failed <==>
      || !AllParse(codec, Flushed(s.buf))
      || (Repeats(s, e) && StripRawToolCalls(codec, Strip(Concat(e.content))).Raised?)
  {
    hide SB.AfterFlush, SB.Blocks, AllParse, StripRawToolCalls, Strip;
    hide Keyed, Register, ParseBlocks, FreshCalls, FinishReason;
    hide SB.SafeText;
    ParsesExactly(codec, Flushed(s.buf));
    NothingParses(codec);
    ParsesExactly(codec, []);
    FlushShowsNothing(s.buf);
    NothingMore(s.text);
  }

  lemma FlushShowsNothing(b: SB.Buffer)
    ensures SB.SafeText(SB.AfterFlush(b).segs) == ""
  {
    var segs := SB.AfterFlush(b).segs;
    assert segs == [] || (segs == [SB.Block(b.pending)] && segs[1..] == []);
  }

  // -------------------------------------------------------------------- the final message

  /** The calls of the final message, if the run ends with one. */
  function FinalCalls(codec: Codec, events: seq<Event>, onRaise: Failure): Option<seq<(string, Record)>> {
    var out := StreamWorkflow(codec, events, None, onRaise).0;
    if out != [] && out[|out| - 1].Final? then Some(out[|out| - 1].calls) else None
  }

  /** A run that ends with a turn: its final message holds what is registered when the turn has ended. */
  lemma FinalAfterTurn(codec: Codec, before: seq<Event>, cs: seq<Event>, e: Event, onRaise: Failure)
    requires e.ModelEnd? && FinishReason(e.finish) in FINISH_REASONS
    requires !ProcessAll(codec, START, before + (cs + [e])).failed
    ensures var r, events := ProcessAll(codec, START, before), before + (cs + [e]);
      var end := ProcessAll(codec, r, cs + [e]);
      && !r.failed && Valid(r.calls) && !end.failed
      && FinalCalls(codec, events, onRaise) == Some(Items(end.calls))
      && forall k, rec :: (k, rec) in Items(end.calls) <==> ER.Lookup(end.calls, k) == Some(rec)
  {
    hide ProcessAll, Items, FinishReason, Started, LastStreamed, Shown;
    var r, events := ProcessAll(codec, START, before), before + (cs + [e]);
    ProcessAllSplit(codec, START, before, cs + [e]);
    FailedStays(codec, r, cs + [e]);
    StartKeeps();
    RunKeeps(codec, START, {}, before);
    RunKeeps(codec, START, {}, events);
    FinishIsLast(codec, events);
    assert events[|events| - 1] == e;
    FinishIsNormalized(e.finish);
    var end := ProcessAll(codec, START, events);
    forall k, rec ensures (k, rec) in Items(end.calls) <==> ER.Lookup(end.calls, k) == Some(rec) {
      ItemIffLookedUp(end.calls, k, rec);
    }
  }

  /** The call that replaces the call at index `i` of block `m`, if any: the content's, or else that of a
      later block of the turn. */
  function Replacement(codec: Codec, s: Run, e: Event, later: seq<string>, name: string, i: nat): Option<ToolCall>
    requires e.ModelEnd?
  {
    var again := ContentCall(codec, s, e, name, i);
    if again.Some? then again else LastWith(codec, later, name, i)
  }

  /** A call that a turn streams from block `m` is missing from the final message of a run that ends with
      the turn if and only if the content of the model-end event, when it is parsed, or else a later block
      has another call of its name at its index. A content that has the call itself there brings it back. */
  lemma LostFromFinalExactlyWhen(codec: Codec, before: seq<Event>, cs: seq<Event>, e: Event, onRaise: Failure,
                                 m: nat, i: nat)
    requires ChunkTurn(cs) && e.ModelEnd? && FinishReason(e.finish) in FINISH_REASONS
    requires !ProcessAll(codec, START, before + (cs + [e])).failed
    requires var blocks := AllBlocks(TurnBatches(ProcessAll(codec, START, before).buf, PartsOf(cs)));
      m < |blocks| && i < |CallsIn(codec, blocks[m])|
    ensures var r := ProcessAll(codec, START, before);
      var s, blocks := ProcessAll(codec, r, cs), AllBlocks(TurnBatches(r.buf, PartsOf(cs)));
      var x, final := CallsIn(codec, blocks[m])[i], FinalCalls(codec, before + (cs + [e]), onRaise);
      var other := Replacement(codec, s, e, blocks[m + 1..], x.name, i);
      final.Some? && ((Key(x), Record(x, None)) !in final.value <==> other.Some? && other.value != x)
  {
    hide ProcessAll, FinalCalls, Items, TurnBatches, ExecId, LastWith, ContentCall, StripRawToolCalls, FinishReason;
    var r := ProcessAll(codec, START, before);
    var blocks := AllBlocks(TurnBatches(r.buf, PartsOf(cs)));
    var x := CallsIn(codec, blocks[m])[i];
    FinalAfterTurn(codec, before, cs, e, onRaise);
    TurnDecides(codec, r, cs, e, x.name, i);
    RT.CallsAreNumbered(codec, blocks[m]);
    NumberedKey(x, i);
    var upTo := blocks[..m + 1];
    assert upTo + blocks[m + 1..] == blocks;
    LastWithSplits(codec, upTo, blocks[m + 1..], x.name, i);
    LastIsHere(codec, upTo, x.name, i);
  }

  /** A record under an id that no block of the turn, nothing before it and no structured call brings in is
      in the final message if and only if the content has a call of that name at that index: a call that
      is at another index of its block is then held twice. */
  lemma SurplusExactlyWhen(codec: Codec, before: seq<Event>, cs: seq<Event>, e: Event, onRaise: Failure,
                           name: string, i: nat)
    requires ChunkTurn(cs) && e.ModelEnd? && FinishReason(e.finish) in FINISH_REASONS
    requires !ProcessAll(codec, START, before + (cs + [e])).failed
    requires var r := ProcessAll(codec, START, before);
      && LastWith(codec, AllBlocks(TurnBatches(r.buf, PartsOf(cs))), name, i).None?
      && ER.Lookup(r.calls, ExecId(name, i)).None? && StructuredWith(e.calls, e.runId, ExecId(name, i)).None?
    ensures var s := ProcessAll(codec, ProcessAll(codec, START, before), cs);
      var final, again := FinalCalls(codec, before + (cs + [e]), onRaise), ContentCall(codec, s, e, name, i);
      final.Some? && forall rec :: (ExecId(name, i), rec) in final.value <==> Prefer(again, None) == Some(rec)
  {
    hide ProcessAll, FinalCalls, Items, TurnBatches, ExecId, LastWith, ContentCall, StripRawToolCalls, FinishReason;
    hide StructuredWith;
    FinalAfterTurn(codec, before, cs, e, onRaise);
    TurnDecides(codec, ProcessAll(codec, START, before), cs, e, name, i);
  }

  // -------------------------------------------------------------------- two calls

  /** Bodies are found where they are, whatever stands in front. */
  lemma {:induction false} BodiesInTail(pre: string, t: string, from: nat)
    requires from <= |t|
    ensures BlockBodies(pre + t, |pre| + from) == BlockBodies(t, from)
    decreases |t| - from
  {
    hide FindTag, TagEnd, Strip;
    var w := pre + t;
    TagInTail(Open, pre, t, from);
    if FindTag(Open, t, from).Some? {
      var o := FindTag(Open, t, from).value;
      TagInTail(Close, pre, t, o.end);
      var c := FindTag(Close, t, o.end);
      var stop := if c.None? then |t| else c.value.start;
      assert w[|pre| + o.end..|pre| + stop] == t[o.end..stop];
      BodiesInTail(pre, t, if c.None? then |t| else c.value.end);
    }
  }

  lemma TagInTail(kind: TagKind, pre: string, t: string, from: nat)
    requires from <= |t|
    ensures FindTag(kind, pre + t, |pre| + from) == match FindTag(kind, t, from)
      case None => None
      case Some(m) => Some(Span(|pre| + m.start, |pre| + m.end))
  {
    hide FindTag, TagEnd;
    var w := pre + t;
    var x, y := FindTag(kind, w, |pre| + from), FindTag(kind, t, from);
    if y.Some? { TagLocal(kind, w, |pre|, t, y.value.start, y.value.end); }
    if x.Some? { TagLocal(kind, w, |pre|, t, x.value.start - |pre|, x.value.end - |pre|); }
  }

  /** The bodies of a whole block with more text after it. */
  lemma BodiesOfBlockAndMore(t: string, rest: string)
    requires SP.WholeTaggedBlock(t)
    ensures BlockBodies(t + rest, 0) == BlockBodies(t, 0) + BlockBodies(rest, 0)
    ensures FindTag(Open, t + rest, 0).Some? && FindTag(Open, t + rest, 0).value.start == 0
  {
    hide FindTag, TagEnd, Strip;
    RT.WholeBlockHasOneBody(t);
    var w, o := t + rest, TagEnd(Open, t, 0).value;
    var c := FindTag(Close, t, 0).value;
    assert FindTag(Open, t, 0) == Some(Span(0, o));
    FindTagStable(Open, t, rest);
    FindTagStable(Close, t, rest);
    assert FindTag(Close, w, o) == Some(c);
    assert w[o..c.start] == t[o..c.start];
    BodiesInTail(t, rest, 0);
  }

  lemma TwoBodies(codec: Codec, x: string, y: string, tc: ToolCall, tc': ToolCall)
    requires x != "" && Strip(x) == x && !HasTag(Close, x) && ParseOne(codec, true, x, 0) == Returned(Some(tc))
    requires y != "" && Strip(y) == y && !HasTag(Close, y) && ParseOne(codec, true, y, 1) == Returned(Some(tc'))
    ensures var t := RT.Wrapped(x) + RT.Wrapped(y); Strip(t) == t && CallsIn(codec, t) == [tc, tc']
    ensures StripRawToolCalls(codec, RT.Wrapped(x) + RT.Wrapped(y)).Returned?
  {
    hide FindTag, TagEnd, Strip, BlockBodies, ParseOne, RT.Wrapped;
    var t1, t2 := RT.Wrapped(x), RT.Wrapped(y);
    var t := t1 + t2;
    RT.PrintedIsWholeBlock(x);
    RT.PrintedIsWholeBlock(y);
    BodiesOfBlockAndMore(t1, t2);
    CollectStep(codec, true, [], x);
    CollectStep(codec, true, [x], y);
    NothingMore([x]);
    NothingMore([tc]);
    assert [tc] + [tc'] == [tc, tc'];
    assert t[0..] == t && BlockBodies(t, 0) == [x] + [y];
    assert Collect(codec, true, [x]) == Returned([tc]);
    assert Collect(codec, true, [x] + [y]) == Returned([tc, tc']);
    WrappedEnds(x);
    WrappedEnds(y);
    assert t[0] == t1[0] && t[|t| - 1] == t2[|t2| - 1];
    StripOfStripped(t);
  }

  lemma WrappedEnds(x: string)
    ensures var t := RT.Wrapped(x); t != "" && t[0] == '<' && t[|t| - 1] == '>'
  {
    var open, close := "<tool_call>", "</tool_call>";
    EndsOfSum(open, x, close);
    assert close[|close| - 1] == '>' && open[0] == '<';
    assert RT.Wrapped(x) == open + x + close;
  }

  lemma EndsOfSum(a: string, b: string, c: string)
    requires a != "" && c != ""
    ensures var s := a + b + c; s != "" && s[0] == a[0] && s[|s| - 1] == c[|c| - 1]
  {
  }

  /** One whole block in one chunk. */
  lemma BlockInOneChunk(codec: Codec, r: Run, body: string, tc: ToolCall)
    requires !r.failed && !r.buf.buffering && r.buf.pending == ""
    requires body != "" && Strip(body) == body && !HasTag(Close, body)
    requires ParseOne(codec, true, body, 0) == Returned(Some(tc))
    ensures var t := RT.Wrapped(body);
      var fed, next := SB.AfterFeed(r.buf, t), FeedPart(codec, r, t);
      && SB.Blocks(fed.segs) == [t] && SB.SafeText(fed.segs) == "" && !fed.state.buffering && fed.state.pending == ""
      && next == EmitCalls(r.(buf := fed.state), [(Key(tc), Record(tc, None))])
      && CallsIn(codec, t) == [tc]
  {
    hide SB.AfterFeed, SB.Blocks, SB.SafeText, ParseOne, Strip, HasTag, RT.Wrapped, StripRawToolCalls, EmitCalls, Key;
    var t := RT.Wrapped(body);
    WrappedLength(body);
    assert [t][1..] == [] && t + "" == t;
    RT.WrappedEndToEnd(codec, r.buf, body, tc, [t]);
    var fed := SB.AfterFeed(r.buf, t);
    assert SP.FeedAll(r.buf, [t]) == SB.Fed(fed.state, fed.segs + []);
    NothingMore(fed.segs);
    SingleBlock(codec, t);
    OneKeyed(tc);
  }

  lemma WrappedLength(body: string)
    ensures |RT.Wrapped(body)| >= |"<tool_call>"| && Concat([RT.Wrapped(body)]) == RT.Wrapped(body)
  {
    hide RT.Wrapped;
    var t := RT.Wrapped(body);
    assert [t][1..] == [] && t + "" == t;
    assert |t| >= |"<tool_call>"| by { WrappedIs(body); }
  }

  lemma WrappedIs(body: string)
    ensures RT.Wrapped(body) == "<tool_call>" + body + "</tool_call>"
  {
  }

  /** The call is held under its id. */
  predicate Holds(calls: seq<(string, Record)>, tc: ToolCall) {
    (tc.executionId, Record(tc, None)) in calls
  }

  /** Runs with two calls in GLM form, one after the other, each in its own chunk. If the model-end event
      has no content, the first of two calls of one function is lost. If it has the text again, nothing is
      lost, but the second call is registered under the index it has in the whole text as well: for
      different functions the final message holds it twice. */
  lemma TwoCallsRun(codec: Codec, m: string, a: seq<(string, string)>, n: string, b: seq<(string, string)>, e: Event,
                    onRaise: Failure)
    requires RT.GlmName(m) && a != [] && RT.GlmName(n) && b != [] && forall x | x in a + b :: RT.GlmArg(x)
    requires e.ModelEnd? && e.calls == [] && FinishReason(e.finish) in FINISH_REASONS
    requires e.content == [] || Concat(e.content) == RT.PrintGlm(m, a) + RT.PrintGlm(n, b)
    ensures var final := FinalCalls(codec, ChunkEvents([RT.PrintGlm(m, a), RT.PrintGlm(n, b)]) + [e], onRaise);
      final.Some? &&
      var calls, first, second := final.value, RT.GlmCall(m, a, 0), RT.GlmCall(n, b, 0);
      if e.content == [] then
        Holds(calls, second) && (first.name == second.name && first.args != second.args ==> !Holds(calls, first))
      else
        && Holds(calls, first) && Holds(calls, RT.GlmCall(n, b, 1))
        && (first.name != second.name ==> Holds(calls, second))
  {
    hide RT.GlmName, RT.GlmArg, ArgsOf, StripRawToolCalls, HasTag;
    hide Strip, ParseOne, FinishReason, RT.Wrapped, Items, ExecId;
    hide ProcessAll, FinalCalls, ChunkEvents, TurnBatches, CallsIn, RT.PrintGlmArgs, SB.AfterFeed, FeedPart;
    var x, y := m + RT.PrintGlmArgs(a), n + RT.PrintGlmArgs(b);
    var t1, t2 := RT.Wrapped(x), RT.Wrapped(y);
    var cs := ChunkEvents([t1, t2]);
    RT.GlmBodyIsClean(codec, m, a);
    RT.GlmBodyIsClean(codec, n, b);
    RT.GlmBodyParses(codec, n, b, 1);
    var tc1, tc2, tc3 := RT.GlmCall(m, a, 0), RT.GlmCall(n, b, 0), RT.GlmCall(n, b, 1);
    TwoBodies(codec, x, y, tc1, tc3);
    TwoChunks(codec, x, y, tc1, tc2);
    TwoChunksEnd(codec, x, y, tc1, tc2, e);
    assert [] + (cs + [e]) == cs + [e];
    FinalAfterTurn(codec, [], cs, e, onRaise);
    var r := ProcessAll(codec, START, []);
    assert r == START by { NothingProcessed(codec); }
    TurnDecides(codec, START, cs, e, tc1.name, 0);
    TurnDecides(codec, START, cs, e, tc2.name, 0);
    TurnDecides(codec, START, cs, e, tc2.name, 1);
    TwoBlocksLast(codec, t1, t2, tc1, tc2, tc1.name, 0);
    TwoBlocksLast(codec, t1, t2, tc1, tc2, tc2.name, 0);
    TwoBlocksLast(codec, t1, t2, tc1, tc2, tc2.name, 1);
    NoneStructured(e.runId);
  }

  lemma NoneStructured(runId: string)
    ensures forall k :: StructuredWith([], runId, k).None?
  {
  }

  lemma NothingProcessed(codec: Codec)
    ensures ProcessAll(codec, START, []) == START
  {
  }

  lemma {:induction false} ChunksAreTurn(chunks: seq<string>)
    ensures ChunkTurn(ChunkEvents(chunks)) && PartsOf(ChunkEvents(chunks)) == chunks && !Flagged(ChunkEvents(chunks))
  {
    if chunks != [] {
      ChunksAreTurn(chunks[1..]);
      var cs := ChunkEvents(chunks);
      assert cs[1..] == ChunkEvents(chunks[1..]) && cs == [cs[0]] + cs[1..];
      assert chunks == [chunks[0]] + chunks[1..];
    }
  }

  lemma TwoBlocksLast(codec: Codec, t1: string, t2: string, tc1: ToolCall, tc2: ToolCall, name: string, i: nat)
    requires CallsIn(codec, t1) == [tc1] && CallsIn(codec, t2) == [tc2]
    ensures LastWith(codec, [t1, t2], name, i) ==
      if i > 0 then None
      else if tc2.name == name then Some(tc2)
      else if tc1.name == name then Some(tc1) else None
  {
    hide CallsIn;
    assert [t1, t2][..1] == [t1] && [t1][..0] == [] && LastWith(codec, [], name, i).None?;
    assert LastWith(codec, [t1], name, i) == if i == 0 && tc1.name == name then Some(tc1) else None;
  }

  /** The stream of two calls: the two blocks, no text, and no failure. */
  lemma TwoChunks(codec: Codec, x: string, y: string, tc1: ToolCall, tc2: ToolCall)
    requires x != "" && Strip(x) == x && !HasTag(Close, x) && ParseOne(codec, true, x, 0) == Returned(Some(tc1))
    requires y != "" && Strip(y) == y && !HasTag(Close, y) && ParseOne(codec, true, y, 0) == Returned(Some(tc2))
    ensures var t1, t2 := RT.Wrapped(x), RT.Wrapped(y);
      var s, cs := ProcessAll(codec, START, ChunkEvents([t1, t2])), ChunkEvents([t1, t2]);
      && ChunkTurn(cs) && PartsOf(cs) == [t1, t2] && !Flagged(cs)
      && !s.failed && !s.buf.buffering && s.text == "" && !s.sawToolChunks
      && AllBlocks(TurnBatches(SB.EMPTY, [t1, t2])) == [t1, t2]
      && SB.SafeText(SP.FeedAll(SB.EMPTY, [t1, t2]).segs) == ""
      && CallsIn(codec, t1) == [tc1] && CallsIn(codec, t2) == [tc2]
  {
    hide HasTag, Strip, ParseOne, RT.Wrapped, SB.AfterFeed;
    hide SB.Blocks, SB.SafeText, ProcessAll, ChunkEvents, FeedPart, CallsIn;
    hide EmitCalls, Key;
    var t1, t2 := RT.Wrapped(x), RT.Wrapped(y);
    ChunksAreTurn([t1, t2]);
    BlockInOneChunk(codec, START, x, tc1);
    var mid := FeedPart(codec, START, t1);
    CallsKeepRest(START.(buf := SB.AfterFeed(SB.EMPTY, t1).state), [(Key(tc1), Record(tc1, None))]);
    BlockInOneChunk(codec, mid, y, tc2);
    CallsKeepRest(mid.(buf := SB.AfterFeed(mid.buf, t2).state), [(Key(tc2), Record(tc2, None))]);
    ChunkEventsFeed(codec, START, [t1, t2]);
    assert [t1, t2][1..] == [t2] && [t2][1..] == [];
    assert FeedParts(codec, START, [t1, t2]) == FeedParts(codec, mid, [t2]) == FeedPart(codec, mid, t2);
    var one, two := SB.AfterFeed(SB.EMPTY, t1), SB.AfterFeed(mid.buf, t2);
    assert SP.FeedAll(mid.buf, [t2]) == SB.Fed(two.state, two.segs + []);
    assert SP.FeedAll(SB.EMPTY, [t1, t2]) == SB.Fed(two.state, one.segs + (two.segs + []));
    NothingMore(two.segs);
    SB.SegmentsAppend(one.segs, two.segs);
    assert Batches(two.state, []) == [] && mid.buf == one.state;
    assert Batches(mid.buf, [t2]) == [[t2]] + [] && Batches(SB.EMPTY, [t1, t2]) == [[t1]] + Batches(mid.buf, [t2]);
    SegmentsOfNothing();
    assert Flushed(two.state) == [];
    assert TurnBatches(SB.EMPTY, [t1, t2]) == [[t1], [t2], []];
    ThreeBatches([t1], [t2], []);
    assert [t1] + [t2] == [t1, t2];
  }

  lemma CallsKeepRest(r: Run, cs: seq<(string, Record)>)
    ensures var end := EmitCalls(r, cs);
      end.buf == r.buf && end.text == r.text && end.failed == r.failed && end.sawToolChunks == r.sawToolChunks
  {
    hide Register;
  }

  lemma OneBlockBatch(c: seq<string>)
    ensures AllBlocks([c]) == c
  {
    assert [c][1..] == [] && AllBlocks([]) == [];
    NothingMore(c);
  }

  lemma ThreeBatches(a: seq<string>, b: seq<string>, c: seq<string>)
    ensures AllBlocks([a, b, c]) == a + b + c
  {
    assert [a, b, c][1..] == [b, c] && [b, c][1..] == [c] && [c][1..] == [];
    OneBlockBatch(c);
    assert AllBlocks([b, c]) == b + c;
    Regroup(a, b, c);
  }

  /** The model-end event after them does not fail either. */
  lemma TwoChunksEnd(codec: Codec, x: string, y: string, tc1: ToolCall, tc2: ToolCall, e: Event)
    requires x != "" && Strip(x) == x && !HasTag(Close, x) && ParseOne(codec, true, x, 0) == Returned(Some(tc1))
    requires y != "" && Strip(y) == y && !HasTag(Close, y) && ParseOne(codec, true, y, 0) == Returned(Some(tc2))
    requires var t := RT.Wrapped(x) + RT.Wrapped(y);
      && e.ModelEnd? && (e.content == [] || Concat(e.content) == t)
      && Strip(t) == t && StripRawToolCalls(codec, t).Returned?
    ensures !ProcessAll(codec, START, ChunkEvents([RT.Wrapped(x), RT.Wrapped(y)]) + [e]).failed
  {
    hide HasTag, Strip, ParseOne, RT.Wrapped, ProcessAll, ChunkEvents, Process, StripRawToolCalls, EndContent, CallsIn;
    hide TurnBatches, SP.FeedAll, SB.SafeText, FinishReason;
    var cs := ChunkEvents([RT.Wrapped(x), RT.Wrapped(y)]);
    TwoChunks(codec, x, y, tc1, tc2);
    var s := ProcessAll(codec, START, cs);
    ProcessAllStep(codec, START, cs, e);
    EndContentIs(codec, StructuredCalls(TakeUsage(s, e.usage), e), e, RT.Wrapped(x) + RT.Wrapped(y));
    ModelEndIsTurnEnd(codec, s, e);
  }
}
