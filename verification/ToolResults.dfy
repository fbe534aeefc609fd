/** graph/executor.py: what a run reports of the tools that the workflow itself runs, and of the model's
    reasoning. */
module ToolResults {
  import opened Text
  import opened ToolCallParser
  import opened OrderedDict
  import opened Executor
  import opened ExecutorRuns
  import ER = ExecutorRuns
  import SB = StreamBuffer

  /** The reasoning that a run streams. */
  function Thoughts(out: seq<Out>): seq<string> {
    if out == [] then []
    else
      var n := |out| - 1;
      Thoughts(out[..n]) + if out[n].Thinking? then [out[n].text] else []
  }

  lemma {:induction false} LastStreamedAppend(a: seq<Out>, b: seq<Out>, k: string)
    ensures LastStreamed(a + b, k) == if LastStreamed(b, k).Some? then LastStreamed(b, k) else LastStreamed(a, k)
    decreases |b|
  {
    hide LastIn;
    if b == [] {
      assert a + b == a;
    } else {
      var n := |b| - 1;
      assert (a + b)[..|a + b| - 1] == a + b[..n];
      LastStreamedAppend(a, b[..n], k);
    }
  }

  /** What is streamed under a key from `r` to `r'` is what is registered then, and if nothing is, then what
      was registered stays. In between, the run has streamed these thoughts. */
  ghost predicate Follows(r: Run, r': Run, k: string, thoughts: seq<string>) {
    && r.out <= r'.out && Valid(r'.calls)
    && ER.Lookup(r'.calls, k) == (var last := LastStreamed(r'.out[|r.out|..], k);
                                  if last.Some? then last else ER.Lookup(r.calls, k))
    && Thoughts(r'.out) == Thoughts(r.out) + thoughts
  }

  lemma FollowsItself(r: Run, r': Run, k: string)
    requires Valid(r.calls) && r'.calls == r.calls && r'.out == r.out
    ensures Follows(r, r', k, [])
  {
    assert r'.out[|r.out|..] == [];
  }

  lemma FollowsOn(r: Run, mid: Run, end: Run, k: string, a: seq<string>, b: seq<string>)
    requires Follows(r, mid, k, a) && Follows(mid, end, k, b)
    ensures Follows(r, end, k, a + b)
    ensures (a == [] ==> Follows(r, end, k, b)) && (b == [] ==> Follows(r, end, k, a))
  {
    NothingMore(a);
    NothingMore(b);
    hide LastStreamed, Thoughts, ER.Lookup, Valid;
    var x, y := mid.out[|r.out|..], end.out[|mid.out|..];
    assert end.out[|r.out|..] == x + y;
    LastStreamedAppend(x, y, k);
    Regroup(Thoughts(r.out), a, b);
  }

  lemma OneOutFollows(r: Run, r': Run, o: Out, k: string)
    requires Valid(r.calls) && Valid(r'.calls) && r'.out == r.out + [o]
    requires var here := if o.Calls? then LastIn(o.calls, k) else None;
      ER.Lookup(r'.calls, k) == if here.Some? then here else ER.Lookup(r.calls, k)
    ensures Follows(r, r', k, if o.Thinking? then [o.text] else [])
  {
    hide LastIn, ER.Lookup, Valid;
    assert r'.out[|r.out|..] == [] + [o];
    OneMore([], o);
    assert r'.out[..|r'.out| - 1] == r.out;
  }

  lemma EmitFollows(r: Run, t: string, cs: seq<(string, Record)>, k: string)
    requires Valid(r.calls)
    ensures Follows(r, EmitText(r, t), k, []) && Follows(r, EmitCalls(r, cs), k, [])
  {
    hide Follows, LastIn, Register;
    OneOutFollows(r, EmitText(r, t), Delta(r.state, r.prev, t), k);
    RegisterLooksUp(r.calls, cs);
    OneOutFollows(r, EmitCalls(r, cs), Calls(r.state, r.prev, cs), k);
  }

  lemma RawFollows(codec: Codec, r: Run, blocks: seq<string>, k: string)
    requires Valid(r.calls)
    ensures Follows(r, EmitRaw(codec, r, blocks), k, [])
  {
    hide EmitCalls, ParseBlocks, Keyed, Follows;
    var parsed := ParseBlocks(codec, blocks);
    if parsed.Returned? && parsed.value != [] {
      EmitFollows(r, "", Keyed(parsed.value), k);
    } else {
      FollowsItself(r, EmitRaw(codec, r, blocks), k);
    }
  }

  lemma FollowsValid(r: Run, r': Run, k: string, thoughts: seq<string>)
    requires Follows(r, r', k, thoughts)
    ensures Valid(r'.calls)
  {
  }

  lemma PartFollows(codec: Codec, r: Run, part: string, k: string)
    requires Valid(r.calls)
    ensures Follows(r, FeedPart(codec, r, part), k, [])
  {
    hide SB.AfterFeed, SB.SafeText, SB.Blocks, EmitRaw, EmitText, Follows;
    var fed := SB.AfterFeed(r.buf, part);
    var safe, blocks := SB.SafeText(fed.segs), SB.Blocks(fed.segs);
    var r1 := r.(buf := fed.state);
    var r2 := if safe != "" then EmitText(r1, safe) else r1;
    FollowsItself(r, r1, k);
    FollowsItself(r1, r1, k);
    EmitFollows(r1, safe, [], k);
    FollowsOn(r, r1, r2, k, [], []);
    FollowsValid(r, r2, k, []);
    RawFollows(codec, r2, blocks, k);
    FollowsOn(r, r2, EmitRaw(codec, r2, blocks), k, [], []);
  }

  lemma {:induction false} PartsFollow(codec: Codec, r: Run, parts: seq<string>, k: string)
    requires Valid(r.calls)
    ensures Follows(r, FeedParts(codec, r, parts), k, [])
    decreases |parts|
  {
    hide FeedPart, Follows;
    if parts != [] && !r.failed {
      var next := FeedPart(codec, r, parts[0]);
      PartFollows(codec, r, parts[0], k);
      FollowsValid(r, next, k, []);
      PartsFollow(codec, next, parts[1..], k);
      FollowsOn(r, next, FeedParts(codec, next, parts[1..]), k, [], []);
    } else {
      FollowsItself(r, r, k);
    }
  }

  function ThoughtsOf(e: Event): seq<string> {
    if e.Chunk? && e.reasoning != "" then [e.reasoning] else []
  }

  lemma ChunkFollows(codec: Codec, r: Run, e: Event, k: string)
    requires e.Chunk? && Valid(r.calls)
    ensures Follows(r, AfterChunk(codec, r, e), k, ThoughtsOf(e))
  {
    hide FeedParts, Follows;
    var r1 := r.(sawToolChunks := r.sawToolChunks || e.toolChunks);
    var o := Thinking(r1.state, r1.prev, e.reasoning);
    var r2 := if e.reasoning != "" then r1.(out := r1.out + [o]) else r1;
    if e.reasoning != "" { OneOutFollows(r, r2, o, k); } else { FollowsItself(r, r2, k); }
    PartsFollow(codec, r2, e.parts, k);
    FollowsOn(r, r2, FeedParts(codec, r2, e.parts), k, ThoughtsOf(e), []);
    NothingMore(ThoughtsOf(e));
  }

  lemma EndContentFollows(codec: Codec, r: Run, e: Event, k: string)
    requires e.ModelEnd? && Valid(r.calls)
    ensures Follows(r, EndContent(codec, r, e), k, [])
  {
    hide EmitCalls, EmitText, StripRawToolCalls, Strip, Keyed, Follows;
    var end := EndContent(codec, r, e);
    var stripped := StripRawToolCalls(codec, Strip(Concat(e.content)));
    FollowsItself(r, r, k);
    FollowsItself(r, r.(failed := true), k);
    if stripped.Returned? {
      var r1 := if stripped.value.0 != "" then EmitText(r, stripped.value.0) else r;
      EmitFollows(r, stripped.value.0, [], k);
      FollowsValid(r, r1, k, []);
      EmitFollows(r1, "", Keyed(stripped.value.1), k);
      FollowsOn(r, r1, EmitCalls(r1, Keyed(stripped.value.1)), k, [], []);
    }
  }

  lemma ModelEndFollows(codec: Codec, r: Run, e: Event, k: string)
    requires e.ModelEnd? && Valid(r.calls)
    ensures Follows(r, AfterModelEnd(codec, r, e), k, [])
  {
    hide SB.AfterFlush, SB.SafeText, SB.Blocks, EmitRaw, EmitCalls, FreshCalls, EndContent, FinishReason, Follows;
    var fed := SB.AfterFlush(r.buf);
    var r0 := r.(buf := fed.state, text := r.text + SB.SafeText(fed.segs));
    FollowsItself(r, r0, k);
    FollowsItself(r0, r0, k);
    RawFollows(codec, r0, SB.Blocks(fed.segs), k);
    var r1 := FlushBuffer(codec, r);
    FollowsOn(r, r0, r1, k, [], []);
    FollowsValid(r, r1, k, []);
    FollowsItself(r1, r1, k);
    EmitFollows(r1, "", FreshCalls(r1.calls.vals.Keys, e.calls, e.runId), k);
    var r2 := StructuredCalls(r1, e);
    FollowsOn(r, r1, r2, k, [], []);
    FollowsValid(r, r2, k, []);
    EndContentFollows(codec, r2, e, k);
    var r3 := EndContent(codec, r2, e);
    FollowsOn(r, r2, r3, k, [], []);
    FollowsValid(r, r3, k, []);
    FollowsItself(r3, TakeUsage(r3.(finish := FinishReason(e.finish)), e.tokens), k);
    FollowsOn(r, r3, TakeUsage(r3.(finish := FinishReason(e.finish)), e.tokens), k, [], []);
  }

  lemma {:induction false} ServersFollow(r: Run, events: seq<ServerEvent>, k: string)
    requires Valid(r.calls)
    ensures Follows(r, r.(out := r.out + ServerOuts(events)), k, [])
    decreases |events|
  {
    hide Follows;
    if events == [] {
      assert r.out + ServerOuts(events) == r.out;
      FollowsItself(r, r, k);
    } else {
      var n := |events| - 1;
      var mid := r.(out := r.out + ServerOuts(events[..n]));
      ServersFollow(r, events[..n], k);
      assert r.out + ServerOuts(events) == mid.out + [Server(events[n])];
      OneOutFollows(mid, r.(out := r.out + ServerOuts(events)), Server(events[n]), k);
      FollowsOn(r, mid, r.(out := r.out + ServerOuts(events)), k, [], []);
    }
  }

  lemma ToolEndFollows(r: Run, e: Event, k: string)
    requires e.ToolEnd? && Valid(r.calls)
    ensures Follows(r, AfterToolEnd(r, e), k, [])
  {
    hide Follows;
    var end := AfterToolEnd(r, e);
    var rec := end.calls.vals[e.runId];
    PutValid(r.calls, e.runId, rec);
    OnlyRecord(e.runId, rec);
    OneOutFollows(r, end, Calls(r.state, r.prev, [(e.runId, rec)]), k);
  }

  lemma StepFollows(codec: Codec, r: Run, e: Event, k: string)
    requires Valid(r.calls) && k !in StartedBy(e)
    ensures Follows(r, Process(codec, r, e), k, ThoughtsOf(e))
  {
    hide AfterChunk, AfterModelEnd, AfterToolEnd, NewEvents, Follows;
    var u := TakeUsage(r, e.usage);
    FollowsItself(r, u, k);
    match e {
      case Chunk(_, _, _, _) => ChunkFollows(codec, u, e, k);
      case ModelEnd(_, _, _, _, _, _) => ModelEndFollows(codec, u, e, k);
      case ToolNode(_, _) =>
        var news := NewEvents(u, e.events);
        var streamed := u.(out := u.out + ServerOuts(news));
        ServersFollow(u, news, k);
        FollowsValid(u, streamed, k, []);
        FollowsItself(streamed, AfterToolNode(u, e), k);
        FollowsOn(u, streamed, AfterToolNode(u, e), k, [], []);
      case ToolStart(_, runId, name, args) =>
        var rec := Record(ToolCall(name, args, runId), None);
        PutValid(u.calls, runId, rec);
        StartFollows(u, u.(calls := Put(u.calls, runId, rec)), k);
      case ToolEnd(_, _, _, _, _) => ToolEndFollows(u, e, k);
      case Other(_) => FollowsItself(u, u, k);
    }
    FollowsOn(r, u, Process(codec, r, e), k, [], ThoughtsOf(e));
    NothingMore(ThoughtsOf(e));
  }

  lemma StartFollows(r: Run, r': Run, k: string)
    requires Valid(r'.calls) && r'.out == r.out && ER.Lookup(r'.calls, k) == ER.Lookup(r.calls, k)
    ensures Follows(r, r', k, [])
  {
    assert r'.out[|r.out|..] == [];
  }

  function AllThoughts(events: seq<Event>): seq<string> {
    if events == [] then [] else ThoughtsOf(events[0]) + AllThoughts(events[1..])
  }

  lemma {:induction false} RunFollows(codec: Codec, r: Run, events: seq<Event>, k: string)
    requires Valid(r.calls) && k !in Started(events) && !ProcessAll(codec, r, events).failed
    ensures Follows(r, ProcessAll(codec, r, events), k, AllThoughts(events))
    decreases |events|
  {
    hide Process, Follows, ThoughtsOf;
    if events == [] {
      FollowsItself(r, r, k);
    } else {
      var next := Process(codec, r, events[0]);
      StepFollows(codec, r, events[0], k);
      FollowsValid(r, next, k, ThoughtsOf(events[0]));
      RunFollows(codec, next, events[1..], k);
      FollowsOn(r, next, ProcessAll(codec, next, events[1..]), k, ThoughtsOf(events[0]), AllThoughts(events[1..]));
    }
  }

  // -------------------------------------------------------------------- results

  /** The record has this result, and the call that was registered before, or else the one the event names. */
  predicate Reports(rec: Record, known: Option<Record>, e: Event)
    requires e.ToolEnd?
  {
    && rec.result == Some(e.result)
    && if known.Some? then rec.call == known.value.call
       else rec.call.name == e.name && rec.call.args == e.args && rec.call.executionId == e.runId
  }

  lemma ValidRun(codec: Codec, events: seq<Event>)
    requires !ProcessAll(codec, START, events).failed
    ensures Valid(ProcessAll(codec, START, events).calls)
  {
    hide ProcessAll, Started, Shown, LastStreamed;
    StartKeeps();
    RunKeeps(codec, START, {}, events);
  }

  /** After any events, the end of a tool run registers and streams its result, with the call registered
      when it started, if it did. */
  lemma ToolResultIsReported(codec: Codec, events: seq<Event>, e: Event)
    requires e.ToolEnd? && !ProcessAll(codec, START, events + [e]).failed
    ensures var mid, end := ProcessAll(codec, START, events), ProcessAll(codec, START, events + [e]);
      var rec := ER.Lookup(end.calls, e.runId);
      && rec.Some? && Reports(rec.value, ER.Lookup(mid.calls, e.runId), e)
      && LastStreamed(end.out, e.runId) == rec
  {
    hide ProcessAll;
    var mid := ProcessAll(codec, START, events);
    ProcessAllStep(codec, START, events, e);
    var end := AfterToolEnd(TakeUsage(mid, e.usage), e);
    var rec := end.calls.vals[e.runId];
    OneMore(mid.out, Calls(mid.state, mid.prev, [(e.runId, rec)]));
    OnlyRecord(e.runId, rec);
  }

  /** A tool that starts is registered with its name and arguments and without a result. */
  lemma ToolStartIsRegistered(codec: Codec, events: seq<Event>, e: Event)
    requires e.ToolStart? && !ProcessAll(codec, START, events + [e]).failed
    ensures ER.Lookup(ProcessAll(codec, START, events + [e]).calls, e.runId) ==
      Some(Record(ToolCall(e.name, e.args, e.runId), None))
  {
    hide ProcessAll;
    ProcessAllStep(codec, START, events, e);
  }

  /** Over a whole run: after the last start of a tool, the final message has the record streamed last under
      its id, and if nothing is streamed under it any more, what was registered. So the result in the
      final message is that of the last end of the tool run, unless the id is registered again. */
  lemma ResultIsFinal(codec: Codec, before: seq<Event>, e: Event, after: seq<Event>)
    requires e.ToolEnd? && e.runId !in Started(after) && !ProcessAll(codec, START, before + [e] + after).failed
    ensures var mid, end := ProcessAll(codec, START, before + [e]), ProcessAll(codec, START, before + [e] + after);
      var known := ER.Lookup(ProcessAll(codec, START, before).calls, e.runId);
      var rec := ER.Lookup(end.calls, e.runId);
      && mid.out <= end.out && rec.Some?
      && (LastStreamed(end.out[|mid.out|..], e.runId).Some? ==> rec == LastStreamed(end.out[|mid.out|..], e.runId))
      && (LastStreamed(end.out[|mid.out|..], e.runId).None? ==> Reports(rec.value, known, e))
      && ((e.runId, rec.value) in Items(end.calls))
  {
    hide ProcessAll, LastStreamed, Started, Reports, Thoughts, AllThoughts, ER.Lookup, Items;
    ProcessAllSplit(codec, START, before + [e], after);
    FailedStays(codec, ProcessAll(codec, START, before + [e]), after);
    ToolResultIsReported(codec, before, e);
    ValidRun(codec, before + [e]);
    ValidRun(codec, before + [e] + after);
    RunFollows(codec, ProcessAll(codec, START, before + [e]), after, e.runId);
    var end := ProcessAll(codec, START, before + [e] + after);
    var rec := ER.Lookup(end.calls, e.runId);
    if rec.Some? { ItemIffLookedUp(end.calls, e.runId, rec.value); }
  }

  /** The reasoning of every stream event is streamed, in order, and nothing else is. */
  lemma ReasoningIsStreamed(codec: Codec, events: seq<Event>)
    requires !ProcessAll(codec, START, events).failed
    ensures Thoughts(ProcessAll(codec, START, events).out) == AllThoughts(events)
  {
    hide ProcessAll, Started, AllThoughts;
    var k := LongKey(Started(events));
    RunFollows(codec, START, events, k);
    NothingMore(AllThoughts(events));
    NoThoughts();
  }

  lemma {:induction false} LongKey(ids: set<string>) returns (k: string)
    ensures forall x | x in ids :: |x| < |k|
    decreases |ids|
  {
    if ids == {} {
      k := "";
    } else {
      var x :| x in ids;
      var longer := LongKey(ids - {x});
      k := longer + x + "x";
      assert forall y | y in ids :: y == x || y in ids - {x};
    }
  }

  lemma NoThoughts()
    ensures Thoughts([]) == []
  {
  }
}
