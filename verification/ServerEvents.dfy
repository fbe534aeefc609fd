/** graph/executor.py, graph/nodes/server_tools.py: which server tool events a run streams. The node
    reports all events of the workflow's state each time it ends; the executor counts what it has
    yielded, and yields the rest. */
module ServerEvents {
  import opened Text
  import opened ToolCallParser
  import opened Executor
  import ER = ExecutorRuns
  import SB = StreamBuffer

  /** The reports of a run, in order. */
  function Snapshots(events: seq<Event>): seq<seq<ServerEvent>> {
    if events == [] then []
    else
      var n := |events| - 1;
      Snapshots(events[..n]) + if events[n].ToolNode? then [events[n].events] else []
  }

  function ServersOf(out: seq<Out>): seq<ServerEvent> {
    if out == [] then []
    else
      var n := |out| - 1;
      ServersOf(out[..n]) + if out[n].Server? then [out[n].event] else []
  }

  function NewFrom(count: nat, snapshot: seq<ServerEvent>): seq<ServerEvent> {
    if count <= |snapshot| then WithCall(snapshot[count..]) else []
  }

  /** What is streamed over a sequence of reports. */
  function Streamed(snaps: seq<seq<ServerEvent>>): seq<ServerEvent> {
    if snaps == [] then []
    else
      var n := |snaps| - 1;
      Streamed(snaps[..n]) + NewFrom(|Streamed(snaps[..n])|, snaps[n])
  }

  // -------------------------------------------------------------------- whole runs

  lemma OneMoreOut(out: seq<Out>, o: Out)
    ensures ServersOf(out + [o]) == ServersOf(out) + if o.Server? then [o.event] else []
  {
    var all := out + [o];
    assert all[..|all| - 1] == out && all[|all| - 1] == o;
  }

  /** The step streams no server tool event. */
  ghost predicate Quiet(r: Run, r': Run) {
    ServersOf(r'.out) == ServersOf(r.out) && r'.serverYielded == r.serverYielded
  }

  lemma EmitIsQuiet(r: Run, t: string, cs: seq<(string, Record)>)
    ensures Quiet(r, EmitText(r, t)) && Quiet(r, EmitCalls(r, cs))
  {
    OneMoreOut(r.out, Delta(r.state, r.prev, t));
    OneMoreOut(r.out, Calls(r.state, r.prev, cs));
    NothingMore(ServersOf(r.out));
  }

  lemma RawIsQuiet(codec: Codec, r: Run, blocks: seq<string>)
    ensures Quiet(r, EmitRaw(codec, r, blocks))
  {
    hide EmitCalls, ParseBlocks, Keyed, ServersOf;
    var parsed := ParseBlocks(codec, blocks);
    if parsed.Returned? { EmitIsQuiet(r, "", Keyed(parsed.value)); }
  }

  lemma PartIsQuiet(codec: Codec, r: Run, part: string)
    ensures Quiet(r, FeedPart(codec, r, part))
  {
    hide SB.AfterFeed, SB.SafeText, SB.Blocks, EmitRaw, EmitText, ServersOf;
    var fed := SB.AfterFeed(r.buf, part);
    var safe := SB.SafeText(fed.segs);
    var r1 := r.(buf := fed.state);
    EmitIsQuiet(r1, safe, []);
    RawIsQuiet(codec, if safe != "" then EmitText(r1, safe) else r1, SB.Blocks(fed.segs));
  }

  lemma {:induction false} PartsAreQuiet(codec: Codec, r: Run, parts: seq<string>)
    ensures Quiet(r, FeedParts(codec, r, parts))
    decreases |parts|
  {
    hide FeedPart, ServersOf;
    if parts != [] && !r.failed {
      PartIsQuiet(codec, r, parts[0]);
      PartsAreQuiet(codec, FeedPart(codec, r, parts[0]), parts[1..]);
    }
  }

  lemma ChunkIsQuiet(codec: Codec, r: Run, e: Event)
    requires e.Chunk?
    ensures Quiet(r, AfterChunk(codec, r, e))
  {
    hide FeedParts, ServersOf;
    var r1 := r.(sawToolChunks := r.sawToolChunks || e.toolChunks);
    OneMoreOut(r1.out, Thinking(r1.state, r1.prev, e.reasoning));
    NothingMore(ServersOf(r1.out));
    var r2 := r1.(out := r1.out + [Thinking(r1.state, r1.prev, e.reasoning)]);
    PartsAreQuiet(codec, if e.reasoning != "" then r2 else r1, e.parts);
  }

  lemma ModelEndIsQuiet(codec: Codec, r: Run, e: Event)
    requires e.ModelEnd?
    ensures Quiet(r, AfterModelEnd(codec, r, e))
  {
    hide SB.AfterFlush, SB.SafeText, SB.Blocks, EmitRaw, EmitCalls;
    hide EmitText, FreshCalls, StripRawToolCalls, Strip, Keyed;
    hide FinishReason, ServersOf;
    var fed := SB.AfterFlush(r.buf);
    RawIsQuiet(codec, r.(buf := fed.state, text := r.text + SB.SafeText(fed.segs)), SB.Blocks(fed.segs));
    var r1 := FlushBuffer(codec, r);
    EmitIsQuiet(r1, "", FreshCalls(r1.calls.vals.Keys, e.calls, e.runId));
    EndContentIsQuiet(codec, StructuredCalls(r1, e), e);
  }

  lemma EndContentIsQuiet(codec: Codec, r: Run, e: Event)
    requires e.ModelEnd?
    ensures Quiet(r, EndContent(codec, r, e))
  {
    hide EmitCalls, EmitText, StripRawToolCalls, Strip, Keyed, ServersOf;
    var stripped := StripRawToolCalls(codec, Strip(Concat(e.content)));
    if stripped.Returned? {
      EmitIsQuiet(r, stripped.value.0, Keyed(stripped.value.1));
      EmitIsQuiet(EmitText(r, stripped.value.0), "", Keyed(stripped.value.1));
    }
  }

  lemma {:induction false} ServersAppend(out: seq<Out>, events: seq<ServerEvent>)
    ensures ServersOf(out + ServerOuts(events)) == ServersOf(out) + events
    decreases |events|
  {
    if events == [] {
      assert out + ServerOuts(events) == out;
    } else {
      var n := |events| - 1;
      ServersAppend(out, events[..n]);
      OneMoreOut(out + ServerOuts(events[..n]), Server(events[n]));
      assert out + ServerOuts(events) == out + ServerOuts(events[..n]) + [Server(events[n])];
      assert events == events[..n] + [events[n]];
    }
  }

  lemma StepStreams(codec: Codec, r: Run, e: Event)
    ensures var r' := Process(codec, r, e);
      if e.ToolNode? then
        ServersOf(r'.out) == ServersOf(r.out) + NewFrom(r.serverYielded, e.events)
        && r'.serverYielded == r.serverYielded + |NewFrom(r.serverYielded, e.events)|
      else Quiet(r, r')
  {
    hide AfterChunk, AfterModelEnd, ServersOf, ServerOuts, WithCall;
    var r0 := TakeUsage(r, e.usage);
    match e
    case Chunk(_, _, _, _) => ChunkIsQuiet(codec, r0, e);
    case ModelEnd(_, _, _, _, _, _) => ModelEndIsQuiet(codec, r0, e);
    case ToolNode(_, _) => ServersAppend(r0.out, NewEvents(r0, e.events));
    case ToolStart(_, _, _, _) =>
    case ToolEnd(_, _, _, _, _) =>
      var next := AfterToolEnd(r0, e);
      OneMoreOut(r0.out, next.out[|r0.out|]);
      NothingMore(ServersOf(r0.out));
    case Other(_) =>
  }

  /** The server tool events of any run are those of its reports; nothing else bears on them. */
  lemma {:induction false} RunStreams(codec: Codec, events: seq<Event>)
    requires !ProcessAll(codec, START, events).failed
    ensures var end := ProcessAll(codec, START, events);
      ServersOf(end.out) == Streamed(Snapshots(events)) && end.serverYielded == |Streamed(Snapshots(events))|
    decreases |events|
  {
    hide Process, ServersOf, NewFrom, Streamed;
    if events != [] {
      var n := |events| - 1;
      assert events == events[..n] + [events[n]];
      ER.ProcessAllStep(codec, START, events[..n], events[n]);
      RunStreams(codec, events[..n]);
      StepStreams(codec, ProcessAll(codec, START, events[..n]), events[n]);
      NothingMore(Snapshots(events[..n]));
      StreamedMore(Snapshots(events[..n]), if events[n].ToolNode? then events[n].events else []);
    } else {
      NothingStreamed();
    }
  }

  lemma StreamedMore(snaps: seq<seq<ServerEvent>>, s: seq<ServerEvent>)
    ensures Streamed(snaps + [s]) == Streamed(snaps) + NewFrom(|Streamed(snaps)|, s)
  {
    var all := snaps + [s];
    assert all[..|all| - 1] == snaps;
  }

  lemma NothingStreamed()
    ensures ServersOf([]) == [] && Streamed([]) == []
  {
  }

  // -------------------------------------------------------------------- when reports are streamed exactly

  lemma {:induction false} WithCallAppend(a: seq<ServerEvent>, b: seq<ServerEvent>)
    ensures WithCall(a + b) == WithCall(a) + WithCall(b)
  {
    if a == [] {
      assert a + b == b;
    } else {
      assert (a + b)[0] == a[0] && (a + b)[1..] == a[1..] + b;
      WithCallAppend(a[1..], b);
      Regroup(if a[0].call.Some? then [a[0]] else [], WithCall(a[1..]), WithCall(b));
    }
  }

  /** The events with a call, in order, and no others. */
  lemma {:induction false} WithCallIs(events: seq<ServerEvent>)
    ensures forall e | e in WithCall(events) :: e in events && e.call.Some?
    ensures forall e: ServerEvent | e.call.Some? :: multiset(WithCall(events))[e] == multiset(events)[e]
    ensures WithCall(events) == events <==> forall e | e in events :: e.call.Some?
  {
    if events != [] {
      WithCallIs(events[1..]);
      assert events == [events[0]] + events[1..];
    }
  }

  lemma {:induction false} WithCallShrinks(events: seq<ServerEvent>)
    ensures |WithCall(events)| <= |events|
    ensures |WithCall(events)| == |events| ==> WithCall(events) == events
    ensures WithCall(WithCall(events)) == WithCall(events)
  {
    if events != [] {
      var first := if events[0].call.Some? then [events[0]] else [];
      WithCallShrinks(events[1..]);
      WithCallAppend(first, WithCall(events[1..]));
      assert events == [events[0]] + events[1..] && [events[0]][1..] == [];
    }
  }

  /** One report after everything streamed so far was right. */
  lemma ReportIsRight(p: seq<ServerEvent>, s: seq<ServerEvent>)
    requires WithCall(p) == p
    ensures p + NewFrom(|p|, s) == WithCall(s) <==> p <= s
  {
    hide WithCall;
    if |p| <= |s| {
      assert s == s[..|p|] + s[|p|..];
      HeadIsRight(p, s[..|p|], s[|p|..]);
    } else {
      WithCallShrinks(s);
      NothingMore(p);
    }
  }

  lemma HeadIsRight(p: seq<ServerEvent>, head: seq<ServerEvent>, rest: seq<ServerEvent>)
    requires WithCall(p) == p && |head| == |p|
    ensures p + WithCall(rest) == WithCall(head + rest) <==> p == head
  {
    hide WithCall;
    WithCallAppend(head, rest);
    WithCallShrinks(head);
    CancelTail(p, WithCall(head), WithCall(rest));
  }

  /** After every report of a run, what has been streamed is exactly what that report holds, each event
      with a call once and in order, if and only if every report starts with the events with a call of
      the report before it. */
  lemma StreamedExactlyWhen(snaps: seq<seq<ServerEvent>>)
    ensures (forall k | 0 <= k < |snaps| :: Streamed(snaps[..k + 1]) == WithCall(snaps[k]))
      <==> (forall k | 0 < k < |snaps| :: WithCall(snaps[k - 1]) <= snaps[k])
  {
    hide WithCall, NewFrom;
    if forall k | 0 <= k < |snaps| :: Streamed(snaps[..k + 1]) == WithCall(snaps[k]) {
      forall k | 0 < k < |snaps| ensures WithCall(snaps[k - 1]) <= snaps[k] {
        assert Streamed(snaps[..k - 1 + 1]) == WithCall(snaps[k - 1]);
        NextReport(snaps, k);
      }
    }
    if forall k | 0 < k < |snaps| :: WithCall(snaps[k - 1]) <= snaps[k] {
      forall k | 0 <= k < |snaps| ensures Streamed(snaps[..k + 1]) == WithCall(snaps[k]) {
        GrowingReports(snaps, k);
      }
    }
  }

  lemma NextReport(snaps: seq<seq<ServerEvent>>, k: nat)
    requires 0 < k < |snaps| && Streamed(snaps[..k]) == WithCall(snaps[k - 1])
    ensures Streamed(snaps[..k + 1]) == WithCall(snaps[k]) <==> WithCall(snaps[k - 1]) <= snaps[k]
  {
    hide WithCall, NewFrom;
    var upTo := snaps[..k + 1];
    assert upTo[..k] == snaps[..k];
    WithCallShrinks(snaps[k - 1]);
    ReportIsRight(WithCall(snaps[k - 1]), snaps[k]);
  }

  lemma {:induction false} GrowingReports(snaps: seq<seq<ServerEvent>>, k: nat)
    requires k < |snaps| && forall j | 0 < j < |snaps| :: WithCall(snaps[j - 1]) <= snaps[j]
    ensures Streamed(snaps[..k + 1]) == WithCall(snaps[k])
  {
    hide WithCall;
    if k == 0 {
      var upTo := snaps[..1];
      assert upTo[..0] == [] && snaps[0][0..] == snaps[0];
      NothingStreamed();
      NothingMore(WithCall(snaps[0]));
    } else {
      GrowingReports(snaps, k - 1);
      NextReport(snaps, k);
    }
  }

  // -------------------------------------------------------------------- the reports of the node

  /** The list in the state after some rounds. Each round adds its batch to the list it received and
      returns the whole list, and the state adds what is returned to what it had. When the agent node,
      which runs between two rounds, returns its whole state as well, the list is doubled once more. */
  function Received(batches: seq<seq<ServerEvent>>, whole: bool): seq<ServerEvent> {
    if batches == [] then []
    else
      var n := |batches| - 1;
      var c := Received(batches[..n], whole);
      var merged := c + (c + batches[n]);
      if whole then merged + merged else merged
  }

  function NodeReports(batches: seq<seq<ServerEvent>>, whole: bool): seq<seq<ServerEvent>> {
    if batches == [] then []
    else
      var n := |batches| - 1;
      NodeReports(batches[..n], whole) + [Received(batches[..n], whole) + batches[n]]
  }

  /** All events that the rounds have produced. */
  function Produced(batches: seq<seq<ServerEvent>>): seq<ServerEvent> {
    if batches == [] then [] else Produced(batches[..|batches| - 1]) + batches[|batches| - 1]
  }

  /** All batches but the last `n` are empty. */
  predicate OnlyLast(batches: seq<seq<ServerEvent>>, n: nat) {
    forall k | 0 <= k < |batches| - n :: batches[k] == []
  }

  /** The node reports a call with every event. */
  predicate Called(batches: seq<seq<ServerEvent>>) {
    forall b | b in batches :: WithCall(b) == b
  }

  lemma {:induction false} Lengths(batches: seq<seq<ServerEvent>>, whole: bool)
    ensures |Received(batches, whole)| >= |Produced(batches)|
    ensures |Produced(batches)| == 0 <==> OnlyLast(batches, 0)
    ensures |Received(batches, whole)| == 0 <==> OnlyLast(batches, 0)
    ensures |Received(batches, whole)| == |Produced(batches)| <==> OnlyLast(batches, if whole then 0 else 1)
    decreases |batches|
  {
    if batches != [] {
      var n := |batches| - 1;
      Lengths(batches[..n], whole);
      assert forall k | 0 <= k < n :: batches[..n][k] == batches[k];
      assert OnlyLast(batches, 0) <==> OnlyLast(batches[..n], 0) && batches[n] == [];
      assert OnlyLast(batches, 1) <==> OnlyLast(batches[..n], 0);
    }
  }

  lemma {:induction false} ReportsAreCalled(batches: seq<seq<ServerEvent>>, whole: bool)
    requires Called(batches)
    ensures var c := Received(batches, whole); WithCall(c) == c
    decreases |batches|
  {
    hide WithCall;
    if batches != [] {
      var n := |batches| - 1;
      var c := Received(batches[..n], whole);
      assert batches[n] in batches;
      ReportsAreCalled(batches[..n], whole);
      WithCallAppend(c, batches[n]);
      WithCallAppend(c, c + batches[n]);
      WithCallAppend(c + (c + batches[n]), c + (c + batches[n]));
    } else {
      WithCallShrinks([]);
      assert WithCall([]) == [];
    }
  }

  lemma CalledSuffix(s: seq<ServerEvent>, k: nat)
    requires WithCall(s) == s && k <= |s|
    ensures WithCall(s[k..]) == s[k..]
  {
    hide WithCall;
    assert s == s[..k] + s[k..];
    WithCallAppend(s[..k], s[k..]);
    WithCallShrinks(s[..k]);
    WithCallShrinks(s[k..]);
  }

  /** One more round: the report, and what it adds to what has been streamed. */
  lemma OneRound(batches: seq<seq<ServerEvent>>, whole: bool)
    requires batches != [] && Called(batches)
    ensures var n := |batches| - 1;
      var before, c := Streamed(NodeReports(batches[..n], whole)), Received(batches[..n], whole);
      && Streamed(NodeReports(batches, whole)) == before + NewFrom(|before|, c + batches[n])
      && (|before| <= |c| ==> NewFrom(|before|, c + batches[n]) == (c + batches[n])[|before|..])
  {
    hide WithCall;
    var n := |batches| - 1;
    var c := Received(batches[..n], whole);
    var reports := NodeReports(batches, whole);
    assert reports[..|reports| - 1] == NodeReports(batches[..n], whole);
    assert batches[n] in batches;
    ReportsAreCalled(batches[..n], whole);
    WithCallAppend(c, batches[n]);
    var before := Streamed(NodeReports(batches[..n], whole));
    if |before| <= |c| { CalledSuffix(c + batches[n], |before|); }
  }

  lemma {:induction false} StreamedLength(batches: seq<seq<ServerEvent>>, whole: bool)
    requires Called(batches)
    ensures |Streamed(NodeReports(batches, whole))| <= |Received(batches, whole)|
    ensures batches != [] ==>
      var n := |batches| - 1;
      |Streamed(NodeReports(batches, whole))| == |Received(batches[..n], whole)| + |batches[n]|
    decreases |batches|
  {
    hide WithCall, NewFrom;
    if batches != [] {
      var n := |batches| - 1;
      StreamedLength(batches[..n], whole);
      OneRound(batches, whole);
    } else {
      NothingStreamed();
    }
  }

  /** The node's events are streamed once each, in order, if and only if all rounds but the last are
      empty; or all but the last two, if the state that the agent returns in between is not merged. */
  lemma NodeEventsOnceExactlyWhen(batches: seq<seq<ServerEvent>>, whole: bool)
    requires Called(batches)
    ensures Streamed(NodeReports(batches, whole)) == Produced(batches) <==> OnlyLast(batches, if whole then 1 else 2)
  {
    hide WithCall, NewFrom;
    if batches != [] {
      var n := |batches| - 1;
      assert forall k | 0 <= k < n :: batches[..n][k] == batches[k];
      StreamedLength(batches, whole);
      Lengths(batches[..n], whole);
      if OnlyLast(batches, 1) {
        OnlyOneRound(batches, whole);
      } else if OnlyLast(batches, 2) && !whole {
        OnlyTwoRounds(batches);
      }
    } else {
      NothingStreamed();
    }
  }

  lemma OnlyOneRound(batches: seq<seq<ServerEvent>>, whole: bool)
    requires batches != [] && Called(batches) && OnlyLast(batches, 1)
    ensures Streamed(NodeReports(batches, whole)) == Produced(batches)
  {
    hide WithCall, NewFrom;
    var n := |batches| - 1;
    assert forall k | 0 <= k < n :: batches[..n][k] == batches[k];
    Lengths(batches[..n], whole);
    StreamedLength(batches[..n], whole);
    OneRound(batches, whole);
    NothingMore(batches[n]);
    assert batches[n][0..] == batches[n];
  }

  lemma OnlyTwoRounds(batches: seq<seq<ServerEvent>>)
    requires |batches| >= 2 && Called(batches) && OnlyLast(batches, 2)
    ensures Streamed(NodeReports(batches, false)) == Produced(batches)
  {
    hide WithCall, NewFrom, NodeReports, Received, Streamed;
    var n := |batches| - 1;
    var first := batches[..n];
    assert OnlyLast(first, 1) by { assert forall k | 0 <= k < n :: first[k] == batches[k]; }
    assert Called(first);
    OnlyOneRound(first, false);
    OneIsReceived(first);
    OneRound(batches, false);
    SuffixOfSum(Produced(first), batches[n]);
  }

  lemma SuffixOfSum(a: seq<ServerEvent>, b: seq<ServerEvent>)
    ensures (a + b)[|a|..] == b
  {
  }

  lemma OneIsReceived(batches: seq<seq<ServerEvent>>)
    requires batches != [] && OnlyLast(batches, 1)
    ensures Received(batches, false) == Produced(batches)
  {
    var n := |batches| - 1;
    assert forall k | 0 <= k < n :: batches[..n][k] == batches[k];
    Lengths(batches[..n], false);
    NothingMore(batches[n]);
  }

  /** The condition fails in practice: with a second round the events of the first are streamed again. */
  lemma SecondRoundRepeats(e: ServerEvent, f: ServerEvent)
    requires e.call.Some? && f.call.Some?
    ensures Streamed(NodeReports([[e], [f]], true)) == [e, e, f]
  {
    hide NodeReports, Received, Streamed, NewFrom, WithCall;
    FirstRound(e, true);
    MoreRounds([[e]], f, true);
    assert [[e]] + [[f]] == [[e], [f]] && [e, e] + [f] == [e, e, f];
    StreamedMore(NodeReports([[e]], true), [e, e, f]);
    NewAfterOne([e], [e, e, f], [e, f]);
    BothCalled(e, f);
    assert [e] + [e, f] == [e, e, f];
  }

  /** If only the node's own lists were merged, the same would happen with the third round. */
  lemma ThirdRoundRepeats(e: ServerEvent, f: ServerEvent, g: ServerEvent)
    requires e.call.Some? && f.call.Some? && g.call.Some?
    ensures Streamed(NodeReports([[e], [f], [g]], false)) == [e, f, f, g]
  {
    hide NodeReports, Received, Streamed, NewFrom, WithCall;
    FirstRound(e, false);
    MoreRounds([[e]], f, false);
    MoreRounds([[e], [f]], g, false);
    assert [[e]] + [[f]] == [[e], [f]] && [[e], [f]] + [[g]] == [[e], [f], [g]];
    assert [e] + [f] == [e, f] && [e] + [e, f] == [e, e, f] && [e, e, f] + [g] == [e, e, f, g];
    StreamedMore(NodeReports([[e]], false), [e, f]);
    NewAfterOne([e], [e, f], [f]);
    BothCalled(f, g);
    StreamedMore(NodeReports([[e], [f]], false), [e, e, f, g]);
    NewAfterOne([e, f], [e, e, f, g], [f, g]);
    assert [e, f] + [f, g] == [e, f, f, g];
  }

  lemma NewAfterOne(streamed: seq<ServerEvent>, report: seq<ServerEvent>, rest: seq<ServerEvent>)
    requires |streamed| <= |report| && report[|streamed|..] == rest
    ensures NewFrom(|streamed|, report) == WithCall(rest)
  {
  }

  lemma FirstRound(e: ServerEvent, whole: bool)
    requires e.call.Some?
    ensures NodeReports([[e]], whole) == [[e]] && Streamed(NodeReports([[e]], whole)) == [e]
    ensures Received([[e]], whole) == if whole then [e, e] else [e]
  {
    hide NewFrom, Streamed, WithCall, NodeReports, Received;
    NothingReceived(whole);
    MoreRounds([], e, whole);
    assert [] + [[e]] == [[e]] && [] + [e] == [e] && [e] + [e] == [e, e];
    BothCalled(e, e);
    NothingStreamed();
    StreamedMore([], [e]);
    NewAfterOne([], [e], [e]);
  }

  lemma NothingReceived(whole: bool)
    ensures NodeReports([], whole) == [] && Received([], whole) == []
  {
  }

  lemma MoreRounds(batches: seq<seq<ServerEvent>>, e: ServerEvent, whole: bool)
    ensures var c := Received(batches, whole);
      && NodeReports(batches + [[e]], whole) == NodeReports(batches, whole) + [c + [e]]
      && Received(batches + [[e]], whole) == if whole then c + (c + [e]) + (c + (c + [e])) else c + (c + [e])
  {
    var all := batches + [[e]];
    assert all[..|all| - 1] == batches;
  }

  lemma BothCalled(a: ServerEvent, b: ServerEvent)
    requires a.call.Some? && b.call.Some?
    ensures WithCall([a]) == [a] && WithCall([a, b]) == [a, b] && WithCall([b]) == [b]
  {
    assert [a][1..] == [] && [b][1..] == [] && [a, b][1..] == [b];
  }
}
