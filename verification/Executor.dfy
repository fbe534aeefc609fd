/** graph/executor.py: the event loop of `WorkflowExecutor.stream_workflow`.

    A run consumes workflow events and yields responses. What the framework hands over (events,
    the way the event source ends, the class of an error) is input; logging, the debug writer,
    timestamps and durations are not part of the model. */
module Executor {
  import opened Text
  import opened ToolCallParser
  import opened OrderedDict
  import SB = StreamBuffer

  datatype Gen = Executing | Responding

  /** Token counts; zero stands for absent, as the truth tests in the code treat it. */
  datatype Usage = Usage(input: nat, output: nat)

  datatype ServerEvent = ServerEvent(call: Option<ToolCall>, result: string, canonical: string)

  datatype EndCall = EndCall(id: string, name: string, args: map<string, Json>)

  /** A registered call; `result` is set when a tool run has reported back. */
  datatype Record = Record(call: ToolCall, result: Option<string>)

  datatype Event =
    | Chunk(usage: Usage, toolChunks: bool, reasoning: string, parts: seq<string>)
    | ModelEnd(usage: Usage, runId: string, calls: seq<EndCall>, content: seq<string>, finish: string, tokens: Usage)
    | ToolNode(usage: Usage, events: seq<ServerEvent>)
    | ToolStart(usage: Usage, runId: string, name: string, args: map<string, Json>)
    | ToolEnd(usage: Usage, runId: string, name: string, args: map<string, Json>, result: string)
    | Other(usage: Usage)

  /** What the generator yields. `Final` and `Apology` are the responses with `done=True`; the calls
      of a response are paired with the key they are registered under. */
  datatype Out =
    | Delta(state: Option<Gen>, prev: Option<Gen>, text: string)
    | Thinking(state: Option<Gen>, prev: Option<Gen>, text: string)
    | Calls(state: Option<Gen>, prev: Option<Gen>, calls: seq<(string, Record)>)
    | Server(event: ServerEvent)
    | Final(text: string, calls: seq<(string, Record)>, finish: string, promptTokens: nat, evalTokens: nat)
    | Apology

  datatype Run = Run(
    buf: SB.Buffer, text: string, calls: Dict<Record>, state: Option<Gen>, prev: Option<Gen>, finish: string,
    promptTokens: nat, evalTokens: nat, serverYielded: nat, sawToolChunks: bool, out: seq<Out>, failed: bool)

  const START := Run(SB.EMPTY, "", Empty(), None, None, "complete", 0, 0, 0, false, [], false)

  function Key(tc: ToolCall): string {
    if tc.executionId != "" then tc.executionId else tc.name
  }

  function Keyed(tcs: seq<ToolCall>): seq<(string, Record)> {
    if tcs == [] then [] else [(Key(tcs[0]), Record(tcs[0], None))] + Keyed(tcs[1..])
  }

  function Register(calls: Dict<Record>, cs: seq<(string, Record)>): Dict<Record>
    decreases |cs|
  {
    if cs == [] then calls else Register(Put(calls, cs[0].0, cs[0].1), cs[1..])
  }

  function NonZero(count: nat, known: nat): nat {
    if count != 0 then count else known
  }

  function TakeUsage(r: Run, u: Usage): Run {
    r.(promptTokens := NonZero(u.input, r.promptTokens), evalTokens := NonZero(u.output, r.evalTokens))
  }

  function EmitText(r: Run, t: string): Run {
    r.(text := r.text + t, state := Some(Responding), prev := Some(Responding),
       out := r.out + [Delta(r.state, r.prev, t)])
  }

  function EmitCalls(r: Run, cs: seq<(string, Record)>): Run {
    r.(calls := Register(r.calls, cs), state := Some(Executing), prev := Some(Executing),
       out := r.out + [Calls(r.state, r.prev, cs)])
  }

  function ParseBlocks(codec: Codec, blocks: seq<string>): Outcome<seq<ToolCall>> {
    if blocks == [] then Returned([])
    else
      var n := |blocks| - 1;
      var parsed :- ParseBlocks(codec, blocks[..n]);
      var last :- StripRawToolCalls(codec, blocks[n]);
      Returned(parsed + last.1)
  }

  /** `_emit_tool_calls_from_raw` and the code around it: nothing happens when nothing parses. */
  function EmitRaw(codec: Codec, r: Run, blocks: seq<string>): Run {
    match ParseBlocks(codec, blocks)
    case Raised => r.(failed := true)
    case Returned(tcs) => if tcs == [] then r else EmitCalls(r, Keyed(tcs))
  }

  function FeedPart(codec: Codec, r: Run, part: string): Run {
    var fed := SB.AfterFeed(r.buf, part);
    var safe, blocks := SB.SafeText(fed.segs), SB.Blocks(fed.segs);
    var r1 := r.(buf := fed.state);
    var r2 := if safe != "" then EmitText(r1, safe) else r1;
    if blocks != [] then EmitRaw(codec, r2, blocks) else r2
  }

  function FeedParts(codec: Codec, r: Run, parts: seq<string>): Run
    decreases |parts|
  {
    if parts == [] || r.failed then r else FeedParts(codec, FeedPart(codec, r, parts[0]), parts[1..])
  }

  function AfterChunk(codec: Codec, r: Run, e: Event): Run
    requires e.Chunk?
  {
    var r1 := r.(sawToolChunks := r.sawToolChunks || e.toolChunks);
    var r2 := if e.reasoning != "" then r1.(out := r1.out + [Thinking(r1.state, r1.prev, e.reasoning)]) else r1;
    FeedParts(codec, r2, e.parts)
  }

  function FlushBuffer(codec: Codec, r: Run): Run {
    var fed := SB.AfterFlush(r.buf);
    var blocks := SB.Blocks(fed.segs);
    var r1 := r.(buf := fed.state, text := r.text + SB.SafeText(fed.segs));
    if blocks != [] then EmitRaw(codec, r1, blocks) else r1
  }

  /** The structured calls of the final message that are not registered yet. */
  function FreshCalls(known: set<string>, calls: seq<EndCall>, runId: string): seq<(string, Record)>
    decreases |calls|
  {
    if calls == [] then []
    else
      var id := if calls[0].id != "" then calls[0].id else runId;
      if id in known then FreshCalls(known, calls[1..], runId)
      else
        var entry := (id, Record(ToolCall(calls[0].name, calls[0].args, id), None));
        [entry] + FreshCalls(known + {id}, calls[1..], runId)
  }

  function StructuredCalls(r: Run, e: Event): Run
    requires e.ModelEnd?
  {
    if e.calls == [] then r else EmitCalls(r, FreshCalls(r.calls.vals.Keys, e.calls, e.runId))
  }

  /** Content that arrives only with the final message. */
  function EndContent(codec: Codec, r: Run, e: Event): Run
    requires e.ModelEnd?
  {
    if e.content == [] || r.text != "" || e.calls != [] || r.sawToolChunks then r
    else
      match StripRawToolCalls(codec, Strip(Concat(e.content)))
      case Raised => r.(failed := true)
      case Returned((part, tcs)) =>
        var r1 := if part != "" then EmitText(r, part) else r;
        if tcs != [] then EmitCalls(r1, Keyed(tcs)) else r1
  }

  function FinishReason(given: string): string {
    if given == "" then "unknown" else if given == "tool_calls" then "tool_call" else given
  }

  function AfterModelEnd(codec: Codec, r: Run, e: Event): Run
    requires e.ModelEnd?
  {
    var r1 := FlushBuffer(codec, r);
    if r1.failed then r1
    else
      var r2 := EndContent(codec, StructuredCalls(r1, e), e);
      if r2.failed then r2 else TakeUsage(r2.(finish := FinishReason(e.finish)), e.tokens)
  }

  function WithCall(events: seq<ServerEvent>): seq<ServerEvent> {
    if events == [] then [] else (if events[0].call.Some? then [events[0]] else []) + WithCall(events[1..])
  }

  function ServerOuts(events: seq<ServerEvent>): seq<Out> {
    seq(|events|, i requires 0 <= i < |events| => Server(events[i]))
  }

  /** The part of a cumulative event list that the counter says has not been yielded. */
  function NewEvents(r: Run, events: seq<ServerEvent>): seq<ServerEvent> {
    if r.serverYielded <= |events| then WithCall(events[r.serverYielded..]) else []
  }

  function AfterToolNode(r: Run, e: Event): Run
    requires e.ToolNode?
  {
    var news := NewEvents(r, e.events);
    r.(out := r.out + ServerOuts(news), serverYielded := r.serverYielded + |news|)
  }

  function AfterToolEnd(r: Run, e: Event): Run
    requires e.ToolEnd?
  {
    var call := if Has(r.calls, e.runId) then r.calls.vals[e.runId].call else ToolCall(e.name, e.args, e.runId);
    var rec := Record(call, Some(e.result));
    r.(calls := Put(r.calls, e.runId, rec), out := r.out + [Calls(r.state, r.prev, [(e.runId, rec)])])
  }

  function Process(codec: Codec, r: Run, e: Event): Run {
    var r := TakeUsage(r, e.usage);
    match e
    case Chunk(_, _, _, _) => AfterChunk(codec, r, e)
    case ModelEnd(_, _, _, _, _, _) => AfterModelEnd(codec, r, e)
    case ToolNode(_, _) => AfterToolNode(r, e)
    case ToolStart(_, runId, name, args) => r.(calls := Put(r.calls, runId, Record(ToolCall(name, args, runId), None)))
    case ToolEnd(_, _, _, _, _) => AfterToolEnd(r, e)
    case Other(_) => r
  }

  /** The loop: it stops early only when a step raises. */
  function ProcessAll(codec: Codec, r: Run, events: seq<Event>): Run
    decreases |events|
  {
    if events == [] || r.failed then r else ProcessAll(codec, Process(codec, r, events[0]), events[1..])
  }

  /** How an exception that reaches the handlers is classified. Only the last kind is answered with
      an apology; all others are raised to the caller. */
  datatype Failure = Cancelled | StaleServer | Overflow | RestartConfirmed | OtherError

  const FINISH_REASONS := {
    "stop", "complete", "length", "error", "load", "unload", "timeout", "cancel", "tool_call", "unknown"}

  /** The whole run: what was yielded, and whether it ended by raising. `source` says how the event
      source ended, `onRaise` how an error raised by the loop itself is classified. */
  function StreamWorkflow(codec: Codec, events: seq<Event>, source: Option<Failure>, onRaise: Failure): (seq<Out>,
                          bool) {
    var r := ProcessAll(codec, START, events);
    var cause := if r.failed then Some(onRaise) else source;
    if cause.Some? then
      if cause.value.OtherError? then (r.out + [Apology], false) else (r.out, true)
    else if r.finish !in FINISH_REASONS then (r.out, true)
    else (r.out + [Final(r.text, Items(r.calls), r.finish, r.promptTokens, r.evalTokens)], false)
  }

  // -------------------------------------------------------------------- the generator

  lemma ParseBlocksStep(codec: Codec, blocks: seq<string>, i: nat)
    requires i < |blocks|
    ensures ParseBlocks(codec, blocks[..i + 1]) ==
      var parsed :- ParseBlocks(codec, blocks[..i]);
      var last :- StripRawToolCalls(codec, blocks[i]);
      Returned(parsed + last.1)
  {
    var upTo := blocks[..i + 1];
    assert upTo[..|upTo| - 1] == blocks[..i];
  }

  lemma {:induction false} ParseBlocksRaised(codec: Codec, blocks: seq<string>, i: nat)
    requires i <= |blocks| && ParseBlocks(codec, blocks[..i]).Raised?
    ensures ParseBlocks(codec, blocks).Raised?
    decreases |blocks| - i
  {
    hide StripRawToolCalls;
    if i == |blocks| {
      assert blocks[..i] == blocks;
    } else {
      ParseBlocksStep(codec, blocks, i);
      ParseBlocksRaised(codec, blocks, i + 1);
    }
  }

  class WorkflowExecutor {
    const codec: Codec
    const buf: SB.RawToolCallStreamBuffer
    var text: string
    var calls: Dict<Record>
    var state: Option<Gen>
    var prev: Option<Gen>
    var finish: string
    var promptTokens: nat
    var evalTokens: nat
    var serverYielded: nat
    var sawToolChunks: bool
    var out: seq<Out>
    var failed: bool

    function View(): Run
      reads this, buf
    {
      Run(
        buf.State(), text, calls, state, prev, finish, promptTokens, evalTokens, serverYielded, sawToolChunks,
        out, failed)
    }

    constructor (codec: Codec)
      ensures this.codec == codec && View() == START && fresh(buf)
    {
      this.codec := codec;
      buf := new SB.RawToolCallStreamBuffer();
      text, calls, state, prev, finish := "", Empty(), None, None, "complete";
      promptTokens, evalTokens, serverYielded, sawToolChunks, out, failed := 0, 0, 0, false, [], false;
    }

    method YieldText(t: string)
      modifies this
      ensures View() == EmitText(old(View()), t)
    {
      text := text + t;
      out := out + [Delta(state, prev, t)];
      if state != Some(Responding) { state := Some(Responding); }
      prev := state;
    }

    method YieldCalls(cs: seq<(string, Record)>)
      modifies this
      ensures View() == EmitCalls(old(View()), cs)
    {
      for i := 0 to |cs|
        invariant View() == old(View()).(calls := calls)
        invariant Register(old(calls), cs) == Register(calls, cs[i..])
      {
        calls := Put(calls, cs[i].0, cs[i].1);
        assert cs[i..][1..] == cs[i + 1..];
      }
      assert cs[|cs|..] == [];
      out := out + [Calls(state, prev, cs)];
      if state != Some(Executing) { state := Some(Executing); }
      prev := state;
    }

    method EmitToolCallsFromRaw(blocks: seq<string>)
      modifies this
      ensures View() == EmitRaw(codec, old(View()), blocks)
    {
      hide StripRawToolCalls, Keyed;
      var parsed: seq<ToolCall> := [];
      for i := 0 to |blocks|
        invariant View() == old(View())
        invariant ParseBlocks(codec, blocks[..i]) == Returned(parsed)
      {
        ParseBlocksStep(codec, blocks, i);
        var stripped := StripRawToolCalls(codec, blocks[i]);
        if stripped.Raised? {
          ParseBlocksRaised(codec, blocks, i + 1);
          failed := true;
          return;
        }
        parsed := parsed + stripped.value.1;
      }
      assert blocks[..|blocks|] == blocks;
      if parsed != [] { YieldCalls(Keyed(parsed)); }
    }

    method FeedText(part: string)
      modifies this, buf
      ensures View() == FeedPart(codec, old(View()), part)
    {
      hide SB.AfterFeed, EmitRaw, SB.SafeText, SB.Blocks;
      var safe, blocks, _ := buf.Feed(part);
      if safe != "" { YieldText(safe); }
      if blocks != [] { EmitToolCallsFromRaw(blocks); }
    }

    method OnChunk(e: Event)
      requires e.Chunk?
      modifies this, buf
      ensures View() == AfterChunk(codec, old(View()), e)
    {
      hide FeedPart;
      if e.toolChunks { sawToolChunks := true; }
      if e.reasoning != "" { out := out + [Thinking(state, prev, e.reasoning)]; }
      ghost var before := View();
      var i := 0;
      while i < |e.parts| && !failed
        invariant i <= |e.parts|
        invariant FeedParts(codec, before, e.parts) == FeedParts(codec, View(), e.parts[i..])
        decreases |e.parts| - i
      {
        FeedText(e.parts[i]);
        assert e.parts[i..][1..] == e.parts[i + 1..];
        i := i + 1;
      }
      assert e.parts[|e.parts|..] == [];
    }

    method Flush()
      modifies this, buf
      ensures View() == FlushBuffer(codec, old(View()))
    {
      hide SB.AfterFlush, EmitRaw, SB.SafeText, SB.Blocks;
      var flushed, blocks, _ := buf.Flush();
      text := text + flushed;
      if blocks != [] { EmitToolCallsFromRaw(blocks); }
    }

    method OnStructuredCalls(e: Event)
      requires e.ModelEnd?
      modifies this
      ensures View() == StructuredCalls(old(View()), e)
    {
      if e.calls == [] { return; }
      var emitted: seq<(string, Record)> := [];
      var known := calls.vals.Keys;
      for i := 0 to |e.calls|
        invariant View() == old(View())
        invariant FreshCalls(calls.vals.Keys, e.calls, e.runId) == emitted + FreshCalls(known, e.calls[i..], e.runId)
      {
        var data := e.calls[i];
        ghost var rest := e.calls[i..];
        assert rest[1..] == e.calls[i + 1..] && rest[0] == data;
        var id := if data.id != "" then data.id else e.runId;
        if id !in known {
          var entry := (id, Record(ToolCall(data.name, data.args, id), None));
          Regroup(emitted, [entry], FreshCalls(known + {id}, rest[1..], e.runId));
          emitted := emitted + [entry];
          known := known + {id};
        }
      }
      NothingMore(emitted);
      YieldCalls(emitted);
    }

    method OnModelEnd(e: Event)
      requires e.ModelEnd?
      modifies this, buf
      ensures View() == AfterModelEnd(codec, old(View()), e)
    {
      hide FlushBuffer, StructuredCalls, StripRawToolCalls, Strip, Keyed;
      Flush();
      if failed { return; }
      OnStructuredCalls(e);
      ghost var mid := View();
      if e.content != [] && text == "" && e.calls == [] && !sawToolChunks {
        var stripped := StripRawToolCalls(codec, Strip(Concat(e.content)));
        if stripped.Raised? {
          failed := true;
          return;
        }
        if stripped.value.0 != "" { YieldText(stripped.value.0); }
        if stripped.value.1 != [] { YieldCalls(Keyed(stripped.value.1)); }
      }
      assert View() == EndContent(codec, mid, e);
      if failed { return; }
      finish := FinishReason(e.finish);
      if e.tokens.input != 0 { promptTokens := e.tokens.input; }
      if e.tokens.output != 0 { evalTokens := e.tokens.output; }
    }

    method OnToolNode(e: Event)
      requires e.ToolNode?
      modifies this
      ensures View() == AfterToolNode(old(View()), e)
    {
      var first := serverYielded;
      if first > |e.events| { first := |e.events|; }
      ghost var yielded: seq<ServerEvent> := [];
      for i := first to |e.events|
        invariant NewEvents(old(View()), e.events) == yielded + WithCall(e.events[i..])
        invariant View() == old(View()).(out := out, serverYielded := serverYielded)
        invariant out == old(out) + ServerOuts(yielded) && serverYielded == old(serverYielded) + |yielded|
      {
        var evt := e.events[i];
        assert e.events[i..][1..] == e.events[i + 1..];
        if evt.call.Some? {
          out := out + [Server(evt)];
          serverYielded := serverYielded + 1;
          Regroup(yielded, [evt], WithCall(e.events[i + 1..]));
          assert ServerOuts(yielded + [evt]) == ServerOuts(yielded) + [Server(evt)];
          yielded := yielded + [evt];
        }
      }
      NothingMore(yielded);
    }

    method Step(e: Event)
      modifies this, buf
      ensures View() == Process(codec, old(View()), e)
    {
      hide AfterChunk, AfterModelEnd, AfterToolNode;
      if e.usage.input != 0 { promptTokens := e.usage.input; }
      if e.usage.output != 0 { evalTokens := e.usage.output; }
      match e {
        case Chunk(_, _, _, _) => OnChunk(e);
        case ModelEnd(_, _, _, _, _, _) => OnModelEnd(e);
        case ToolNode(_, _) => OnToolNode(e);
        case ToolStart(_, runId, name, args) =>
          calls := Put(calls, runId, Record(ToolCall(name, args, runId), None));
        case ToolEnd(_, runId, name, args, result) =>
          var call := if Has(calls, runId) then calls.vals[runId].call else ToolCall(name, args, runId);
          var rec := Record(call, Some(result));
          calls := Put(calls, runId, rec);
          out := out + [Calls(state, prev, [(runId, rec)])];
        case Other(_) =>
      }
    }

    /** `stream_workflow`: everything yielded ends up in `out`. */
    method Stream(events: seq<Event>, source: Option<Failure>, onRaise: Failure) returns (raised: bool)
      requires View() == START
      modifies this, buf
      ensures (out, raised) == StreamWorkflow(codec, events, source, onRaise)
    {
      hide Process, Items;
      var i := 0;
      while i < |events| && !failed
        invariant i <= |events|
        invariant ProcessAll(codec, START, events) == ProcessAll(codec, View(), events[i..])
        decreases |events| - i
      {
        Step(events[i]);
        assert events[i..][1..] == events[i + 1..];
        i := i + 1;
      }
      assert events[|events|..] == [];
      var cause := if failed then Some(onRaise) else source;
      if cause.Some? {
        if !cause.value.OtherError? { return true; }
        out := out + [Apology];
        return false;
      }
      if finish !in FINISH_REASONS { return true; }
      out := out + [Final(text, Items(calls), finish, promptTokens, evalTokens)];
      raised := false;
    }
  }
}
