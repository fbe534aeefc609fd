/** What every run of the executor keeps, whatever the events are. */
module ExecutorRuns {
  import opened Text
  import opened ToolCallParser
  import opened OrderedDict
  import opened Executor
  import SB = StreamBuffer
  import RT = RoundTrips

  predicate Done(o: Out) {
    o.Final? || o.Apology?
  }

  /** The concatenation of the TEXT deltas. */
  function Shown(out: seq<Out>): string {
    if out == [] then ""
    else
      var n := |out| - 1;
      if out[n].Delta? then Shown(out[..n]) + out[n].text else Shown(out[..n])
  }

  /** The last record in `cs` under key `k`. */
  function LastIn(cs: seq<(string, Record)>, k: string): Option<Record> {
    if cs == [] then None
    else
      var later := LastIn(cs[1..], k);
      if later.Some? then later else if cs[0].0 == k then Some(cs[0].1) else None
  }

  /** The last record streamed under key `k`. */
  function LastStreamed(out: seq<Out>, k: string): Option<Record> {
    if out == [] then None
    else
      var n := |out| - 1;
      var here := if out[n].Calls? then LastIn(out[n].calls, k) else None;
      if here.Some? then here else LastStreamed(out[..n], k)
  }

  function Lookup(d: Dict<Record>, k: string): Option<Record> {
    if k in d.vals then Some(d.vals[k]) else None
  }

  function StartedBy(e: Event): set<string> {
    if e.ToolStart? then {e.runId} else {}
  }

  /** The run ids of the tools whose start was seen: they are registered without being streamed. */
  function Started(events: seq<Event>): set<string> {
    if events == [] then {} else StartedBy(events[0]) + Started(events[1..])
  }

  predicate SameStates(o: Out) {
    o.Delta? || o.Thinking? || o.Calls? ==> o.state == o.prev
  }

  /** Holds after every step: nothing streamed is final, the accumulated text is what was streamed,
      and the registered calls are those streamed, with their latest records, and those started. */
  ghost predicate Inv(r: Run, started: set<string>) {
    && (forall i | 0 <= i < |r.out| :: !Done(r.out[i]) && SameStates(r.out[i]))
    && r.state == r.prev
    && r.text == Shown(r.out)
    && Valid(r.calls)
    && (forall k :: k !in started ==> Lookup(r.calls, k) == LastStreamed(r.out, k))
    && (forall k | k in started :: k in r.calls.vals)
    && (forall k :: LastStreamed(r.out, k).Some? ==> k in r.calls.vals)
  }

  lemma OneMore(out: seq<Out>, o: Out)
    ensures Shown(out + [o]) == Shown(out) + if o.Delta? then o.text else ""
    ensures forall k ::
      var here := if o.Calls? then LastIn(o.calls, k) else None;
      LastStreamed(out + [o], k) == if here.Some? then here else LastStreamed(out, k)
  {
    var all := out + [o];
    assert all[..|all| - 1] == out && all[|all| - 1] == o;
  }

  lemma {:induction false} RegisterLooksUp(calls: Dict<Record>, cs: seq<(string, Record)>)
    requires Valid(calls)
    ensures Valid(Register(calls, cs))
    ensures forall k ::
      Lookup(Register(calls, cs), k) == if LastIn(cs, k).Some? then LastIn(cs, k) else Lookup(calls, k)
    decreases |cs|
  {
    if cs != [] {
      var next := Put(calls, cs[0].0, cs[0].1);
      PutValid(calls, cs[0].0, cs[0].1);
      RegisterLooksUp(next, cs[1..]);
    }
  }

  lemma TextKeeps(r: Run, started: set<string>, t: string)
    requires Inv(r, started)
    ensures Inv(EmitText(r, t), started)
  {
    OneMore(r.out, Delta(r.state, r.prev, t));
  }

  lemma CallsKeep(r: Run, started: set<string>, cs: seq<(string, Record)>)
    requires Inv(r, started)
    ensures Inv(EmitCalls(r, cs), started)
  {
    OneMore(r.out, Calls(r.state, r.prev, cs));
    RegisterLooksUp(r.calls, cs);
    assert forall k :: k in EmitCalls(r, cs).calls.vals <==> Lookup(EmitCalls(r, cs).calls, k).Some?;
  }

  lemma RawKeeps(codec: Codec, r: Run, started: set<string>, blocks: seq<string>)
    requires Inv(r, started)
    ensures Inv(EmitRaw(codec, r, blocks), started)
  {
    hide ParseBlocks, Keyed, EmitCalls;
    var parsed := ParseBlocks(codec, blocks);
    if parsed.Returned? {
      CallsKeep(r, started, Keyed(parsed.value));
    }
  }

  lemma PartKeeps(codec: Codec, r: Run, started: set<string>, part: string)
    requires Inv(r, started)
    ensures Inv(FeedPart(codec, r, part), started)
  {
    hide SB.AfterFeed, SB.SafeText, SB.Blocks, EmitRaw, EmitText;
    var fed := SB.AfterFeed(r.buf, part);
    var safe, blocks := SB.SafeText(fed.segs), SB.Blocks(fed.segs);
    var r1 := r.(buf := fed.state);
    TextKeeps(r1, started, safe);
    RawKeeps(codec, if safe != "" then EmitText(r1, safe) else r1, started, blocks);
  }

  lemma {:induction false} PartsKeep(codec: Codec, r: Run, started: set<string>, parts: seq<string>)
    requires Inv(r, started)
    ensures Inv(FeedParts(codec, r, parts), started)
    decreases |parts|
  {
    hide FeedPart;
    if parts != [] && !r.failed {
      PartKeeps(codec, r, started, parts[0]);
      PartsKeep(codec, FeedPart(codec, r, parts[0]), started, parts[1..]);
    }
  }

  lemma ChunkKeeps(codec: Codec, r: Run, started: set<string>, e: Event)
    requires Inv(r, started) && e.Chunk?
    ensures Inv(AfterChunk(codec, r, e), started)
  {
    hide FeedParts;
    var r1 := r.(sawToolChunks := r.sawToolChunks || e.toolChunks);
    var r2 := r1.(out := r1.out + [Thinking(r1.state, r1.prev, e.reasoning)]);
    OneMore(r1.out, Thinking(r1.state, r1.prev, e.reasoning));
    PartsKeep(codec, if e.reasoning != "" then r2 else r1, started, e.parts);
  }

  /** Flushing never yields text, so nothing is added to the accumulated text unseen. */
  lemma FlushKeeps(codec: Codec, r: Run, started: set<string>)
    requires Inv(r, started)
    ensures Inv(FlushBuffer(codec, r), started)
  {
    hide EmitRaw;
    var fed := SB.AfterFlush(r.buf);
    assert fed.segs == [] || (fed.segs == [SB.Block(r.buf.pending)] && fed.segs[1..] == []);
    assert SB.SafeText(fed.segs) == "" && r.text + "" == r.text;
    RawKeeps(codec, r.(buf := fed.state), started, SB.Blocks(fed.segs));
  }

  lemma EndContentKeeps(codec: Codec, r: Run, started: set<string>, e: Event)
    requires Inv(r, started) && e.ModelEnd?
    ensures Inv(EndContent(codec, r, e), started)
  {
    hide EmitCalls, EmitText, StripRawToolCalls, Strip, Keyed;
    var stripped := StripRawToolCalls(codec, Strip(Concat(e.content)));
    if stripped.Returned? {
      var r1 := if stripped.value.0 != "" then EmitText(r, stripped.value.0) else r;
      TextKeeps(r, started, stripped.value.0);
      CallsKeep(r1, started, Keyed(stripped.value.1));
    }
  }

  lemma ModelEndKeeps(codec: Codec, r: Run, started: set<string>, e: Event)
    requires Inv(r, started) && e.ModelEnd?
    ensures Inv(AfterModelEnd(codec, r, e), started)
  {
    hide FlushBuffer, FreshCalls, EmitCalls, EndContent;
    FlushKeeps(codec, r, started);
    var r1 := FlushBuffer(codec, r);
    CallsKeep(r1, started, FreshCalls(r1.calls.vals.Keys, e.calls, e.runId));
    EndContentKeeps(codec, StructuredCalls(r1, e), started, e);
  }

  lemma {:induction false} ServersKeep(r: Run, started: set<string>, events: seq<ServerEvent>)
    requires Inv(r, started)
    ensures Inv(r.(out := r.out + ServerOuts(events)), started)
    decreases |events|
  {
    if events == [] {
      assert r.out + ServerOuts(events) == r.out;
    } else {
      var n := |events| - 1;
      var r1 := r.(out := r.out + ServerOuts(events[..n]));
      ServersKeep(r, started, events[..n]);
      OneMore(r1.out, Server(events[n]));
      assert r.out + ServerOuts(events) == r1.out + [Server(events[n])];
    }
  }

  lemma ToolEndKeeps(r: Run, started: set<string>, e: Event)
    requires Inv(r, started) && e.ToolEnd?
    ensures Inv(AfterToolEnd(r, e), started)
  {
    hide Shown, LastStreamed, LastIn, Valid, Put, Lookup;
    var call := if Has(r.calls, e.runId) then r.calls.vals[e.runId].call else ToolCall(e.name, e.args, e.runId);
    var rec := Record(call, Some(e.result));
    OneMore(r.out, Calls(r.state, r.prev, [(e.runId, rec)]));
    NothingMore(Shown(r.out));
    PutValid(r.calls, e.runId, rec);
    PutLooksUp(r.calls, e.runId, rec);
    OnlyRecord(e.runId, rec);
  }

  lemma PutLooksUp(d: Dict<Record>, k: string, rec: Record)
    ensures forall x :: Lookup(Put(d, k, rec), x) == if x == k then Some(rec) else Lookup(d, x)
    ensures forall x :: x in Put(d, k, rec).vals <==> x == k || x in d.vals
  {
  }

  lemma OnlyRecord(id: string, rec: Record)
    ensures forall k :: LastIn([(id, rec)], k) == if k == id then Some(rec) else None
  {
    assert [(id, rec)][1..] == [];
  }

  /** Every step keeps the invariant. */
  lemma StepKeeps(codec: Codec, r: Run, started: set<string>, e: Event)
    requires Inv(r, started)
    ensures Inv(Process(codec, r, e), started + StartedBy(e))
  {
    hide AfterChunk, AfterModelEnd, AfterToolEnd, NewEvents;
    var r := TakeUsage(r, e.usage);
    assert started + {} == started;
    match e {
      case Chunk(_, _, _, _) => ChunkKeeps(codec, r, started, e);
      case ModelEnd(_, _, _, _, _, _) => ModelEndKeeps(codec, r, started, e);
      case ToolNode(_, _) => ServersKeep(r, started, NewEvents(r, e.events));
      case ToolStart(_, runId, name, args) => PutValid(r.calls, runId, Record(ToolCall(name, args, runId), None));
      case ToolEnd(_, _, _, _, _) => ToolEndKeeps(r, started, e);
      case Other(_) =>
    }
  }

  lemma {:induction false} RunKeeps(codec: Codec, r: Run, started: set<string>, events: seq<Event>)
    requires Inv(r, started)
    ensures var end := ProcessAll(codec, r, events);
      && (!end.failed ==> Inv(end, started + Started(events)))
      && forall i | 0 <= i < |end.out| :: !Done(end.out[i]) && SameStates(end.out[i])
    decreases |events|
  {
    hide Process;
    if events != [] && !r.failed {
      var next := Process(codec, r, events[0]);
      StepKeeps(codec, r, started, events[0]);
      RunKeeps(codec, next, started + StartedBy(events[0]), events[1..]);
      assert started + StartedBy(events[0]) + Started(events[1..]) == started + Started(events);
      assert ProcessAll(codec, r, events) == ProcessAll(codec, next, events[1..]);
    } else {
      assert events == [] ==> started + Started(events) == started;
    }
  }

  /** The pairs of a valid dictionary are its entries. */
  lemma {:induction false} ItemsAre(order: seq<string>, vals: map<string, Record>)
    requires forall k | k in order :: k in vals
    ensures |ItemsOf(order, vals)| == |order|
    ensures forall i | 0 <= i < |order| :: ItemsOf(order, vals)[i] == (order[i], vals[order[i]])
    decreases |order|
  {
    if order != [] {
      assert order == [order[0]] + order[1..];
      ItemsAre(order[1..], vals);
    }
  }

  lemma ItemsOfValid(d: Dict<Record>, k: string)
    requires Valid(d)
    ensures k in d.vals ==> (k, d.vals[k]) in Items(d)
    ensures forall p | p in Items(d) :: p.0 in d.vals && d.vals[p.0] == p.1
  {
    ItemsAre(d.order, d.vals);
    if k in d.vals {
      var i :| 0 <= i < |d.order| && d.order[i] == k;
      assert Items(d)[i] == (k, d.vals[k]);
    }
  }

  /** Whole-run safety. A run that does not raise yields exactly one response with `done=True`, and
      it is the last. Unless that is the apology, its text is the concatenation of the text deltas
      streamed before it; every call streamed is among its calls under the same key; apart from the
      keys of started tools, its calls are exactly the records streamed last under their keys; and it
      has no calls that were neither streamed nor started. A run that raises yields no response with
      `done=True`. */
  lemma WholeRun(codec: Codec, events: seq<Event>, source: Option<Failure>, onRaise: Failure)
    ensures var (out, raised) := StreamWorkflow(codec, events, source, onRaise);
      if raised then forall i | 0 <= i < |out| :: !Done(out[i])
      else
        && out != []
        && var n := |out| - 1;
        && Done(out[n]) && (forall i | 0 <= i < n :: !Done(out[i]))
        && (out[n].Final? ==>
          && out[n].text == Shown(out[..n])
          && (forall k :: LastStreamed(out[..n], k).Some? ==> exists rec :: (k, rec) in out[n].calls)
          && (forall k, rec | k !in Started(events) ::
                (k, rec) in out[n].calls <==> LastStreamed(out[..n], k) == Some(rec))
          && (forall p | p in out[n].calls :: LastStreamed(out[..n], p.0).Some? || p.0 in Started(events)))
  {
    hide ProcessAll, Items, Shown, LastStreamed, Started;
    var r := ProcessAll(codec, START, events);
    StartKeeps();
    RunKeeps(codec, START, {}, events);
    assert {} + Started(events) == Started(events);
    var (out, raised) := StreamWorkflow(codec, events, source, onRaise);
    if !raised {
      var n := |out| - 1;
      assert out[..n] == r.out;
      if out[n].Final? {
        forall k | k in r.calls.vals ensures (k, r.calls.vals[k]) in Items(r.calls) {
          ItemsOfValid(r.calls, k);
        }
        ItemsOfValid(r.calls, "");
        assert forall k :: k in r.calls.vals <==> Lookup(r.calls, k).Some?;
      }
    }
  }

  lemma StartKeeps()
    ensures Inv(START, {})
  {
  }

  /** No response of a run ever shows a state change: `state` and `prev_state` are always equal. */
  lemma PreviousStateIsNeverDifferent(codec: Codec, events: seq<Event>, source: Option<Failure>, onRaise: Failure)
    ensures forall o | o in StreamWorkflow(codec, events, source, onRaise).0 :: SameStates(o)
  {
    hide ProcessAll, Items, Shown, LastStreamed, Started;
    StartKeeps();
    RunKeeps(codec, START, {}, events);
  }

  /** How a run ends: an error of the last kind is answered with an apology, any other error is raised
      after what was streamed; without an error the run ends by itself. */
  lemma ErrorsDecide(codec: Codec, events: seq<Event>, source: Option<Failure>, onRaise: Failure)
    ensures var r, (out, raised) := ProcessAll(codec, START, events), StreamWorkflow(codec, events, source, onRaise);
      var error := if r.failed then Some(onRaise) else source;
      && (error == Some(OtherError) ==> !raised && out == r.out + [Apology])
      && (error in {Some(Cancelled), Some(StaleServer), Some(Overflow), Some(RestartConfirmed)} ==>
            raised && out == r.out)
      && (error == None ==> Apology !in out)
  {
    hide ProcessAll, Items, Started, Shown, LastStreamed;
    StartKeeps();
    RunKeeps(codec, START, {}, events);
    var r := ProcessAll(codec, START, events);
    assert Apology !in r.out by { assert forall o | o in r.out :: !Done(o); }
  }

  // -------------------------------------------------------------------- colliding keys

  /** Two calls, from whatever two texts and in whatever formats, are registered under the same key
      exactly when they have the same name and the same index: the index restarts with every block. */
  lemma KeysCollideExactly(codec: Codec, s: string, i: nat, t: string, j: nat)
    requires StripRawToolCalls(codec, s).Returned? && i < |StripRawToolCalls(codec, s).value.1|
    requires StripRawToolCalls(codec, t).Returned? && j < |StripRawToolCalls(codec, t).value.1|
    ensures var x, y := StripRawToolCalls(codec, s).value.1[i], StripRawToolCalls(codec, t).value.1[j];
      Key(x) == Key(y) <==> x.name == y.name && i == j
  {
    hide StripRawToolCalls;
    var x, y := StripRawToolCalls(codec, s).value.1[i], StripRawToolCalls(codec, t).value.1[j];
    RT.CallsAreNumbered(codec, s);
    RT.CallsAreNumbered(codec, t);
    RT.ExecIdInjective(x.name, i, y.name, j);
  }

  function CallsIn(codec: Codec, block: string): seq<ToolCall> {
    match StripRawToolCalls(codec, block) case Returned((_, calls)) => calls case Raised => []
  }

  predicate AllParse(codec: Codec, blocks: seq<string>) {
    forall t | t in blocks :: StripRawToolCalls(codec, t).Returned?
  }

  /** The call that the last block with a call of this name at index `i` has there. */
  function LastWith(codec: Codec, blocks: seq<string>, name: string, i: nat): Option<ToolCall> {
    if blocks == [] then None
    else
      var n := |blocks| - 1;
      var calls := CallsIn(codec, blocks[n]);
      if i < |calls| && calls[i].name == name then Some(calls[i]) else LastWith(codec, blocks[..n], name, i)
  }

  lemma {:induction false} KeyedAppend(a: seq<ToolCall>, b: seq<ToolCall>)
    ensures Keyed(a + b) == Keyed(a) + Keyed(b)
  {
    if a == [] {
      assert a + b == b;
    } else {
      assert (a + b)[0] == a[0] && (a + b)[1..] == a[1..] + b;
      KeyedAppend(a[1..], b);
      Regroup([(Key(a[0]), Record(a[0], None))], Keyed(a[1..]), Keyed(b));
    }
  }

  lemma {:induction false} LastInAppend(a: seq<(string, Record)>, b: seq<(string, Record)>, k: string)
    ensures LastIn(a + b, k) == if LastIn(b, k).Some? then LastIn(b, k) else LastIn(a, k)
  {
    if a == [] {
      assert a + b == b;
    } else {
      assert (a + b)[0] == a[0] && (a + b)[1..] == a[1..] + b;
      LastInAppend(a[1..], b, k);
    }
  }

  /** Among numbered calls, the key of a name and an index finds the call at that index, if it has the name. */
  lemma {:induction false} LastInNumbered(calls: seq<ToolCall>, name: string, i: nat)
    requires RT.Numbered(calls)
    ensures LastIn(Keyed(calls), ExecId(name, i)) ==
      if i < |calls| && calls[i].name == name then Some(Record(calls[i], None)) else None
    decreases |calls|
  {
    hide ExecId;
    if calls != [] {
      var n := |calls| - 1;
      var k := ExecId(name, i);
      var last := [(Key(calls[n]), Record(calls[n], None))];
      assert calls == calls[..n] + [calls[n]];
      LastInNumbered(calls[..n], name, i);
      KeyedAppend(calls[..n], [calls[n]]);
      NumberedKey(calls[n], n);
      OnlyKeyed(calls[n], k);
      LastInAppend(Keyed(calls[..n]), Keyed([calls[n]]), k);
      RT.ExecIdInjective(calls[n].name, n, name, i);
    }
  }

  lemma NumberedKey(tc: ToolCall, i: nat)
    requires tc.executionId == ExecId(tc.name, i)
    ensures Key(tc) == ExecId(tc.name, i)
  {
  }

  lemma OnlyKeyed(tc: ToolCall, k: string)
    ensures LastIn(Keyed([tc]), k) == if Key(tc) == k then Some(Record(tc, None)) else None
  {
    assert [tc][1..] == [];
    var cs := [(Key(tc), Record(tc, None))];
    assert Keyed([tc]) == cs && cs[1..] == [];
  }

  lemma {:induction false} BlocksLookUp(codec: Codec, blocks: seq<string>, name: string, i: nat)
    requires AllParse(codec, blocks)
    ensures ParseBlocks(codec, blocks).Returned?
    ensures LastIn(Keyed(ParseBlocks(codec, blocks).value), ExecId(name, i)) ==
      match LastWith(codec, blocks, name, i) case Some(tc) => Some(Record(tc, None)) case None => None
    decreases |blocks|
  {
    hide StripRawToolCalls, ExecId;
    if blocks != [] {
      var n := |blocks| - 1;
      assert forall t | t in blocks[..n] :: t in blocks;
      assert blocks[n] in blocks;
      BlocksLookUp(codec, blocks[..n], name, i);
      RT.CallsAreNumbered(codec, blocks[n]);
      var before, calls := ParseBlocks(codec, blocks[..n]).value, CallsIn(codec, blocks[n]);
      KeyedAppend(before, calls);
      LastInNumbered(calls, name, i);
      LastInAppend(Keyed(before), Keyed(calls), ExecId(name, i));
    }
  }

  /** What is registered under a name and an index after some blocks: the call of the last block that
      has one there. */
  lemma RegisteredIsLast(codec: Codec, r: Run, blocks: seq<string>, name: string, i: nat)
    requires Valid(r.calls) && AllParse(codec, blocks)
    ensures var end, last := EmitRaw(codec, r, blocks), LastWith(codec, blocks, name, i);
      && Valid(end.calls)
      && Lookup(end.calls, ExecId(name, i)) ==
           if last.Some? then Some(Record(last.value, None)) else Lookup(r.calls, ExecId(name, i))
  {
    hide StripRawToolCalls, ExecId, LastWith, ParseBlocks, LastIn;
    BlocksLookUp(codec, blocks, name, i);
    var tcs := ParseBlocks(codec, blocks).value;
    RegisterLooksUp(r.calls, Keyed(tcs));
  }

  lemma {:induction false} LastWithSplits(codec: Codec, a: seq<string>, b: seq<string>, name: string, i: nat)
    ensures LastWith(codec, a + b, name, i) ==
      if LastWith(codec, b, name, i).Some? then LastWith(codec, b, name, i) else LastWith(codec, a, name, i)
    decreases |b|
  {
    hide CallsIn;
    if b == [] {
      assert a + b == a;
    } else {
      var n := |b| - 1;
      assert (a + b)[..|a + b| - 1] == a + b[..n];
      LastWithSplits(codec, a, b[..n], name, i);
    }
  }

  lemma LastIsHere(codec: Codec, blocks: seq<string>, name: string, i: nat)
    requires blocks != []
    requires var calls := CallsIn(codec, blocks[|blocks| - 1]); i < |calls| && calls[i].name == name
    ensures LastWith(codec, blocks, name, i) == Some(CallsIn(codec, blocks[|blocks| - 1])[i])
  {
    hide CallsIn;
  }

  lemma ItemIffLookedUp(d: Dict<Record>, k: string, rec: Record)
    requires Valid(d)
    ensures (k, rec) in Items(d) <==> Lookup(d, k) == Some(rec)
  {
    hide Items;
    ItemsOfValid(d, k);
  }

  lemma SingleBlock(codec: Codec, t: string)
    requires StripRawToolCalls(codec, t).Returned?
    ensures ParseBlocks(codec, [t]) == Returned(StripRawToolCalls(codec, t).value.1)
  {
    hide StripRawToolCalls;
    assert [t][..0] == [];
    NothingMore(StripRawToolCalls(codec, t).value.1);
  }

  // -------------------------------------------------------------------- token counts

  /** The counts that an event reports, the one that counts first. */
  function Reported(e: Event, input: bool): (nat, nat) {
    var tokens := if e.ModelEnd? then e.tokens else Usage(0, 0);
    if input then (tokens.input, e.usage.input) else (tokens.output, e.usage.output)
  }

  /** The last count reported that is not zero, in reporting order, of prompt or of generated tokens. */
  function LastCount(events: seq<Event>, input: bool): nat {
    if events == [] then 0
    else
      var (late, early) := Reported(events[|events| - 1], input);
      if late != 0 then late else if early != 0 then early else LastCount(events[..|events| - 1], input)
  }

  lemma {:induction false} PartsKeepCounts(codec: Codec, r: Run, parts: seq<string>)
    ensures FeedParts(codec, r, parts).promptTokens == r.promptTokens
    ensures FeedParts(codec, r, parts).evalTokens == r.evalTokens
    ensures r.failed ==> FeedParts(codec, r, parts) == r
    decreases |parts|
  {
    hide SB.AfterFeed, SB.SafeText, SB.Blocks, ParseBlocks;
    if parts != [] && !r.failed { PartsKeepCounts(codec, FeedPart(codec, r, parts[0]), parts[1..]); }
  }

  /** The counts after an event. */
  function Counted(e: Event, input: bool, known: nat): nat {
    var (late, early) := Reported(e, input);
    if late != 0 then late else if early != 0 then early else known
  }

  lemma ModelEndCounts(codec: Codec, r: Run, e: Event)
    requires e.ModelEnd? && !AfterModelEnd(codec, r, e).failed
    ensures var end, tokens := AfterModelEnd(codec, r, e), e.tokens;
      && end.promptTokens == (if tokens.input != 0 then tokens.input else r.promptTokens)
      && end.evalTokens == (if tokens.output != 0 then tokens.output else r.evalTokens)
  {
    hide ParseBlocks, StripRawToolCalls, SB.AfterFlush, SB.Blocks, SB.SafeText, FreshCalls, Register, Keyed, Strip;
    hide FinishReason;
  }

  lemma ChunkCounts(codec: Codec, r: Run, e: Event)
    requires e.Chunk?
    ensures var end := AfterChunk(codec, r, e); end.promptTokens == r.promptTokens && end.evalTokens == r.evalTokens
  {
    hide FeedParts;
    var r1 := r.(sawToolChunks := r.sawToolChunks || e.toolChunks);
    var r2 := r1.(out := r1.out + [Thinking(r1.state, r1.prev, e.reasoning)]);
    PartsKeepCounts(codec, if e.reasoning != "" then r2 else r1, e.parts);
  }

  lemma StepCounts(codec: Codec, r: Run, e: Event)
    requires !Process(codec, r, e).failed
    ensures Process(codec, r, e).promptTokens == Counted(e, true, r.promptTokens)
    ensures Process(codec, r, e).evalTokens == Counted(e, false, r.evalTokens)
  {
    hide AfterChunk, AfterModelEnd, NewEvents, ServerOuts;
    var u := TakeUsage(r, e.usage);
    match e
    case Chunk(_, _, _, _) => ChunkCounts(codec, u, e);
    case ModelEnd(_, _, _, _, _, _) => ModelEndCounts(codec, u, e);
    case _ =>
  }

  lemma {:induction false} ProcessAllStep(codec: Codec, r: Run, events: seq<Event>, e: Event)
    ensures ProcessAll(codec, r, events + [e]) ==
      var mid := ProcessAll(codec, r, events); if mid.failed then mid else Process(codec, mid, e)
    decreases |events|
  {
    hide Process;
    var all := events + [e];
    if events == [] {
      assert all[1..] == [];
    } else if !r.failed {
      assert all[1..] == events[1..] + [e];
      ProcessAllStep(codec, Process(codec, r, events[0]), events[1..], e);
    }
  }

  lemma FailedStays(codec: Codec, r: Run, events: seq<Event>)
    ensures r.failed ==> ProcessAll(codec, r, events) == r
  {
  }

  lemma {:induction false} ProcessAllSplit(codec: Codec, r: Run, a: seq<Event>, b: seq<Event>)
    ensures ProcessAll(codec, r, a + b) == ProcessAll(codec, ProcessAll(codec, r, a), b)
    decreases |a|
  {
    hide Process;
    if a == [] || r.failed {
      assert a == [] ==> a + b == b;
      FailedStays(codec, r, b);
    } else {
      assert (a + b)[0] == a[0] && (a + b)[1..] == a[1..] + b;
      ProcessAllSplit(codec, Process(codec, r, a[0]), a[1..], b);
    }
  }

  /** Whichever source reports a real count last wins, and a zero never overwrites one. */
  lemma {:induction false} CountsAreLastNonZero(codec: Codec, events: seq<Event>)
    requires !ProcessAll(codec, START, events).failed
    ensures var end := ProcessAll(codec, START, events);
      end.promptTokens == LastCount(events, true) && end.evalTokens == LastCount(events, false)
    decreases |events|
  {
    hide Process, Reported;
    if events != [] {
      var n := |events| - 1;
      assert events == events[..n] + [events[n]];
      ProcessAllStep(codec, START, events[..n], events[n]);
      CountsAreLastNonZero(codec, events[..n]);
      StepCounts(codec, ProcessAll(codec, START, events[..n]), events[n]);
    }
  }

  // -------------------------------------------------------------------- finish reasons

  /** The finish reason of the last model turn. */
  function LastFinish(events: seq<Event>): string {
    if events == [] then "complete"
    else
      var e := events[|events| - 1];
      if e.ModelEnd? then Normalized(e.finish) else LastFinish(events[..|events| - 1])
  }

  /** No reason is an unknown one, and the plural of one reason is its singular. */
  function Normalized(reason: string): string {
    match reason
    case "" => "unknown"
    case "tool_calls" => "tool_call"
    case _ => reason
  }

  lemma FinishIsNormalized(reason: string)
    ensures FinishReason(reason) == Normalized(reason)
  {
  }

  lemma {:induction false} PartsKeepFinish(codec: Codec, r: Run, parts: seq<string>)
    ensures FeedParts(codec, r, parts).finish == r.finish
    decreases |parts|
  {
    hide SB.AfterFeed, SB.SafeText, SB.Blocks, ParseBlocks;
    if parts != [] && !r.failed { PartsKeepFinish(codec, FeedPart(codec, r, parts[0]), parts[1..]); }
  }

  lemma StepFinish(codec: Codec, r: Run, e: Event)
    requires !Process(codec, r, e).failed
    ensures Process(codec, r, e).finish == if e.ModelEnd? then FinishReason(e.finish) else r.finish
  {
    hide FeedParts, FlushBuffer, EndContent, StructuredCalls, NewEvents, ServerOuts, FinishReason;
    if e.Chunk? {
      var r0 := TakeUsage(r, e.usage);
      var r1 := r0.(sawToolChunks := r0.sawToolChunks || e.toolChunks);
      var r2 := r1.(out := r1.out + [Thinking(r1.state, r1.prev, e.reasoning)]);
      PartsKeepFinish(codec, if e.reasoning != "" then r2 else r1, e.parts);
    }
  }

  lemma {:induction false} FinishIsLast(codec: Codec, events: seq<Event>)
    requires !ProcessAll(codec, START, events).failed
    ensures ProcessAll(codec, START, events).finish == LastFinish(events)
    decreases |events|
  {
    hide Process, FinishReason, Normalized;
    if events != [] {
      var n := |events| - 1;
      assert events == events[..n] + [events[n]];
      ProcessAllStep(codec, START, events[..n], events[n]);
      FinishIsLast(codec, events[..n]);
      StepFinish(codec, ProcessAll(codec, START, events[..n]), events[n]);
      if events[n].ModelEnd? { FinishIsNormalized(events[n].finish); }
    }
  }

  /** A run that gets to its end still raises, and has no final response, exactly when the last model
      turn gave a finish reason that responses do not admit; otherwise the response has that reason, and
      the last real token counts. */
  lemma FinishReasonDecides(codec: Codec, events: seq<Event>, onRaise: Failure)
    requires !ProcessAll(codec, START, events).failed
    ensures var (out, raised) := StreamWorkflow(codec, events, None, onRaise);
      && (raised <==> LastFinish(events) !in {
            "stop", "complete", "length", "error", "load", "unload", "timeout", "cancel", "tool_call", "unknown"})
      && (!raised ==>
            && out != [] && out[|out| - 1].Final? && out[|out| - 1].finish == LastFinish(events)
            && out[|out| - 1].promptTokens == LastCount(events, true)
            && out[|out| - 1].evalTokens == LastCount(events, false))
  {
    hide ProcessAll, LastFinish, LastCount, Items;
    FinishIsLast(codec, events);
    CountsAreLastNonZero(codec, events);
  }
}
