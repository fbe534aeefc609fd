/** graph/tool_call_parser.py: `RawToolCallParser`, which turns raw tool-call text in one of several
    wire formats into tool calls.

    `json.loads` and `json.dumps` are parameters. Building a `ToolCall` whose name is not a string
    is a validation error that no handler in the parser catches; it shows as `Raised`. */
module ToolCallParser {
  import opened Text
  import opened Patterns
  import opened Tags
  import opened Braces
  import StreamBuffer

  datatype Json = JString(s: string) | JObject(fields: map<string, Json>) | JArray(items: seq<Json>)
    | JOther(text: string)

  datatype Codec = Codec(loads: string -> Option<Json>, dumps: Json -> string)

  datatype ToolCall = ToolCall(name: string, args: map<string, Json>, executionId: string)

  datatype Outcome<+T> = Returned(value: T) | Raised {
    predicate IsFailure() { Raised? }

    function PropagateFailure<U>(): Outcome<U>
      requires Raised?
    {
      Raised
    }

    function Extract(): T
      requires Returned?
    {
      value
    }
  }

  /** `s[i:j]`, with Python's tolerance for crossed and overlong bounds. */
  function Slice(s: string, i: nat, j: nat): string {
    var j' := if j > |s| then |s| else j;
    if i >= j' then "" else s[i..j']
  }

  function ExecId(name: string, index: nat): string {
    "raw_" + name + "_" + Decimal(index)
  }

  /** The argument map after the assignments in order: the last duplicate key wins. */
  function ArgsOf(pairs: seq<(string, string)>): map<string, Json> {
    if pairs == [] then map[]
    else
      var n := |pairs| - 1;
      ArgsOf(pairs[..n])[pairs[n].0 := JString(pairs[n].1)]
  }

  // -------------------------------------------------------------------- one body, one call

  function TryParseJson(codec: Codec, body: string, index: nat): Outcome<Option<ToolCall>> {
    if body == "" || body[0] != '{' then Returned(None)
    else
      match codec.loads(body)
      case Some(JObject(fields)) =>
        if "name" !in fields then Returned(None)
        else
          var given := if "arguments" in fields then fields["arguments"]
            else if "args" in fields then fields["args"] else JObject(map[]);
          var args :=
            if given.JString? then
              match codec.loads(given.s) case Some(j) => j case None => JObject(map["raw" := given])
            else given;
          match fields["name"] {
            case JString(name) =>
              Returned(Some(ToolCall(name, if args.JObject? then args.fields else map[], ExecId(name, index))))
            case _ => Raised
          }
      case _ => Returned(None)
  }

  // <function=([^>]+)> and <parameter=([^>]+)> under re.IGNORECASE
  const FUNCTION_TAG: seq<Piece> := [Word("<function=", true), Not('>'), Word(">", false)]
  const PARAMETER_TAG: seq<Piece> := [Word("<parameter=", true), Not('>'), Word(">", false)]

  /** Where a parameter value that starts at `i` ends. */
  function ValueEnd(body: string, i: nat): (r: nat)
    requires i <= |body|
    ensures i <= r <= |body|
    decreases |body| - i
  {
    if i == |body| || WordAt(body, i, "</parameter>", true) || WordAt(body, i, "<parameter=", true) then i
    else ValueEnd(body, i + 1)
  }

  /** The (key, value) pairs of the parameters from `from` on; a parameter with a blank key is skipped.

      `$` also matches before a final newline. That changes nothing: the value is stripped. */
  function Parameters(body: string, from: nat): seq<(string, string)>
    requires from <= |body|
    decreases |body| - from
  {
    match Search(PARAMETER_TAG, body, from)
    case None => []
    case Some(m) =>
      AnchoredMatchAdvances(PARAMETER_TAG, body, m.start);
      var stop := ValueEnd(body, m.end);
      var next := if WordAt(body, stop, "</parameter>", true) then stop + 12 else stop;
      var key := Strip(Slice(body, m.start + 11, m.end - 1));
      (if key == "" then [] else [(key, Strip(body[m.end..stop]))]) + Parameters(body, next)
  }

  function TryParseFunctionTag(body: string, index: nat): Option<ToolCall> {
    var e :- MatchEnd(FUNCTION_TAG, body, 0);
    var name := Strip(Slice(body, 10, if e == 0 then 0 else e - 1));
    if name == "" then None else Some(ToolCall(name, ArgsOf(Parameters(body, 0)), ExecId(name, index)))
  }

  /** The assignments that the GLM loop makes. An unclosed value extends to the end of the block. */
  function GlmPairs(rest: string): seq<(string, string)>
    decreases |rest|
  {
    match Find(rest, "<arg_key>", 0)
    case None => []
    case Some(ks) =>
      match Find(rest, "</arg_key>", ks)
      case None => []
      case Some(ke) =>
        var key := Strip(Slice(rest, ks + 9, ke));
        match Find(rest, "<arg_value>", ke)
        case None => []
        case Some(vs) =>
          match Find(rest, "</arg_value>", vs)
          case None => [(key, rest[vs + 11..])]
          case Some(ve) => [(key, Slice(rest, vs + 11, ve))] + GlmPairs(rest[ve + 12..])
  }

  function TryParseGlmXml(body: string, index: nat): Option<ToolCall> {
    var k :- Find(body, "<arg_key>", 0);
    var name := Strip(body[..k]);
    if name == "" then None else Some(ToolCall(name, ArgsOf(GlmPairs(body[k..])), ExecId(name, index)))
  }

  function ParseBody(codec: Codec, body: string, index: nat): Outcome<Option<ToolCall>> {
    var tc :- TryParseJson(codec, body, index);
    if tc.Some? then Returned(tc)
    else
      var fc := TryParseFunctionTag(body, index);
      Returned(if fc.Some? then fc else TryParseGlmXml(body, index))
  }

  // -------------------------------------------------------------------- many bodies

  function ParseOne(codec: Codec, tagged: bool, body: string, index: nat): Outcome<Option<ToolCall>> {
    if tagged then ParseBody(codec, body, index) else TryParseJson(codec, body, index)
  }

  function Grown(parsed: seq<ToolCall>, tc: Option<ToolCall>): seq<ToolCall> {
    if tc.Some? then parsed + [tc.value] else parsed
  }

  /** Parses bodies in order; a call's index is the number of calls parsed before it. */
  function Collect(codec: Codec, tagged: bool, bodies: seq<string>): Outcome<seq<ToolCall>> {
    if bodies == [] then Returned([])
    else
      var n := |bodies| - 1;
      var parsed :- Collect(codec, tagged, bodies[..n]);
      var tc :- ParseOne(codec, tagged, bodies[n], |parsed|);
      Returned(Grown(parsed, tc))
  }

  lemma CollectStep(codec: Codec, tagged: bool, bodies: seq<string>, body: string)
    ensures Collect(codec, tagged, []) == Returned([])
    ensures Collect(codec, tagged, bodies + [body]) ==
      var parsed :- Collect(codec, tagged, bodies);
      var tc :- ParseOne(codec, tagged, body, |parsed|);
      Returned(Grown(parsed, tc))
  {
    var all := bodies + [body];
    assert all[..|all| - 1] == bodies && all[|all| - 1] == body;
  }

  /** The stripped, non-empty bodies of the tagged blocks; an unclosed block runs to the end. */
  function BlockBodies(raw: string, from: nat): seq<string>
    requires from <= |raw|
    decreases |raw| - from
  {
    match FindTag(Open, raw, from)
    case None => []
    case Some(o) =>
      var c := FindTag(Close, raw, o.end);
      var body := Strip(raw[o.end..if c.None? then |raw| else c.value.start]);
      (if body == "" then [] else [body]) + BlockBodies(raw, if c.None? then |raw| else c.value.end)
  }

  /** The stripped brace-balanced objects at the front of `rest`, as the slicing loop cuts them. */
  function BareSlices(rest: string): seq<string>
    decreases |rest|
  {
    var r := LStrip(rest);
    if r == "" || r[0] != '{' then []
    else
      match FirstClose(r, 0)
      case None => []
      case Some(e) => [Strip(r[..e])] + BareSlices(r[e..])
  }

  lemma LStripOnce(s: string)
    ensures LStrip(LStrip(s)) == LStrip(s) && |LStrip(s)| <= |s|
    ensures BareSlices(LStrip(s)) == BareSlices(s)
  {
    var r := LStrip(s);
    assert SkipSpaces(r, 0) == 0;
    assert r[0..] == r;
  }

  /** `\[TOOL_CALLS\]\s*(\[.*\])`: where it starts, and the array text. */
  function MistralArray(s: string, from: nat): (r: Option<(nat, string)>)
    requires from <= |s|
    ensures r.Some? ==> from <= r.value.0 <= |s|
    decreases |s| - from
  {
    var found :=
      var a :- if At(s, from, "[TOOL_CALLS]") then Some(SkipSpaces(s, from + 12)) else None;
      var k :- FindLast(s, "]", |s|);
      if At(s, a, "[") && k > a then Some(s[a..k + 1]) else None;
    if found.Some? then Some((from, found.value))
    else if from == |s| then None
    else MistralArray(s, from + 1)
  }

  function NamedItems(codec: Codec, items: seq<Json>): seq<string> {
    if items == [] then []
    else
      (if items[0].JObject? && "name" in items[0].fields then [codec.dumps(items[0])] else [])
      + NamedItems(codec, items[1..])
  }

  function MistralBodies(codec: Codec, arrayText: string): seq<string> {
    match codec.loads(arrayText)
    case Some(JArray(items)) => NamedItems(codec, items)
    case _ => []
  }

  datatype CodeBlock = CodeBlock(start: nat, end: nat, body: string)

  /** One past the whitespace run at `i`, if it ends in a newline (`\s*\n`). */
  function NewlineRun(s: string, i: nat): (r: Option<nat>)
    ensures r.Some? ==> i < r.value <= |s|
  {
    if i > |s| then None
    else
      var k := SkipSpaces(s, i);
      if k > i && s[k - 1] == '\n' then Some(k) else None
  }

  /** The shortest `.*?\}` from `e` on that is followed by a newline run and a closing fence. */
  function FenceEnd(s: string, e: nat): (r: Option<(nat, nat)>)
    requires e <= |s|
    ensures r.Some? ==> e < r.value.0 < r.value.1 <= |s|
    decreases |s| - e
  {
    if e == |s| then None
    else
      var close := if s[e] == '}' then NewlineRun(s, e + 1) else None;
      if close.Some? && At(s, close.value, "```") then Some((e + 1, close.value + 3)) else FenceEnd(s, e + 1)
  }

  /** "```(?:json)?\s*\n(\{.*?\})\s*\n```" at `i`. */
  function CodeBlockAt(s: string, i: nat): (r: Option<CodeBlock>)
    requires i <= |s|
    ensures r.Some? ==> r.value.start == i < r.value.end <= |s|
  {
    var j :- if At(s, i, "```") then Some(i + if At(s, i + 3, "json") then 7 else 3) else None;
    var k :- NewlineRun(s, j);
    var (e, end) :- if At(s, k, "{") then FenceEnd(s, k + 1) else None;
    Some(CodeBlock(i, end, s[k..e]))
  }

  function CodeBlocks(s: string, from: nat): (r: seq<CodeBlock>)
    requires from <= |s|
    ensures Disjoint(r, from, |s|)
    decreases |s| - from
  {
    match CodeBlockAt(s, from)
    case Some(b) => [b] + CodeBlocks(s, b.end)
    case None => if from == |s| then [] else CodeBlocks(s, from + 1)
  }

  /** Blocks in text order that do not overlap, within `lo` and `hi`. */
  predicate Disjoint(bs: seq<CodeBlock>, lo: nat, hi: nat)
    decreases |bs|
  {
    if bs == [] then lo <= hi
    else lo <= bs[0].start < bs[0].end <= hi && Disjoint(bs[1..], bs[0].end, hi)
  }

  /** What lies between the blocks: the text without them. */
  function Gaps(s: string, bs: seq<CodeBlock>, from: nat): string
    requires Disjoint(bs, from, |s|)
    decreases |bs|
  {
    if bs == [] then s[from..] else s[from..bs[0].start] + Gaps(s, bs[1..], bs[0].end)
  }

  function StrippedBodies(bs: seq<CodeBlock>): seq<string> {
    if bs == [] then [] else [Strip(bs[0].body)] + StrippedBodies(bs[1..])
  }

  // -------------------------------------------------------------------- dispatch

  function StripRawToolCalls(codec: Codec, content: string): Outcome<(string, seq<ToolCall>)> {
    match FindTag(Open, content, 0)
    case None => StripMistral(codec, content)
    case Some(m) =>
      var parsed :- Collect(codec, true, BlockBodies(content[m.start..], 0));
      if parsed != [] then Returned((RStrip(content[..m.start]), parsed)) else StripMistral(codec, content)
  }

  function StripMistral(codec: Codec, content: string): Outcome<(string, seq<ToolCall>)> {
    match MistralArray(content, 0)
    case None => StripCodeBlocks(codec, content)
    case Some((start, arrayText)) =>
      var parsed :- Collect(codec, false, MistralBodies(codec, arrayText));
      if parsed != [] then Returned((RStrip(content[..start]), parsed)) else StripCodeBlocks(codec, content)
  }

  function StripCodeBlocks(codec: Codec, content: string): Outcome<(string, seq<ToolCall>)> {
    var blocks := CodeBlocks(content, 0);
    var parsed :- Collect(codec, false, StrippedBodies(blocks));
    if parsed != [] then Returned((RStrip(Gaps(content, blocks, 0)), parsed)) else StripBareJson(codec, content)
  }

  function StripBareJson(codec: Codec, content: string): Outcome<(string, seq<ToolCall>)> {
    match Search(StreamBuffer.BARE_JSON, content, 0)
    case None => Returned((content, []))
    case Some(m) =>
      var parsed :- Collect(codec, false, BareSlices(content[m.start..]));
      Returned(if parsed != [] then (RStrip(content[..m.start]), parsed) else (content, []))
  }

  // -------------------------------------------------------------------- the loops

  lemma ArgsOfStep(pairs: seq<(string, string)>, key: string, value: string)
    ensures ArgsOf([]) == map[]
    ensures ArgsOf(pairs + [(key, value)]) == ArgsOf(pairs)[key := JString(value)]
  {
    var all := pairs + [(key, value)];
    assert all[..|all| - 1] == pairs && all[|all| - 1] == (key, value);
  }

  class RawToolCallParser {
    const codec: Codec

    constructor (codec: Codec)
      ensures this.codec == codec
    {
      this.codec := codec;
    }

    method ParseRawToolCalls(raw: string) returns (r: Outcome<seq<ToolCall>>)
      ensures r == Collect(codec, true, BlockBodies(raw, 0))
    {
      hide FindTag, MatchEnd, TagEnd, ParseBody, SkipSpaces, DropSpaces, Strip, HasTag;
      hide Collect;
      CollectStep(codec, true, [], "");
      var parsed: seq<ToolCall> := [];
      var from := 0;
      ghost var done: seq<string> := [];
      while true
        invariant from <= |raw| && BlockBodies(raw, 0) == done + BlockBodies(raw, from)
        invariant Collect(codec, true, done) == Returned(parsed)
        decreases |raw| - from
      {
        var open := FindTag(Open, raw, from);
        if open.None? { break; }
        var close := FindTag(Close, raw, open.value.end);
        var body := Strip(raw[open.value.end..if close.None? then |raw| else close.value.start]);
        ghost var next := BlockBodies(raw, if close.None? then |raw| else close.value.end);
        from := if close.None? then |raw| else close.value.end;
        if body == "" {
          NothingMore(next);
        } else {
          CollectNext(codec, true, done, body, next, parsed);
          done := done + [body];
          var tc :- ParseBody(codec, body, |parsed|);
          if tc.Some? { parsed := parsed + [tc.value]; }
        }
      }
      NothingMore(done);
      r := Returned(parsed);
    }

    method TryParseGlm(body: string, index: nat) returns (r: Option<ToolCall>)
      ensures r == TryParseGlmXml(body, index)
    {
      hide Find, Strip, Slice, ArgsOf;
      var start := Find(body, "<arg_key>", 0);
      if start.None? { return None; }
      var name := Strip(body[..start.value]);
      if name == "" { return None; }
      var args: map<string, Json> := map[];
      ArgsOfStep([], "", "");
      var remaining := body[start.value..];
      ghost var whole, done: seq<(string, string)> := GlmPairs(remaining), [];
      while remaining != ""
        invariant whole == done + GlmPairs(remaining)
        invariant args == ArgsOf(done)
        decreases |remaining|
      {
        var ks := Find(remaining, "<arg_key>", 0);
        if ks.None? { break; }
        var ke := Find(remaining, "</arg_key>", ks.value);
        if ke.None? { break; }
        var key := Strip(Slice(remaining, ks.value + 9, ke.value));
        var vs := Find(remaining, "<arg_value>", ke.value);
        if vs.None? { break; }
        var ve := Find(remaining, "</arg_value>", vs.value);
        var value := if ve.None? then remaining[vs.value + 11..] else Slice(remaining, vs.value + 11, ve.value);
        ArgsOfStep(done, key, value);
        args := args[key := JString(value)];
        ghost var more := if ve.None? then [] else GlmPairs(remaining[ve.value + 12..]);
        NothingMore([(key, value)]);
        assert GlmPairs(remaining) == [(key, value)] + more;
        Regroup(done, [(key, value)], more);
        done := done + [(key, value)];
        remaining := if ve.None? then "" else remaining[ve.value + 12..];
      }
      NothingMore(done);
      r := Some(ToolCall(name, args, ExecId(name, index)));
    }

    method TryParseFunction(body: string, index: nat) returns (r: Option<ToolCall>)
      ensures r == TryParseFunctionTag(body, index)
    {
      hide MatchEnd, Search, ValueEnd, Strip, Slice, ArgsOf;
      var e := MatchEnd(FUNCTION_TAG, body, 0);
      if e.None? { return None; }
      var name := Strip(Slice(body, 10, if e.value == 0 then 0 else e.value - 1));
      if name == "" { return None; }
      var args: map<string, Json> := map[];
      ArgsOfStep([], "", "");
      var from := 0;
      ghost var done: seq<(string, string)> := [];
      while true
        invariant from <= |body| && Parameters(body, 0) == done + Parameters(body, from)
        invariant args == ArgsOf(done)
        decreases |body| - from
      {
        var m := Search(PARAMETER_TAG, body, from);
        if m.None? { break; }
        AnchoredMatchAdvances(PARAMETER_TAG, body, m.value.start);
        var stop := ValueEnd(body, m.value.end);
        var next := if WordAt(body, stop, "</parameter>", true) then stop + 12 else stop;
        var key := Strip(Slice(body, m.value.start + 11, m.value.end - 1));
        var value := Strip(body[m.value.end..stop]);
        if key != "" {
          ArgsOfStep(done, key, value);
          args := args[key := JString(value)];
          Regroup(done, [(key, value)], Parameters(body, next));
          done := done + [(key, value)];
        } else {
          NothingMore(Parameters(body, next));
        }
        from := next;
      }
      NothingMore(done);
      r := Some(ToolCall(name, args, ExecId(name, index)));
    }

    method TryParseBareJson(content: string, start: nat) returns (r: Outcome<seq<ToolCall>>)
      requires start <= |content|
      ensures r == Collect(codec, false, BareSlices(content[start..]))
    {
      hide TryParseJson, SkipSpaces, DropSpaces, FirstClose, Collect, LStrip, Strip;
      CollectStep(codec, false, [], "");
      var parsed: seq<ToolCall> := [];
      var remaining := content[start..];
      ghost var whole, done: seq<string> := BareSlices(remaining), [];
      while remaining != ""
        invariant whole == done + BareSlices(remaining)
        invariant Collect(codec, false, done) == Returned(parsed)
        decreases |remaining|
      {
        LStripOnce(remaining);
        remaining := LStrip(remaining);
        if remaining == "" || remaining[0] != '{' { break; }
        var end := MatchingBrace(remaining);
        if end.None? { break; }
        var body := Strip(remaining[..end.value]);
        ghost var later := BareSlices(remaining[end.value..]);
        CollectNext(codec, false, done, body, later, parsed);
        done := done + [body];
        var tc :- TryParseJson(codec, body, |parsed|);
        if tc.Some? { parsed := parsed + [tc.value]; }
        remaining := remaining[end.value..];
      }
      LStripOnce(remaining);
      assert BareSlices(remaining) == [];
      NothingMore(done);
      r := Returned(parsed);
    }

    /** The brace scan inside the slicing loop. */
    method MatchingBrace(s: string) returns (end: Option<nat>)
      ensures end == FirstClose(s, 0)
    {
      var depth := 0;
      for i := 0 to |s|
        invariant depth == Depth(s[..i])
        invariant forall e | 0 < e <= i :: !ClosesAt(s, e)
      {
        DepthStep(s, i);
        if s[i] == '{' {
          depth := depth + 1;
        } else if s[i] == '}' {
          depth := depth - 1;
          if depth == 0 {
            assert ClosesAt(s, i + 1);
            return Some(i + 1);
          }
        }
      }
      end := None;
    }

    method TryParseMistral(arrayText: string) returns (r: Outcome<seq<ToolCall>>)
      ensures r == Collect(codec, false, MistralBodies(codec, arrayText))
    {
      hide TryParseJson;
      var data := codec.loads(arrayText);
      if data.None? || !data.value.JArray? { return Returned([]); }
      var items := data.value.items;
      var parsed: seq<ToolCall> := [];
      ghost var done: seq<string> := [];
      for i := 0 to |items|
        invariant NamedItems(codec, items) == done + NamedItems(codec, items[i..])
        invariant Collect(codec, false, done) == Returned(parsed)
      {
        var item := items[i];
        ghost var later := NamedItems(codec, items[i + 1..]);
        assert items[i..][1..] == items[i + 1..];
        if item.JObject? && "name" in item.fields {
          var body := codec.dumps(item);
          CollectNext(codec, false, done, body, later, parsed);
          done := done + [body];
          var tc :- TryParseJson(codec, body, |parsed|);
          if tc.Some? { parsed := parsed + [tc.value]; }
        } else {
          assert [] + later == later;
        }
      }
      assert done + [] == done;
      r := Returned(parsed);
    }

    /** Cuts the blocks out of the content, last block first, so that earlier offsets stay valid. */
    method RemoveCodeBlocks(content: string, blocks: seq<CodeBlock>) returns (cleaned: string)
      requires Disjoint(blocks, 0, |content|)
      ensures cleaned == Gaps(content, blocks, 0)
    {
      cleaned := content;
      var i := |blocks|;
      DisjointSuffix(blocks, 0, |content|, i);
      while i > 0
        invariant 0 <= i <= |blocks| && SuffixFits(blocks, i, |content|)
        invariant cleaned == content[..FloorOf(blocks, i)] + Gaps(content, blocks[i..], FloorOf(blocks, i))
      {
        i := i - 1;
        DisjointSuffix(blocks, 0, |content|, i);
        var b := blocks[i];
        assert blocks[i..][1..] == blocks[i + 1..] && blocks[i..][0] == b;
        ghost var tail := Gaps(content, blocks[i + 1..], b.end);
        assert FloorOf(blocks, i + 1) == b.end && cleaned == content[..b.end] + tail;
        cleaned := cleaned[..b.start] + cleaned[b.end..];
        assert content[..b.start] == content[..FloorOf(blocks, i)] + content[FloorOf(blocks, i)..b.start];
        Regroup(content[..FloorOf(blocks, i)], content[FloorOf(blocks, i)..b.start], tail);
      }
      assert blocks[0..] == blocks;
    }
  }

  /** Where block `i - 1` ends: the text from there on is unaffected by the earlier blocks. */
  function FloorOf(bs: seq<CodeBlock>, i: nat): nat
    requires i <= |bs|
  {
    if i == 0 then 0 else bs[i - 1].end
  }

  ghost predicate SuffixFits(bs: seq<CodeBlock>, i: nat, hi: nat)
    requires i <= |bs|
  {
    FloorOf(bs, i) <= hi && Disjoint(bs[i..], FloorOf(bs, i), hi)
  }

  lemma {:induction false} DisjointSuffix(bs: seq<CodeBlock>, lo: nat, hi: nat, i: nat)
    requires Disjoint(bs, lo, hi) && i <= |bs|
    ensures i == 0 ==> lo <= hi
    ensures i > 0 ==> FloorOf(bs, i) <= hi && Disjoint(bs[i..], FloorOf(bs, i), hi)
    ensures i == 0 ==> Disjoint(bs[i..], lo, hi)
    decreases |bs|
  {
    if i == 0 {
      assert bs[0..] == bs;
      if bs != [] { DisjointSuffix(bs[1..], bs[0].end, hi, 0); }
    } else {
      DisjointSuffix(bs[1..], bs[0].end, hi, i - 1);
      assert bs[1..][i - 1..] == bs[i..];
    }
  }

  /** One turn of a parsing loop: `done` has been parsed, `body` is next, `later` remains. */
  lemma CollectNext(codec: Codec, tagged: bool, done: seq<string>, body: string, later: seq<string>,
                    parsed: seq<ToolCall>)
    requires Collect(codec, tagged, done) == Returned(parsed)
    ensures done + ([body] + later) == (done + [body]) + later
    ensures var tc := ParseOne(codec, tagged, body, |parsed|);
      if tc.Returned? then Collect(codec, tagged, done + [body]) == Returned(Grown(parsed, tc.value))
      else Collect(codec, tagged, done + ([body] + later)) == Raised
  {
    hide ParseBody, TryParseJson;
    CollectStep(codec, tagged, done, body);
    CollectPrefix(codec, tagged, done + [body], later);
    assert done + ([body] + later) == (done + [body]) + later;
  }

  /** Once parsing a body raises, everything after it raises too. */
  lemma {:induction false} CollectPrefix(codec: Codec, tagged: bool, a: seq<string>, b: seq<string>)
    ensures Collect(codec, tagged, a).Raised? ==> Collect(codec, tagged, a + b).Raised?
    decreases |b|
  {
    if b == [] {
      assert a + b == a;
    } else {
      var n := |b| - 1;
      CollectPrefix(codec, tagged, a, b[..n]);
      assert a + b == (a + b[..n]) + [b[n]];
      CollectStep(codec, tagged, a + b[..n], b[n]);
    }
  }
}
