/** graph/tool_call_parser.py: what a call written in JSON becomes, in each of the four places where the
    parser looks for one. */
module JsonCalls {
  import opened Text
  import opened Patterns
  import opened Tags
  import opened Braces
  import opened ToolCallParser
  import RT = RoundTrips
  import SB = StreamBuffer
  import SP = StreamBufferProperties

  /** What is given as arguments, and the argument map it stands for: an object stands for itself, a
      string for the object it spells, or for itself under `raw` when it spells nothing, and anything else
      for no arguments. */
  ghost predicate StandsFor(codec: Codec, given: Json, args: map<string, Json>) {
    match given
    case JObject(fields) => args == fields
    case JString(s) =>
      && (codec.loads(s).None? ==> args == map["raw" := JString(s)])
      && (codec.loads(s).Some? && codec.loads(s).value.JObject? ==> args == codec.loads(s).value.fields)
      && (codec.loads(s).Some? && !codec.loads(s).value.JObject? ==> args == map[])
    case JArray(_) => args == map[]
    case JOther(_) => args == map[]
  }

  /** The call is the one that the object with these fields spells: its name, and what stands under
      `arguments`, or else under `args`, or else nothing. */
  ghost predicate Spells(codec: Codec, fields: map<string, Json>, index: nat, tc: ToolCall) {
    && "name" in fields && fields["name"] == JString(tc.name)
    && tc.executionId == "raw_" + tc.name + "_" + Decimal(index)
    && ("arguments" in fields ==> StandsFor(codec, fields["arguments"], tc.args))
    && ("arguments" !in fields && "args" in fields ==> StandsFor(codec, fields["args"], tc.args))
    && ("arguments" !in fields && "args" !in fields ==> tc.args == map[])
  }

  /** The text loads to an object with these fields, and a string for a name. */
  predicate Loads(codec: Codec, body: string, fields: map<string, Json>) {
    && body != "" && body[0] == '{' && codec.loads(body) == Some(JObject(fields))
    && "name" in fields && fields["name"].JString?
  }

  lemma BodySpells(codec: Codec, body: string, fields: map<string, Json>, index: nat)
    requires Loads(codec, body, fields)
    ensures var r := TryParseJson(codec, body, index);
      r.Returned? && r.value.Some? && Spells(codec, fields, index, r.value.value)
  {
  }

  /** A body gives a call exactly when it is such a text, and raises exactly when its name is no string. */
  lemma BodyOutcome(codec: Codec, body: string, index: nat)
    ensures var r, loaded := TryParseJson(codec, body, index), codec.loads(body);
      var named := body != "" && body[0] == '{'
        && loaded.Some? && loaded.value.JObject? && "name" in loaded.value.fields;
      && (r.Raised? <==> named && !loaded.value.fields["name"].JString?)
      && (r.Returned? && r.value.Some? <==> named && loaded.value.fields["name"].JString?)
  {
  }

  // -------------------------------------------------------------------- in tags

  /** A JSON body in tags: parsing gives exactly the call it spells, and no text. */
  lemma TaggedCall(codec: Codec, body: string, fields: map<string, Json>)
    requires Loads(codec, body, fields) && Strip(body) == body && !HasTag(Close, body)
    ensures var r := StripRawToolCalls(codec, RT.Wrapped(body));
      && r.Returned? && r.value.0 == "" && |r.value.1| == 1
      && Spells(codec, fields, 0, r.value.1[0])
  {
    hide StripRawToolCalls, Strip, HasTag, RT.Wrapped, TryParseJson, Spells;
    BodySpells(codec, body, fields, 0);
    var tc := TryParseJson(codec, body, 0).value.value;
    JsonIsFirst(codec, body, 0);
    RT.WrappedRoundTrip(codec, body, tc);
  }

  /** A body that is read as JSON is not tried in the other formats. */
  lemma JsonIsFirst(codec: Codec, body: string, index: nat)
    ensures var r := TryParseJson(codec, body, index);
      r.Raised? || r.value.Some? ==> ParseOne(codec, true, body, index) == r
  {
    hide TryParseJson, TryParseFunctionTag, TryParseGlmXml;
  }

  /** A name that is no string makes parsing raise. */
  lemma TaggedCallRaises(codec: Codec, body: string, fields: map<string, Json>)
    requires body != "" && body[0] == '{' && Strip(body) == body && !HasTag(Close, body)
    requires codec.loads(body) == Some(JObject(fields)) && "name" in fields && !fields["name"].JString?
    ensures StripRawToolCalls(codec, RT.Wrapped(body)) == Raised
  {
    hide Strip, HasTag, RT.Wrapped, TryParseJson, FindTag, TagEnd, BlockBodies, ParseOne, StripMistral, Collect;
    var t := RT.Wrapped(body);
    BodyOutcome(codec, body, 0);
    JsonIsFirst(codec, body, 0);
    RT.PrintedIsWholeBlock(body);
    CollectStep(codec, true, [], body);
    NothingMore([body]);
    assert t[0..] == t;
  }

  // -------------------------------------------------------------------- the four places

  /** No tagged block holds a call. */
  predicate NoTaggedCall(codec: Codec, s: string) {
    HasTag(Open, s) ==> Collect(codec, true, BlockBodies(s[FindTag(Open, s, 0).value.start..], 0)) == Returned([])
  }

  /** No array after a marker holds a call. */
  predicate NoArrayCall(codec: Codec, s: string) {
    MistralArray(s, 0).Some? ==>
      Collect(codec, false, MistralBodies(codec, MistralArray(s, 0).value.1)) == Returned([])
  }

  /** No code block holds a call. */
  predicate NoFencedCall(codec: Codec, s: string) {
    Collect(codec, false, StrippedBodies(CodeBlocks(s, 0))) == Returned([])
  }

  /** A place without a call is passed over, whatever else it holds. */
  lemma PassedOver(codec: Codec, s: string)
    ensures NoTaggedCall(codec, s) ==> StripRawToolCalls(codec, s) == StripMistral(codec, s)
    ensures NoArrayCall(codec, s) ==> StripMistral(codec, s) == StripCodeBlocks(codec, s)
    ensures NoFencedCall(codec, s) ==> StripCodeBlocks(codec, s) == StripBareJson(codec, s)
  {
    hide FindTag, Collect, BlockBodies, MistralArray, MistralBodies, StrippedBodies, CodeBlocks, Gaps, StripBareJson;
    hide RStrip;
  }

  // -------------------------------------------------------------------- after the marker

  predicate NamedItem(j: Json) {
    j.JObject? && "name" in j.fields
  }

  /** The items that are objects with a name. */
  function Named(items: seq<Json>): seq<Json> {
    if items == [] then [] else (if NamedItem(items[0]) then [items[0]] else []) + Named(items[1..])
  }

  /** Printing the item and loading it again gives it back, and its name is a string. */
  predicate Printable(codec: Codec, item: Json) {
    item.JObject? && Loads(codec, codec.dumps(item), item.fields)
  }

  function Printed(codec: Codec, items: seq<Json>): seq<string> {
    seq(|items|, i requires 0 <= i < |items| => codec.dumps(items[i]))
  }

  lemma {:induction false} NamedArePrinted(codec: Codec, items: seq<Json>)
    ensures NamedItems(codec, items) == Printed(codec, Named(items))
  {
    if items != [] {
      NamedArePrinted(codec, items[1..]);
      assert NamedItems(codec, items) ==
        (if NamedItem(items[0]) then [codec.dumps(items[0])] else []) + NamedItems(codec, items[1..]);
    }
  }

  /** The calls are those that the objects spell, in order. */
  ghost predicate AllSpelled(codec: Codec, items: seq<Json>, calls: seq<ToolCall>) {
    && |calls| == |items|
    && forall i | 0 <= i < |items| :: items[i].JObject? && Spells(codec, items[i].fields, i, calls[i])
  }

  /** The texts load to the objects, in order. */
  ghost predicate AllLoad(codec: Codec, bodies: seq<string>, items: seq<Json>) {
    && |bodies| == |items|
    && forall i | 0 <= i < |bodies| :: items[i].JObject? && Loads(codec, bodies[i], items[i].fields)
  }

  lemma {:induction false} BodiesAreSpelled(codec: Codec, bodies: seq<string>, items: seq<Json>)
    requires AllLoad(codec, bodies, items)
    ensures var r := Collect(codec, false, bodies);
      r.Returned? && AllSpelled(codec, items, r.value)
    decreases |items|
  {
    hide TryParseJson, Spells, Loads;
    if items != [] {
      var n := |items| - 1;
      BodiesAreSpelled(codec, bodies[..n], items[..n]);
      BodySpells(codec, bodies[n], items[n].fields, n);
      assert bodies == bodies[..n] + [bodies[n]];
      CollectStep(codec, false, bodies[..n], bodies[n]);
    }
  }

  lemma PrintedAreSpelled(codec: Codec, items: seq<Json>)
    requires forall x | x in items :: Printable(codec, x)
    ensures var r := Collect(codec, false, Printed(codec, items));
      r.Returned? && AllSpelled(codec, items, r.value)
  {
    hide Spells, Loads;
    assert forall i | 0 <= i < |items| :: items[i] in items;
    BodiesAreSpelled(codec, Printed(codec, items), items);
  }

  lemma {:induction false} ArrayIsFound(s: string, from: nat, start: nat, arr: string)
    requires from <= start <= |s| && forall j | from <= j < start :: !At(s, j, "[TOOL_CALLS]")
    requires MistralArray(s, start) == Some((start, arr))
    ensures MistralArray(s, from) == Some((start, arr))
    decreases start - from
  {
    hide At, FindLast, SkipSpaces;
    if from < start { ArrayIsFound(s, from + 1, start, arr); }
  }

  /** The array of calls after a marker. */
  function AfterMarker(gap: string, arr: string): string {
    "[TOOL_CALLS]" + gap + arr
  }

  lemma ArrayHere(s: string, p: nat, arr: string)
    requires |arr| >= 2 && arr[0] == '[' && arr[|arr| - 1] == ']'
    requires p + 12 <= |s| - |arr| && At(s, p, "[TOOL_CALLS]") && s[|s| - |arr|..] == arr
    requires forall j | p + 12 <= j < |s| - |arr| :: IsSpace(s[j])
    ensures MistralArray(s, p) == Some((p, arr))
  {
    hide IsSpace, MistralArray, At;
    SuffixEnds(s, |s| - |arr|, arr);
    ArrayAt(s, p, |s| - |arr|);
  }

  lemma SuffixEnds(s: string, a: nat, arr: string)
    requires a <= |s| && s[a..] == arr && arr != ""
    ensures a < |s| && s[a] == arr[0] && s[|s| - 1] == arr[|arr| - 1]
  {
    assert s[a] == s[a..][0] && s[|s| - 1] == s[a..][|arr| - 1];
  }

  lemma ArrayAt(s: string, p: nat, a: nat)
    requires p + 12 <= a && a + 2 <= |s| && At(s, p, "[TOOL_CALLS]") && s[a] == '[' && s[|s| - 1] == ']'
    requires forall j | p + 12 <= j < a :: IsSpace(s[j])
    ensures MistralArray(s, p) == Some((p, s[a..]))
  {
    hide SkipSpaces, IsSpace, FindLast, At;
    BracketIsNoSpace();
    SkipSpacesIs(s, p + 12, a);
    LastBracket(s);
    BracketAt(s, a);
    assert s[a..|s| - 1 + 1] == s[a..];
  }

  lemma BracketAt(s: string, a: nat)
    requires a < |s| && s[a] == '['
    ensures At(s, a, "[")
  {
    assert s[a..a + 1] == "[";
  }

  lemma MarkerParts(pre: string, gap: string, arr: string)
    requires Blank(gap)
    ensures var s := pre + AfterMarker(gap, arr);
      && |pre| + 12 <= |s| - |arr| && At(s, |pre|, "[TOOL_CALLS]") && s[..|pre|] == pre && s[|s| - |arr|..] == arr
      && forall j | |pre| + 12 <= j < |s| - |arr| :: IsSpace(s[j])
  {
    hide IsSpace;
    var s := pre + AfterMarker(gap, arr);
    assert |"[TOOL_CALLS]"| == 12;
    forall j | |pre| + 12 <= j < |s| - |arr| ensures IsSpace(s[j]) {
      assert s[j] == gap[j - |pre| - 12];
      assert s[j] in gap;
    }
  }

  lemma BracketIsNoSpace()
    ensures !IsSpace('[') && !IsSpace(']')
  {
  }

  lemma LastBracket(s: string)
    requires s != "" && s[|s| - 1] == ']'
    ensures FindLast(s, "]", |s|) == Some(|s| - 1)
  {
    assert s[|s| - 1..|s| - 1 + 1] == "]";
  }

  /** An array of calls after a marker: parsing gives exactly the calls that its named objects spell, in
      order, and the text in front of the marker. */
  lemma ArrayOfCalls(codec: Codec, pre: string, gap: string, arr: string, items: seq<Json>)
    requires Blank(gap) && |arr| >= 2 && arr[0] == '[' && arr[|arr| - 1] == ']'
    requires codec.loads(arr) == Some(JArray(items)) && Named(items) != []
    requires forall x | x in Named(items) :: Printable(codec, x)
    requires var s := pre + AfterMarker(gap, arr);
      NoTaggedCall(codec, s) && forall j | 0 <= j < |pre| :: !At(s, j, "[TOOL_CALLS]")
    ensures var r := StripRawToolCalls(codec, pre + AfterMarker(gap, arr));
      r.Returned? && r.value.0 == RStrip(pre) && AllSpelled(codec, Named(items), r.value.1)
  {
    hide TryParseJson, Spells, FindTag, At, Blank, RStrip, AfterMarker, Collect, Printable, Named, NamedItems;
    hide MistralArray, IsSpace, StripCodeBlocks, NoTaggedCall, StripRawToolCalls;
    PassedOver(codec, pre + AfterMarker(gap, arr));
    var s := pre + AfterMarker(gap, arr);
    MarkerParts(pre, gap, arr);
    ArrayHere(s, |pre|, arr);
    ArrayIsFound(s, 0, |pre|, arr);
    NamedArePrinted(codec, items);
    PrintedAreSpelled(codec, Named(items));
  }

  /** End to end: text and an array of calls after a marker, in one chunk. The text is shown, the array is
      the block, and its calls are read from it. */
  lemma ArrayInOneChunk(codec: Codec, b: SB.Buffer, pre: string, gap: string, arr: string, items: seq<Json>)
    requires !b.buffering && Blank(gap) && |arr| >= 2 && arr[0] == '[' && arr[|arr| - 1] == ']'
    requires codec.loads(arr) == Some(JArray(items)) && Named(items) != []
    requires forall x | x in Named(items) :: Printable(codec, x)
    requires var s, t := pre + AfterMarker(gap, arr), AfterMarker(gap, arr);
      && !HasTag(Open, s) && !HasTag(Open, t) && (forall j | 0 <= j <= |t| :: !At(t, j, "]\n"))
      && Search(SB.MISTRAL_MARKER, s, 0).Some? && Search(SB.MISTRAL_MARKER, s, 0).value.start == |pre|
    ensures var t, fed := AfterMarker(gap, arr), SB.AfterFeed(b, pre + AfterMarker(gap, arr));
      && SB.Blocks(fed.segs) == [t] && SB.SafeText(fed.segs) == pre && !fed.state.buffering
      && var r := StripRawToolCalls(codec, t);
         r.Returned? && r.value.0 == "" && AllSpelled(codec, Named(items), r.value.1)
  {
    hide Spells, FindTag, At, Blank, RStrip, AfterMarker, Printable, Named, AllSpelled, Search, StripRawToolCalls;
    hide SB.AfterFeed, SB.Blocks, SB.SafeText;
    var t := AfterMarker(gap, arr);
    MarkerParts("", gap, arr);
    assert "" + t == t;
    SuffixEnds(t, |t| - |arr|, arr);
    ArrayOfCalls(codec, "", gap, arr, items);
    RStripNothing();
    MarkedTextIsBlock(b, pre, t);
  }

  /** A text from a marker to the last `]` in one chunk is one block. */
  lemma MarkedTextIsBlock(b: SB.Buffer, pre: string, t: string)
    requires !b.buffering && t != "" && t[|t| - 1] == ']' && !HasTag(Open, pre + t)
    requires forall j | 0 <= j <= |t| :: !At(t, j, "]\n")
    requires Search(SB.MISTRAL_MARKER, pre + t, 0).Some? && Search(SB.MISTRAL_MARKER, pre + t, 0).value.start == |pre|
    ensures var fed := SB.AfterFeed(b, pre + t);
      SB.Blocks(fed.segs) == [t] && SB.SafeText(fed.segs) == pre && !fed.state.buffering
  {
    hide FindTag, At, Search, MatchEnd, SB.Advance, SB.Blocks, SB.SafeText, SB.Flatten;
    var s := pre + t;
    assert s[..|pre|] == pre && s[|pre|..] == t;
    SP.MarkerEnters(s, b.depth);
    var held := SB.Buffer(t, true, SB.Mistral, b.depth);
    HeldIsBlock(held);
    SB.BlockThenSafe(t, "");
    SB.SegmentsAppend([SB.Safe(pre)], [SB.Block(t), SB.Safe("")]);
    OneSafe(pre);
    NothingMore(pre);
  }

  lemma HeldIsBlock(held: SB.Buffer)
    requires held.buffering && held.mode.Mistral? && MatchEnd(SB.MISTRAL_MARKER, held.pending, 0).Some?
    requires held.pending != "" && held.pending[|held.pending| - 1] == ']'
    requires forall j | 0 <= j <= |held.pending| :: !At(held.pending, j, "]\n")
    ensures var r := SB.Advance(held);
      r.segs == [SB.Block(held.pending), SB.Safe("")] && !r.state.buffering
  {
    hide FindTag, At, Search, MatchEnd, SB.MistralBracket, SB.Blocks, SB.SafeText, SB.Flatten;
    SP.MistralClosesAtOnce(held);
    SP.MistralBlockEnds(held);
    var r := SB.Advance(held);
    WholeIsBlock(r.segs[0].text, r.segs[1].text, held.pending);
  }

  lemma OneSafe(x: string)
    ensures SB.SafeText([SB.Safe(x)]) == x && SB.Blocks([SB.Safe(x)]) == []
  {
    assert [SB.Safe(x)][1..] == [];
  }

  lemma WholeIsBlock(block: string, rest: string, t: string)
    requires block + rest == t && block != "" && block[|block| - 1] == ']' && t[|t| - 1] == ']'
    requires forall j | 0 <= j <= |t| :: !At(t, j, "]\n")
    requires (rest != "" && rest[0] == '\n') || ']' !in rest
    ensures block == t && rest == ""
  {
    RestFollows(block, rest);
  }

  lemma RestFollows(block: string, rest: string)
    requires block != "" && block[|block| - 1] == ']'
    ensures var t := block + rest;
      rest != "" ==> t[|t| - 1] in rest && (rest[0] == '\n' ==> At(t, |block| - 1, "]\n"))
  {
    if rest != "" {
      var t := block + rest;
      SP.TwoCharsAre(t, |block| - 1);
      assert t[|t| - 1] == rest[|rest| - 1];
    }
  }

  lemma RStripNothing()
    ensures RStrip("") == ""
  {
  }

  // -------------------------------------------------------------------- in a code block

  predicate NoMarker(s: string) {
    forall j | 0 <= j <= |s| :: !At(s, j, "[TOOL_CALLS]")
  }

  lemma {:induction false} NoArray(s: string, from: nat)
    requires from <= |s| && NoMarker(s)
    ensures MistralArray(s, from).None?
    decreases |s| - from
  {
    hide At, FindLast, SkipSpaces;
    if from < |s| { NoArray(s, from + 1); }
  }

  lemma {:induction false} NoFenceNoBlock(s: string, from: nat)
    requires from <= |s| && forall j | from <= j < |s| :: s[j] != '`'
    ensures CodeBlocks(s, from) == []
    decreases |s| - from
  {
    hide NewlineRun, FenceEnd;
    NoFenceHere(s, from);
    if from < |s| { NoFenceNoBlock(s, from + 1); }
  }

  lemma NoFenceHere(s: string, i: nat)
    requires i <= |s| && (i < |s| ==> s[i] != '`')
    ensures !At(s, i, "```") && CodeBlockAt(s, i).None?
  {
    AtFirst(s, i, "```");
  }

  lemma {:induction false} BlocksFrom(s: string, from: nat, start: nat)
    requires from <= start <= |s| && forall j | from <= j < start :: s[j] != '`'
    ensures CodeBlocks(s, from) == CodeBlocks(s, start)
    decreases start - from
  {
    hide NewlineRun, FenceEnd;
    if from < start {
      NoFenceHere(s, from);
      BlocksFrom(s, from + 1, start);
    }
  }

  /** The body in a code block, with or without its language. */
  function Fenced(json: bool, body: string): string {
    (if json then "```json\n" else "```\n") + body + "\n```"
  }

  /** The fence is found after the body, whatever closing braces the body holds. */
  lemma {:induction false} FenceFound(s: string, e: nat, last: nat)
    requires e <= last && last + 4 < |s| && s[last] == '}' && s[last + 1..last + 5] == "\n```"
    requires forall j | e <= j <= last :: s[j] != '`'
    ensures FenceEnd(s, e) == Some((last + 1, last + 5))
    decreases last - e
  {
    hide SkipSpaces, IsSpace;
    assert s[last + 1] == s[last + 1..last + 5][0] && s[last + 2] == s[last + 1..last + 5][1];
    SpacesAround();
    if e == last {
      SkipSpacesIs(s, last + 1, last + 2);
      assert s[last + 2..last + 5] == "```";
    } else {
      var k := SkipSpaces(s, e + 1);
      assert !IsSpace(s[last]);
      assert k <= last;
      AtFirst(s, k, "```");
      FenceFound(s, e + 1, last);
    }
  }

  lemma SpacesAround()
    ensures IsSpace('\n') && !IsSpace('`') && !IsSpace('{') && !IsSpace('}')
  {
  }

  lemma BlockHere(json: bool, pre: string, body: string, post: string)
    requires |body| >= 2 && body[0] == '{' && body[|body| - 1] == '}' && '`' !in body
    ensures var s, h := pre + Fenced(json, body) + post, if json then 8 else 4;
      CodeBlockAt(s, |pre|) == Some(CodeBlock(|pre|, |pre| + h + |body| + 4, body))
  {
    hide SkipSpaces, IsSpace, FenceEnd, Fenced;
    var s, p, h := pre + Fenced(json, body) + post, |pre|, if json then 8 else 4;
    FencedParts(json, pre, body, post);
    SpacesAround();
    var b := p + h;
    assert s[b] == s[b..b + |body|][0];
    assert At(s, b, "{") by { assert s[b..b + 1] == "{"; }
    SkipSpacesIs(s, b - 1, b);
    var last := b + |body| - 1;
    forall j | b + 1 <= j <= last ensures s[j] != '`' { assert s[j] == s[b..b + |body|][j - b]; }
    assert s[last] == s[b..b + |body|][|body| - 1];
    FenceFound(s, b + 1, last);
  }

  lemma FencedParts(json: bool, pre: string, body: string, post: string)
    ensures var s, p, h := pre + Fenced(json, body) + post, |pre|, if json then 8 else 4;
      var b := p + h;
      && |s| == b + |body| + 4 + |post|
      && At(s, p, "```") && (At(s, p + 3, "json") <==> json) && s[b - 1] == '\n'
      && s[b..b + |body|] == body && s[b + |body|..b + |body| + 4] == "\n```"
      && s[..p] == pre && s[b + |body| + 4..] == post
  {
    var s, p, h := pre + Fenced(json, body) + post, |pre|, if json then 8 else 4;
    var head := if json then "```json\n" else "```\n";
    assert |head| == h && |"\n```"| == 4 && head[h - 1] == '\n';
    assert s[p..p + h] == head;
    HeadAt(s, p, json);
  }

  lemma SubSlice(s: string, p: nat, n: nat, i: nat, j: nat)
    requires p + n <= |s| && i <= j <= n
    ensures s[p + i..p + j] == s[p..p + n][i..j]
  {
    var x, y := s[p + i..p + j], s[p..p + n][i..j];
    assert |x| == |y| && forall k | 0 <= k < |x| :: x[k] == y[k];
  }

  lemma HeadAt(s: string, p: nat, json: bool)
    requires p + 4 <= |s| && if json then p + 8 <= |s| && s[p..p + 8] == "```json\n" else s[p..p + 4] == "```\n"
    ensures At(s, p, "```") && (At(s, p + 3, "json") <==> json) && s[p + (if json then 7 else 3)] == '\n'
  {
    if json {
      SubSlice(s, p, 8, 0, 3);
      SubSlice(s, p, 8, 3, 7);
      assert "```json\n"[3..7] == "json" && s[p + 7] == s[p..p + 8][7];
    } else {
      SubSlice(s, p, 4, 0, 3);
      assert s[p + 3] == s[p..p + 4][3];
      AtFirst(s, p + 3, "json");
    }
  }

  /** Text, and a body in a code block after it. */
  datatype Fence = Fence(text: string, json: bool, body: string)

  function Fences(fs: seq<Fence>): string {
    if fs == [] then "" else fs[0].text + Fenced(fs[0].json, fs[0].body) + Fences(fs[1..])
  }

  function Texts(fs: seq<Fence>): string {
    if fs == [] then "" else fs[0].text + Texts(fs[1..])
  }

  function Bodies(fs: seq<Fence>): seq<string> {
    seq(|fs|, i requires 0 <= i < |fs| => fs[i].body)
  }

  /** A body that looks like an object, and no backquote but those of the fence. */
  predicate Clean(f: Fence) {
    && |f.body| >= 2 && f.body[0] == '{' && f.body[|f.body| - 1] == '}'
    && '`' !in f.text && '`' !in f.body
  }

  lemma {:induction false} BlocksOfFences(pre: string, fs: seq<Fence>, post: string)
    requires (forall f | f in fs :: Clean(f)) && '`' !in post
    ensures var s := pre + Fences(fs) + post;
      var bs := CodeBlocks(s, |pre|);
      StrippedBodies(bs) == Bodies(fs) && Gaps(s, bs, |pre|) == Texts(fs) + post
    decreases |fs|
  {
    hide Fenced, CodeBlockAt, Clean, Strip, Gaps, StrippedBodies;
    var s := pre + Fences(fs) + post;
    if fs == [] {
      assert s == pre + post && s[|pre|..] == post;
      assert forall j | |pre| <= j < |s| :: s[j] == post[j - |pre|];
      NoFenceNoBlock(s, |pre|);
      NoGaps(s, |pre|);
    } else {
      var f, rest := fs[0], fs[1..];
      var head, upTo, after := pre + f.text, pre + f.text + Fenced(f.json, f.body), Fences(rest) + post;
      assert s == upTo + after == upTo + Fences(rest) + post;
      FirstFence(pre, f, after);
      BlocksOfFences(upTo, rest, post);
      FenceInGaps(s, CodeBlock(|head|, |upTo|, f.body), CodeBlocks(s, |upTo|), |pre|);
      assert s[|pre|..|head|] == f.text;
      StripOfClean(f);
      Regroup(f.text, Texts(rest), post);
      assert Bodies(fs) == [f.body] + Bodies(rest);
    }
  }

  lemma NoGaps(s: string, from: nat)
    requires from <= |s|
    ensures Gaps(s, [], from) == s[from..] && StrippedBodies([]) == []
  {
  }

  lemma FenceInGaps(s: string, b: CodeBlock, bs: seq<CodeBlock>, from: nat)
    requires from <= b.start < b.end <= |s| && Disjoint(bs, b.end, |s|)
    ensures Disjoint([b] + bs, from, |s|) && Gaps(s, [b] + bs, from) == s[from..b.start] + Gaps(s, bs, b.end)
    ensures StrippedBodies([b] + bs) == [Strip(b.body)] + StrippedBodies(bs)
  {
    assert ([b] + bs)[1..] == bs;
  }

  lemma FirstFence(pre: string, f: Fence, post: string)
    requires Clean(f)
    ensures var s := pre + f.text + Fenced(f.json, f.body) + post;
      && CodeBlocks(s, |pre|) == CodeBlocks(s, |pre + f.text|)
      && CodeBlockAt(s, |pre + f.text|) ==
        Some(CodeBlock(|pre + f.text|, |pre + f.text + Fenced(f.json, f.body)|, f.body))
  {
    hide Fenced, CodeBlockAt, CodeBlocks;
    var s := pre + f.text + Fenced(f.json, f.body) + post;
    assert forall j | |pre| <= j < |pre + f.text| :: s[j] == f.text[j - |pre|];
    BlocksFrom(s, |pre|, |pre + f.text|);
    BlockHere(f.json, pre + f.text, f.body, post);
    FencedParts(f.json, pre + f.text, f.body, "");
  }

  lemma StripOfClean(f: Fence)
    requires Clean(f)
    ensures Strip(f.body) == f.body
  {
    hide Strip;
    StripOfStripped(f.body);
  }

  /** JSON objects in code blocks: parsing gives exactly the calls that they spell, in order, and the text
      around the blocks. */
  lemma CodeBlockCalls(codec: Codec, fs: seq<Fence>, post: string, items: seq<Json>)
    requires fs != [] && (forall f | f in fs :: Clean(f)) && '`' !in post && AllLoad(codec, Bodies(fs), items)
    requires NoTaggedCall(codec, Fences(fs) + post) && NoArrayCall(codec, Fences(fs) + post)
    ensures var r := StripRawToolCalls(codec, Fences(fs) + post);
      r.Returned? && r.value.0 == RStrip(Texts(fs) + post) && AllSpelled(codec, items, r.value.1)
  {
    hide Fences, RStrip, NoTaggedCall, NoArrayCall, Collect, Spells, Loads, Clean;
    hide StripRawToolCalls, StripMistral, StripBareJson, Gaps, StrippedBodies, CodeBlocks;
    var s := Fences(fs) + post;
    PassedOver(codec, s);
    NothingMore(s);
    BlocksOfFences("", fs, post);
    assert "" + Fences(fs) + post == s;
    BodiesAreSpelled(codec, Bodies(fs), items);
  }

  // -------------------------------------------------------------------- bare

  /** Objects one after the other, with whitespace in front of each. */
  function Row(gaps: seq<string>, bodies: seq<string>): string
    requires |gaps| == |bodies|
    decreases |bodies|
  {
    if bodies == [] then "" else gaps[0] + (bodies[0] + Row(gaps[1..], bodies[1..]))
  }

  /** The text starts with a brace that its last character closes. */
  predicate OneObject(body: string) {
    body != "" && body[0] == '{' && FirstClose(body, 0) == Some(|body|)
  }

  lemma {:induction false} SlicesOfRow(gaps: seq<string>, bodies: seq<string>, post: string)
    requires |gaps| == |bodies| && forall i | 0 <= i < |bodies| :: Blank(gaps[i]) && OneObject(bodies[i])
    requires LStrip(post) == "" || LStrip(post)[0] != '{'
    ensures BareSlices(Row(gaps, bodies) + post) == bodies
    decreases |bodies|
  {
    hide LStrip, Blank, OneObject, FirstClose, Strip;
    if bodies == [] {
      assert Row(gaps, bodies) + post == post;
    } else {
      var rest := Row(gaps[1..], bodies[1..]) + post;
      SlicesOfRow(gaps[1..], bodies[1..], post);
      SliceOff(gaps[0], bodies[0], rest);
      assert Row(gaps, bodies) + post == gaps[0] + (bodies[0] + rest);
      assert bodies == [bodies[0]] + bodies[1..];
    }
  }

  lemma SliceOff(gap: string, body: string, rest: string)
    requires Blank(gap) && OneObject(body)
    ensures BareSlices(gap + (body + rest)) == [body] + BareSlices(rest)
  {
    hide FirstClose, Depth, Strip, LStrip, IsSpace, Blank;
    var r := body + rest;
    SpacesAround();
    FirstCloseGrows(body, rest);
    StripOfStripped(body);
    LStripOfBlank(gap, r);
    assert r[0] == '{' && r[..|body|] == body && r[|body|..] == rest;
  }

  lemma LStripOfBlank(gap: string, s: string)
    requires Blank(gap) && s != "" && !IsSpace(s[0])
    ensures LStrip(gap + s) == s
  {
    hide IsSpace;
    var w := gap + s;
    assert forall j | 0 <= j < |gap| :: w[j] == gap[j] && gap[j] in gap;
    assert w[|gap|] == s[0];
    SkipSpacesIs(w, 0, |gap|);
  }

  /** Bare JSON objects: parsing gives exactly the calls that they spell, in order, and the text in front. */
  lemma BareCalls(codec: Codec, pre: string, gaps: seq<string>, bodies: seq<string>, post: string, items: seq<Json>)
    requires |gaps| == |bodies| && bodies != [] && AllLoad(codec, bodies, items)
    requires forall i | 0 <= i < |bodies| :: Blank(gaps[i]) && OneObject(bodies[i])
    requires LStrip(post) == "" || LStrip(post)[0] != '{'
    requires var s := pre + Row(gaps, bodies) + post;
      && NoTaggedCall(codec, s) && NoArrayCall(codec, s) && NoFencedCall(codec, s)
      && Search(SB.BARE_JSON, s, 0).Some? && Search(SB.BARE_JSON, s, 0).value.start == |pre|
    ensures var r := StripRawToolCalls(codec, pre + Row(gaps, bodies) + post);
      r.Returned? && r.value.0 == RStrip(pre) && AllSpelled(codec, items, r.value.1)
  {
    hide Spells, Loads, RStrip, LStrip, Collect, Search, MatchEnd, Blank, OneObject, Row;
    hide StripRawToolCalls, StripMistral, StripCodeBlocks, BareSlices, NoTaggedCall, NoArrayCall, NoFencedCall;
    var row := Row(gaps, bodies);
    var s := pre + row + post;
    PassedOver(codec, s);
    Regroup(pre, row, post);
    assert s[|pre|..] == row + post && s[..|pre|] == pre;
    SlicesOfRow(gaps, bodies, post);
    BodiesAreSpelled(codec, bodies, items);
  }

  lemma FirstCloseGrows(s: string, t: string)
    requires FirstClose(s, 0).Some?
    ensures FirstClose(s + t, 0) == FirstClose(s, 0)
  {
    hide FirstClose;
    var e := FirstClose(s, 0).value;
    forall d | 0 < d <= e ensures ClosesAt(s + t, d) <==> ClosesAt(s, d) {
      assert (s + t)[..d] == s[..d];
    }
  }
}
