/** The Qwen / hermes format `<function=N><parameter=k>v</parameter>...`, printed and parsed back, and
    the agreement of the buffer's brace scan with the parser's. */
module HermesRoundTrip {
  import opened Text
  import opened Patterns
  import opened Tags
  import opened Braces
  import opened ToolCallParser
  import RT = RoundTrips
  import SB = StreamBuffer
  import SP = StreamBufferProperties

  const PARAM_OPEN := "<parameter="
  const PARAM_CLOSE := "</parameter>"

  function PrintParams(params: seq<(string, string)>): string {
    if params == [] then ""
    else PARAM_OPEN + params[0].0 + ">" + (params[0].1 + (PARAM_CLOSE + PrintParams(params[1..])))
  }

  function PrintHermes(name: string, params: seq<(string, string)>, tail: string): string {
    "<function=" + name + ">" + (PrintParams(params) + tail)
  }

  /** The delimiter occurs nowhere in `s`, in any case. */
  ghost predicate Free(s: string, word: string) {
    forall j: nat :: !WordAt(s, j, word, true)
  }

  ghost predicate HermesParam(p: (string, string)) {
    p.0 != "" && '>' !in p.0 && Free(p.1, PARAM_OPEN) && Free(p.1, PARAM_CLOSE)
  }

  /** Keys and values without surrounding whitespace; a blank key is no parameter. */
  function Trimmed(params: seq<(string, string)>): seq<(string, string)> {
    if params == [] then []
    else
      var (k, v) := params[0];
      (if Strip(k) == "" then [] else [(Strip(k), Strip(v))]) + Trimmed(params[1..])
  }

  /** The call that is printed. */
  function HermesCall(name: string, params: seq<(string, string)>, index: nat): ToolCall {
    ToolCall(Strip(name), ArgsOf(Trimmed(params)), ExecId(Strip(name), index))
  }

  ghost predicate HermesName(name: string) {
    Strip(name) != "" && '>' !in name && Free(name, PARAM_OPEN)
  }

  /** No character of `word` past its first matches `c`. */
  predicate Foreign(word: string, c: char) {
    forall t | 0 < t < |word| :: !EqIgnoreCase(c, word[t])
  }

  lemma DelimitersAreForeign()
    ensures Foreign(PARAM_OPEN, '<') && Foreign(PARAM_OPEN, '>') && Foreign(PARAM_CLOSE, '<')
  {
  }

  /** A delimiter that does not occur in `x` does not start in `x` when a foreign character follows. */
  lemma NoStraddle(w: string, d: nat, x: string, word: string, j: nat)
    requires Window(w, d, x) && d + |x| < |w| && Foreign(word, w[d + |x|]) && Free(x, word)
    requires d <= j < d + |x|
    ensures !WordAt(w, j, word, true)
  {
    if j + |word| <= d + |x| {
      WordLocal(w, d, x, j - d, word, true);
      assert !WordAt(x, j - d, word, true);
    } else {
      var t := d + |x| - j;
      assert !EqIgnoreCase(w[j + t], word[t]);
    }
  }

  lemma TagAt(w: string, i: nat, open: string, key: string)
    requires open != "" && key != "" && '>' !in key && i + |open| + |key| + 1 <= |w|
    requires w[i..i + |open| + |key| + 1] == open + key + ">"
    ensures MatchEnd([Word(open, true), Not('>'), Word(">", false)], w, i) == Some(i + |open| + |key| + 1)
  {
    hide MatchEnd;
    var s := open + key + ">";
    var b := i + |open| + |key|;
    assert forall k | 0 <= k < |s| :: w[i + k] == w[i..i + |s|][k] == s[k];
    assert At(w, i, open) by { assert w[i..i + |open|] == s[..|open|]; }
    RT.WordAtSelf(w, i, open, true);
    assert w[i + |open|..b] == key by {
      assert w[i + |open|..b] == w[i..i + |s|][|open|..|open| + |key|] == s[|open|..|open| + |key|];
    }
    forall k | i + |open| <= k < b ensures w[k] != '>' {
      assert w[i + |open|..b][k - i - |open|] == w[k];
    }
    assert w[i..i + |s|][|s| - 1] == w[b] == '>';
    assert FindChar(w, '>', i + |open|) == Some(b);
    assert w[b..b + 1] == ">";
    RT.WordAtSelf(w, b, ">", false);
    assert [Word(open, true), Not('>'), Word(">", false)] ==
      [Word(open, true)] + ([Not('>')] + ([Word(">", false)] + []));
    MatchFirst(Word(open, true), [Not('>')] + ([Word(">", false)] + []), w, i);
    MatchFirst(Not('>'), [Word(">", false)] + [], w, i + |open|);
    MatchFirst(Word(">", false), [], w, b);
    RT.NothingLeft(w, b + 1);
  }

  /** A value ends at the first closing delimiter or next parameter after it starts, or at the end. */
  lemma {:induction false} ValueEndIsFirst(body: string, i: nat)
    requires i <= |body|
    ensures var r := ValueEnd(body, i);
      && (forall j | i <= j < r :: !WordAt(body, j, PARAM_CLOSE, true) && !WordAt(body, j, PARAM_OPEN, true))
      && (r == |body| || WordAt(body, r, PARAM_CLOSE, true) || WordAt(body, r, PARAM_OPEN, true))
    decreases |body| - i
  {
    hide WordAt;
    if i < |body| && !WordAt(body, i, PARAM_CLOSE, true) && !WordAt(body, i, PARAM_OPEN, true) {
      ValueEndIsFirst(body, i + 1);
    }
  }

  lemma {:induction false} ValueEndIs(w: string, i: nat, e: nat)
    requires i <= e <= |w| && WordAt(w, e, PARAM_CLOSE, true)
    requires forall j | i <= j < e :: !WordAt(w, j, PARAM_CLOSE, true) && !WordAt(w, j, PARAM_OPEN, true)
    ensures ValueEnd(w, i) == e
    decreases |w| - i
  {
    hide WordAt;
    if i < e { ValueEndIs(w, i + 1, e); }
  }

  lemma NoTagHere(w: string, j: nat)
    requires j <= |w| && !WordAt(w, j, PARAM_OPEN, true)
    ensures MatchEnd(PARAMETER_TAG, w, j).None?
  {
    hide WordAt;
    assert PieceEnd(PARAMETER_TAG[0], w, j).None?;
  }

  lemma NoParameters(w: string, from: nat)
    requires from <= |w| && forall j | from <= j <= |w| :: !WordAt(w, j, PARAM_OPEN, true)
    ensures Parameters(w, from) == []
  {
    hide WordAt, MatchEnd;
    forall j | from <= j <= |w| ensures MatchEnd(PARAMETER_TAG, w, j).None? {
      NoTagHere(w, j);
    }
  }

  /** Text in which no parameter starts can be skipped. */
  lemma {:induction false} SkipToParameters(w: string, from: nat, to: nat)
    requires from <= to <= |w| && forall j | from <= j < to :: !WordAt(w, j, PARAM_OPEN, true)
    ensures Search(PARAMETER_TAG, w, from) == Search(PARAMETER_TAG, w, to)
    decreases |w| - from
  {
    hide WordAt, MatchEnd;
    if from < to {
      NoTagHere(w, from);
      SkipToParameters(w, from + 1, to);
    }
  }

  lemma {:induction false} ParametersOfPrint(pre: string, params: seq<(string, string)>, tail: string)
    requires (forall p | p in params :: HermesParam(p)) && Free(tail, PARAM_OPEN)
    ensures Parameters(pre + (PrintParams(params) + tail), |pre|) == Trimmed(params)
    decreases |params|
  {
    hide WordAt, Parameters, Strip;
    var w := pre + (PrintParams(params) + tail);
    if params == [] {
      assert PrintParams(params) + tail == tail;
      forall j | |pre| <= j <= |w| ensures !WordAt(w, j, PARAM_OPEN, true) {
        FreeTail(w, |pre|, tail, j);
      }
      NoParameters(w, |pre|);
    } else {
      var (k, v) := params[0];
      assert HermesParam(params[0]);
      var rest := PrintParams(params[1..]) + tail;
      FirstParameterText(pre, params, tail);
      OneParameter(pre, k, v, rest);
      ParametersOfPrint(pre + ParamText(k, v), params[1..], tail);
    }
  }

  function ParamText(k: string, v: string): string {
    PARAM_OPEN + k + ">" + v + PARAM_CLOSE
  }

  lemma FirstParameterText(pre: string, params: seq<(string, string)>, tail: string)
    requires params != []
    ensures pre + (PrintParams(params) + tail) ==
      (pre + ParamText(params[0].0, params[0].1)) + (PrintParams(params[1..]) + tail)
  {
    var (k, v) := params[0];
    var more := PrintParams(params[1..]);
    Regroup(PARAM_OPEN + k + ">", v, PARAM_CLOSE + more);
    Regroup(PARAM_OPEN + k + ">" + v, PARAM_CLOSE, more);
    Regroup(ParamText(k, v), more, tail);
    Regroup(pre, ParamText(k, v), more + tail);
  }

  lemma FreeTail(w: string, d: nat, tail: string, j: nat)
    requires Window(w, d, tail) && d + |tail| == |w| && d <= j <= |w| && Free(tail, PARAM_OPEN)
    ensures !WordAt(w, j, PARAM_OPEN, true)
  {
    if j + |PARAM_OPEN| <= |w| {
      WordLocal(w, d, tail, j - d, PARAM_OPEN, true);
      assert !WordAt(tail, j - d, PARAM_OPEN, true);
    }
  }

  lemma OneParameter(pre: string, k: string, v: string, rest: string)
    requires HermesParam((k, v))
    ensures var head := pre + ParamText(k, v);
      Parameters(head + rest, |pre|) ==
        (if Strip(k) == "" then [] else [(Strip(k), Strip(v))]) + Parameters(head + rest, |head|)
  {
    hide MatchEnd, WordAt, ValueEnd, Strip, Parameters, Search, Free;
    var w := pre + ParamText(k, v) + rest;
    var b := |pre| + 12 + |k|;
    ParamWindows(pre, k, v, rest);
    TagAt(w, |pre|, PARAM_OPEN, k);
    ValueOf(w, b, v);
    ParametersUnfold(w, |pre|, b, b + |v|);
  }

  lemma SliceWithin(s: string, i: nat, j: nat)
    requires i <= j <= |s|
    ensures Slice(s, i, j) == s[i..j]
  {
  }

  lemma ParametersUnfold(w: string, i: nat, b: nat, e: nat)
    requires i + 12 <= b <= e && e + 12 <= |w| && MatchEnd(PARAMETER_TAG, w, i) == Some(b)
    requires ValueEnd(w, b) == e && WordAt(w, e, PARAM_CLOSE, true)
    ensures var key := Strip(w[i + 11..b - 1]);
      Parameters(w, i) == (if key == "" then [] else [(key, Strip(w[b..e]))]) + Parameters(w, e + 12)
  {
    hide MatchEnd, WordAt, ValueEnd, Strip, Search, Slice;
    assert Search(PARAMETER_TAG, w, i) == Some(Span(i, b));
    SliceWithin(w, i + 11, b - 1);
  }

  lemma ParamWindows(pre: string, k: string, v: string, rest: string)
    ensures var w := pre + ParamText(k, v) + rest;
      var b := |pre| + 12 + |k|;
      && w[|pre|..b] == PARAM_OPEN + k + ">" && w[|pre| + 11..b - 1] == k
      && w[b..b + |v|] == v && w[b + |v|..b + |v| + 12] == PARAM_CLOSE
  {
  }

  /** A value is read up to the delimiter that follows it. */
  lemma ValueOf(w: string, b: nat, v: string)
    requires b + |v| + 12 <= |w| && w[b..b + |v|] == v && w[b + |v|..b + |v| + 12] == PARAM_CLOSE
    requires Free(v, PARAM_OPEN) && Free(v, PARAM_CLOSE)
    ensures ValueEnd(w, b) == b + |v| && WordAt(w, b + |v|, PARAM_CLOSE, true)
  {
    hide WordAt;
    var e := b + |v|;
    RT.WordAtSelf(w, e, PARAM_CLOSE, true);
    DelimitersAreForeign();
    assert w[e] == w[e..e + 12][0] == '<';
    assert forall k | 0 <= k < |v| :: w[b + k] == w[b..e][k];
    forall j | b <= j < e ensures !WordAt(w, j, PARAM_CLOSE, true) && !WordAt(w, j, PARAM_OPEN, true) {
      NoStraddle(w, b, v, PARAM_CLOSE, j);
      NoStraddle(w, b, v, PARAM_OPEN, j);
    }
    ValueEndIs(w, b, e);
  }

  /** Printing a call and parsing the body recovers the name and the argument map without surrounding
      whitespace (the last duplicate key wins), whatever delimiter-free text follows the parameters. */
  lemma HermesParses(name: string, params: seq<(string, string)>, tail: string, index: nat)
    requires HermesName(name) && (forall p | p in params :: HermesParam(p)) && Free(tail, PARAM_OPEN)
    ensures TryParseFunctionTag(PrintHermes(name, params, tail), index) == Some(HermesCall(name, params, index))
  {
    hide MatchEnd, WordAt, ArgsOf, ExecId, PrintParams, Search, Strip, Parameters;
    var body := PrintHermes(name, params, tail);
    var pre := "<function=" + name + ">";
    StripNothing();
    HermesNameReads(name, PrintParams(params) + tail);
    forall j | 0 <= j < |pre| ensures !WordAt(body, j, PARAM_OPEN, true) {
      NoParameterInHead(name, PrintParams(params) + tail, j);
    }
    ParametersSkip(body, |pre|);
    ParametersOfPrint(pre, params, tail);
  }

  lemma StripNothing()
    ensures Strip("") == ""
  {
  }

  lemma ParametersSkip(w: string, to: nat)
    requires to <= |w| && forall j | 0 <= j < to :: !WordAt(w, j, PARAM_OPEN, true)
    ensures Parameters(w, 0) == Parameters(w, to)
  {
    hide WordAt, MatchEnd, Search, ValueEnd, Strip;
    SkipToParameters(w, 0, to);
  }

  lemma HermesNameReads(name: string, rest: string)
    requires name != "" && '>' !in name
    ensures var w := "<function=" + name + ">" + rest;
      MatchEnd(FUNCTION_TAG, w, 0) == Some(|name| + 11) && Slice(w, 10, |name| + 10) == name
  {
    hide MatchEnd;
    var open := "<function=";
    var w := open + name + ">" + rest;
    assert w[0..|name| + 11] == open + name + ">";
    TagAt(w, 0, open, name);
    assert w[10..|name| + 10] == name;
  }

  lemma NoParameterInHead(name: string, rest: string, j: nat)
    requires HermesName(name) && j < |name| + 11
    ensures !WordAt("<function=" + name + ">" + rest, j, PARAM_OPEN, true)
  {
    var w := "<function=" + name + ">" + rest;
    DelimitersAreForeign();
    assert w[10 + |name|] == '>' && Window(w, 10, name);
    if j == 0 {
      assert !EqIgnoreCase(w[j + 1], PARAM_OPEN[1]);
    } else if j < 10 || j == |name| + 10 {
      assert w[j] != '<';
      assert !EqIgnoreCase(w[j + 0], PARAM_OPEN[0]);
    } else {
      NoStraddle(w, 10, name, PARAM_OPEN, j);
    }
  }

  /** The whole body parser agrees: a hermes body is not JSON, and the function tag is tried first. */
  lemma HermesRoundTrips(codec: Codec, name: string, params: seq<(string, string)>, tail: string, index: nat)
    requires HermesName(name) && (forall p | p in params :: HermesParam(p)) && Free(tail, PARAM_OPEN)
    ensures ParseOne(codec, true, PrintHermes(name, params, tail), index) ==
      Returned(Some(HermesCall(name, params, index)))
  {
    hide TryParseFunctionTag, ArgsOf, ExecId, PrintParams, WordAt;
    HermesParses(name, params, tail, index);
    assert PrintHermes(name, params, tail)[0] == '<';
  }

  /** End to end: a printed call inside tags, cut anywhere after the opening tag, comes out of the buffer
      as one block, from which the parser reads the call back; no text is shown. The body must not hold
      a closing tag, which would end the block early. */
  lemma HermesEndToEnd(codec: Codec, b: SB.Buffer, name: string, params: seq<(string, string)>, tail: string,
                       chunks: seq<string>)
    requires !b.buffering && b.pending == ""
    requires HermesName(name) && (forall p | p in params :: HermesParam(p)) && Free(tail, PARAM_OPEN) && Stripped(tail)
    requires var body := PrintHermes(name, params, tail);
      !HasTag(Close, body) && Concat(chunks) == RT.Wrapped(body) && chunks != [] && |chunks[0]| >= |"<tool_call>"|
    ensures var t, r := RT.Wrapped(PrintHermes(name, params, tail)), SP.FeedAll(b, chunks);
      && SB.SafeText(r.segs) == "" && !r.state.buffering && SB.Blocks(r.segs) == [t]
      && StripRawToolCalls(codec, t) == Returned(("", [HermesCall(name, params, 0)]))
  {
    hide HasTag, ParseOne, ArgsOf, ExecId, StripRawToolCalls;
    hide RT.Wrapped, PrintHermes, Strip, HermesName, HermesParam, Free;
    hide SP.FeedAll, SB.SafeText, SB.Blocks;
    var body := PrintHermes(name, params, tail);
    HermesRoundTrips(codec, name, params, tail, 0);
    HermesIsStripped(name, params, tail);
    StripOfStripped(body);
    RT.WrappedEndToEnd(codec, b, body, HermesCall(name, params, 0), chunks);
  }

  lemma HermesIsStripped(name: string, params: seq<(string, string)>, tail: string)
    requires Stripped(tail)
    ensures var body := PrintHermes(name, params, tail); body != "" && Stripped(body)
  {
    hide PrintParams;
    var body := PrintHermes(name, params, tail);
    PrintedParamsEnd(params);
    assert body[0] == "<function="[0];
    if tail != "" {
      assert body[|body| - 1] == tail[|tail| - 1];
    } else if params != [] {
      var printed := PrintParams(params);
      assert body[|body| - 1] == printed[|printed| - 1];
    } else {
      assert body == "<function=" + name + ">";
    }
  }

  lemma {:induction false} PrintedParamsEnd(params: seq<(string, string)>)
    ensures if params == [] then PrintParams(params) == ""
      else PrintParams(params) != "" && PrintParams(params)[|PrintParams(params)| - 1] == '>'
  {
    if params != [] {
      var rest := PrintParams(params[1..]);
      PrintedParamsEnd(params[1..]);
      var s := PARAM_CLOSE + rest;
      assert s[|s| - 1] == if rest == "" then PARAM_CLOSE[11] else rest[|rest| - 1];
      assert PrintParams(params)[|PrintParams(params)| - 1] == s[|s| - 1];
    }
  }

  // -------------------------------------------------------------------- brace scanners

  /** The two separately written brace scans agree: a block that a feed completes in JSON mode, also the
      feed that enters it, is the shortest balanced prefix of the held text, and the bare-JSON parser
      cuts exactly one slice from it, the whole block. */
  lemma ScannersAgree(b: SB.Buffer, text: string, block: string)
    requires SP.Inv(b) && SP.JsonFeed(b, text)
    requires block in SB.Blocks(SB.AfterFeed(b, text).segs)
    ensures var p := SP.HeldBy(b, text); IsShortestBalanced(p, |block|) && block == p[..|block|]
    ensures BareSlices(block) == [block]
  {
    hide SP.Inv, SP.JsonFeed, SP.HeldBy, SB.AfterFeed, FirstClose, Depth, BareSlices;
    SP.JsonBlockIsShortestBalanced(b, text);
    SP.HeldStartsObject(b, text);
    OneSlice(SP.HeldBy(b, text), |block|);
  }

  lemma OneSlice(p: string, e: nat)
    requires e <= |p| && p != "" && p[0] == '{' && FirstClose(p, 0) == Some(e)
    ensures BareSlices(p[..e]) == [p[..e]]
  {
    hide FirstClose, Depth, Strip, LStrip;
    var block := p[..e];
    FirstCloseOfPrefix(p, e);
    StripOfStripped(block);
    LStripOfStripped(block);
    assert block[..e] == block && block[e..] == "";
    LStripOnce("");
    assert BareSlices("") == [];
  }

  lemma LStripOfStripped(s: string)
    requires s != "" && !IsSpace(s[0])
    ensures LStrip(s) == s
  {
    assert s[0..] == s;
  }
}
