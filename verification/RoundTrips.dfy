/** What the parser gives back: printed calls survive printing, cutting into chunks, buffering and
    parsing; the two brace scanners agree; execution ids within one parse are distinct. */
module RoundTrips {
  import opened Text
  import opened Patterns
  import opened Tags
  import opened Braces
  import opened ToolCallParser
  import SB = StreamBuffer
  import SP = StreamBufferProperties

  // -------------------------------------------------------------------- execution ids

  /** The k-th call of a parse carries the index k in its id. */
  ghost predicate Numbered(calls: seq<ToolCall>) {
    forall k | 0 <= k < |calls| :: calls[k].executionId == ExecId(calls[k].name, k)
  }

  /** Ids are equal exactly when the names and the indices are, even for names that end in an
      underscore and digits. */
  lemma ExecIdInjective(m: string, i: nat, n: string, j: nat)
    ensures ExecId(m, i) == ExecId(n, j) <==> m == n && i == j
  {
    if ExecId(m, i) == ExecId(n, j) {
      assert '_' !in Decimal(i) && '_' !in Decimal(j);
      SplitAtLast("raw_" + m, Decimal(i), "raw_" + n, Decimal(j));
      DecimalInjective(i, j);
      assert ("raw_" + m)[4..] == m && ("raw_" + n)[4..] == n;
    }
  }

  lemma SplitAtLast(p: string, a: string, q: string, b: string)
    requires '_' !in a && '_' !in b && p + "_" + a == q + "_" + b
    ensures p == q && a == b
  {
    var x := p + "_" + a;
    assert x[|p|] == '_' && x[|q|] == '_';
    assert forall k | |p| < k < |x| :: x[k] == a[k - |p| - 1];
    assert forall k | |q| < k < |x| :: x[k] == b[k - |q| - 1];
    assert |p| == |q|;
    assert x[..|p|] == p && x[..|q|] == q && x[|p| + 1..] == a && x[|q| + 1..] == b;
  }

  lemma ParseOneNumbers(codec: Codec, tagged: bool, body: string, index: nat)
    ensures var r := ParseOne(codec, tagged, body, index);
      r.Returned? && r.value.Some? ==> r.value.value.executionId == ExecId(r.value.value.name, index)
  {
    hide MatchEnd, Strip, Slice, ExecId, Find, Parameters, GlmPairs, ArgsOf;
  }

  lemma {:induction false} CollectNumbers(codec: Codec, tagged: bool, bodies: seq<string>)
    ensures Collect(codec, tagged, bodies).Returned? ==> Numbered(Collect(codec, tagged, bodies).value)
    decreases |bodies|
  {
    hide ParseOne, ExecId;
    if bodies != [] {
      var n := |bodies| - 1;
      CollectNumbers(codec, tagged, bodies[..n]);
      var parsed := Collect(codec, tagged, bodies[..n]);
      if parsed.Returned? {
        ParseOneNumbers(codec, tagged, bodies[n], |parsed.value|);
      }
    }
  }

  /** In whatever format a text holds its calls, they carry their names and indices in their ids. */
  lemma CallsAreNumbered(codec: Codec, content: string)
    ensures var r := StripRawToolCalls(codec, content); r.Returned? ==> Numbered(r.value.1)
  {
    hide Collect, ExecId, FindTag, MistralArray, MistralBodies, BlockBodies, CodeBlocks, StrippedBodies, Gaps, Search;
    hide BareSlices, RStrip, MatchEnd, TagEnd, Disjoint;
    if FindTag(Open, content, 0).Some? {
      CollectNumbers(codec, true, BlockBodies(content[FindTag(Open, content, 0).value.start..], 0));
    }
    if MistralArray(content, 0).Some? {
      CollectNumbers(codec, false, MistralBodies(codec, MistralArray(content, 0).value.1));
    }
    CollectNumbers(codec, false, StrippedBodies(CodeBlocks(content, 0)));
    if Search(SB.BARE_JSON, content, 0).Some? {
      CollectNumbers(codec, false, BareSlices(content[Search(SB.BARE_JSON, content, 0).value.start..]));
    }
  }

  /** The calls from one parse have pairwise distinct execution ids, whatever their names. */
  lemma IdsAreDistinct(codec: Codec, content: string)
    ensures var r := StripRawToolCalls(codec, content);
      r.Returned? ==> forall i, j | 0 <= i < j < |r.value.1| :: r.value.1[i].executionId != r.value.1[j].executionId
  {
    hide StripRawToolCalls, ExecId;
    var r := StripRawToolCalls(codec, content);
    CallsAreNumbered(codec, content);
    if r.Returned? {
      var calls := r.value.1;
      forall i, j | 0 <= i < j < |calls| ensures calls[i].executionId != calls[j].executionId {
        ExecIdInjective(calls[i].name, i, calls[j].name, j);
      }
    }
  }

  /** Text is cut only for calls that are returned, and only at one of four places: at the leftmost
      opening tag, at the marker of an array of calls, around the code blocks, or at the start of a bare
      object. */
  predicate CutForCalls(content: string, text: string, calls: seq<ToolCall>) {
    if calls == [] then text == content
    else
      var tag, list, bare := FindTag(Open, content, 0), MistralArray(content, 0), Search(SB.BARE_JSON, content, 0);
      || (tag.Some? && text == RStrip(content[..tag.value.start]))
      || (list.Some? && text == RStrip(content[..list.value.0]))
      || text == RStrip(Gaps(content, CodeBlocks(content, 0), 0))
      || (bare.Some? && text == RStrip(content[..bare.value.start]))
  }

  /** Without calls the content comes back unchanged. With calls, what comes back is what stands in
      front of the leftmost opening tag, marker or object, or the gaps between the code blocks, without
      trailing whitespace. */
  lemma NothingIsCutForNothing(codec: Codec, content: string)
    requires StripRawToolCalls(codec, content).Returned?
    ensures var (text, calls) := StripRawToolCalls(codec, content).value; CutForCalls(content, text, calls)
  {
    hide CutForCalls, Collect, StripMistral, BlockBodies, FindTag, RStrip;
    CutPlaces(content, StripRawToolCalls(codec, content).value.1);
    MistralCutsForCalls(codec, content);
  }

  lemma CutPlaces(content: string, calls: seq<ToolCall>)
    ensures CutForCalls(content, content, [])
    ensures calls != [] ==> CutForCalls(content, RStrip(Gaps(content, CodeBlocks(content, 0), 0)), calls)
    ensures var tag := FindTag(Open, content, 0);
      calls != [] && tag.Some? ==> CutForCalls(content, RStrip(content[..tag.value.start]), calls)
    ensures var list := MistralArray(content, 0);
      calls != [] && list.Some? ==> CutForCalls(content, RStrip(content[..list.value.0]), calls)
    ensures var bare := Search(SB.BARE_JSON, content, 0);
      calls != [] && bare.Some? ==> CutForCalls(content, RStrip(content[..bare.value.start]), calls)
  {
    hide RStrip, Gaps, CodeBlocks, Disjoint, FindTag, TagEnd, MistralArray, Search, MatchEnd;
  }

  lemma MistralCutsForCalls(codec: Codec, content: string)
    ensures var r := StripMistral(codec, content); r.Returned? ==> CutForCalls(content, r.value.0, r.value.1)
  {
    hide CutForCalls, Collect, StripCodeBlocks, MistralBodies, MistralArray, RStrip;
    var r := StripMistral(codec, content);
    if r.Returned? { CutPlaces(content, r.value.1); }
    CodeBlocksCutForCalls(codec, content);
  }

  lemma CodeBlocksCutForCalls(codec: Codec, content: string)
    ensures var r := StripCodeBlocks(codec, content); r.Returned? ==> CutForCalls(content, r.value.0, r.value.1)
  {
    hide CutForCalls, Collect, CodeBlocks, StrippedBodies, Gaps, Disjoint, StripBareJson, RStrip;
    var r := StripCodeBlocks(codec, content);
    if r.Returned? { CutPlaces(content, r.value.1); }
    BareJsonCutsForCalls(codec, content);
  }

  lemma BareJsonCutsForCalls(codec: Codec, content: string)
    ensures var r := StripBareJson(codec, content); r.Returned? ==> CutForCalls(content, r.value.0, r.value.1)
  {
    hide CutForCalls, Collect, BareSlices, Search, MatchEnd, RStrip;
    var r := StripBareJson(codec, content);
    if r.Returned? { CutPlaces(content, r.value.1); }
  }

  // -------------------------------------------------------------------- one block, one body

  /** The parser sees exactly one body in a whole tagged block: what stands between its tags. */
  lemma WholeBlockHasOneBody(t: string)
    requires SP.WholeTaggedBlock(t)
    ensures TagEnd(Open, t, 0).value <= FindTag(Close, t, 0).value.start
    ensures var body := Strip(t[TagEnd(Open, t, 0).value..FindTag(Close, t, 0).value.start]);
      BlockBodies(t, 0) == if body == "" then [] else [body]
  {
    hide TagEnd, FindTag, Strip;
    var o, c := TagEnd(Open, t, 0).value, FindTag(Close, t, 0).value;
    SP.OpenIsNotClose(t, 0);
    TagShape(Open, t, 0);
    TagShape(Close, t, c.start);
    assert Inner(t[c.start]) || !(0 < c.start < o - 1);
    assert FindTag(Open, t, 0) == Some(Span(0, o));
    assert FindTag(Close, t, o) == Some(c);
    NoTagWithoutAngle(Open, "");
    assert BlockBodies(t, |t|) == [];
  }

  // -------------------------------------------------------------------- delimiters

  /** A delimiter with a single `<`, at its start. */
  predicate Delimiter(d: string) {
    d != "" && d[0] == '<' && '<' !in d[1..]
  }

  lemma FindIs(s: string, p: string, from: nat, i: nat)
    requires from <= i && At(s, i, p) && forall j | from <= j < i :: !At(s, j, p)
    ensures Find(s, p, from) == Some(i)
  {
  }

  /** The first delimiter after text that does not contain it is the one that follows the text. */
  lemma FindDelimiter(pre: string, x: string, d: string, post: string)
    requires Delimiter(d) && !Contains(x, d)
    ensures Find(pre + x + d + post, d, |pre|) == Some(|pre| + |x|)
  {
    hide Find;
    var s, i := pre + x + d + post, |pre| + |x|;
    assert s[i..i + |d|] == d;
    forall j | |pre| <= j < i ensures !At(s, j, d) {
      if j + |d| <= i {
        assert x[j - |pre|..j - |pre| + |d|] == s[j..j + |d|] && !At(x, j - |pre|, d);
      } else {
        assert d[1..][i - j - 1] == d[i - j];
        assert j + |d| <= |s| ==> s[j..j + |d|][i - j] == s[i] == d[0];
      }
    }
    FindIs(s, d, |pre|, i);
  }

  lemma NotInLiteralThenText(lit: string, x: string, d: string)
    requires Delimiter(lit) && Delimiter(d) && |lit| <= |d| && !Contains(x, d)
    requires lit != d[..|lit|]
    ensures !Contains(lit + x, d)
  {
    hide Find;
    var s := lit + x;
    forall j | 0 <= j && j + |d| <= |s| ensures !At(s, j, d) {
      assert s[j..j + |d|][0] == s[j];
      if j == 0 {
        assert s[0..0 + |d|][..|lit|] == lit;
      } else if j < |lit| {
        assert s[j] == lit[1..][j - 1];
      } else {
        assert s[j..j + |d|] == x[j - |lit|..j - |lit| + |d|] && !At(x, j - |lit|, d);
      }
    }
  }

  // -------------------------------------------------------------------- GLM format

  function PrintGlmArgs(args: seq<(string, string)>): string {
    if args == [] then ""
    else "<arg_key>" + args[0].0 + "</arg_key>" + ("<arg_value>" + args[0].1 + "</arg_value>" + PrintGlmArgs(args[1..]))
  }

  function Wrapped(body: string): string {
    "<tool_call>" + body + "</tool_call>"
  }

  function PrintGlm(name: string, args: seq<(string, string)>): string {
    Wrapped(name + PrintGlmArgs(args))
  }

  /** Neither a key nor a value contains its own closing delimiter or a closing tag. */
  predicate GlmArg(arg: (string, string)) {
    && !Contains(arg.0, "</arg_key>") && !HasTag(Close, arg.0)
    && !Contains(arg.1, "</arg_value>") && !HasTag(Close, arg.1)
  }

  /** A name that no other format claims. */
  predicate GlmName(name: string) {
    && name != "" && !IsSpace(name[0]) && !Contains(name, "<arg_key>") && !HasTag(Close, name)
    && name[0] != '{' && !WordAt(name, 0, "<function=", true)
  }

  /** Keys are stripped, values are not. */
  function KeysStripped(args: seq<(string, string)>): seq<(string, string)> {
    if args == [] then [] else [(Strip(args[0].0), args[0].1)] + KeysStripped(args[1..])
  }

  /** The call that is printed. */
  function GlmCall(name: string, args: seq<(string, string)>, index: nat): ToolCall {
    ToolCall(Strip(name), ArgsOf(KeysStripped(args)), ExecId(Strip(name), index))
  }

  lemma StripKeepsLetters(s: string)
    requires s != "" && !IsSpace(s[0])
    ensures Strip(s) != ""
  {
    assert LStrip(s) == s by { assert s[0..] == s; }
    assert DropSpaces(s, |s|) > 0;
  }

  lemma {:induction false} GlmPairsOfPrint(args: seq<(string, string)>, tail: string)
    requires forall a | a in args :: GlmArg(a)
    ensures GlmPairs(PrintGlmArgs(args) + tail) == KeysStripped(args) + GlmPairs(tail)
  {
    hide GlmArg, GlmPairs, Strip;
    if args == [] {
      NothingMore(tail);
      NothingMore(GlmPairs(tail));
    } else {
      var (k, v) := args[0];
      assert GlmArg(args[0]);
      assert forall a | a in args[1..] :: GlmArg(a);
      var more := PrintGlmArgs(args[1..]);
      GlmPairsOfPrint(args[1..], tail);
      GlmPairsStep(k, v, more + tail);
      Regroup("<arg_value>" + v + "</arg_value>", more, tail);
      Regroup("<arg_key>" + k + "</arg_key>", "<arg_value>" + v + "</arg_value>" + more, tail);
      Regroup([(Strip(k), v)], KeysStripped(args[1..]), GlmPairs(tail));
    }
  }

  lemma GlmPairsStep(k: string, v: string, tail: string)
    requires GlmArg((k, v))
    ensures GlmPairs("<arg_key>" + k + "</arg_key>" + ("<arg_value>" + v + "</arg_value>" + tail)) ==
      [(Strip(k), v)] + GlmPairs(tail)
  {
    hide Find, FindTag, Strip, Contains, GlmPairs, Delimiter, Slice;
    ArgDelimiters();
    TwoFields("<arg_key>", k, "</arg_key>", "<arg_value>", v, "</arg_value>", tail);
    var rest := "<arg_key>" + k + "</arg_key>" + ("<arg_value>" + v + "</arg_value>" + tail);
    GlmPairsUnfold(rest, 9 + |k|, 30 + |k| + |v|);
  }

  /** A value that is not closed extends to the end. */
  lemma UnclosedValue(args: seq<(string, string)>, k: string, v: string)
    requires (forall a | a in args :: GlmArg(a)) && !Contains(k, "</arg_key>") && !Contains(v, "</arg_value>")
    ensures GlmPairs(PrintGlmArgs(args) + ("<arg_key>" + k + "</arg_key>" + ("<arg_value>" + v))) ==
      KeysStripped(args) + [(Strip(k), v)]
  {
    hide Find, Strip, Contains, Delimiter, Slice, GlmPairs;
    var last := "<arg_key>" + k + "</arg_key>" + ("<arg_value>" + v);
    GlmPairsOfPrint(args, last);
    ArgDelimiters();
    FirstField("<arg_key>", k, "</arg_key>", "<arg_value>" + v);
    FindNext("<arg_key>" + k, "</arg_key>", "<arg_value>", v);
    NotAfter("<arg_key>" + k + "</arg_key>", "<arg_value>", v, "</arg_value>");
    UnclosedUnfold(last, 9 + |k|);
    assert last[9 + |k| + 10 + 11..] == v;
  }

  lemma UnclosedUnfold(rest: string, ke: nat)
    requires ke + 21 <= |rest|
    requires Find(rest, "<arg_key>", 0) == Some(0) && Find(rest, "</arg_key>", 0) == Some(ke)
    requires Find(rest, "<arg_value>", ke) == Some(ke + 10) && Find(rest, "</arg_value>", ke + 10).None?
    ensures GlmPairs(rest) == [(Strip(Slice(rest, 9, ke)), rest[ke + 21..])]
  {
    hide Find, Strip, Slice;
  }

  lemma FindNext(pre: string, c: string, o: string, v: string)
    requires Delimiter(o) && !Contains(c, o)
    ensures Find(pre + c + (o + v), o, |pre|) == Some(|pre| + |c|)
  {
    hide Find, Contains, Delimiter, At;
    FindDelimiter(pre, c, o, v);
    Regroup(pre + c, o, v);
  }

  /** A delimiter that does not occur in `x` does not occur in a shorter one followed by `x`. */
  lemma NotAfter(pre: string, open: string, x: string, close: string)
    requires Delimiter(open) && Delimiter(close) && |open| <= |close| && open != close[..|open|] && !Contains(x, close)
    ensures Find(pre + (open + x), close, |pre|).None?
  {
    hide Find;
    NotInLiteralThenText(open, x, close);
    var s, t := pre + (open + x), open + x;
    forall j | |pre| <= j ensures !At(s, j, close) {
      if j + |close| <= |s| { assert s[j..j + |close|] == t[j - |pre|..j - |pre| + |close|]; }
      assert !At(t, j - |pre|, close);
    }
  }

  lemma GlmPairsUnfold(rest: string, ke: nat, ve: nat)
    requires ke + 10 <= ve <= |rest| - 12
    requires Find(rest, "<arg_key>", 0) == Some(0) && Find(rest, "</arg_key>", 0) == Some(ke)
    requires Find(rest, "<arg_value>", ke) == Some(ke + 10) && Find(rest, "</arg_value>", ke + 10) == Some(ve)
    ensures GlmPairs(rest) == [(Strip(Slice(rest, 9, ke)), Slice(rest, ke + 21, ve))] + GlmPairs(rest[ve + 12..])
  {
    hide Find, Strip, Slice;
  }

  lemma ArgDelimiters()
    ensures Delimiter("<arg_key>") && Delimiter("</arg_key>") && Delimiter("<arg_value>") && Delimiter("</arg_value>")
    ensures "<arg_key>" != "</arg_key>"[..9] && "<arg_value>" != "</arg_value>"[..11] &&
      !Contains("</arg_key>", "<arg_value>")
  {
    assert "<arg_key>"[1] != "</arg_key>"[..9][1];
    assert "<arg_value>"[1] != "</arg_value>"[..11][1];
  }

  predicate Bracket(open: string, close: string, x: string) {
    && Delimiter(open) && Delimiter(close) && |open| <= |close| && open != close[..|open|] && !Contains(x, close)
  }

  /** A text printed between two delimiters is found where it was printed. */
  lemma Field(pre: string, open: string, x: string, close: string, tail: string)
    requires Bracket(open, close, x)
    ensures var s := pre + (open + x + close + tail);
      && Find(s, open, |pre|) == Some(|pre|) && Find(s, close, |pre|) == Some(|pre| + |open| + |x|)
  {
    hide Find, Contains, Delimiter, At;
    Regroup(open, x, close);
    Regroup(open, x + close, tail);
    FindHere(pre, open, x + close + tail);
    NotInLiteralThenText(open, x, close);
    FindDelimiter(pre, open + x, close, tail);
    Regroup(pre, open + x, close);
    Regroup(pre, open + x + close, tail);
  }

  lemma FindHere(pre: string, p: string, tail: string)
    ensures Find(pre + (p + tail), p, |pre|) == Some(|pre|)
  {
    hide Find;
    Middle(pre, p, tail);
    FindIs(pre + (p + tail), p, |pre|, |pre|);
  }

  lemma FieldCut(pre: string, open: string, x: string, close: string, tail: string)
    ensures var s := pre + (open + x + close + tail);
      var e := |pre| + |open| + |x|;
      Slice(s, |pre| + |open|, e) == x && s[e + |close|..] == tail
  {
    Regroup(open, x, close);
    Regroup(open, x + close, tail);
    Regroup(x, close, tail);
    Regroup(pre, open, x + (close + tail));
    Regroup(pre + open, x, close + tail);
    Middle(pre + open, x, close + tail);
    Middle(pre + open + x, close, tail);
  }

  lemma Middle(a: string, b: string, c: string)
    ensures var s := a + (b + c);
      s[|a|..|a| + |b|] == b && s[|a| + |b|..] == c && s == a + b + c
  {
  }

  lemma TwoFields(o1: string, k: string, c1: string, o2: string, v: string, c2: string, tail: string)
    requires Bracket(o1, c1, k) && Bracket(o2, c2, v) && !Contains(c1, o2)
    ensures var rest := o1 + k + c1 + (o2 + v + c2 + tail);
      var ke := |o1 + k|;
      var vs := |o1 + k + c1|;
      var ve := vs + |o2| + |v|;
      && Find(rest, o1, 0) == Some(0) && Find(rest, c1, 0) == Some(ke)
      && Find(rest, o2, ke) == Some(vs) && Find(rest, c2, vs) == Some(ve)
      && Slice(rest, |o1|, ke) == k && Slice(rest, vs + |o2|, ve) == v && rest[ve + |c2|..] == tail
  {
    hide Find, Contains, Bracket, Slice, At;
    FirstField(o1, k, c1, o2 + v + c2 + tail);
    Field(o1 + k + c1, o2, v, c2, tail);
    FieldCut(o1 + k + c1, o2, v, c2, tail);
    NextField(o1 + k, c1, o2, v, c2, tail);
  }

  lemma FirstField(open: string, x: string, close: string, tail: string)
    requires Bracket(open, close, x)
    ensures var s := open + x + close + tail;
      && Find(s, open, 0) == Some(0) && Find(s, close, 0) == Some(|open| + |x|)
      && Slice(s, |open|, |open| + |x|) == x
  {
    hide Find, Bracket, Slice;
    NothingMore(open + x + close + tail);
    Field("", open, x, close, tail);
    FieldCut("", open, x, close, tail);
  }

  lemma NextField(pre: string, c: string, o: string, x: string, close: string, tail: string)
    requires Bracket(o, close, x) && !Contains(c, o)
    ensures Find(pre + c + (o + x + close + tail), o, |pre|) == Some(|pre| + |c|)
  {
    hide Find, Contains, Delimiter, At;
    FindDelimiter(pre, c, o, x + close + tail);
    Regroup(o, x, close);
    Regroup(o, x + close, tail);
    Regroup(pre + c, o, x + close + tail);
  }

  lemma {:induction false} PrintedArgsHaveNoClosingTag(args: seq<(string, string)>)
    requires forall a | a in args :: GlmArg(a)
    ensures !HasTag(Close, PrintGlmArgs(args))
    ensures args != [] ==> PrintGlmArgs(args)[0] == '<' && PrintGlmArgs(args)[|PrintGlmArgs(args)| - 1] == '>'
  {
    hide HasTag, GlmArg, NoTagWord;
    if args == [] {
      NoTagWithoutAngle(Close, "");
    } else {
      var (k, v) := args[0];
      assert GlmArg(args[0]);
      assert forall a | a in args[1..] :: GlmArg(a);
      PrintedArgsHaveNoClosingTag(args[1..]);
      PrintedArgHasNoClosingTag(k, v, PrintGlmArgs(args[1..]));
    }
  }

  lemma PrintedArgHasNoClosingTag(k: string, v: string, tail: string)
    requires GlmArg((k, v)) && !HasTag(Close, tail) && (tail != "" ==> tail[0] == '<' && tail[|tail| - 1] == '>')
    ensures var s := "<arg_key>" + k + "</arg_key>" + ("<arg_value>" + v + "</arg_value>" + tail);
      !HasTag(Close, s) && s[0] == '<' && s[|s| - 1] == '>'
  {
    hide HasTag, Contains, NoTagWord;
    ArgLiteralsAreNoTags();
    NoTagWithoutAngle(Close, "");
    var value := "<arg_value>" + v + "</arg_value>" + tail;
    NoTagAfterLiteral("</arg_value>", "", tail);
    NoTagAfterLiteral("<arg_value>", v, "</arg_value>" + tail);
    Regroup("<arg_value>" + v, "</arg_value>", tail);
    NoTagAfterLiteral("</arg_key>", "", value);
    NoTagAfterLiteral("<arg_key>", k, "</arg_key>" + value);
    Regroup("<arg_key>" + k, "</arg_key>", value);
  }

  /** `<...>`, but no closing tag. */
  predicate NoTagWord(lit: string) {
    |lit| >= 2 && lit[|lit| - 1] == '>' && Delimiter(lit) && !HasTag(Close, lit)
  }

  /** What follows such a word cannot make it a tag. */
  lemma NoTagAfterLiteral(lit: string, x: string, tail: string)
    requires NoTagWord(lit) && !HasTag(Close, x) && !HasTag(Close, tail)
    requires tail != "" ==> tail[0] == '<' && tail[|tail| - 1] == '>'
    ensures !HasTag(Close, lit + x + tail) && !HasTag(Close, lit + tail)
    ensures var s := lit + tail; s[0] == '<' && s[|s| - 1] == '>'
    ensures var s := lit + x + tail; s[0] == '<' && (tail != "" ==> s[|s| - 1] == '>')
  {
    hide HasTag;
    NoTagAcross(Close, lit, tail);
    LiteralThenText(lit, x);
    NoTagAcross(Close, lit + x, tail);
  }

  lemma LiteralThenText(lit: string, x: string)
    requires NoTagWord(lit) && !HasTag(Close, x)
    ensures !HasTag(Close, lit + x)
  {
    hide TagEnd, MatchEnd, FindTag;
    var w := lit + x;
    assert w[|lit| - 1] == '>' && forall k | 0 < k < |lit| :: w[k] == lit[1..][k - 1];
    if HasTag(Close, w) {
      var m := FindTag(Close, w, 0).value;
      TagShape(Close, w, m.start);
      if m.start < |lit| {
        TagLocal(Close, w, 0, lit, 0, m.end);
      } else {
        TagLocal(Close, w, |lit|, x, m.start - |lit|, m.end - |lit|);
      }
    }
  }

  lemma NotClosing(lit: string)
    requires Delimiter(lit) && |lit| >= 3
    requires lit[1] == 'a' || (lit[1] == '/' && lit[2] == 'a')
    ensures !HasTag(Close, lit)
  {
    hide MatchEnd, Search;
    if HasTag(Close, lit) {
      var m := FindTag(Close, lit, 0).value;
      TagShape(Close, lit, m.start);
      CloseTagLetters(lit);
    }
  }

  /** After the `/` of a closing tag come whitespace, a pipe or the first letter of a name. */
  lemma CloseTagLetters(s: string)
    requires s != "" && TagEnd(Close, s, 0).Some? && |s| >= 3
    ensures s[1] != 'a' && (s[1] == '/' ==> s[2] != 'a')
  {
    hide SkipSpaces;
    SP.CloseTagSlashes(s, 0);
    var j := SkipSpaces(s, 1);
    TagShape(Close, s, 0);
    if s[1] == 'a' {
      SkipSpacesIs(s, 1, 1);
    }
    if s[1] == '/' {
      CloseSteps(s);
      if s[2] == 'a' {
        SkipSpacesIs(s, 2, 2);
        SP.NoNameAt(s, 2);
      }
    }
  }

  lemma ArgLiteralsAreNoTags()
    ensures NoTagWord("<arg_key>") && NoTagWord("</arg_key>")
    ensures NoTagWord("<arg_value>") && NoTagWord("</arg_value>")
  {
    hide HasTag;
    NotClosing("<arg_key>");
    NotClosing("</arg_key>");
    NotClosing("<arg_value>");
    NotClosing("</arg_value>");
  }

  lemma GlmXmlParses(name: string, args: seq<(string, string)>, index: nat)
    requires GlmName(name) && forall a | a in args :: GlmArg(a)
    ensures TryParseGlmXml(name + PrintGlmArgs(args), index) ==
      if args == [] then None else Some(GlmCall(name, args, index))
  {
    hide Find, FindTag, Strip, ArgsOf, GlmPairs, ExecId;
    var printed := PrintGlmArgs(args);
    var body := name + printed;
    if args == [] {
      assert body == name;
    } else {
      StripKeepsLetters(name);
      GlmPairsOfPrint(args, "");
      NothingMore(printed);
      NoPairs();
      NothingMore(KeysStripped(args));
      var open := "<arg_key>";
      var post := args[0].0 + "</arg_key>" + ("<arg_value>" + args[0].1 + "</arg_value>" + PrintGlmArgs(args[1..]));
      FindNameEnd(name, post);
      assert printed == open + post;
      assert body == name + (open + post) && body[..|name|] == name && body[|name|..] == printed;
    }
  }

  lemma NoPairs()
    ensures GlmPairs("") == []
  {
  }

  lemma FindNameEnd(name: string, post: string)
    requires !Contains(name, "<arg_key>")
    ensures Find(name + ("<arg_key>" + post), "<arg_key>", 0) == Some(|name|)
  {
    hide Find;
    FindDelimiter("", name, "<arg_key>", post);
    assert "" + name == name;
    Regroup(name, "<arg_key>", post);
  }

  /** A name followed by its printed arguments is read as a GLM call, and as nothing else: name and keys
      without surrounding whitespace, values as they are. The argument list must not be empty: a printed
      call without arguments is not recognised. */
  lemma GlmBodyParses(codec: Codec, name: string, args: seq<(string, string)>, index: nat)
    requires GlmName(name) && forall a | a in args :: GlmArg(a)
    ensures var body := name + PrintGlmArgs(args);
      && body != "" && (args != [] || Stripped(name) ==> Strip(body) == body)
      && ParseOne(codec, true, body, index) == Returned(if args == [] then None else Some(GlmCall(name, args, index)))
  {
    hide FindTag, Strip, ArgsOf, ExecId, MatchEnd, TryParseGlmXml, WordAt, Contains;
    var printed := PrintGlmArgs(args);
    var body := name + printed;
    PrintedArgsHaveNoClosingTag(args);
    StripOfStripped(body);
    NotAFunctionTag(name, printed);
    GlmXmlParses(name, args, index);
  }

  lemma NotAFunctionTag(name: string, tail: string)
    requires name != "" && (tail == "" || tail[0] == '<') && !WordAt(name, 0, "<function=", true)
    ensures MatchEnd(FUNCTION_TAG, name + tail, 0).None?
  {
    var w, f := name + tail, "<function=";
    if |name| < |f| {
      assert f[|name|] != '<' && (tail != "" ==> w[0 + |name|] == '<');
      assert |w| > |name| ==> !EqIgnoreCase(w[0 + |name|], f[|name|]);
    } else {
      WordLocal(w, 0, name, 0, f, true);
    }
    assert !WordAt(w, 0, f, true);
  }

  lemma OpenLiteral()
    ensures TagEnd(Open, "<tool_call>", 0) == Some(11)
  {
    hide MatchEnd;
    var s := "<tool_call>";
    assert s[0] == '<' && s[1..] == "tool_call>";
    NameLiteral(s, 1);
    WordAtSelf(s, 0, "<", false);
    var ps := TagPattern(Open);
    assert ps[0] == Word("<", false) && ps[1..] == NAME_PART;
    FirstStep(ps, s, 0, 1);
  }

  lemma CloseLiteral()
    ensures TagEnd(Close, "</tool_call>", 0) == Some(12)
  {
    hide MatchEnd, SkipSpaces;
    var s := "</tool_call>";
    assert s[0] == '<' && s[1] == '/' && s[2..] == "tool_call>";
    NameLiteral(s, 2);
    CloseSteps(s);
  }

  lemma CloseSteps(s: string)
    requires |s| >= 2 && s[0] == '<' && s[1] == '/'
    ensures MatchEnd(TagPattern(Close), s, 0) == MatchEnd(NAME_PART, s, 2)
  {
    hide MatchEnd, SkipSpaces;
    SkipSpacesIs(s, 1, 1);
    WordAtSelf(s, 0, "<", false);
    WordAtSelf(s, 1, "/", false);
    var slash := [Word("/", false)] + NAME_PART;
    assert TagPattern(Close) == [Word("<", false)] + ([Spaces] + slash);
    MatchFirst(Word("<", false), [Spaces] + slash, s, 0);
    MatchFirst(Spaces, slash, s, 1);
    MatchFirst(Word("/", false), NAME_PART, s, 1);
  }

  lemma FirstStep(ps: seq<Piece>, s: string, i: nat, j: nat)
    requires ps != [] && i <= |s| && PieceEnd(ps[0], s, i) == Some(j)
    ensures MatchEnd(ps, s, i) == MatchEnd(ps[1..], s, j)
  {
  }

  lemma WordAtSelf(s: string, i: nat, p: string, anyCase: bool)
    requires At(s, i, p)
    ensures WordAt(s, i, p, anyCase)
  {
    assert forall k | 0 <= k < |p| :: s[i + k] == p[k];
  }

  /** `tool_call>` from `i` to the end matches the part of a tag that both kinds share. */
  lemma NameLiteral(s: string, i: nat)
    requires |s| == i + 10 && s[i..] == "tool_call>"
    ensures MatchEnd(NAME_PART, s, i) == Some(|s|)
  {
    hide MatchEnd, SkipSpaces, PieceEnd;
    assert s[i] == s[i..][0] && s[i + 4] == s[i..][4] && s[i + 9] == s[i..][9];
    assert s[i..i + 4] == s[i..][..4] && s[i + 5..i + 9] == s[i..][5..9];
    SkipSpacesIs(s, i, i);
    SkipSpacesIs(s, i + 9, i + 9);
    WordAtSelf(s, i, "tool", true);
    WordAtSelf(s, i + 5, "call", true);
    NameStem(s, i);
    NameRest(s, i + 5);
  }

  lemma NameStem(s: string, i: nat)
    requires |s| == i + 10 && s[i] == 't' && s[i + 4] == '_' && SkipSpaces(s, i) == i && WordAt(s, i, "tool", true)
    ensures MatchEnd(NAME_PART, s, i) == MatchEnd(NAME_PART[5..], s, i + 5)
  {
    hide MatchEnd, SkipSpaces;
    WordAtSelf(s, i, "t", true);
    WordAtSelf(s, i + 4, "_", false);
    assert NAME_PART[1..][1..] == NAME_PART[2..] && NAME_PART[2..][1..] == NAME_PART[3..];
    assert NAME_PART[3..][1..] == NAME_PART[4..] && NAME_PART[4..][1..] == NAME_PART[5..];
    FirstStep(NAME_PART, s, i, i);
    FirstStep(NAME_PART[1..], s, i, i);
    FirstStep(NAME_PART[2..], s, i, i);
    FirstStep(NAME_PART[3..], s, i, i + 4);
    FirstStep(NAME_PART[4..], s, i + 4, i + 5);
  }

  lemma NameRest(s: string, i: nat)
    requires |s| == i + 5 && s[i + 4] == '>' && SkipSpaces(s, i + 4) == i + 4 && WordAt(s, i, "call", true)
    ensures MatchEnd(NAME_PART[5..], s, i) == Some(|s|)
  {
    hide MatchEnd, SkipSpaces;
    WordAtSelf(s, i + 4, ">", false);
    var ps := NAME_PART[5..];
    assert ps[1..][1..] == ps[2..] && ps[2..][1..] == ps[3..] && ps[3..][1..] == ps[4..] && ps[4..][1..] == [];
    FirstStep(ps, s, i, i + 4);
    FirstStep(ps[1..], s, i + 4, i + 4);
    FirstStep(ps[2..], s, i + 4, i + 4);
    FirstStep(ps[3..], s, i + 4, i + 4);
    FirstStep(ps[4..], s, i + 4, i + 5);
    NothingLeft(s, i + 5);
  }

  lemma NothingLeft(s: string, i: nat)
    requires i <= |s|
    ensures MatchEnd([], s, i) == Some(i)
  {
  }

  /** A printed call is one whole tagged block whose only body is what was printed between the tags. */
  lemma PrintedIsWholeBlock(body: string)
    requires body != "" && !HasTag(Close, body) && Strip(body) == body
    ensures var t := Wrapped(body);
      && SP.WholeTaggedBlock(t) && TagEnd(Open, t, 0) == Some(11)
      && FindTag(Open, t, 0) == Some(Span(0, 11))
      && BlockBodies(t, 0) == [body]
  {
    hide TagEnd, MatchEnd, Search, FindTag, Strip, BlockBodies;
    var open, close := "<tool_call>", "</tool_call>";
    var t := open + body + close;
    OpenLiteral();
    CloseLiteral();
    TagLocal(Open, t, 0, open, 0, 11);
    TagLocal(Close, t, 11 + |body|, close, 0, 12);
    var c := FindTag(Close, t, 0).value;
    NoClosingTagBefore(body, c);
    assert c.start == 11 + |body|;
    SP.OpenIsNotClose(t, 0);
    assert FindTag(Open, t, 0) == Some(Span(0, 11));
    WholeBlockHasOneBody(t);
    assert t[11..11 + |body|] == body;
  }

  lemma NoClosingTagBefore(body: string, c: Span)
    requires !HasTag(Close, body) && FindTag(Close, "<tool_call>" + body + "</tool_call>", 0) == Some(c)
    ensures c.start >= 11 + |body|
  {
    hide TagEnd, FindTag, HasTag;
    var open, close := "<tool_call>", "</tool_call>";
    var t := open + body + close;
    TagShape(Close, t, c.start);
    OpenLiteral();
    TagLocal(Open, t, 0, open, 0, 11);
    SP.OpenIsNotClose(t, 0);
    OpenLiteralAngles();
    assert t[..11] == open;
    if 11 <= c.start < 11 + |body| {
      assert t[11 + |body|] == '<';
      TagInBody(t, body, c.start, c.end);
    }
  }

  lemma OpenLiteralAngles()
    ensures var open := "<tool_call>"; |open| == 11 && forall k | 0 < k < 11 :: open[k] != '<'
  {
  }

  lemma TagInBody(t: string, body: string, start: nat, end: nat)
    requires Window(t, 11, body) && 11 <= start <= end <= 11 + |body| && TagEnd(Close, t, start) == Some(end)
    ensures HasTag(Close, body)
  {
    hide TagEnd, FindTag;
    TagLocal(Close, t, 11, body, start - 11, end - 11);
  }

  /** A body inside tags that is parsed as a call by itself: parsing the text gives exactly that call
      back, and no text. */
  lemma WrappedRoundTrip(codec: Codec, body: string, tc: ToolCall)
    requires body != "" && Strip(body) == body && !HasTag(Close, body)
    requires ParseOne(codec, true, body, 0) == Returned(Some(tc))
    ensures StripRawToolCalls(codec, Wrapped(body)) == Returned(("", [tc]))
  {
    hide TagEnd, MatchEnd, Search, FindTag, Strip, BlockBodies, ParseOne, SkipSpaces, Wrapped;
    var t := Wrapped(body);
    PrintedIsWholeBlock(body);
    assert t[0..] == t && t[..0] == "";
    CollectStep(codec, true, [], body);
    NothingMore([body]);
    NothingMore([tc]);
    assert RStrip("") == "";
  }

  /** End to end, in whatever format: wrap a body that parses as a call in tags, cut the text anywhere
      after the opening tag, feed the chunks, parse the single block that comes out, and get exactly
      the call back, while no text is shown. */
  lemma WrappedEndToEnd(codec: Codec, b: SB.Buffer, body: string, tc: ToolCall, chunks: seq<string>)
    requires !b.buffering && b.pending == "" && body != "" && Strip(body) == body && !HasTag(Close, body)
    requires ParseOne(codec, true, body, 0) == Returned(Some(tc))
    requires Concat(chunks) == Wrapped(body) && chunks != [] && |chunks[0]| >= |"<tool_call>"|
    ensures var r := SP.FeedAll(b, chunks);
      && SB.SafeText(r.segs) == "" && !r.state.buffering && r.state.pending == ""
      && SB.Blocks(r.segs) == [Wrapped(body)]
      && StripRawToolCalls(codec, Wrapped(body)) == Returned(("", [tc]))
  {
    hide TagEnd, MatchEnd, Search, FindTag, Strip, BlockBodies, ParseOne, StripRawToolCalls, Wrapped;
    PrintedIsWholeBlock(body);
    SP.BlockFromChunks(b, Wrapped(body), chunks);
    WrappedRoundTrip(codec, body, tc);
  }

  /** A block that is not closed runs to the end of the text. */
  lemma UnclosedBlockParses(codec: Codec, body: string, tc: ToolCall)
    requires body != "" && Strip(body) == body && !HasTag(Close, "<tool_call>" + body)
    requires ParseOne(codec, true, body, 0) == Returned(Some(tc))
    ensures StripRawToolCalls(codec, "<tool_call>" + body) == Returned(("", [tc]))
  {
    hide TagEnd, MatchEnd, Search, FindTag, Strip, ParseOne, SkipSpaces;
    var open := "<tool_call>";
    var t := open + body;
    OpenLiteral();
    TagLocal(Open, t, 0, open, 0, 11);
    assert FindTag(Open, t, 0) == Some(Span(0, 11));
    SP.TagFreeStretch(Close, t, 11, |t|);
    NoCloseFrom(t, 11);
    assert t[11..] == body && t[11..|t|] == body && t[0..] == t && t[..0] == "";
    NoTagWithoutAngle(Open, "");
    NoBodiesAtEnd(t);
    NothingMore([body]);
    CollectStep(codec, true, [], body);
    NothingMore([tc]);
    assert RStrip("") == "";
  }

  lemma NoCloseFrom(t: string, from: nat)
    requires from <= |t| && !HasTag(Close, t)
    ensures FindTag(Close, t, from).None?
  {
    hide TagEnd, FindTag;
  }

  lemma NoBodiesAtEnd(t: string)
    ensures BlockBodies(t, |t|) == []
  {
    hide TagEnd, FindTag;
    if TagEnd(Open, t, |t|).Some? { TagShape(Open, t, |t|); }
    assert FindTag(Open, t, |t|).None?;
  }

  /** End to end for a truncated answer: a call whose closing tag never comes is held back whatever the
      chunks are, comes out as one block when the stream ends, and is parsed. */
  lemma TruncatedEndToEnd(codec: Codec, b: SB.Buffer, body: string, tc: ToolCall, chunks: seq<string>)
    requires !b.buffering && b.pending == ""
    requires body != "" && Strip(body) == body && !HasTag(Close, "<tool_call>" + body)
    requires ParseOne(codec, true, body, 0) == Returned(Some(tc))
    requires Concat(chunks) == "<tool_call>" + body && chunks != [] && |chunks[0]| >= |"<tool_call>"|
    ensures var t, r := "<tool_call>" + body, SP.FeedAll(b, chunks);
      && SB.SafeText(r.segs) == "" && SB.Blocks(r.segs) == []
      && SB.Blocks(SB.AfterFlush(r.state).segs) == [t] && SB.SafeText(SB.AfterFlush(r.state).segs) == ""
      && StripRawToolCalls(codec, t) == Returned(("", [tc]))
  {
    hide TagEnd, MatchEnd, Search, FindTag, Strip, ParseOne, StripRawToolCalls, SB.SafeText, SB.Blocks, SB.AfterFeed;
    var t, c0, open := "<tool_call>" + body, chunks[0], "<tool_call>";
    UnclosedBlockParses(codec, body, tc);
    OpenLiteral();
    assert c0 == t[..|c0|] && c0[..11] == open;
    TagLocal(Open, c0, 0, open, 0, 11);
    SP.TagAtFrontEnters(b, c0);
    SP.TagFreeStretch(Close, t, 0, |c0|);
    NoSplit(c0);
    var first := SB.AfterFeed(b, c0);
    assert c0 + Concat(chunks[1..]) == t;
    SP.UnclosedIsHeld(first.state, chunks[1..]);
    SB.SegmentsAppend(first.segs, SP.FeedAll(first.state, chunks[1..]).segs);
    OneShown();
    OneBlock(t);
  }

  lemma NoSplit(p: string)
    requires !HasTag(Close, p)
    ensures SB.XmlSplit(p) == ([], p, true)
  {
    hide TagEnd, FindTag;
  }

  lemma OneShown()
    ensures SB.SafeText([SB.Safe("")] + []) == "" && SB.Blocks([SB.Safe("")] + []) == []
  {
    assert [SB.Safe("")] + [] == [SB.Safe("")] && [SB.Safe("")][1..] == [];
  }

  lemma OneBlock(t: string)
    ensures SB.SafeText([SB.Block(t)]) == "" && SB.Blocks([SB.Block(t)]) == [t]
  {
    assert [SB.Block(t)][1..] == [];
  }

  lemma GlmBodyIsClean(codec: Codec, name: string, args: seq<(string, string)>)
    requires GlmName(name) && args != [] && forall a | a in args :: GlmArg(a)
    ensures var body := name + PrintGlmArgs(args);
      && body != "" && Strip(body) == body && !HasTag(Close, body)
      && ParseOne(codec, true, body, 0) == Returned(Some(GlmCall(name, args, 0)))
  {
    hide FindTag, Strip, ParseOne, ArgsOf, ExecId;
    PrintedArgsHaveNoClosingTag(args);
    NoTagAcross(Close, name, PrintGlmArgs(args));
    GlmBodyParses(codec, name, args, 0);
  }

  /** Parsing a printed GLM call gives exactly that call back, and no text. */
  lemma GlmRoundTrip(codec: Codec, name: string, args: seq<(string, string)>)
    requires GlmName(name) && args != [] && forall a | a in args :: GlmArg(a)
    ensures StripRawToolCalls(codec, PrintGlm(name, args)) ==
      Returned(("", [GlmCall(name, args, 0)]))
  {
    hide HasTag, Strip, ParseOne, ArgsOf, ExecId, StripRawToolCalls, Wrapped;
    GlmBodyIsClean(codec, name, args);
    WrappedRoundTrip(codec, name + PrintGlmArgs(args), GlmCall(name, args, 0));
  }

  /** End to end for the GLM form. */
  lemma GlmEndToEnd(codec: Codec, b: SB.Buffer, name: string, args: seq<(string, string)>, chunks: seq<string>)
    requires !b.buffering && b.pending == "" && GlmName(name) && args != [] && forall a | a in args :: GlmArg(a)
    requires Concat(chunks) == PrintGlm(name, args) && chunks != [] && |chunks[0]| >= |"<tool_call>"|
    ensures var r := SP.FeedAll(b, chunks);
      && SB.SafeText(r.segs) == "" && !r.state.buffering && r.state.pending == ""
      && SB.Blocks(r.segs) == [PrintGlm(name, args)]
      && StripRawToolCalls(codec, PrintGlm(name, args)) ==
           Returned(("", [GlmCall(name, args, 0)]))
  {
    hide HasTag, Strip, ParseOne, ArgsOf, ExecId, StripRawToolCalls, Wrapped;
    GlmBodyIsClean(codec, name, args);
    WrappedEndToEnd(codec, b, name + PrintGlmArgs(args), GlmCall(name, args, 0), chunks);
  }

  /** The value that an argument map holds for a key is the one assigned last. */
  lemma {:induction false} LastAssignmentWins(pairs: seq<(string, string)>, i: nat)
    requires i < |pairs| && forall j | i < j < |pairs| :: pairs[j].0 != pairs[i].0
    ensures pairs[i].0 in ArgsOf(pairs) && ArgsOf(pairs)[pairs[i].0] == JString(pairs[i].1)
    ensures ArgsOf(pairs).Keys == set p | p in pairs :: p.0
    decreases |pairs|
  {
    var n := |pairs| - 1;
    KeysOfArgs(pairs);
    if i < n {
      LastAssignmentWins(pairs[..n], i);
    }
  }

  lemma {:induction false} KeysOfArgs(pairs: seq<(string, string)>)
    ensures ArgsOf(pairs).Keys == set p | p in pairs :: p.0
    decreases |pairs|
  {
    if pairs != [] {
      var n := |pairs| - 1;
      KeysOfArgs(pairs[..n]);
      assert pairs == pairs[..n] + [pairs[n]];
    }
  }
}
