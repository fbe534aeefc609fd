/** agents/base.py: `_trim_messages_to_context`. Token counts come from a remote tokenizer and may be
    unavailable; the budget is taken in exact arithmetic. */
module ContextTrim {
  import opened Text

  datatype Message = Message(id: int)

  /** Whether there are tool definitions to count, and their count. */
  datatype ToolCount = NoTools | Counted(tokens: Option<nat>)

  datatype Request = Request(numCtx: Option<int>, hasRunner: bool, system: Option<nat>, tools: ToolCount,
                             count: Message -> Option<nat>)

  /** Nine tenths of the context: one tenth is kept for the response. */
  function Budget(numCtx: int): int {
    numCtx * 9 / 10
  }

  function Sum(tokens: seq<nat>): nat {
    if tokens == [] then 0 else tokens[0] + Sum(tokens[1..])
  }

  /** The counts of all messages, if every one is available. */
  function Counts(count: Message -> Option<nat>, messages: seq<Message>): (r: Option<seq<nat>>)
    ensures r.Some? ==>
      |r.value| == |messages| && forall i | 0 <= i < |messages| :: count(messages[i]) == Some(r.value[i])
    ensures r.None? ==> exists m | m in messages :: count(m).None?
  {
    if messages == [] then Some([])
    else
      match count(messages[0])
      case None => None
      case Some(n) => match Counts(count, messages[1..]) case None => None case Some(rest) => Some([n] + rest)
  }

  /** Tokens that are sent whatever messages are kept, if they can be counted. */
  function Overhead(r: Request): Option<nat> {
    match r.system
    case None => None
    case Some(s) =>
      match r.tools
      case NoTools => Some(s)
      case Counted(None) => None
      case Counted(Some(t)) => Some(s + t)
  }

  /** Everything needed for a decision is available. */
  predicate Measured(r: Request, messages: seq<Message>) {
    r.numCtx.Some? && r.numCtx.value > 0 && r.hasRunner && Overhead(r).Some? && Counts(r.count, messages).Some?
  }

  /** How many messages the loop drops from the front. */
  function Cut(tokens: seq<nat>, over: nat, budget: int): (k: nat)
    ensures k <= |tokens| && (tokens != [] ==> k < |tokens|)
  {
    if |tokens| <= 1 || over + Sum(tokens) <= budget then 0 else 1 + Cut(tokens[1..], over, budget)
  }

  function Trim(r: Request, messages: seq<Message>): seq<Message> {
    if !Measured(r, messages) then messages
    else messages[Cut(Counts(r.count, messages).value, Overhead(r).value, Budget(r.numCtx.value))..]
  }

  lemma {:induction false} SumAppend(a: seq<nat>, b: seq<nat>)
    ensures Sum(a + b) == Sum(a) + Sum(b)
  {
    if a == [] {
      assert a + b == b;
    } else {
      assert (a + b)[1..] == a[1..] + b;
      SumAppend(a[1..], b);
    }
  }

  method TrimMessagesToContext(r: Request, messages: seq<Message>) returns (trimmed: seq<Message>)
    ensures trimmed == Trim(r, messages)
  {
    if r.numCtx.None? || r.numCtx.value <= 0 { return messages; }
    if !r.hasRunner { return messages; }
    var budget := Budget(r.numCtx.value);
    if r.system.None? { return messages; }
    var toolTokens: nat := 0;
    if r.tools.Counted? {
      if r.tools.tokens.None? { return messages; }
      toolTokens := r.tools.tokens.value;
    }
    var over := r.system.value + toolTokens;
    var perMessage: seq<nat> := [];
    var total := over;
    for i := 0 to |messages|
      invariant |perMessage| == i && total == over + Sum(perMessage)
      invariant forall j | 0 <= j < i :: r.count(messages[j]) == Some(perMessage[j])
    {
      var tokens := r.count(messages[i]);
      if tokens.None? { return messages; }
      SumAppend(perMessage, [tokens.value]);
      perMessage := perMessage + [tokens.value];
      total := total + tokens.value;
    }
    assert Counts(r.count, messages) == Some(perMessage) by { CountsAre(r.count, messages, perMessage); }
    if total <= budget { return messages; }
    trimmed := messages;
    ghost var all := perMessage;
    ghost var dropped := 0;
    // The running total is always the true sum of what is left.
    while total > budget && |trimmed| > 1
      invariant dropped <= |messages| && trimmed == messages[dropped..] && perMessage == all[dropped..]
      invariant total == over + Sum(perMessage)
      invariant Cut(all, over, budget) == dropped + Cut(perMessage, over, budget)
      decreases |trimmed|
    {
      total := total - perMessage[0];
      assert all[dropped..][1..] == all[dropped + 1..] && messages[dropped..][1..] == messages[dropped + 1..];
      perMessage, trimmed := perMessage[1..], trimmed[1..];
      dropped := dropped + 1;
    }
  }

  lemma {:induction false} CountsAre(count: Message -> Option<nat>, messages: seq<Message>, tokens: seq<nat>)
    requires |tokens| == |messages| && forall i | 0 <= i < |messages| :: count(messages[i]) == Some(tokens[i])
    ensures Counts(count, messages) == Some(tokens)
  {
    if messages != [] {
      CountsAre(count, messages[1..], tokens[1..]);
      assert tokens == [tokens[0]] + tokens[1..];
    }
  }

  predicate Fits(tokens: seq<nat>, over: nat, budget: int, k: nat)
    requires k <= |tokens|
  {
    over + Sum(tokens[k..]) <= budget
  }

  /** The suffix from `k` is the longest that fits, or the last message alone if no non-empty suffix
      fits; no messages stay no messages. */
  ghost predicate LongestFit(tokens: seq<nat>, over: nat, budget: int, k: nat) {
    && k <= |tokens| && (tokens != [] ==> k < |tokens|)
    && (forall j | 0 <= j < k :: !Fits(tokens, over, budget, j))
    && (|tokens| > k + 1 ==> Fits(tokens, over, budget, k))
  }

  lemma {:induction false} CutIsLongest(tokens: seq<nat>, over: nat, budget: int)
    ensures LongestFit(tokens, over, budget, Cut(tokens, over, budget))
  {
    assert tokens[0..] == tokens;
    if !(|tokens| <= 1 || over + Sum(tokens) <= budget) {
      CutIsLongest(tokens[1..], over, budget);
      assert forall j | 1 <= j <= |tokens| :: tokens[j..] == tokens[1..][j - 1..];
      assert forall j | 1 <= j <= |tokens| :: Fits(tokens, over, budget, j) == Fits(tokens[1..], over, budget, j - 1);
    }
  }

  lemma {:induction false} CountsLength(count: Message -> Option<nat>, messages: seq<Message>)
    requires Counts(count, messages).Some?
    ensures |Counts(count, messages).value| == |messages|
  {
    if messages != [] { CountsLength(count, messages[1..]); }
  }

  /** When all counts are available, the result is the longest suffix of the messages that fits the
      budget together with system prompt and tools, or the last message alone if no non-empty suffix
      fits. */
  lemma LongestFittingSuffix(r: Request, messages: seq<Message>)
    requires Measured(r, messages)
    ensures var tokens := Counts(r.count, messages).value;
      exists k: nat | k <= |messages| ::
        && Trim(r, messages) == messages[k..]
        && |tokens| == |messages| && LongestFit(tokens, Overhead(r).value, Budget(r.numCtx.value), k)
  {
    hide LongestFit, Cut, Counts, Budget;
    var tokens := Counts(r.count, messages).value;
    var k := Cut(tokens, Overhead(r).value, Budget(r.numCtx.value));
    CountsLength(r.count, messages);
    CutIsLongest(tokens, Overhead(r).value, Budget(r.numCtx.value));
    assert Trim(r, messages) == messages[k..];
  }

  lemma CountsOfSuffix(count: Message -> Option<nat>, messages: seq<Message>, k: nat)
    requires k <= |messages| && Counts(count, messages).Some?
    ensures Counts(count, messages[k..]) == Some(Counts(count, messages).value[k..])
  {
    CountsAre(count, messages[k..], Counts(count, messages).value[k..]);
  }

  lemma {:induction false} CutTwice(tokens: seq<nat>, over: nat, budget: int)
    ensures Cut(tokens[Cut(tokens, over, budget)..], over, budget) == 0
  {
    if |tokens| <= 1 || over + Sum(tokens) <= budget {
      assert tokens[0..] == tokens;
    } else {
      CutTwice(tokens[1..], over, budget);
      assert tokens[1..][Cut(tokens[1..], over, budget)..] == tokens[Cut(tokens, over, budget)..];
    }
  }

  /** Trimming again changes nothing. */
  lemma TrimIsIdempotent(r: Request, messages: seq<Message>)
    ensures Trim(r, Trim(r, messages)) == Trim(r, messages)
  {
    if Measured(r, messages) {
      var tokens, over, budget := Counts(r.count, messages).value, Overhead(r).value, Budget(r.numCtx.value);
      var k := Cut(tokens, over, budget);
      CountsOfSuffix(r.count, messages, k);
      CutTwice(tokens, over, budget);
    }
  }

  /** The same in the numbers themselves: with a context of `numCtx` tokens, `system` tokens for the prompt,
      `tools` for the tool definitions and `tokens` for the messages, what is kept is the longest suffix
      that fits nine tenths of the context, or the last message alone. */
  lemma TrimInNumbers(r: Request, messages: seq<Message>, numCtx: nat, system: nat, tools: nat, tokens: seq<nat>)
    requires r.numCtx == Some(numCtx) && numCtx > 0 && r.hasRunner && r.system == Some(system)
    requires (r.tools == NoTools && tools == 0) || r.tools == Counted(Some(tools))
    requires |tokens| == |messages| && forall i | 0 <= i < |messages| :: r.count(messages[i]) == Some(tokens[i])
    ensures exists k: nat | k <= |messages| ::
      && Trim(r, messages) == messages[k..] && (messages != [] ==> k < |messages|)
      && (forall j | 0 <= j < k :: 10 * (system + tools + Sum(tokens[j..])) > 9 * numCtx)
      && (k + 1 < |messages| ==> 10 * (system + tools + Sum(tokens[k..])) <= 9 * numCtx)
  {
    hide Cut, Counts;
    CountsAre(r.count, messages, tokens);
    CutIsLongest(tokens, system + tools, Budget(numCtx));
    var k := Cut(tokens, system + tools, Budget(numCtx));
    assert Trim(r, messages) == messages[k..];
    assert forall j | 0 <= j <= |tokens| ::
      Fits(tokens, system + tools, Budget(numCtx), j) <==> 10 * (system + tools + Sum(tokens[j..])) <= 9 * numCtx;
  }

  /** Nothing is dropped when the context size, the runner or any of the counts is not available. */
  lemma NothingDropped(r: Request, messages: seq<Message>)
    requires || r.numCtx.None? || r.numCtx.value <= 0 || !r.hasRunner || r.system.None? || r.tools == Counted(None)
             || exists m | m in messages :: r.count(m).None?
    ensures Trim(r, messages) == messages
  {
    CountsComplete(r.count, messages);
  }

  lemma CountsComplete(count: Message -> Option<nat>, messages: seq<Message>)
    ensures Counts(count, messages).Some? ==> forall m | m in messages :: count(m).Some?
  {
    if Counts(count, messages).Some? {
      forall m | m in messages ensures count(m).Some? {
        var i :| 0 <= i < |messages| && messages[i] == m;
        assert count(messages[i]) == Some(Counts(count, messages).value[i]);
      }
    }
  }
}
