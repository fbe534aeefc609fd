# Verified model of the chat server core

A Dafny model of the parts of the server that carry state from step to step, with proofs about every
run of them:

- the **raw tool-call stream buffer and parser** (`graph/content_parser.py`, `graph/tool_call_parser.py`):
  a token stream is split into text that may be shown and blocks that hold tool calls, and the blocks
  are parsed in several wire formats;
- the **workflow executor** (`graph/executor.py`): one event loop on top of both;
- the **caches** (`db/multi_tier_cache.py`, `db/userconfig_storage.py`, `graph/cache.py`,
  `graph/service.py`): recency order, expiry, eviction, coherence of tiers, reuse and invalidation;
- the **agent loops** (`agents/base.py`): trimming messages to a context window, and retrying with
  backoff around a task that a disconnect can abort;
- **embedding reduction and row grouping** (`db/memory_storage.py`).

Code that changes state step by step is a class with the fields of the original, or a method with its
loop. Each method is proved equal to a specification function on values, and the theorems are about
those functions over all inputs, all runs or all reachable states. Run `dafny verify dfyconfig.toml`.

## Modules

| module | content |
|---|---|
| `Text`, `Patterns`, `Tags`, `Braces`, `Expressions` | string primitives, regular expressions as piece lists, the tag expressions with leftmost-match stability, brace counting; the texts that each expression matches |
| `StreamBuffer`, `StreamBufferProperties`, `ChunkCuts` | the stream buffer; conservation and hold-back; when it matters where a stream is cut |
| `ToolCallParser`, `RoundTrips`, `HermesRoundTrip`, `JsonCalls` | the parser; round trips, execution ids, agreement of the brace scanners; what JSON calls become in each format |
| `Executor`, `ExecutorRuns`, `ToolResults`, `StreamedCalls`, `Turns`, `ServerEvents` | the event loop; whole runs; tool results; buffer, parser and executor together; whole model turns; server tool events |
| `OrderedDict`, `LruCache`, `MultiTierCache`, `InterleavedTiers`, `UserConfigStorage`, `WorkflowCache`, `ComposerService` | insertion-ordered dictionaries and the five caches on them; calls that overlap while they wait for the database |
| `ContextTrim`, `RetryLoop` | the agent loops; `run` and `run_structured` contain the same retry loop (agents/base.py:775-814 and 965-1000) |
| `EmbeddingReduction`, `MemoryGrouping` | bucket averages in exact arithmetic; rows to memories |

## Where the code does less than its documentation or tests say

The model follows the code. What is false of the code is stated as an exact condition or shown with a
concrete family of inputs.

- The stream buffer promises that no bytes follow an opening tag into visible text. That fails in two
  ways. A tag that is divided by a chunk boundary is not recognised, in front of the first block or
  after one (`DividedOpeningTagIsShown`, `DividedTagAfterBlockMatters`); `CutMattersExactly` says for
  every state, every chunk and every continuation whether the boundary matters. And what follows a
  completed bare JSON object is searched for objects only, so a whole tagged block can be shown there
  (`OpeningTagIsShownExactlyWhen`, with the input `BlockAfterObjectExample`).
- The comment on the Mistral branch says the block is buffered until `]` and a newline, or the end of
  the stream. The `]` of the marker itself already ends it (`MistralClosesAtOnce`, `MistralIsNeverHeld`).
- The GLM printer of a call without arguments is not read back: without `<arg_key>` the body is no GLM
  call (`GlmBodyParses` covers both cases).
- The content of the model-end event is parsed again although the stream has been parsed, unless it is
  empty, text was shown before, or structured calls or tool chunks were seen. So an ordinary turn that
  consists of tool calls in text streams them twice, and a turn whose text is one block without a
  recognisable call shows its raw markup after all. `TurnDecides` gives what any turn registers,
  streams and shows, and `TurnFailsExactlyWhen` when it raises; `StreamedCallIsReported`,
  `TruncatedCallIsStreamedTwice` and `ArgumentlessCallIsShown` are families of inputs.
- `execution_id`s are distinct within one parse, but the index restarts with each block, and counts over
  the whole text when the content is parsed again. Calls collide exactly when they have the same name
  and the same index in what was parsed (`KeysCollideExactly`). A call of a turn is missing from the
  final message exactly when the content, if it is parsed, or else a later block has another call of
  its name at its index (`LostFromFinalExactlyWhen`); and the content adds a second record of a call
  exactly when it stands at another index there (`SurplusExactlyWhen`). `TwoCallsRun` has runs of both
  kinds.
- `state` and `prev_state` of a response never differ (`PreviousStateIsNeverDifferent`).
- Server tool events are streamed from a count of those already streamed. That is right exactly when
  every report starts with the events of the report before it (`StreamedExactlyWhen`). The node's
  reports do not: it returns the whole list that it has extended in place, and the state declares
  `operator.add` for it, as the agent node's returned state does too. So its events are streamed once
  each only if a single round produces any (`NodeEventsOnceExactlyWhen`, `SecondRoundRepeats`); if the
  agent's return were not merged, only up to two rounds would be right (`ThirdRoundRepeats`).
- A finish reason that the response type does not admit makes the last yield raise, so such a run ends
  without a final response (`FinishReasonDecides`).
- `compose_workflow` says that each session gets its own workflow. Session ids with underscores can
  share a key, and a caller without a session shares the key of the session named like its model
  (`KeysCollideExactlyWhen`, `NoSessionSharesKey`). `test_workflow_cache_key` speaks of tools in the
  key; the code leaves them out.
- Storing a workflow in a full cache makes room even when the key is already there, so renewing an
  entry drops another live one (`SetRemovesExactly`, `RenewalDropsAnother`).
- An invalidation does not stop a composition that is already building from storing its workflow
  (`InFlightStoreSurvivesInvalidation`).
- A read of a configuration that waits for the database while the configuration is set puts the old
  value back into memory and Redis (`ReadAcrossWriteIsStale`); such a late write to the caches, with no
  other write of the key still to come, is the only thing that breaks coherence (`InterleavedRunsAreCoherentExactly`, `GapDecides`).
- A write to Redis that is lost leaves the old value to be served once memory has expired
  (`SetIsCoherent`, `StaleReadAfterLostWrite`). A write-back to Redis that raises makes a read of an
  existing configuration return nothing (`GetIsCoherent`). The `redis_ttl` parameter is never used.
- Search and document rows come with the role `system`. `search_similarity` fetches them and drops
  them, except one that comes right after a user message without an answer: that one is attached to
  the message as if it were the answer (`GroupingKeepsOrder` says exactly which rows are kept;
  `WellFormedResultsAreLossless` shows that well-formed results keep no such row).

## Model

| member | source | states |
|---|---|---|
| Expressions.MatcherIsExact | graph/content_parser.py:10-38 | for every expression in which no piece can take what may follow it, the matcher gives a text at an index if and only if the text can be cut, anywhere, into parts that match the pieces; so greedy, lazy and backtracking readings are one |
| Expressions.TagEndIs | graph/content_parser.py:10-19 | a tag stands between two indices if and only if the text there is `<`, a slash after whitespace in a closing tag, a margin of whitespace with at most one bar, one of the four names up to case, such a margin, and `>` |
| Expressions.BareEndIs | graph/content_parser.py:35-38 | a bare call opens if and only if the text is an object whose first field is a non-empty name and whose second is called "arguments" or "args", up to the colon |
| Expressions.MarkerEndIs | graph/content_parser.py:31 | the marker is `[TOOL_CALLS]` up to case |
| Expressions.ValueTagEndIs | graph/tool_call_parser.py:31-38 | a function or parameter tag is its word up to case, a non-empty value without `>`, and `>` |
| Tags.TagShape | graph/content_parser.py:10-19 | every opening or closing tag starts with its only `<` and ends with its only `>` |
| Tags.FindTagStable | graph/content_parser.py:10-19 | appending text never moves or changes a leftmost match already found |
| Tags.NoTagAcross | graph/content_parser.py:10-19 | two tag-free texts stay tag-free when joined at a `<` |
| StreamBuffer.RawToolCallStreamBuffer.Feed | graph/content_parser.py:144-271 | the new state, the safe text and the blocks are those of the specification step, and the returned text and blocks are one ordered list of pieces read two ways |
| StreamBuffer.RawToolCallStreamBuffer.DrainXml | graph/content_parser.py:201-220 | the loop cuts off every complete block, up to the first that is still open |
| StreamBuffer.RawToolCallStreamBuffer.DrainJson | graph/content_parser.py:222-255 | at most one object is cut off; a second one that starts in the remainder is held |
| StreamBuffer.RawToolCallStreamBuffer.ScanBraces | graph/content_parser.py:227-235 | the scan ends at the first `}` that brings the count to zero, if there is one |
| StreamBuffer.RawToolCallStreamBuffer.CountBraces | graph/content_parser.py:182-187 | the depth is opening minus closing braces of all held text |
| StreamBuffer.RawToolCallStreamBuffer.DrainMistral | graph/content_parser.py:257-268 | the block ends at the first `]` before a newline, else at the last `]` |
| StreamBuffer.RawToolCallStreamBuffer.Flush | graph/content_parser.py:273-294 | held text comes out as one block, never as text, and the buffer is empty again |
| StreamBufferProperties.FeedConserves | graph/content_parser.py:144-271 | from every reachable state: held text plus chunk equals the pieces in order plus what is now held; buffering holds exactly when something is held; held XML starts with an opening tag and contains no closing tag |
| StreamBufferProperties.StreamConserved | graph/content_parser.py:144-271 | the same over any sequence of chunks |
| StreamBufferProperties.NothingIsLost | graph/content_parser.py:144-294 | fed and flushed, the pieces spell the whole stream; flush gives no text and leaves nothing held |
| StreamBufferProperties.UnclosedIsHeld | graph/content_parser.py:193-220 | a tagged block without closing tag is held back whatever the chunks are |
| StreamBufferProperties.OpeningTagIsShownExactlyWhen | graph/content_parser.py:144-271 | from every reachable state, a feed shows a piece with a complete opening tag if and only if it completes a bare object held before and the tag stands between that object and the next |
| ChunkCuts.BlockAfterObjectExample | graph/content_parser.py:236-254 | an object in two chunks, the second of which goes on with a tagged block: the block is shown as text |
| StreamBufferProperties.ShownTextHasNoOpeningTag | graph/content_parser.py:157-220 | unless the feed starts inside a bare object, no piece of shown text holds a complete opening tag, and every XML block has one opening tag at its start and its only closing tag at its end |
| StreamBufferProperties.ChunkSplitIndependence | graph/content_parser.py:144-220 | from any reachable state, if feeding `a` leaves the buffer inside a tagged block, feeding `a` then `t` is feeding `a + t`: same pieces, same state |
| StreamBufferProperties.JsonSplitIndependence | graph/content_parser.py:176-255 | in JSON mode, while no object is complete, the cut does not matter; for the feed that enters the mode, if and only if the added text brings in no marker that takes precedence |
| ChunkCuts.CutMattersExactly | graph/content_parser.py:144-271 | for every reachable state, chunk `a` and continuation `t`: feeding `a` and then `t` gives the state, blocks and text between them of feeding `a + t` if and only if the cut is free, a condition on the markers around it for each mode `a` can end in |
| ChunkCuts.PassThroughSplit | graph/content_parser.py:154-191 | in particular, a chunk without a marker may be fed separately if and only if no marker of the concatenation starts in it |
| ChunkCuts.DividedOpeningTagIsShown | graph/content_parser.py:154-191 | wherever an opening tag is cut, both parts are shown up to the next marker, and the outcome differs from that of the uncut text |
| ChunkCuts.DividedTagAfterBlockMatters | graph/content_parser.py:201-220 | the same for a tag right after a block |
| StreamBufferProperties.BlockFromChunks | graph/content_parser.py:193-220 | from any state in which nothing is held, a tagged block cut anywhere after its opening tag comes out whole, alone, with no text |
| StreamBufferProperties.JsonBlockIsShortestBalanced | graph/content_parser.py:176-255 | in JSON mode, and when entering it, a feed completes exactly the shortest balanced prefix of the held text, or nothing |
| StreamBufferProperties.MistralClosesAtOnce | graph/content_parser.py:257-268 | a marker ends its own block |
| StreamBufferProperties.MistralBlockEnds | graph/content_parser.py:257-268 | such a block ends in `]`; either a newline follows and no `]` and newline come earlier, or there is no `]` and newline at all and no `]` in the rest |
| StreamBufferProperties.MistralIsNeverHeld | graph/content_parser.py:257-268 | no feed leaves a Mistral block open |
| Braces.FirstCloseIsShortest | graph/content_parser.py:227-235 | the scan finds the shortest balanced prefix, and when it finds nothing every prefix is unbalanced |
| ToolCallParser.RawToolCallParser.ParseRawToolCalls | graph/tool_call_parser.py:130-166 | the calls are those of the non-empty bodies between tags, in order, numbered by the calls before them |
| ToolCallParser.RawToolCallParser.TryParseFunction | graph/tool_call_parser.py:198-223 | the loop makes the assignments of all parameters with a non-blank key |
| ToolCallParser.RawToolCallParser.TryParseGlm | graph/tool_call_parser.py:225-267 | the loop makes the assignments of the key-value pairs; an unclosed value runs to the end |
| ToolCallParser.RawToolCallParser.TryParseBareJson | graph/tool_call_parser.py:269-298 | the loop ends on every input and parses the balanced objects at the front |
| ToolCallParser.RawToolCallParser.MatchingBrace | graph/tool_call_parser.py:281-291 | the parser's scanner finds the same end as the buffer's |
| ToolCallParser.RawToolCallParser.TryParseMistral | graph/tool_call_parser.py:300-314 | the calls of the array's objects that have a name |
| ToolCallParser.RawToolCallParser.RemoveCodeBlocks | graph/tool_call_parser.py:112-117 | cutting blocks out last to first leaves exactly the gaps between them |
| RoundTrips.ExecIdInjective | graph/tool_call_parser.py:191-194 | ids are equal exactly when names and indices are, also for names that end in digits |
| RoundTrips.IdsAreDistinct | graph/tool_call_parser.py:74-128 | the calls of one parse have pairwise distinct ids, in every format |
| RoundTrips.NothingIsCutForNothing | graph/tool_call_parser.py:74-128 | without calls the content is returned unchanged; with calls, what stands in front of the leftmost opening tag, call-list marker or bare object, or the gaps between the code blocks, right-stripped |
| RoundTrips.WholeBlockHasOneBody | graph/tool_call_parser.py:153-166 | the parser sees exactly one body in a block the buffer cut |
| RoundTrips.GlmBodyParses | graph/tool_call_parser.py:225-267 | a printed GLM body is read as its name and arguments, names and keys trimmed, if it has arguments, and as no call if it has none |
| RoundTrips.UnclosedValue | graph/tool_call_parser.py:244-259 | a value that is not closed extends to the end of the block, after all arguments before it |
| RoundTrips.UnclosedBlockParses | graph/tool_call_parser.py:153-166 | a block without closing tag is parsed to the end of the text |
| RoundTrips.CallsAreNumbered | graph/tool_call_parser.py:74-128 | in every format, the call at index k of a parse carries its name and k in its id |
| RoundTrips.WrappedEndToEnd | graph/content_parser.py:144-220 | in any format: a body that parses as a call, put between tags and cut anywhere after the opening tag, comes out as one block that parses to that call, and no text is shown |
| RoundTrips.GlmRoundTrip | graph/tool_call_parser.py:225-267 | parsing a printed GLM call gives that call and no text |
| RoundTrips.GlmEndToEnd | graph/content_parser.py:144-220 | print, cut, buffer and parse give the call back from any state in which nothing is held, and no text is shown |
| RoundTrips.TruncatedEndToEnd | graph/content_parser.py:193-294 | a call whose closing tag never comes is held back over any chunks, comes out as one block with the flush, and is parsed |
| RoundTrips.LastAssignmentWins | graph/tool_call_parser.py:242-260 | the argument map has the keys assigned, each with the value assigned last |
| HermesRoundTrip.HermesParses | graph/tool_call_parser.py:198-223 | a printed function tag with any parameters is read back, with its name, keys and values trimmed |
| HermesRoundTrip.ValueEndIsFirst | graph/tool_call_parser.py:35-38 | a parameter value ends at the first closing tag or opening parameter tag, else at the end |
| HermesRoundTrip.HermesRoundTrips | graph/tool_call_parser.py:153-223 | no other format claims such a body first |
| HermesRoundTrip.HermesEndToEnd | graph/content_parser.py:144-220 | the same end to end as for GLM: print, cut, buffer and parse |
| HermesRoundTrip.ScannersAgree | graph/tool_call_parser.py:269-298 | a block completed in JSON mode, or by the feed that enters it, is the shortest balanced prefix, and the slicing loop cuts it into exactly itself |
| JsonCalls.BodyOutcome | graph/tool_call_parser.py:172-196 | a body gives a call if and only if it starts with a brace and loads to an object with a string under `name`; it raises if and only if there is another value under `name` |
| JsonCalls.TaggedCall | graph/tool_call_parser.py:130-196 | for every codec, parsing a JSON body between tags gives exactly the call it spells: its name, and `arguments`, else `args`, else nothing; an object stands for itself, a string for the object it loads to or for `raw`, any other value for no arguments |
| JsonCalls.TaggedCallRaises | graph/tool_call_parser.py:172-196 | a name that is no string makes the parse of the whole block raise |
| JsonCalls.ArrayOfCalls | graph/tool_call_parser.py:96-102 | parsing an array after the marker gives exactly the calls that its named objects spell, in order, and the text in front |
| JsonCalls.ArrayInOneChunk | graph/content_parser.py:257-268 | end to end: a marker and its array in one chunk are one block, only the text in front is shown, and the block parses to the calls of the array |
| JsonCalls.CodeBlockCalls | graph/tool_call_parser.py:104-117 | parsing objects in code blocks, with or without the language, gives exactly the calls they spell, in order, and the text around the blocks |
| JsonCalls.BareCalls | graph/tool_call_parser.py:119-128 | parsing bare objects separated by whitespace gives exactly the calls they spell, in order, and the text in front |
| JsonCalls.PassedOver | graph/tool_call_parser.py:86-128 | the formats are tried in order, and one that gives no call is passed over whatever its text is |
| Executor.WorkflowExecutor.YieldText | graph/executor.py:450-472 | the delta carries the state before the step, and the text is accumulated |
| Executor.WorkflowExecutor.YieldCalls | graph/executor.py:249-264 | all calls are registered and streamed in one response |
| Executor.WorkflowExecutor.EmitToolCallsFromRaw | graph/executor.py:235-264 | blocks are parsed separately; nothing happens when nothing parses |
| Executor.WorkflowExecutor.FeedText | graph/executor.py:444-491 | text first, then the calls of the completed blocks |
| Executor.WorkflowExecutor.OnChunk | graph/executor.py:388-491 | one stream event |
| Executor.WorkflowExecutor.Flush | graph/executor.py:498-524 | the rest of the buffer is parsed at the end of the model's turn |
| Executor.WorkflowExecutor.OnStructuredCalls | graph/executor.py:526-550 | calls that are not registered yet are registered and streamed once |
| Executor.WorkflowExecutor.OnModelEnd | graph/executor.py:496-689 | one model-end event, with content only if nothing was streamed |
| Executor.WorkflowExecutor.OnToolNode | graph/executor.py:709-742 | the events past the counter that carry a call are yielded |
| Executor.WorkflowExecutor.Step | graph/executor.py:357-776 | one event of any kind |
| Executor.WorkflowExecutor.Stream | graph/executor.py:266-928 | the whole generator, with every way the event source can end |
| ExecutorRuns.StepKeeps | graph/executor.py:357-776 | every step keeps: accumulated text is the text streamed, registered calls are those streamed or started, nothing is final |
| ExecutorRuns.WholeRun | graph/executor.py:440-928 | a run that does not raise has exactly one response with `done`, the last; unless it is the apology, its text is the text streamed and its calls are those streamed and started, and apart from started tools exactly the latest records; a run that raises has none |
| ExecutorRuns.PreviousStateIsNeverDifferent | graph/executor.py:466-472 | no response shows a state change |
| ExecutorRuns.KeysCollideExactly | graph/executor.py:249-261 | two calls from any texts, in any formats, are registered under the same key if and only if they have the same name and index |
| ExecutorRuns.CountsAreLastNonZero | graph/executor.py:373-380 | prompt and completion counts are the last non-zero ones, whichever event reports them |
| ExecutorRuns.FinishReasonDecides | graph/executor.py:651-673 | a run that gets to its end raises if and only if the last model turn's finish reason is not an admitted one; otherwise it ends with that reason and the last non-zero counts |
| ExecutorRuns.ErrorsDecide | graph/executor.py:777-888 | after everything streamed before it, an error of the last kind is answered with an apology and every other error is raised |
| ToolResults.ToolResultIsReported | graph/executor.py:756-776 | after any events, the end of a tool run streams and registers the same record, with its result, and with the name and arguments registered before if there are any |
| ToolResults.ToolStartIsRegistered | graph/executor.py:747-754 | a tool that starts is registered with its name and arguments and without a result |
| ToolResults.ResultIsFinal | graph/executor.py:744-776 | over whole runs: the final message has that result, or what was streamed last under the id afterwards, unless the tool starts again |
| ToolResults.ReasoningIsStreamed | graph/executor.py:388-491 | over whole runs: the reasoning of every stream event is streamed, in order, and nothing else is |
| ServerEvents.RunStreams | graph/executor.py:709-742 | the server tool events of any run are those that its reports give, and nothing else bears on them |
| ServerEvents.WithCallIs | graph/executor.py:720-742 | of a report exactly the events that carry a call are streamed |
| ServerEvents.StreamedExactlyWhen | graph/executor.py:717-742 | after every report exactly its events are streamed, once and in order, if and only if every report starts with the events of the one before |
| ServerEvents.NodeEventsOnceExactlyWhen | graph/nodes/server_tools.py:137-204 | the node's events are streamed once each, in order, if and only if only the last round produced any (or the last two, if the agent's return were not merged) |
| ServerEvents.SecondRoundRepeats | graph/state.py:116-121 | with two rounds the first event is streamed twice |
| ServerEvents.ThirdRoundRepeats | graph/state.py:116-121 | without the agent's merge, the second event is streamed twice with three rounds |
| StreamedCalls.TextFollowsBuffer | graph/executor.py:440-491 | over any chunks the accumulated text is the buffer's safe text, whatever is parsed |
| StreamedCalls.PlainTextIsStreamed | graph/executor.py:444-472 | text without markers is streamed piece by piece as it comes, in the state of responding after the first |
| Turns.TurnDecides | graph/executor.py:388-689 | for any stream events, however cut, and any model-end event: what is registered under each raw id (the content's call, else the last block's, else what was there, else a structured call), how often the id is streamed (once for each feed or flush that completes such a block, once more for the content), and the text |
| Turns.TurnFailsExactlyWhen | graph/executor.py:388-689 | a turn raises if and only if a block it completes or flushes, or a content it parses, cannot be parsed |
| Turns.LostFromFinalExactlyWhen | graph/executor.py:249-649 | in a run that ends with any turn, a call streamed from a block is missing from the final message if and only if the parsed content, or else a later block, has another call of its name at its index |
| Turns.SurplusExactlyWhen | graph/executor.py:573-649 | an id that nothing streamed is in the final message if and only if the parsed content has a call there |
| Turns.TwoCallsRun | graph/executor.py:440-928 | runs with two calls: without content the first of two calls of one function is lost; with the text again nothing is lost, and a second call of another function is held twice |
| Turns.TruncatedCallIsStreamedTwice | graph/executor.py:496-649 | a call in a block that is flushed unfinished is streamed twice when its text comes again |
| StreamedCalls.StreamedCallIsReported | graph/executor.py:440-928 | the whole run, with the model-end event: the call is streamed once if that event has no content and twice if it has the text again; no text is shown, and the final message holds exactly that call |
| StreamedCalls.ArgumentlessCallIsShown | graph/executor.py:552-600 | the markup of a GLM call without arguments becomes visible text |
| LruCache.InMemoryUserConfigCache.GetConfig | db/multi_tier_cache.py:76-97 | hit, miss and expiry, with the counters |
| LruCache.InMemoryUserConfigCache.SetConfig | db/multi_tier_cache.py:99-120 | stored at the end, then evicted from the front down to the limit |
| LruCache.InMemoryUserConfigCache.Invalidate | db/multi_tier_cache.py:122-129 | the key is gone and nothing else changes; says whether it was there |
| LruCache.InMemoryUserConfigCache.Clear | db/multi_tier_cache.py:131-137 | empty, counters at zero |
| OrderedDict.RemoveWhere | db/multi_tier_cache.py:154-173 | the keys are collected first and deleted afterwards |
| OrderedDict.SweepRemovesExactly | db/multi_tier_cache.py:154-173 | a cleanup removes exactly the entries that have expired and changes no other |
| LruCache.InMemoryUserConfigCache.PeriodicCleanup | db/multi_tier_cache.py:154-173 | the expired keys are removed |
| LruCache.EvictKeepsSuffix | db/multi_tier_cache.py:112-116 | eviction keeps the last `max_size` keys of the order, unchanged |
| LruCache.EveryRunIsLru | db/multi_tier_cache.py:76-173 | after any run the order is strictly the order of last use, the size is within the limit, no evicted key was used after a resident one, and every entry is the one last set and not invalidated |
| LruCache.HitsAreCurrent | db/multi_tier_cache.py:76-120 | a hit is the value last set, within its lifetime; the key just set is resident |
| LruCache.ReadsExactly | db/multi_tier_cache.py:76-137 | over every run at a clock that never goes back: a read hits if and only if the key was set and not invalidated or cleared since, its lifetime is not over, and it was not evicted since; a hit gives the value set last |
| MultiTierCache.MultiTierUserConfigCache.GetConfig | db/multi_tier_cache.py:207-254 | memory, then Redis, then the database, with the write-backs |
| MultiTierCache.MultiTierUserConfigCache.SetConfig | db/multi_tier_cache.py:256-273 | database first; a failing database changes nothing |
| MultiTierCache.MultiTierUserConfigCache.InvalidateConfig | db/multi_tier_cache.py:275-290 | gone from memory, and from Redis if the delete takes effect |
| MultiTierCache.GetIsCoherent | db/multi_tier_cache.py:207-254 | a read keeps coherence and gives the database's value, or nothing only if it is absent, unreadable, or the Redis write-back raised |
| MultiTierCache.SetIsCoherent | db/multi_tier_cache.py:256-273 | a write keeps coherence if and only if Redis takes it or holds no other value |
| MultiTierCache.InvalidateIsCoherent | db/multi_tier_cache.py:275-290 | so does an invalidation, always |
| MultiTierCache.InvalidateForgets | db/multi_tier_cache.py:275-290 | from any state with a valid memory, coherent or not: after an invalidation whose delete works the key is in neither cache, nothing else changes, and a read gives what the database holds then |
| MultiTierCache.ReadOrder | db/multi_tier_cache.py:207-254 | a read gives the first answer of memory within the lifetime, Redis and the database |
| MultiTierCache.ReadFillsCaches | db/multi_tier_cache.py:207-254 | what a read finds below is in the caches above afterwards |
| MultiTierCache.WriteFillsCaches | db/multi_tier_cache.py:256-273 | what is written is in the database, in memory and, if Redis takes it, in Redis |
| MultiTierCache.StaleReadAfterLostWrite | db/multi_tier_cache.py:207-273 | after a lost Redis write and expiry in memory, a read gives the old value |
| MultiTierCache.TiersStayCoherent | db/multi_tier_cache.py:207-290 | coherence over every run of reads, writes, invalidations, expiry, lost keys and failing reads that do not overlap; the database holds what was written |
| InterleavedTiers.ReadInParts | db/multi_tier_cache.py:207-254 | a read is its look at the caches, the database's value, and its write to the caches |
| InterleavedTiers.WriteInParts | db/multi_tier_cache.py:256-273 | a write is the database's part and its write to the caches |
| InterleavedTiers.InterleavedRunsAreCoherentExactly | db/multi_tier_cache.py:207-290 | over every run of overlapping calls: the caches agree with the database on all keys without a write under way, at every moment, if and only if no call writes a value to the caches that was overwritten while it waited, unless another write of the key is still to come |
| InterleavedTiers.GapDecides | db/multi_tier_cache.py:238-245 | one read around whole calls leaves everything coherent if and only if the database still holds what it read |
| InterleavedTiers.ReadAcrossWriteIsStale | db/multi_tier_cache.py:238-273 | a read around a write leaves the old value in memory and Redis, and the next read returns it |
| UserConfigStorage.UserConfigStorage.MemoryCacheGet | db/userconfig_storage.py:57-82 | the first read creates the cache; hit, miss, expiry |
| UserConfigStorage.UserConfigStorage.MemoryCacheSet | db/userconfig_storage.py:84-103 | plain assignment, then eviction from the front |
| UserConfigStorage.UserConfigStorage.MemoryCacheInvalidate | db/userconfig_storage.py:105-115 | the key is gone; says whether it was there |
| UserConfigStorage.UserConfigStorage.GetConfig | db/userconfig_storage.py:148-182 | what Redis or the database gives is put into memory |
| UserConfigStorage.UserConfigStorage.UpdateConfig | db/userconfig_storage.py:283-305 | the key is invalidated before it is set |
| UserConfigStorage.PlainSetKeepsRecency | db/userconfig_storage.py:95-103 | plain assignment keeps the order of last use if and only if the key is absent or already last |
| UserConfigStorage.SequentialRunsAreLru | db/userconfig_storage.py:57-182 | in every sequential run the plain dictionary equals the order-keeping cache of the run's history |
| UserConfigStorage.FreshStorageIsLru | db/userconfig_storage.py:57-182 | so its order is the order of last use, its size is bounded, and eviction removes the least recently used key |
| UserConfigStorage.MemoryReadsExactly | db/userconfig_storage.py:57-103 | over every sequential run at a clock that never goes back: memory answers if and only if the key was put there and not invalidated since, its lifetime is not over, and it was not evicted since |
| UserConfigStorage.ReadGives | db/userconfig_storage.py:148-182 | a read gives the memory hit, else what Redis has, else what the database has, and that is in memory afterwards |
| UserConfigStorage.UpdateIsHeld | db/userconfig_storage.py:283-305 | an update that goes through is in memory for five minutes, if there is a memory; one that fails changes nothing |
| UserConfigStorage.SetIsHeld | db/userconfig_storage.py:84-103 | what is set is in memory for the given lifetime, or for five minutes when none or zero is given |
| WorkflowCache.WorkflowCache.GetWorkflow | graph/cache.py:107-123 | hit, miss and expiry |
| WorkflowCache.WorkflowCache.SetWorkflow | graph/cache.py:125-136 | at capacity an entry is evicted first, even if the key is present |
| WorkflowCache.WorkflowCache.GetOrCreate | graph/cache.py:138-153 | a hit, or the built workflow stored |
| WorkflowCache.WorkflowCache.Invalidate | graph/cache.py:155-162 | the key is gone; says whether it was there |
| WorkflowCache.WorkflowCache.Clear | graph/cache.py:164-168 | empty |
| WorkflowCache.WorkflowCache.Evict | graph/cache.py:170-179 | the entry accessed longest ago is removed |
| WorkflowCache.WorkflowCache.PeriodicCleanup | graph/cache.py:181-194 | the expired keys are removed |
| WorkflowCache.LruKey | graph/cache.py:176 | the key chosen is in the cache, and none was accessed earlier |
| WorkflowCache.SetRemovesExactly | graph/cache.py:125-136 | a set removes another key if and only if the cache is full and that key was accessed longest ago |
| WorkflowCache.RenewalDropsAnother | graph/cache.py:125-136 | renewing an entry of a full cache drops another one |
| WorkflowCache.StepKeeps | graph/cache.py:107-194 | every operation keeps: size bound, agreement with the unbounded map, evicted entries last accessed no later than resident ones |
| WorkflowCache.ApplyAll | graph/cache.py:107-194 | so does every run at a clock that never goes back |
| WorkflowCache.HitsAreIdealHits | graph/cache.py:107-179 | in every run each hit is a hit of the unbounded map with lifetimes |
| WorkflowCache.ReadsExactly | graph/cache.py:107-179 | in every run a read hits if and only if the unbounded map has the key, its lifetime is not over and it was not evicted since it was set |
| ComposerService.ComposerService.ComposeWorkflow | graph/service.py:55-151 | lookup, build and store, for caching switched on and off |
| ComposerService.ComposerService.CacheFor | graph/service.py:107-126 | a user's cache is created once and shared with no other user |
| ComposerService.ComposerService.LookupWorkflow | graph/service.py:107-126 | only that user's cache changes |
| ComposerService.ComposerService.StoreWorkflow | graph/service.py:135-137 | the workflow is stored under its key with the lifetime |
| ComposerService.ComposerService.InvalidateWorkflow | graph/service.py:171-194 | the entry is removed if there is one, and the result says so |
| ComposerService.ComposerService.Shutdown | graph/service.py:196-206 | every cache is emptied and forgotten |
| ComposerService.ComposeReuses | graph/service.py:100-137 | a second composition within the lifetime returns the first workflow and builds nothing |
| ComposerService.UncachedBuilds | graph/service.py:107-151 | with caching off the workflow is built and no cache changes |
| ComposerService.BuildsExactlyWhen | graph/service.py:100-151 | with caching on a workflow is built if and only if there is no entry for the key or its lifetime is over; it is stored for 300 seconds, and no other user's cache changes |
| ComposerService.InvalidateForcesRebuild | graph/service.py:100-194 | after an invalidation the next composition builds, whatever happens in between, unless one in flight stores under the same key |
| ComposerService.InFlightStoreSurvivesInvalidation | graph/service.py:100-194 | such a store is returned later |
| ComposerService.KeysCollideExactlyWhen | graph/service.py:153-169 | two compositions of a user, with or without a session, share a key if and only if session and model are the same, or the longer id is the shorter one (and an underscore, if there is a shorter one) and the start of the other model |
| ComposerService.NoSessionSharesKey | graph/service.py:100-105 | without a session and with model m, the key is that of session m without a model |
| ContextTrim.TrimMessagesToContext | agents/base.py:574-667 | the loop drops from the front what the specification drops, or nothing when a count is missing |
| ContextTrim.CutIsLongest | agents/base.py:652-667 | no earlier cut fits the budget, and the cut fits unless only the last message is left |
| ContextTrim.LongestFittingSuffix | agents/base.py:590-667 | with all counts available the result is the longest fitting suffix, or the last message alone |
| ContextTrim.TrimInNumbers | agents/base.py:590-667 | the same in the numbers themselves: ten times system, tools and messages against nine times the context |
| ContextTrim.NothingDropped | agents/base.py:574-650 | nothing is dropped when the context size, the runner or a count is not available |
| ContextTrim.TrimIsIdempotent | agents/base.py:590-667 | trimming again changes nothing |
| RetryLoop.AinvokeOrAbort | agents/base.py:75-124 | with a predicate, the task is finished or cancelled on every exit, and an answer is given only by a finished task |
| RetryLoop.EndsBeforeDisconnect | agents/base.py:103-119 | an ending is given exactly when it comes before any disconnect is seen |
| RetryLoop.RunWithRetries | agents/base.py:775-814 | the actions and the outcome are those of the specification, for any limit |
| RetryLoop.NothingAfterDisconnect | agents/base.py:775-814 | nothing is dispatched or slept once a disconnect is seen, by a check or by polling inside an invocation |
| RetryLoop.DispatchesAreBounded | agents/base.py:775-814 | at most `max_attempts` dispatches, each after a check that saw no disconnect |
| RetryLoop.PausesAreBackoffs | agents/base.py:796-811 | every pause follows a transient failure and has its backoff |
| RetryLoop.LastDispatchDecides | agents/base.py:775-814 | the outcome is that of the last dispatch; a transient error surfaces only on the last attempt |
| RetryLoop.RetriedExactlyWhen | agents/base.py:763-814 | after an attempt the loop goes on if and only if it failed with status 502, 503 or 504, attempts are left, and no disconnect is seen |
| RetryLoop.BackoffIs | agents/base.py:796-811 | the pauses are 2, 4, 8, 16, 32 and then 60 seconds |
| RetryLoop.ResultIs | agents/base.py:775-814 | what the last attempt gives is what the caller gets |
| RetryLoop.PlainEnding | agents/base.py:75-124 | without a predicate the call gives the ending of the task |
| RetryLoop.AllAttemptsFail | agents/base.py:775-814 | a run fails transiently if and only if every attempt did and nobody left |
| RetryLoop.TotalBackoff | agents/base.py:775-814 | n >= 6 transient failures sleep 62 + 60 (n - 6) seconds |
| EmbeddingReduction.ReduceVector | db/memory_storage.py:673-686 | the bucket averages, of unit length unless negligible |
| EmbeddingReduction.NormalizeVector | db/memory_storage.py:688-694 | unit length, same direction; negligible vectors unchanged |
| EmbeddingReduction.ProcessEmbedding | db/memory_storage.py:652-671 | always 768 entries; short vectors are kept as a prefix with their length unchanged |
| EmbeddingReduction.BucketsPartition | db/memory_storage.py:675-680 | the buckets are contiguous and cover every source index exactly once |
| EmbeddingReduction.FallbackUnreachable | db/memory_storage.py:675-683 | no bucket is empty if and only if the source is not shorter than the target |
| EmbeddingReduction.AveragesKeepTotal | db/memory_storage.py:675-685 | the averages weighted with their bucket sizes add up to the total of the source |
| EmbeddingReduction.BucketTotal | db/memory_storage.py:675-685 | each average times the size of its bucket is the sum of the entries between its bounds |
| MemoryGrouping.SearchSimilarity | db/memory_storage.py:571-646 | the memories of each embedding's rows, in order |
| MemoryGrouping.GroupRows | db/memory_storage.py:590-644 | the loop appends the memories of the rows to those found before |
| MemoryGrouping.TakeKeeps | db/memory_storage.py:590-640 | every row keeps: memories of one or two fragments, an open memory is one user message; the row is taken unless nothing is open for it |
| MemoryGrouping.FragmentIs | db/memory_storage.py:612-614 | a fragment has the id, the role and the content of its row |
| MemoryGrouping.GroupingKeepsOrder | db/memory_storage.py:590-644 | the fragments in order are exactly the rows not dropped, in order |
| MemoryGrouping.WellFormedResultsAreLossless | db/memory_storage.py:590-644 | summaries and question-answer pairs give one memory each with exactly their fragments; loose rows give nothing |

## Left out

- The regular-expression engine: each expression is a list of pieces matched without backtracking (`MatcherIsExact` shows that another engine would find the same text at the same place); the lazy parts between tags are searches for the first end; `$` before a final newline is irrelevant, since the text is stripped.
- JSON: `json.loads` and `json.dumps` are parameters, and JSON numbers are not looked into. Braces inside JSON strings count, as in the code, so no block is claimed to be well-formed JSON.
- Validation by pydantic, except that a call name that is not a string raises, and that the final finish reason must be an allowed one.
- Think-tag helpers, `parse_content` and structured output: they only pass text or a value through.
- Logging, the raw-token writer, timestamps and durations, statistics other than hit and miss counts, and the last-access field of the in-memory configuration entries, which nothing reads.
- A tool result updates a call object that earlier responses may still refer to; responses here hold values, so that later change is not visible in them.
- What the event framework, the runner probe after a 404 and the error classes do: the events, the way the source ends and the class of an error are input.
- Threads and locks: an operation under a lock is one step at a clock reading, and the background cleanup is one more step. Calls of the multi-tier cache overlap in `InterleavedTiers`; those of the second configuration store do not.
- The event loop of asyncio: when a task ends, what the liveness predicate answers at each poll and how long a sleep takes are input; a sleep is recorded with its length.
- Coherence of the second configuration store with its database, which keeps a form with defaults filled in; Redis and database answers are input there.
- The list caches, the key hash of `get_cache_key`, the session context (an input of the key), how workflows are built, and the configuration's own truth value.
- Assembly of error messages after a failed agent run, and streaming by the agent itself.
- Floating-point rounding: numbers are exact, the context budget of 90 percent included; square roots are an input that is characterised by its square.
- How the workflow framework merges the states that nodes return, beyond the `operator.add` that the state declares for server tool events.
- The SQL query and its `LIMIT`; embeddings that are empty have no rows.
