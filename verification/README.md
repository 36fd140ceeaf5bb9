# jetbrainsai2api: a verified model of its stateful core

The program is a gateway: it takes OpenAI and Anthropic chat requests, converts them, sends them upstream under one
of several pooled accounts, and translates the upstream event stream back. This project models the parts of it that
carry state or recursion and proves what they guarantee. Every clock reading is an argument, every upstream outcome
and readiness check is an input, and whatever Go leaves open (map iteration order, scheduling) is left open here too.

| file | models | main results |
|---|---|---|
| `LruSpec`, `LruTheorems`, `LruCache` | the LRU cache with expiry, as a linked list with a map | refinement of a sequence, the stack property, freshness against an unbounded map, slots held by live entries alone, working-set retention with a sharp bound |
| `Converter`, `ConverterLaws`, `Processor` | message conversion with pooled converters, and request processing over the cache | a cache hit is what a fresh conversion would give; what each message becomes, role by role; tool results are named by the last call with their id |
| `AccountPool`, `AccountProgress`, `AccountOutcomes` | the account pool under any interleaving of requests | exclusive leases, conservation, first in first out, no dropped release, bounded and disciplined retries; no deadlock, bounded work, every account comes back and every request can still succeed |
| `AccountQueue`, `AccountManager` | the acquire and retry loops without interference | which account is taken, by what each one met; the exact rotation of the queue and the flags left; fairness over many requests; at most min(N, 3) sends with a fetch in between |
| `AnthropicProtocol`, `AnthropicLaws`, `AnthropicStream` | the Anthropic stream writer | the trace grammar, the client's round trip, what each event does to the client's blocks, prefixes on write errors |
| `AnthropicParsed`, `AnthropicBody` | the non-streaming Anthropic parser | exactly when it answers what the stream answers: calls, inputs and stop reason, from the lines of the body |
| `OpenAIProtocol`, `OpenAICalls`, `OpenAIChunks`, `OpenAIStream` | the streaming and the non-streaming OpenAI handlers | the calls and the finish reason read off the events, the exact chunks and their shape, the client's round trip, exactly when the two handlers build the same message |
| `StreamLines`, `Text` | the line filter before the translators, and trimming | framing round trip; what a callback is handed, with cancellation and read errors |
| `SchemaNames`, `ToolSchema`, `ToolTransform` | the tool-schema rewrite | the code refines a relation that holds for every map order |
| `SchemaSoundness`, `SchemaFixpoint`, `SchemaLeaves`, `SchemaLaws` | theorems about the rewrite | soundness at every level, a constant size bound, exactly when a second pass changes something, what each kind of property keeps |
| `RateLimiter` | the per-address limiter and its sweep | answers by position in a session, sessions request by request, the one-minute bound |
| `Metrics`, `MetricsRacing` | counters, batched history, last-minute window | independence of the flush schedule and of restarts; conservation when flushes race |

## What the code does differently from what it says

- Tool-schema rewriting is not idempotent. At nesting depth 6 an object becomes a fixed text, but a property schema
  that is not an object (`true`, a string) becomes `{"type": "string"}`, and a second pass turns that object into the
  fixed text. `SchemaLeaves.RewritingIsNotIdempotent` gives the input, `SchemaLeaves.IdempotentExactlyWhen` the exact
  condition on inputs, `SchemaFixpoint.RewritingAgain` the exact condition on first results, and
  `SchemaFixpoint.TwoPassesAreEnough` shows that the second pass always reaches a fixed point.
- `ProcessQuotaData` (internal/account/api.go:160-193) is documented to mark an account only when tariff and top-up are
  both exhausted. Without a top-up in the data it compares usage with the maximum and ignores the tariff.
  `AccountQueue.MarkedOnlyWhenBothExhausted` gives the exact condition for both directions of the documented rule,
  `AccountQueue.TariffAloneIsIgnored` an input.
- The streaming and the non-streaming OpenAI handlers disagree on argument text that follows an id without a name, and
  on function calls whose naming event carries arguments, and may disagree when both kinds are mixed. The exact
  conditions are `AgreeOnToolCalls` and `AgreeOnFunctionCalls` on streams of one kind and `AgreeAtEveryCut` on all;
  `StrayArgsDiffer`, `NamingArgsDiffer` and `MixedStreamsMayDiffer` are inputs.
- Parsed without streaming, an Anthropic answer loses a tool call that another one follows before a FinishMetadata,
  never infers the stop reason tool_use, starts over at end_turn on a blank reason, wraps arguments that are no object,
  leaves out an empty input, and reads on after an end marker. `AnthropicParsed` gives the exact conditions for the calls,
  the inputs and the stop reasons to agree, `AnthropicBody` those for whole bodies; `ParallelCallsAreLost`,
  `BlankReasonResets`, `EmptyInputIsLeftOut` and `ParserReadsBeyondTheEnd` are inputs.
- A history longer than its limit is trimmed only when something is recorded (`Metrics.HistoryIsTail`).

## Reading the model

Classes hold the fields the Go structs hold, and their methods change them as the source does. Ghost fields
(`history` in the cache, `trace` in the limiter, `recorded` in the metrics) list the calls made so far, so a method's
contract can speak about whole runs. Loops over Go maps pick the next key freely. JSON values are a datatype; a Go
slice without elements reads back from JSON as `null`. Strings are sequences of Unicode characters; where the source
counts bytes (parameter names) only ASCII characters are kept, so the counts agree. In schemas, `properties` is the
keyword of section 10.3.2.1 of JSON Schema Core 2020-12 and `required` that of section 6.5.3 of JSON Schema Validation
2020-12.

## Model

| member | source | states |
|---|---|---|
| LruCache.LruCache.Set | internal/cache/cache.go:76-99 | the linked list and the map stay consistent and refine the abstract step: a new or refreshed entry in front, the least recently used one gone when a new key does not fit |
| LruCache.LruCache.Get | internal/cache/cache.go:102-119 | answers and reorders like the abstract cache; on a miss the key holds no entry afterwards, an expired one included; a hit returns the value of the latest Set of the key with no Delete or Clear since |
| LruCache.LruCache.Delete | internal/cache/cache.go:141-148 | exactly that key is gone; the representation stays consistent |
| LruCache.LruCache.Clear | internal/cache/cache.go:173-180 | both sentinels point at each other again and the abstract cache is empty |
| LruCache.LruCache.CleanupExpired | internal/cache/cache.go:159-170 | for every map order, exactly the entries expired at the one clock reading are gone, the others keep their order |
| LruCache.LruCache.AddToFront | internal/cache/cache.go:121-126 | relinking four pointers puts the node right after the head; prev and next stay inverse along the chain |
| LruCache.LruCache.Remove | internal/cache/cache.go:133-138 | unlinking takes exactly one node out of the chain and leaves the rest linked in order |
| LruCache.LruCache.MoveToFront | internal/cache/cache.go:128-131 | the node moves to the front and the others keep their order |
| LruCache.LruCache.EvictLast | internal/cache/cache.go:150-157 | the node before the tail sentinel goes, which is the least recently used entry |
| LruCache.LruCache.Insert | internal/cache/cache.go:87-94 | a new key gets a new node in front, indexed under its key |
| LruCache.LruCache.Refresh | internal/cache/cache.go:80-85 | a known key keeps its node, with new value and expiration, in front |
| LruSpec.StepOk | internal/cache/cache.go:76-180 | distinct keys and the capacity bound are kept by every operation |
| LruSpec.StepLookup | internal/cache/cache.go:76-180 | what a key holds after a step is what a Set of it stored or what it held before; nothing else appears |
| LruTheorems.IncludedStep | internal/cache/cache.go:76-180 | one step keeps a small cache a subsequence of a larger one with a bounded size gap |
| LruTheorems.LruInclusion | internal/cache/cache.go:76-180 | the stack property: after the same calls a larger cache holds every key of a smaller one in the same order and answers its hits alike |
| LruTheorems.HitIsFresh | internal/cache/cache.go:76-119 | in every run, at any capacity, a hit is the answer of an unbounded map with expiry |
| LruTheorems.LargeEnoughCacheIsExact | internal/cache/cache.go:76-180 | with room for every key set and a monotone clock the cache answers exactly like the unbounded map, misses included |
| LruSpec.GetKeepsOthers | internal/cache/cache.go:102-131 | a hit puts its entry in front, and every Get leaves the other entries as they were, in order |
| LruSpec.MissedKeyIsGone | internal/cache/cache.go:102-119 | a Get that misses leaves no entry under its key, whether there was none or it had expired |
| LruTheorems.MissedKeyHoldsNoSlot | internal/cache/cache.go:102-119 | over every run: a key whose last lookup missed, and that was not set since, holds no slot |
| LruTheorems.OnlyLiveEntriesHoldSlots | internal/cache/cache.go:76-180 | over every run, at any capacity: an entry in the cache was set, and since then neither deleted nor found expired by a lookup or a sweep |
| LruTheorems.LargeEnoughCacheHoldsAllLive | internal/cache/cache.go:76-180 | with room for every key set the cache holds exactly those entries, whatever the clock readings |
| LruTheorems.WorkingSetRetained | internal/cache/cache.go:76-138 | the most recently used entry survives every run that sets or hits fewer than capacity distinct other keys and neither deletes it nor finds it expired; lookups that miss, whatever their number, do not count |
| LruTheorems.WorkingSetBoundIsSharp | internal/cache/cache.go:76-157 | over every run of Sets, hits and misses of other keys it survives if and only if fewer than capacity distinct ones are set or hit |
| Converter.MessageConverter.BuildToolIdMap | internal/convert/openai.go:52-62 | the id map after the first pass, for every conversation |
| Converter.MessageConverter.Convert | internal/convert/openai.go:41-50 | two passes give the messages converted one by one under the names of the whole conversation; `ConverterLaws` says what each one becomes |
| Converter.NamesAreLastCalls | internal/convert/openai.go:52-62 | the map built forward holds, for each id, the name found by searching the conversation backward for the last named call |
| Converter.ToolMessageIsNamed | internal/convert/openai.go:200-214 | a tool message becomes one result in its place, named by the last call with its id anywhere in the conversation, else unknown_tool |
| Converter.ConvertAllAppend | internal/convert/openai.go:41-50 | under fixed names conversion is compositional and keeps order |
| Converter.EarlierMessagesStay | internal/convert/openai.go:41-62 | the conversion of the earlier messages is a prefix of that of the whole conversation if and only if the later ones call no tool, under an id already answered, by another name than that answer carries |
| ConverterLaws.EveryMessageInPlace | internal/convert/openai.go:41-50 | every message of a conversation is converted in its place, under the names of the whole conversation |
| ConverterLaws.CallsGoInOrder | internal/convert/openai.go:157-198 | an assistant message becomes exactly its text, left out if empty beside calls, and then one message for each call, in order, under the call's own id and name and with its arguments cleaned |
| ConverterLaws.ResultsMatchCalls | internal/convert/openai.go:52-62 | a tool result whose id some named call carries is sent with a call of the same id and name in the same conversation; any other is sent under the fallback name |
| ConverterLaws.ImageGoesFirst | internal/convert/openai.go:79-120 | the first image of a user message goes ahead of its text, which is left out if empty; an image not accepted leaves the text alone; later images do not count |
| ConverterLaws.TextsGoOneByOne | internal/convert/openai.go:122-147 | without an image each text part that is not empty becomes one message, in order |
| ConverterLaws.TextMessageIsOne | internal/convert/openai.go:64-77 | a message without parts, of the system, or of an unknown role becomes one message with its text |
| ConverterLaws.TextOfParts | internal/util/util.go:86-108 | the text of a content: a plain text itself; of parts, all the text parts in order, joined by single blanks |
| ConverterLaws.DataUrlReadsBack | internal/validate/image.go:69-79 | a data URL reads back its media type and its payload, with or without parameters between them |
| Converter.ConverterPool.Take | internal/convert/openai.go:20-32 | a converter handed out, pooled or new, has an empty id map and is in no one else's hands |
| Converter.ConverterPool.OpenAIToJetbrainsMessages | internal/convert/openai.go:31-38 | a pooled converter gives what a fresh one would, and goes back with an empty map |
| Converter.Before | internal/validate/image.go:56-85 | the split at the first separator: everything before it, with no separator in it, or none at all |
| Processor.HitsAreHonest | internal/process/processor.go:46-69 | over every run of the cache, at any capacity and interleaving, a hit is what the request with that key would compute |
| Processor.MessagesAreHonest | internal/process/processor.go:61-63 | among requests whose digests do not collide, what a message miss stores can be mistaken for nothing else, tool entries included |
| Processor.ToolsAreHonest | internal/process/processor.go:105-115 | the same for a tools miss, whichever result validation produced |
| Processor.CollisionIsServed | internal/process/processor.go:46-69 | and when two requests do collide, the answer stored for the one is given to the other |
| Processor.RequestProcessor.ProcessMessages | internal/process/processor.go:46-69 | as long as no two requests asked collide, on hit or miss the result is a fresh conversion; the cache sees one Get and, on a miss only, one Set with the ten-minute lifetime |
| Processor.RequestProcessor.ProcessTools | internal/process/processor.go:79-126 | as long as no two requests asked collide, on hit or miss the data sent upstream is that of a possible validation of these very tools, or a marshalling error; the cache sees one Get and, on a miss only, one Set of the validation with the half-hour lifetime; no tools touch no cache |
| Processor.ToolsReachUpstream | internal/process/processor.go:79-160 | what is sent reads back as one definition for every tool with a valid name, in order, with its own name and description and a possible rewrite of its parameters; nothing is sent if there is none |
| AccountPool.StepConserves | internal/account/manager.go:89-138 | every step of every request keeps each account in the channel once or leased to one request, never both |
| AccountPool.RoomForRelease | internal/account/manager.go:181-191 | while some account is leased the channel has room, so the dropping branch is unreachable |
| AccountPool.LeasesAddUp | internal/account/manager.go:60-62 | channel length and leases add up to the number of accounts |
| AccountPool.PoolIsSafe | internal/account/manager.go:60-138 | all of this after any schedule of any number of requests, with no release ever dropped |
| AccountPool.FlagChangesUnderLease | internal/account/api.go:18-32 | only the request holding an account changes its quota flag, and only a fresh fetch sets it |
| AccountPool.RetriesAreDisciplined | internal/server/helpers.go:128-157 | after any schedule: at most min(N, 3) sends, at most 2N receives per acquire, exclusive lease and quota while sending, and a fetch in between before an account is used again after 477 |
| AccountProgress.NoDeadlock | internal/account/manager.go:69-138 | whenever a request is unfinished, some request can step without a cancellation or a time-out: one that finds the channel empty waits for an account whose holder can move |
| AccountProgress.WorkIsBounded | internal/server/helpers.go:128-157 | under any schedule a request takes at most min(n, 3) * (6n + 2) + 2 steps, its start included |
| AccountProgress.AllCanFinish | internal/server/helpers.go:128-157 | from every state a run can reach, steps without cancellations or time-outs bring every request to its end |
| AccountProgress.EveryAccountComesBack | internal/account/manager.go:60-191 | and then the channel holds every account again |
| AccountOutcomes.ProbeDecides | internal/account/manager.go:140-178 | a check decides by what it met: an error puts the account back, a fresh fetch overrides the flag and decides alone, quota data from the cache leaves the decision to the flag |
| AccountOutcomes.ExhaustedTriesAgain | internal/server/helpers.go:147-154 | after 477 the account goes to the back of the channel with its flag cleared, and the request is at its next attempt |
| AccountOutcomes.NextAttemptStarts | internal/server/helpers.go:129-137 | between attempts the next one starts exactly while fewer than n and fewer than 3 were made |
| AccountOutcomes.AnsweredCompletes | internal/server/helpers.go:144-149 | after any other answer the request completes with its account at the back of the channel and its flag as it was |
| AccountOutcomes.ServedExactlyWhenAnswered | internal/server/helpers.go:128-157 | after any schedule a request has its response or has completed if and only if it was answered on the way |
| AccountOutcomes.FailsOnlyAfterAllRetries | internal/server/helpers.go:128-157 | whatever other requests do, one for which nothing goes wrong but 477 fails only after sending min(n, 3) times |
| AccountOutcomes.EveryRequestCanSucceed | internal/server/helpers.go:128-157 | from every state a run can reach, a request with an attempt left can still be answered and complete, without cancellations or time-outs |
| AccountOutcomes.FirstInFirstOut | internal/account/manager.go:60-191 | over every run: what the channel held and what came back, in order, is what was leased, in order, and what it holds in the end |
| AccountQueue.MarkedOnlyWhenBothExhausted | internal/account/api.go:160-193 | over all quota data: an account is marked only when tariff and top-up are both exhausted if and only if there is a top-up, the tariff is exhausted or the maximum is not reached; and the exact condition for the converse |
| AccountQueue.TariffAloneIsIgnored | internal/account/api.go:163-193 | an input without a top-up that marks an account with tariff left |
| AccountQueue.FlagsOnlyByFetch | internal/account/api.go:196-272 | a run of probes changes the flag of no account whose quota data came from the cache or failed |
| AccountQueue.FlagsAreFetched | internal/account/api.go:160-272 | after any probes the flag of an account is what the fetch of its quota data said, or as it was if there was none |
| AccountQueue.FetchDecides | internal/account/manager.go:109-178 | the first account fetched after others that were turned away is taken if and only if that fetch says it has quota left, whatever its flag was |
| AccountQueue.FirstReadyIsUsable | internal/account/manager.go:109-178 | the account taken was fetched with quota left or has its flag by the cache, and none of those before it was |
| AccountManager.PooledAccountManager.ReleaseLease | internal/account/manager.go:181-191 | giving back a leased account always finds room |
| AccountQueue.MarkedUntilFetched | internal/account/api.go:18-32 | an account marked as having no quota passes no later check until its quota data is fetched afresh, and marking it changes the flag of no other account |
| AccountManager.PooledAccountManager.TryAcquireOnce | internal/account/manager.go:89-138 | all outcomes of one receive: cancelled, timed out, tried before, rejected to the back, or kept; a fetched account is kept if and only if the fetch says it has quota left, which becomes its flag |
| AccountManager.PooledAccountManager.AcquireStep | internal/account/manager.go:75-84 | after k receives in vain the queue is the k-fold rotation and the tried accounts are the first k |
| AccountManager.PooledAccountManager.AcquireAccount | internal/account/manager.go:69-87 | of the accounts received the one acquired is the one whose fetch says it has quota left, or whose flag does where the data came from the cache; errors never; the flags left are those fetched; FIFO order with the rejected ones behind, in order, else an exact rotation after the exact number of receives, every account tried, the identical queue when all were there |
| AccountManager.PooledAccountManager.AcquireLease | internal/account/manager.go:69-87 | one account leased that passed the check and nothing else lost, or nothing leased and none ready before the cancellation |
| AccountManager.Server.SendOnce | internal/server/helpers.go:131-154 | the account is kept exactly when the upstream answered anything but 477, which clears the flag; otherwise the pool is as before |
| AccountManager.Server.SendWithRetry | internal/server/helpers.go:128-157 | the whole trace: each attempt went through the queue it found up to the first account that was ready; none is sent with against a fetch of its own attempt; the final flags are those probes folded, cleared after a 477, and the final queue those rotations; exactly the 477 answers lead to another attempt, at most min(N, 3), and it is refused only for a cancellation, no ready account, a transport error or 477 every time; one lease on success and none on failure; an account is sent with again only after an attempt in between fetched its quota data afresh |
| AccountManager.FlagAfterLastFetch | internal/server/helpers.go:128-157 | the flag a request leaves on an account it fetched: what the last fetch said, unless it was answered with 477 then or later |
| AccountManager.FlagIfNeverFetched | internal/server/helpers.go:128-157 | and on one it never fetched: as it was, unless it was answered with 477 |
| AccountManager.SentOnlyAsFetched | internal/account/manager.go:109-178 | no attempt sends with an account whose check met an error, or whose fetch in that attempt left no quota |
| AccountQueue.RotatedParts | internal/account/manager.go:95-138 | up to one turn, rotating moves the front part to the back in order |
| AccountManager.PooledAccountManager.UseRounds | internal/account/manager.go:69-191 | the accounts that k rounds of acquire and release use, in order, and the k-fold rotation they leave |
| AccountManager.PooledAccountManager.UseFairly | internal/account/manager.go:69-191 | k requests one after the other, each acquiring and giving back, use each of the n ready accounts floor(k/n) or ceil(k/n) times |
| AnthropicProtocol.TraceWellFormed | internal/server/response_anthropic.go:196-326 | every answer follows the grammar: message_start, blocks of start, deltas, stop with one open at a time, message_delta, message_stop; every prefix is one of such a trace |
| AnthropicProtocol.BlockIndicesHaveNoGaps | internal/server/response_anthropic.go:53-106 | block starts of a well-formed trace carry 0, 1, 2, and so on |
| AnthropicProtocol.ClientRebuildsMessage | internal/server/response_anthropic.go:108-291 | a client folding the trace gets all the text and one tool per start event in order, with id, name and trimmed arguments or {} |
| AnthropicProtocol.StopReasonWithoutUpstreamReason | internal/server/response_anthropic.go:306-313 | without an upstream reason, tool_use if and only if a tool call was started |
| AnthropicLaws.TextArrives | internal/server/response_anthropic.go:217-244 | one more text joins the last block of the client if that is a text block, and else begins the next |
| AnthropicLaws.ToolArrives | internal/server/response_anthropic.go:246-258 | a named id begins a tool block behind all others, and the argument text up to the next text, finish or start is its input, trimmed, {} if blank |
| AnthropicLaws.ArgumentsArrive | internal/server/response_anthropic.go:246-258 | that is all argument text that comes without an id, in order |
| AnthropicLaws.FlushesKeepBlocks | internal/server/response_anthropic.go:217-270 | empty texts and finish events change no block |
| AnthropicLaws.NothingPending | internal/server/response_anthropic.go:246-258 | with no tool call pending, argument text and ids without a name change nothing |
| AnthropicLaws.StopReasonIs | internal/convert/jetbrains.go:160-171 | the stop reason is that of the last finish event with a reason: tool_use for tool_call, max_tokens for length, else end_turn |
| AnthropicLaws.StopReasonInferred | internal/server/response_anthropic.go:306-313 | without one it is tool_use or end_turn, by whether a tool call was started |
| AnthropicStream.AnthropicStreamWriter.WriteEvent | internal/server/response_anthropic.go:42-51 | one event more in two writes; a write error leaves nothing of the event or its name line only |
| AnthropicStream.AnthropicStreamWriter.StartTextBlock | internal/server/response_anthropic.go:53-65 | opens a text block under the next index unless one is open |
| AnthropicStream.AnthropicStreamWriter.CloseTextBlock | internal/server/response_anthropic.go:67-77 | closes the open text block, if any |
| AnthropicStream.AnthropicStreamWriter.StartToolBlock | internal/server/response_anthropic.go:79-106 | sends the start of a named pending tool once, under the index it was given earlier |
| AnthropicStream.AnthropicStreamWriter.SendToolInputDelta | internal/server/response_anthropic.go:108-133 | one delta with the trimmed arguments, {} if blank |
| AnthropicStream.AnthropicStreamWriter.StopToolBlock | internal/server/response_anthropic.go:135-153 | stops a started tool once |
| AnthropicStream.AnthropicStreamWriter.FlushCurrentTool | internal/server/response_anthropic.go:155-173 | sends exactly the pending tool's three events, after closing a text block, and nothing when none is pending |
| AnthropicStream.AnthropicStreamWriter.HandleContent | internal/server/response_anthropic.go:217-244 | a text event keeps the sum of what is sent and what is owed, the owed stop reason, and whether any block is owed |
| AnthropicStream.AnthropicStreamWriter.HandleToolCall | internal/server/response_anthropic.go:246-258 | a tool event keeps the same sums, whether it starts a call, continues one or carries no name |
| AnthropicStream.AnthropicStreamWriter.HandleFinish | internal/server/response_anthropic.go:260-270 | a finish event keeps them too, flushing the pending tool |
| AnthropicStream.AnthropicStreamWriter.HandleEvent | internal/server/response_anthropic.go:214-273 | so does every event |
| AnthropicStream.AnthropicStreamWriter.Finish | internal/server/response_anthropic.go:287-326 | the epilogue sends all that is owed, then the stop reason and message_stop, or stops at a write error |
| AnthropicStream.HandleStream | internal/server/response_anthropic.go:196-335 | for every event sequence and every number of writes the connection takes, the output is the declarative answer or its prefix, with at most the name line of the next event after it; success if and only if the whole answer was sent and has a block |
| AnthropicStream.HandleStreamBody | internal/server/response_anthropic.go:196-335 | the same from the lines of the upstream body: the answer to the events before a cancellation, a read error or an end marker, finished and counted as a success whatever ended them |
| AnthropicParsed.ParseStream | internal/convert/jetbrains.go:57-137 | the loop finds all the text, the calls that a FinishMetadata follows before the next start, each with its fragments up to there, and the last reason that is a string, blank or not |
| AnthropicParsed.ParserAgreesExactlyWhen | internal/convert/jetbrains.go:84-124 | it finds the calls of the stream, with the same argument text, if and only if each call is followed by a FinishMetadata before the next starts and no argument text follows a Content in between |
| AnthropicParsed.ReasonsAgreeExactlyWhen | internal/convert/jetbrains.go:107-111 | for every event sequence the stop reasons are equal if and only if: without a proper upstream reason no tool call was started; with one, no blank reason came after it or it means end_turn |
| AnthropicParsed.InputsAgreeExactlyWhen | internal/convert/jetbrains.go:113-121 | on calls that come one at a time the inputs the two clients get are equal if and only if every call came with text that is an object with entries |
| AnthropicParsed.EmptyInputIsLeftOut | internal/core/types_anthropic.go:17-23 | an input: a call without arguments reads {} from the stream and has no input in the other answer |
| AnthropicParsed.AnswersAgreeExactlyWhen | internal/convert/jetbrains.go:57-152 | on such events the client of the stream and the client of the parser have the same text, calls, inputs and stop reason if and only if both conditions hold |
| AnthropicParsed.AgreeingAnswersLoseNothing | internal/convert/jetbrains.go:84-137 | on all streams the text is the same, and equal calls mean that every start is followed by a FinishMetadata before the next |
| AnthropicParsed.BlankReasonResets | internal/convert/jetbrains.go:107-111 | an input whose stop reasons differ |
| AnthropicParsed.ParallelCallsAreLost | internal/convert/jetbrains.go:84-92 | two calls started in a row: the stream carries both, the parser finds the second |
| AnthropicLaws.FinishFilesLastCall | internal/convert/jetbrains.go:84-124 | on every stream a finish event files the last call started, with the argument text since; a call started before it and not filed is lost |
| AnthropicLaws.OnlyFinishFiles | internal/convert/jetbrains.go:84-124 | nothing but a finish event files a call |
| AnthropicLaws.FinishFilesOnce | internal/convert/jetbrains.go:84-124 | and none files anything with no start since the last one |
| AnthropicLaws.FragmentsFiled | internal/convert/jetbrains.go:93-104 | the argument text of a filed call is all that came without an id, in order, texts in between or not |
| AnthropicLaws.ParsedReasonIs | internal/convert/jetbrains.go:106-111 | the parser's stop reason is that of the last finish event with a reason, blank ones included, and end_turn without one |
| AnthropicBody.ParseBody | internal/convert/jetbrains.go:57-137 | the parser from the lines of the body: text, calls and reason of all the events it can read, end markers skipped |
| AnthropicBody.BodiesReadAlikeExactlyWhen | internal/convert/jetbrains.go:64-77 | on bodies without white space unknown to JSON around a payload, the parser and the stream read the same events if and only if none follows an end marker |
| AnthropicBody.BodyAnswersAgreeExactlyWhen | internal/convert/jetbrains.go:57-152 | from the lines of such a body to both clients: the answers are the same if and only if what follows the end marker holds no text and no complete call, every call came with an object with entries, and the stop reasons agree |
| AnthropicBody.ParserReadsBeyondTheEnd | internal/convert/jetbrains.go:66-68 | an input: an event after data: end is read by the parser alone |
| OpenAIProtocol.AgreeOnToolCalls | internal/server/response_openai.go:194-464 | without function calls the two handlers build the same message if and only if no argument text follows a nameless id while a call is there |
| OpenAIProtocol.StrayArgsDiffer | internal/server/response_openai.go:252-275 | an input: argument text after an id without a name |
| OpenAIProtocol.AgreeOnNamedIds | internal/server/response_openai.go:252-419 | in particular they build the same message whenever every id comes with a name |
| OpenAIProtocol.AgreeOnFunctionCalls | internal/server/response_openai.go:276-419 | without tool calls they agree, up to generated ids, if and only if no naming event carries arguments |
| OpenAIProtocol.NamingArgsDiffer | internal/server/response_openai.go:276-304 | an input: arguments on the event that names a function |
| OpenAICalls.StreamedCallsAreCallsOf | internal/server/response_openai.go:252-304 | on every stream: one call for each named id and each named function, in order, with all argument text up to the next event that has an id or names a function |
| OpenAICalls.CollectedToolCalls | internal/server/response_openai.go:379-400 | on tool events the other handler collects one call for each named id, with all argument text up to the next of them |
| OpenAICalls.CollectedFunctionCalls | internal/server/response_openai.go:401-419 | on function events one call for each name, under new ids, with that event's own argument text and all up to the next name |
| OpenAICalls.FinishReasonIs | internal/server/response_openai.go:305-460 | both give the reason of the first FinishMetadata, translated, and without one tool_calls or stop by whether there are calls |
| OpenAICalls.TextIsAllContent | internal/server/response_openai.go:214-251 | and both say all the text before it, in order |
| OpenAIProtocol.AgreeOnCoherentStreams | internal/server/response_openai.go:194-464 | one way for the whole stream: when no text is filed apart the two handlers build the same message |
| OpenAIProtocol.ToolStreamsAreCoherent | internal/server/response_openai.go:252-419 | which covers every stream of tool calls on which they agree |
| OpenAIProtocol.FunctionStreamsAreCoherent | internal/server/response_openai.go:276-419 | and every stream of function calls on which they agree |
| OpenAIProtocol.AgreeAtEveryCut | internal/server/response_openai.go:299-419 | over all streams, mixed ones included: the two messages are equal wherever the stream breaks off if and only if no text is filed apart (nameless text finds the same call on both sides, and naming function events carry none) |
| OpenAIProtocol.MixedStreamsMayDiffer | internal/server/response_openai.go:299-419 | an input: function text while a tool call is open |
| OpenAIProtocol.BodyFacts | internal/server/response_openai.go:305-317 | both handlers read exactly the events before the first FinishMetadata |
| OpenAIStream.FinishStream | internal/server/response_openai.go:305-339 | the call being received is completed and the finish reason chosen, at either end of the stream; what has then been sent is exactly the text chunks, the numbered calls and the end |
| OpenAIStream.ReceiveCall | internal/server/response_openai.go:252-304 | one tool or function event moves the handler's variables as the streaming machine moves |
| OpenAIStream.SendContent | internal/server/response_openai.go:218-251 | one more content chunk after those sent before, with the role exactly on the first |
| OpenAIStream.StreamEvents | internal/server/response_openai.go:214-320 | the callback over any events: finished at the first FinishMetadata with exactly the chunks of the stream, or left open with exactly the text chunks and calls read |
| OpenAIStream.HandleStreaming | internal/server/response_openai.go:176-342 | exactly the chunks of the stream, of complete shape and rebuilding to the streamed message, unless reading failed before a finish, which leaves the text chunks; success if and only if reading did not fail |
| OpenAIChunks.PlaceAll | internal/server/response_openai.go:252-258 | calls numbered in arrival order are taken by a client in that order, all of them |
| OpenAIChunks.RenderedIsComplete | internal/server/response_openai.go:134-174 | whatever was said and called: the role on the first payload chunk only, at most one chunk of calls and that the last, its calls numbered 0 to n-1, one finish chunk, one end marker |
| OpenAIChunks.StreamRebuilds | internal/server/response_openai.go:176-342 | a client folding the chunks of any stream gets the text, the calls and the finish reason of the streamed message |
| OpenAIStream.FinalizeTool | internal/server/response_openai.go:194-210 | the current call joins the finished ones under the next index |
| OpenAIStream.HandleNonStreaming | internal/server/response_openai.go:344-480 | the handler's loop computes the message of the collecting machine, whether or not reading ended in an error; success if and only if it did not |
| OpenAIStream.BothHandlers | internal/server/response_openai.go:176-480 | what the client of the one handler rebuilds is the message of the other: the two iffs and the coherent case, on the handlers themselves |
| OpenAIStream.HandleStreamingBody | internal/server/response_openai.go:39-342 | from the lines of the upstream body to the client: the chunks of the events of the lines before the cancellation, rebuilding to the streamed message, unless reading failed before a finish; success if and only if the lines read end before the cancellation and the read error |
| OpenAIStream.HandleNonStreamingBody | internal/server/response_openai.go:39-480 | the same for the non-streaming handler and the message it answers |
| StreamLines.ProcessStream | internal/server/response_openai.go:39-85 | a callback is handed exactly the events of the lines before the request is cancelled, up to an end marker or to the first event after which it asks for no more; the call fails if and only if it was cancelled with a line left to look at, or a read error was met by then |
| StreamLines.FramedLineReadsBack | internal/server/response_openai.go:52-63 | a framed line, whatever white space surrounds it, reads back as its payload if and only if that is trimmed, not empty and not reserved |
| StreamLines.FramedStreamReadsBack | internal/server/response_openai.go:44-74 | framing payloads and closing with an end marker loses and invents nothing; what follows is not read |
| StreamLines.FramedLineMeans | internal/server/response_openai.go:52-63 | what a line with the prefix means by its payload: end marker, nothing for null or blank, else the payload |
| StreamLines.LineByLine | internal/server/response_openai.go:44-74 | one more line gives one more event if it carries a payload that parses, and nothing after an end marker |
| StreamLines.UntilRefused | internal/server/response_openai.go:71-73 | the callback is handed the events in order up to the first after which it asks for no more |
| StreamLines.LinesReadEnds | internal/server/response_openai.go:44-74 | the lines read are those up to the first that ends the loop, or all of them |
| Text.TrimSpaceSplits | internal/server/response_openai.go:52-57 | trimming removes exactly the white space at the ends |
| SchemaNames.RenameIsSound | internal/validate/tools.go:309-334 | renaming always gives a valid name, keeps valid names, and is idempotent |
| SchemaNames.TransformParamName | internal/validate/tools.go:313-334 | the loop keeps the first 64 permitted characters, or param, and the result is valid |
| SchemaLaws.EmittedAs | internal/validate/tools.go:313-334 | a name that is not valid is emitted as its first 64 permitted characters, or as param if there are none |
| SchemaNames.SortedKeysAreSorted | internal/validate/tools.go:105-109 | the keys of a large tool are visited in strictly increasing order, each once |
| SchemaNames.SortKeys | internal/validate/tools.go:105-109 | sorting the collected keys gives that order |
| SchemaLaws.FirstDifferenceDecides | internal/validate/tools.go:105-109 | the order is that of the first place where two keys differ, a key before its continuations |
| SchemaFixpoint.SimplifiedUnionStays | internal/validate/tools.go:192-202 | a union becomes a string that keeps its description and nothing else, and a further pass leaves it alone |
| SchemaFixpoint.ArraySchemaStays | internal/validate/tools.go:240-252 | an array keeps only the type of its items, string by default, and a further pass leaves it alone |
| ToolSchema.CopySimpleProperties | internal/validate/tools.go:254-280 | exactly the supported keywords and formats are copied |
| ToolSchema.ValidateRequiredFields | internal/validate/tools.go:282-307 | the emitted names of required properties that exist, in order |
| ToolTransform.TransformPropertySchema | internal/validate/tools.go:153-190 | for every schema, depth and map order the result is one the specification allows; the recursion ends by depth |
| ToolTransform.TransformObject | internal/validate/tools.go:204-238 | the three cases of an object: no properties, too many, or rewritten properties with required and closed |
| ToolTransform.TransformProperties | internal/validate/tools.go:130-151 | the keys are the renamed keys, and each value the rewrite of some property with that name |
| ToolTransform.SimplifyComplexTool | internal/validate/tools.go:97-128 | data and the first five properties in dictionary order, a later one replacing an earlier one of the same name |
| ToolTransform.TransformParameters | internal/validate/tools.go:60-95 | the top level, including absent parameters |
| ToolTransform.ValidateAndTransformTools | internal/validate/tools.go:19-58 | exactly the tools with valid names, at increasing places of the list that include every such tool, each with rewritten parameters and nothing else changed |
| ToolTransform.PlacesDependOnTools | internal/validate/tools.go:27-51 | those places depend on the tools alone, whatever the map orders |
| SchemaSoundness.CanonicalIsSound | internal/validate/tools.go:153-307 | at every level: no union keyword, arrays with only a type, and objects closed, validly named, with required names that exist |
| SchemaSoundness.OutcomeIsCanonical | internal/validate/tools.go:153-238 | every rewritten property schema, for every input and map order, is in the normal form and within its depth and width |
| SchemaSoundness.BoundedIsSmall | internal/validate/tools.go:157-164 | a schema at depth d is no larger than a full 15-ary tree of the levels left |
| SchemaSoundness.RewrittenParameters | internal/validate/tools.go:60-238 | rewritten parameters are sound at every level and have at most (15^8 - 1)/14 schemas, whatever the input |
| SchemaSoundness.SmallToolKeepsEverything | internal/validate/tools.go:60-95 | up to 15 properties the keys are exactly the renamed keys, and a property is demanded if and only if the input demanded one of that name |
| SchemaSoundness.SmallObjectKeepsEverything | internal/validate/tools.go:204-238 | the same for nested objects |
| SchemaSoundness.LargeToolKeepsFive | internal/validate/tools.go:97-128 | a larger tool has data and its five least keys, whatever the map order |
| SchemaLaws.FiveAreRewritten | internal/validate/tools.go:97-128 | and each of the five is rewritten under its own name unless a later one took it |
| SchemaLaws.EachIsRewritten | internal/validate/tools.go:130-151 | where no two keys are emitted under one name every property is rewritten under its own |
| SchemaLaws.SimpleKeepsType | internal/validate/tools.go:174-190 | a property that is no union, object or array keeps its own type, a string if it has none |
| SchemaLaws.SimpleKeepsKeywords | internal/validate/tools.go:254-280 | and of the other keywords exactly the supported ones and formats, each with its own value |
| SchemaLaws.ArrayKeepsItemType | internal/validate/tools.go:240-252 | an array becomes an array of its items' own type, of strings if they have none, and keeps nothing else |
| SchemaLaws.UnionBecomesString | internal/validate/tools.go:168-202 | a union becomes a string that keeps its description |
| SchemaLaws.ObjectStaysObject | internal/validate/tools.go:204-238 | an object of at most fifteen properties stays a closed object, with required names exactly if it came with them |
| SchemaLaws.ObjectAsksForString | internal/validate/tools.go:204-218 | without properties, or with more, it becomes a described string |
| SchemaLaws.ParametersKeepType | internal/validate/tools.go:60-95 | a tool's parameters keep their own type, have properties and required names exactly if they came with them, and are closed |
| SchemaFixpoint.SecondPass | internal/validate/tools.go:153-238 | a further pass over a rewritten property schema has exactly one result |
| SchemaFixpoint.RewritingAgain | internal/validate/tools.go:60-238 | rewriting a result changes nothing but empty required lists if and only if no bare string sits at depth 6 in it |
| SchemaFixpoint.TwoPassesAreEnough | internal/validate/tools.go:60-238 | a third pass always gives the result of the second |
| SchemaLeaves.IdempotentExactlyWhen | internal/validate/tools.go:60-238 | for all map orders one pass is enough if and only if no surviving property reaches a non-object at depth 6 |
| SchemaLeaves.RewritingIsNotIdempotent | internal/validate/tools.go:153-164 | six nested objects around a string are changed again by the second pass |
| SchemaLeaves.SomeOutcome | internal/validate/tools.go:153-238 | every schema has a result at every depth |
| RateLimiter.Limiter.Allow | internal/server/middleware.go:80-91 | in every trace with a monotone clock a request passes if and only if it is first in its session or among the first rate |
| RateLimiter.Limiter.SweepIdle | internal/server/middleware.go:51-68 | exactly the visitors found idle for over a minute go, in any order, the others as they were, and nothing the limiter needs is forgotten |
| RateLimiter.WindowIsBounded | internal/server/middleware.go:80-91 | any closed one-minute window admits at most rate requests of an address |
| RateLimiter.SweepsAreInvisible | internal/server/middleware.go:51-91 | positions, and so answers, are those of the requests alone |
| RateLimiter.BurstIsCut | internal/server/middleware.go:80-91 | the bound is met: of n requests at one instant exactly the first rate pass |
| RateLimiter.PauseBeginsAnew | internal/server/middleware.go:80-91 | a request with none of its address in the minute before it begins a session and passes |
| RateLimiter.SessionIsCounted | internal/server/middleware.go:80-91 | of the requests that follow each other within a minute exactly the first rate pass, the very first in any case; rejected ones count |
| Metrics.Service.FlushBuffer | internal/metrics/metrics.go:92-108 | the buffer is empty and the history is that of the records alone: counted from the newest, the last maxHistorySize of what was loaded and recorded |
| Metrics.Service.RecordRequest | internal/metrics/metrics.go:111-157 | one record more; total, successes or failures and response time each grow by exactly this request; a snapshot is saved, and the time of saving kept, exactly when the interval has passed and there is storage |
| Metrics.Service.GetRequestStats | internal/metrics/metrics.go:209-225 | each counter as it is, and the last maxHistorySize records of what was loaded and recorded, newest included |
| Metrics.Service.SaveStatsDebounced | internal/metrics/metrics.go:294-312 | saves that snapshot and keeps the time exactly when the interval since the last save has passed, and otherwise does nothing |
| Metrics.SavesAreApart | internal/metrics/metrics.go:294-312 | over any run of calls, saves are at least the interval apart |
| Metrics.SavesAreFrequent | internal/metrics/metrics.go:294-312 | and after any call the last save is less than the interval ago or was made by that call |
| Metrics.Service.GetQPS | internal/metrics/metrics.go:185-206 | the requests not older than a minute over 60 seconds, to the nearest thousandth |
| Metrics.Service.LoadStats | internal/metrics/metrics.go:271-291 | starts over from a stored snapshot, counter by counter, which a read then returns; buffered records are kept; without one nothing changes |
| Metrics.Service.Close | internal/metrics/metrics.go:315-327 | the final save holds everything recorded; it happens once, and closing again changes nothing |
| Metrics.Service.RecordHTTPError | internal/metrics/metrics.go:165-167 | a failure that no request accounts for |
| Metrics.Prune | internal/metrics/metrics.go:130-141 | dropping the old prefix leaves exactly the times since the cutoff |
| Metrics.FlushScheduleIsInvisible | internal/metrics/metrics.go:92-157 | for every interleaving of records, ticks and reads the history read depends on the records alone |
| MetricsRacing.RacingFlushesConserve | internal/metrics/metrics.go:92-108 | with batches taken and appended in separate critical sections, nothing is invented or doubled, and nothing is lost before the limit is reached |
| MetricsRacing.RacingFlushesMaySwap | internal/metrics/metrics.go:92-108 | a schedule in which a is recorded before b and the history reads b before a |
| MetricsRacing.OldestFirstReads | internal/metrics/metrics.go:92-108 | if every append takes the oldest batch, racing flushes read as flushes in one step do |
| Metrics.HistoryIsTail | internal/metrics/metrics.go:103-107 | the history read has the smaller of maxHistorySize and all records, and the i-th from its end is the i-th from the end of all, if and only if something was recorded since or no overlong history was loaded; then it is what was loaded |
| Metrics.HistoryComposes | internal/metrics/metrics.go:209-291 | saving and loading in between recordings gives the history of recording without interruption |
| Metrics.TallyAddsUp | internal/metrics/metrics.go:116-125 | successes and failures grow together exactly as the total does |
| Metrics.TallyCounts | internal/metrics/metrics.go:116-125 | each counter is what its name says of the records: how many, how many succeeded, how many failed, and the time they took |
| Metrics.SinceCounts | internal/metrics/metrics.go:130-141 | the times since a cutoff, counted one by one |

## Left out

- HTTP, gin, TLS, Redis and file storage, logging, environment loading, JWT and base64 parsing, the dashboard and the
  goroutines of `contextReader`: input and output; their outcomes are inputs of the model.
- JSON marshalling and parsing: functions given to the model, which may fail; SHA-1 over marshalled requests: assumed not
  to collide on the requests asked of one processor, as `Processor.CollisionFree` says.
- Base64 and format checks of images, and re-marshalling of tool arguments: functions given to `Converter.Env`.
- The wrap-around of an expiration beyond the 64-bit nanosecond range, and of the 64-bit counters: integers are unbounded.
- Sharing of cached slices: a hit returns the stored slice itself, and the model treats it as a value.
- The random choice of Go's `select` when a cancelled context and an account are both ready: in `AccountPool` either may
  happen; `AccountManager` takes the cancellation.
- The quota cache as a data structure: a readiness check meets data from the cache, fresh data or an error, freely.
- Injectivity of quota cache keys (internal/cache/cache.go:279-289) and full copies in `Clone`: the first is false by
  construction, the second a field list.
- Metrics.Service.RecordRequest: its critical sections are one step, because two flushes racing between taking a batch
  and appending it can swap batches (internal/metrics/metrics.go:93-107); `MetricsRacing` says what holds then.
- ToolTransform.TransformProperties: says nothing of which property wins when two rename to the same name, because the
  map order decides.
- ToolSchema.ValidateRequiredFields: repeated names stay repeated, as in the source.
- AccountQueue.MarkedOnlyWhenBothExhausted: finite amounts; `NaN`, infinities and numbers out of range are not modelled.
- AnthropicBody.BodyAnswersAgreeExactlyWhen: bodies that begin with an event line, whose payloads no white space unknown to
  JSON surrounds; a body that is one JSON object takes another branch (internal/convert/jetbrains.go:15-54).
- OpenAIProtocol.AgreeOnCoherentStreams: one direction for a whole stream, because two handlers that have filed text
  apart can file equal text later and end alike; `AgreeAtEveryCut` is the exact condition when every prefix counts.
- AnthropicParsed.AnswersAgreeExactlyWhen: speaks of calls that come one at a time; argument text split by a Content can
  still parse to the same object, for instance when only white space follows.
- `GetPeriodStats`, model lookup and the rest of the request payload: no state.
