# Verified model of the modelrouter gateway core

modelrouter is an LLM gateway. This project models the parts of it where a
mistake is silent: the policy for provider credentials that die, the translation
between the Anthropic and the OpenAI message formats, the reassembly of event
streams, the retention of prompt logs, the Entra token cache, the accounting
printed to operators, and the fallback chains. Code that updates state in place
is a class or a loop proved against a specification function; code that only
computes is a function; the properties are lemmas about the specification
functions, over every input, every run or every interleaving.

| file | component |
|---|---|
| `Credentials.dfy` | the credential failure policy, and the chain as an object |
| `ChainProtocol.dfy` | many requests interleaving over one chain: every run of a step system with a probe lock, a clock and dropped requests |
| `SequentialCalls.dfy` | calls one after another; each is a run of the step system |
| `Json.dfy`, `Content.dfy`, `Messages.dfy` | JSON values, content parts, conversations, and the way back |
| `Reading.dfy` | a reader of both message forms, and that translation says what it was given |
| `SseLines.dfy` | line reassembly, and why valid UTF-8 survives it |
| `SseTranslator.dfy`, `StreamRefinement.dfy` | the stream translator and its refinement of the one-piece completion |
| `EventStream.dfy`, `Delivery.dfy` | the whole body, and the way from its bytes to the client's message |
| `Retention.dfy`, `RetentionSafety.dfy` | the retention tick, and what every history of ticks keeps |
| `TokenCache.dfy`, `ReauthErrors.dfy` | the Entra token cache and the scan for AADSTS codes |
| `Csv.dfy`, `UsageTable.dfy`, `UsageSubtotals.dfy`, `NumberFormat.dfy`, `HookStats.dfy` | CSV output, the usage table and what its subtotals say, thousands separators, percentiles |
| `FallbackChain.dfy` | fallback chains over unordered maps |
| `Common.dfy` | options, results and sequence facts |

## Model

| member | source | states |
|---|---|---|
| Credentials.FindExpired | src/providers/credential_error.rs:47-52 | the outermost typed error is found under any number of context layers, and nothing is found exactly when no layer is typed |
| Credentials.PermanentIff | src/providers/credentials.rs:297-299 | an error is permanent exactly when its source says so or a layer is typed |
| Credentials.DescribesEveryLayer | src/providers/credentials.rs:332 | the detail of a typed error holds the text of every layer |
| Credentials.ExpiredError | src/providers/credentials.rs:318-334 | a typed error already in the chain is kept as it is; otherwise the new one names the provider, the kind and guidance of the source that raised it, and all layers of the error |
| Credentials.CredentialChain.constructor | src/providers/credentials.rs:180-195 | a new chain has no fallback, no probe and no expiry |
| Credentials.CredentialChain.Fetch | src/providers/credentials.rs:253-295 | state and result of a whole call, forced or not, equal the policy that the lemmas below are about |
| Credentials.CredentialChain.Escalate | src/providers/credentials.rs:309-316 | a transient error leaves untouched; a permanent one is recorded and leaves typed |
| Credentials.CredentialChain.TryFallback | src/providers/credentials.rs:339-396 | state and token of a fallback attempt, with its four ways to end without one |
| Credentials.CredentialChain.Health | src/providers/credentials.rs:231-251 | health says expired exactly when an expiry is recorded or the source in use judges itself expired |
| ChainProtocol.StepKeepsLock | src/providers/credentials.rs:339-361 | every step keeps the probe lock with exactly the one request inside the critical section, also when a request is dropped inside it |
| ChainProtocol.RunKeepsInvariant | src/providers/credentials.rs:253-396 | in every reachable state the lock agrees with the requests, nobody probes or switches once a fallback is in charge, and no recorded time lies in the future |
| ChainProtocol.RunMovesForward | src/providers/credentials.rs:155-162 | over every run the clock and the last probe never go back, and a fallback in charge never changes or clears |
| ChainProtocol.AtMostOneProbeInFlight | src/providers/credentials.rs:339-361 | in every reachable state of every interleaving at most one request is probing |
| ChainProtocol.ProbesAreSpaced | src/providers/credentials.rs:347-355 | any two probe starts of a run, by whichever requests, are at least the recheck interval apart |
| ChainProtocol.FallbackIsFinal | src/providers/credentials.rs:155-162 | once a fallback is set it stays the same, no probe starts and no switch happens again |
| ChainProtocol.NoPrimaryAfterSwitch | src/providers/credentials.rs:253-261 | a call that begins after the switch asks that fallback and never the primary, for its whole life |
| ChainProtocol.AsksPrimaryIff | src/providers/credentials.rs:301-307 | in every run a request goes on to the primary exactly when no expiry is recorded or the interval has passed since |
| ChainProtocol.ProbesIff | src/providers/credentials.rs:347-355 | in every run a request in its turn starts a probe exactly when there was none or the interval has passed since |
| ChainProtocol.AnswerDecides | src/providers/credentials.rs:272-285 | what the primary's answer leads to, told by the answer alone |
| ChainProtocol.TokensAreGranted | src/providers/credentials.rs:253-284 | every token that leaves the chain was granted to that very request by a source it asked |
| ChainProtocol.GrantsAreDelivered | src/providers/credentials.rs:253-284 | every token granted to a request, by primary, fallback or probe, is what the call ends with |
| ChainProtocol.ErrorsAreJudged | src/providers/credentials.rs:272-299 | every error that leaves the chain goes back to one answer to that request or to memory, and is typed exactly when that answer was judged permanent |
| ChainProtocol.MemoryIsJudged | src/providers/credentials.rs:285-294 | whatever expiry is remembered is the typed form of a permanent answer given earlier in the run |
| ChainProtocol.FinishedForGood | src/providers/credentials.rs:253-295 | a finished request never changes its result |
| ChainProtocol.TransientErrorsAreInert | src/providers/credentials.rs:279-281 | a transient refusal changes neither chain nor lock, and the call is over with exactly that error, so it starts no probe |
| ChainProtocol.ExpirySticksAfterSwitch | src/providers/credentials.rs:254-261 | with a fallback in charge and the earlier calls over, a recorded expiry is never cleared again and health keeps saying expired, whatever the fallback answers |
| ChainProtocol.NoDeadlock | src/providers/credentials.rs:339-361 | in every reachable state an unfinished request can move, or it waits for a lock whose holder can |
| SequentialCalls.ReportTellsLastDeath | src/providers/credentials.rs:231-295 | until a fallback takes over, an expiry is recorded exactly when the last primary fetch that was not transient died, and health says expired exactly then or when the primary itself does, for every sequence of calls |
| SequentialCalls.SuccessClearsExpiryIffPrimary | src/providers/credentials.rs:159-161 | the comment there is false of the code: a successful call leaves no expiry exactly when no fallback is in charge or none was recorded |
| SequentialCalls.RecoveredFallbackStaysExpired | src/providers/credentials.rs:254-261 | three calls from a fresh chain after which a fallback answers while health says expired, though neither credential does |
| SequentialCalls.AnsweredFromMemory | src/providers/credentials.rs:263-265 | within the interval a recorded expiry is the answer, forced or not, nobody is asked and nothing changes |
| SequentialCalls.PrimaryIsAskedIff | src/providers/credentials.rs:253-275 | the primary is asked exactly when no fallback is in charge and no expiry was recorded within the interval |
| SequentialCalls.LoginIsSeen | src/providers/credentials.rs:273-277 | a primary that is asked and grants answers the call with its token, and no expiry is left; a forced call gets the refresh reply |
| SequentialCalls.PlainErrorsPass | src/providers/credentials.rs:279-281 | an error without typed layer that its source does not judge passes through and changes nothing |
| SequentialCalls.FallbackIsProbedIff | src/providers/credentials.rs:339-355 | a probe is made exactly after a permanent refusal with a fallback on offer and the last probe an interval ago, and is stamped |
| SequentialCalls.FallbackTakesOverIff | src/providers/credentials.rs:362-377 | the fallback changes exactly when it answers a probe; that call succeeds with its token and clears the expiry |
| SequentialCalls.ExpiryIsRecordedIff | src/providers/credentials.rs:285-294 | an expiry is recorded exactly when the source in use is dead and nothing takes over, and the call fails with that same error |
| SequentialCalls.FallbackAnswersCalls | src/providers/credentials.rs:254-261 | with a fallback in charge its reply is the result and nothing else is asked or changed |
| SequentialCalls.ReportNamesSourceInUse | src/providers/credentials.rs:231-251 | health names the source in use and, with an expiry on record, its reason and remedy |
| SequentialCalls.DeadCredentialIsLeftAlone | src/providers/credentials.rs:263-294 | between a recorded permanent failure and the next primary request at least the recheck interval passes, over every sequence of calls |
| SequentialCalls.CallIsRun | src/providers/credentials.rs:253-396 | one uninterrupted call is a run of the step system with the same final state and result, so both models describe the same code |
| Content.TranslationIsIdempotent | src/providers/anthropic.rs:92-145 | translating twice is translating once, through any depth of tool results |
| Content.IdentityIffNative | src/providers/anthropic.rs:92-145 | a part is left alone exactly when its tree has no text or image part with a native form |
| Content.TranslatedIsNative | src/providers/anthropic.rs:92-145 | translated content has nothing left to translate |
| Content.DataUrlIsRecovered | src/providers/anthropic.rs:112-138 | an image becomes a base64 block with given media type and data exactly when its URL is that data URL of section 3 of RFC 2397 with a media type without comma |
| Content.SplitsAtFirstComma | src/providers/anthropic.rs:127-130 | the split undoes joining around the first comma |
| Content.FindsFirstUrlImage | src/providers/anthropic.rs:164-176 | the scan returns the URL of the first URL-sourced image in preorder, and none exactly when there is none |
| Messages.TranslateMessages | src/providers/anthropic.rs:184-305 | the loop returns the turns and the system prompt of the specification that the lemmas here and in `Reading` are about |
| Messages.PushItem | src/providers/anthropic.rs:281-298 | a tool result joins a last user turn made of tool results and opens one otherwise |
| Messages.LoopGroupsIff | src/providers/anthropic.rs:216-302 | the push-or-merge loop equals grouping by maximal runs exactly when no result follows a turn that already consists of results |
| Messages.TakesResultsIffCarries | src/providers/anthropic.rs:281-289 | a message's own turn takes results in exactly when it is a user message made of tool results alone, or of an empty array |
| Messages.OneTurnPerToolRun | src/providers/anthropic.rs:216-302 | each maximal run of tool messages is exactly one user turn and each other kept message its own turn, in order, exactly when no tool message follows a user message made of tool results alone |
| Messages.NothingIsLost | src/providers/anthropic.rs:216-302 | on every input each piece of translated content appears exactly once, in order and under its own role |
| Reading.PartSaysTheSame | src/providers/anthropic.rs:92-145 | a reader of both forms finds the same texts, images, tool uses, results and other values, in preorder, in a part and in its translation |
| Reading.TranslationSaysTheSame | src/providers/anthropic.rs:216-305 | the translated turns say exactly what the messages say: every text, image, call with its arguments and result with its call id, in order and under the right role |
| Reading.KeptIff | src/providers/anthropic.rs:217-301 | which messages leave a trace, told by role, content and tool calls |
| Reading.OtherFieldsStay | src/providers/anthropic.rs:219-227 | without tool calls a message keeps all fields but its content, and a text content, too |
| Reading.SystemPromptSaysAll | src/providers/anthropic.rs:187-214 | the system prompt is every text of every system message, in order, one per line; messages of parts without any text are left out |
| Messages.AgenticRoundTrip | src/providers/anthropic.rs:228-266 | content turned into an OpenAI assistant message and translated back is the same single turn exactly when it is at most one leading non-empty text block and then at least one tool use with an object input |
| SseLines.AfterLastLf | src/providers/sse_lines.rs:25-27 | the last line feed is found: none stands behind the returned position |
| SseLines.SplitLines | src/providers/sse_lines.rs:29-38 | the pieces between line feeds, without the trailing empty one, are the terminated lines |
| SseLines.SseLineBuffer.Push | src/providers/sse_lines.rs:23-40 | a push returns the terminated lines of pending bytes and chunk, keeps what follows the last line feed and never a line feed, and a partial line waits exactly when the bytes so far end without one |
| SseLines.CutAnywhere | src/providers/sse_lines.rs:23-40 | the lines of a stream cut in two are those of the first piece and then those of its tail with the second piece |
| SseLines.ChunksDoNotMatter | src/providers/sse_lines.rs:23-40 | for every stream and every way of cutting it, lines and pending bytes are those of the whole in one chunk |
| SseLines.NoByteIsLost | src/providers/sse_lines.rs:23-40 | lines with their line feeds put back, followed by the pending bytes, are the stream |
| SseLines.PendingIffUnterminated | src/providers/sse_lines.rs:42-45 | a partial line is waiting exactly when the stream so far is not empty and does not end with a line feed |
| SseLines.LinesHoldNoLf | src/providers/sse_lines.rs:29-38 | no line holds a line feed |
| SseLines.OnlyOneCrGoes | src/providers/sse_lines.rs:31-35 | a line is what stands before its line feed but for exactly one carriage return at its end |
| Utf8.ValidAroundAscii | src/providers/sse_lines.rs:20-22 | around any ASCII byte a text is well-formed (section 4 of RFC 3629) exactly when both sides are |
| Utf8.ValidLineByLine | src/providers/sse_lines.rs:20-22 | a stream is well-formed exactly when all its lines and its pending bytes are |
| Utf8.LinesStayValid | src/providers/sse_lines.rs:29-35 | every line handed out of a well-formed stream is well-formed, also without its carriage return |
| SseTranslator.AnthropicSseTranslator.AbsorbUsage | src/providers/anthropic.rs:639-656 | the usage fields after the call; what is no object changes none |
| SseTranslator.AnthropicSseTranslator.TranslateLine | src/providers/anthropic.rs:661-760 | state and frame for every line equal the event semantics that the lemmas below are about |
| SseTranslator.ToolIndicesAreRanks | src/providers/anthropic.rs:672-683 | over every event sequence the next index is the number of tool uses started, and a block maps to the rank of its latest start |
| SseTranslator.ToolIndicesAreInjective | src/providers/anthropic.rs:680-683 | over every event sequence the index map is injective and stays below the next index |
| SseTranslator.FragmentsFindTheirCall | src/providers/anthropic.rs:672-723 | calls are announced as 0, 1, 2, ... and each argument fragment goes to the latest start of its own block, or nowhere when there is none |
| SseTranslator.UsageIsLastReported | src/providers/anthropic.rs:639-656 | each usage field holds the last value reported for it, and usage is seen exactly when some event carried a usage object |
| StreamRefinement.WireOpens | src/providers/anthropic.rs:667-671 | the provider's opening and closing JSON events carry their usage and stop reason |
| StreamRefinement.WireStarts | src/providers/anthropic.rs:672-683 | the start of a tool use carries its block index, id and name |
| StreamRefinement.WireWithoutIndex | src/providers/anthropic.rs:680-708 | an event without an index concerns block 0 |
| StreamRefinement.WireStartsNothing | src/providers/anthropic.rs:676-679 | the start of any other block, server tools among them, carries nothing |
| StreamRefinement.WireFragments | src/providers/anthropic.rs:696-710 | text and argument deltas carry their fragment and block index |
| StreamRefinement.WireUsage | src/providers/anthropic.rs:639-656 | a usage object tells its four counts, the thinking tokens among its details |
| StreamRefinement.WireBoundaries | src/providers/anthropic.rs:758-759 | pings and block boundaries carry nothing |
| StreamRefinement.ReadsEmission | src/providers/anthropic.rs:684-756 | a client that takes only well-formed chunks learns from each exactly what the emission says |
| StreamRefinement.ReadingIsDelivery | src/providers/anthropic.rs:661-760 | reading the chunks of any stream is being told its meaningful events one by one |
| StreamRefinement.OthersAreSkipped | src/providers/anthropic.rs:705-710 | argument fragments of a block that is no tool use reach no call and change nothing |
| StreamRefinement.MessageArrives | src/providers/anthropic.rs:661-760 | for every message, every fragmentation and whatever its other blocks stream, delivery leaves its text, its calls in order, its finish reason and its usage |
| StreamRefinement.StreamingRefinesCompletion | src/providers/anthropic.rs:542-554 | a client that reassembles the chunks holds the text of the non-streaming result and its calls in order, by id and name, with arguments that agree exactly when every tool use streams a text of its input; it finishes with tool_calls exactly on tool_use, has the same completion, cache-read and reasoning tokens, a prompt count larger by the cache reads and the total of both; usage arrives exactly when the provider sent some |
| StreamRefinement.ArgumentsAgreeIffSpelled | src/providers/anthropic.rs:366-389 | over every message the streamed arguments read as those of the one-piece calls exactly when the joined fragments of every tool use read as its input |
| StreamRefinement.EmptyArgumentsDiffer | src/providers/anthropic.rs:705-719 | the input at which they do not: a tool use without arguments that streams no text leaves the client with the empty text, where the one-piece call has the text of the empty object |
| StreamRefinement.FinishesAgree | src/providers/anthropic.rs:394-400 | streaming and non-streaming agree on asking for tools exactly unless the provider's own stop reason is the string tool_calls |
| StreamRefinement.FinishesAreEqual | src/providers/anthropic.rs:729-732 | which finish reason either form gives for every stop reason; they are the same text exactly for tool_use and stop |
| EventStream.ResponseStream.OnChunk | src/providers/anthropic.rs:494-506 | one body chunk: translator state, pending bytes and output are those of the completed lines in order |
| EventStream.ReceivedIsWhole | src/providers/anthropic.rs:488-507 | the outputs for all chunks, joined, and the final state are those of the whole body read at once |
| EventStream.TranslationIgnoresChunks | src/providers/anthropic.rs:494-506 | two ways of cutting the same body give the same translated stream and final state |
| EventStream.OutputIsFrames | src/providers/anthropic.rs:498-506 | the output is one frame for each emission of the JSON events on the data lines; other lines add nothing |
| Delivery.FramesAreRead | src/providers/anthropic.rs:694-756 | a client that skips end marks finds exactly the chunks that were written, for every stream |
| Delivery.MessageEndsWithMark | src/providers/anthropic.rs:755-756 | a client that stops at the first end mark reads all chunks of a message before it and only a blank line behind it: there is one mark, at the end |
| Delivery.BytesRefineCompletion | src/providers/anthropic.rs:488-507 | from bytes cut anywhere to the message of a client that stops at the end mark: it sees the mark at the very end, and what it holds depends on the body only and refines the one-piece result |
| Retention.Protected | src/db/retention.rs:93-97 | exactly the retaining experiments whose window is open are protected |
| Retention.Elapsed | src/db/retention.rs:143-151 | exactly the closed retaining experiments whose window is over are due |
| Retention.PromptStore.PurgeOlderThanExcept | src/db/sqlite/prompts.rs:133-178 | wherever a statement fails, only old unprotected rows are gone; a success removed all of them and counts them |
| Retention.PromptStore.RedactExperimentContent | src/db/sqlite/prompts.rs:180-191 | the experiment's rows, and no others, lose their content and keep every other column; the count is of rows that held content |
| Retention.OutcomeStore.ClearNotes | src/db/sqlite/outcomes.rs:70-78 | the experiment's notes, and no others, are gone; the count is of notes there were |
| Retention.GlobalSweep | src/db/retention.rs:84-133 | for each way the sweep can end, when it ends so and which rows it may have removed |
| Retention.ExpireClosed | src/db/retention.rs:135-183 | rows, notes, report and failures after the loop, each experiment for itself whatever fails for the others |
| Retention.RunRetentionTick | src/db/retention.rs:72-82 | a tick is a sweep followed by the expiry half, for every combination of failures |
| RetentionSafety.StampsSurvive | src/db/retention.rs:12-19 | rows that survive a tick keep tokens, latency, stamps, experiment and age; content is either untouched or redacted; no row appears |
| RetentionSafety.DeletedRowsAreOld | src/db/retention.rs:90-116 | a tick deletes only rows more than the set days old, and none of an experiment that may keep its content |
| RetentionSafety.OldRowsGo | src/db/sqlite/prompts.rs:133-178 | after a sweep that went through, rows of that age are left only to experiments that may keep their content |
| RetentionSafety.SweepRunsIff | src/db/retention.rs:90-126 | when the sweep is off, skipped and carried out, told by days, list and the span that can be represented |
| RetentionSafety.ChangedRowsAreExpired | src/db/retention.rs:151-162 | a row changes only when its experiment retains content, is closed and its window over; then content and response go and nothing else |
| RetentionSafety.ExpiredContentGoes | src/db/retention.rs:151-170 | when the window of a closed retaining experiment is over, its content goes, and its notes, unless its own steps fail |
| RetentionSafety.ReportCountsChanges | src/db/retention.rs:44-52 | the report counts the rows the tick deleted, the rows it redacted and the notes it cleared |
| RetentionSafety.UnreadableListDeletesNothing | src/db/retention.rs:93-105 | a tick with an unreadable list of open experiments deletes no row |
| RetentionSafety.OpenRowsAreSafe | src/db/retention.rs:84-183 | a row of a retaining experiment with an open window is neither deleted nor redacted, whatever fails |
| RetentionSafety.NotesGoAfterContent | src/db/retention.rs:153-170 | a note is cleared only in a tick in which its experiment is due, its redaction succeeded and none of its rows holds content any more |
| RetentionSafety.EveryDueIsHandled | src/db/retention.rs:151-181 | in every tick an experiment is reported expired exactly when it is due and its own redaction succeeded, and failed exactly when it is due and one of its own steps failed; an unreadable list of closed experiments is the one failure, under 0 |
| RetentionSafety.ReportIsInIdOrder | src/db/retention.rs:57-63 | a tick lists the experiments it expired, and those that failed, in ascending id order |
| RetentionSafety.FailuresNameNobodyTwice | src/db/retention.rs:60-63 | no experiment is listed among the failures of a tick twice |
| RetentionSafety.SecondTickChangesNothing | src/db/retention.rs:72-82 | a second failure-free tick at the same time changes neither store, deletes, redacts and clears nothing and reports no failure |
| RetentionSafety.OpenBefore | src/db/repositories/experiments.rs:85-101 | a window that is open in the end was open all the time before, while experiments are created and closed |
| RetentionSafety.EvidenceSurvives | src/db/retention.rs:72-183 | over every history of ticks, failures and traffic, a row of a retaining experiment is unchanged for as long as the experiment is active, kept for ever or its days since the close have not passed |
| RetentionSafety.GoneRowsWereOld | src/db/retention.rs:84-133 | over every history a row that is gone was taken by a tick, when the days then set had passed since it was written |
| TokenCache.Cache.Get | src/providers/azure_credentials.rs:292-312 | slot and result of a call; a failed fetch leaves the slot as it was |
| TokenCache.SlotIsLastIssue | src/providers/azure_credentials.rs:305-310 | over every sequence of plain and forced calls the slot is the last token issued, due for refresh 300 seconds or half its lifetime ahead of its end |
| TokenCache.RequestIsMadeIff | src/providers/azure_credentials.rs:297-305 | a request is made exactly when forced or when no token was issued or the last one has no more than the smaller of 300 seconds and half its lifetime left; otherwise that token is served |
| TokenCache.RequestsAnswerCalls | src/providers/azure_credentials.rs:305-311 | a call that makes a request returns the token or the error the request brought |
| TokenCache.ServedTokensAreFresh | src/providers/azure_credentials.rs:297-311 | a token served from the cache is the one issued last and has more than the smaller of 300 seconds and half its lifetime left; one without lifetime is never served again |
| TokenCache.OneRequestPerFreshPeriod | src/providers/azure_credentials.rs:286-312 | as long as more than the smaller of 300 seconds and half the lifetime is left, any number of plain calls return the issued token and only the first made a request |
| ReauthErrors.AadstsCodes | src/providers/azure_credentials.rs:111-126 | the loop, which goes on six characters behind each marker, ends and returns the codes after all occurrences of the marker in order |
| ReauthErrors.MarkersDoNotOverlap | src/providers/azure_credentials.rs:115-123 | the marker never overlaps itself, so the jump misses none |
| ReauthErrors.CodesAreRuns | src/providers/azure_credentials.rs:116-122 | a text is among the codes exactly when it is the non-empty maximal digit run behind some marker |
| ReauthErrors.CodesAreInOrder | src/providers/azure_credentials.rs:115-124 | the codes come in the order of their markers |
| ReauthErrors.ReauthIffNamed | src/providers/azure_credentials.rs:128-134 | a text is permanent exactly when interaction_required or invalid_grant stands in it, or a listed code right behind a marker with no digit after it, letter by letter in any case |
| ReauthErrors.HttpReauthIff | src/providers/azure_credentials.rs:137-146 | a token endpoint's error is permanent exactly when its status is below 500 and not 429 and its body says so |
| ReauthErrors.CliReauthIff | src/providers/azure_credentials.rs:147-153 | a CLI error is permanent also when it asks for az login or names any AADSTS code; every other error by its text alone |
| Csv.WriteCsv | src/report/formatter.rs:43-58 | the loops write the text that the reader below undoes |
| Csv.FieldComesBack | src/report/formatter.rs:49-53 | every field, whatever quotes, commas, line ends it holds, is read back before any separator and rest |
| Csv.RecordComesBack | src/report/formatter.rs:47-57 | every record is read back and the rest is left; a record without fields reads as one empty field |
| Csv.CsvReads | src/report/formatter.rs:43-58 | what a reader of section 2 of RFC 4180 finds in the output, for all rows |
| Csv.CsvRoundTrip | src/report/formatter.rs:43-58 | reading the output gives back every header, row and field exactly when there are headers, none needs quotes, and every row has a field; the header line is written without quotes |
| Csv.QuotedHeadersAreLost | src/report/formatter.rs:44 | no reading ever finds a header that needs quotes, by counting what a reader must take |
| Csv.QuotedOnlyWhenNeeded | src/report/formatter.rs:49-53 | a field is written as it is exactly when it has no comma, quote or line feed |
| UsageTable.GroupByBucket | src/cli/mod.rs:1207-1217 | the buckets hold every row once and in order, each of one key, and neighbours differ |
| UsageTable.PrintTable | src/cli/mod.rs:1246-1341 | the nested loops print the lines of the specification that the lemmas below are about |
| UsageTable.TableConserves | src/cli/mod.rs:1253-1315 | all subtotals and the unnamed rows at the ends of buckets add up to the grand total in all four columns, for every input |
| UsageTable.GrandTotalIsSum | src/cli/mod.rs:1298-1301 | over its own buckets the grand total is the sum of all rows, at every granularity |
| UsageTable.SumIsByColumn | src/cli/mod.rs:1298-1301 | each of the four columns is added up for itself |
| UsageSubtotals.BucketPrintsRuns | src/cli/mod.rs:1261-1314 | a bucket with user names prints one subtotal for each maximal run of a user, in order |
| UsageSubtotals.TablePrintsRuns | src/cli/mod.rs:1246-1315 | the subtotals of the whole table, with the buckets they stand in, are the maximal runs of the rows by bucket and user, in order |
| UsageSubtotals.RunsDistinct | src/cli/mod.rs:1263-1280 | no bucket and user has two subtotals exactly when no row comes back to a pair that an earlier row left |
| UsageSubtotals.CellsAreSums | src/cli/mod.rs:1281-1284 | when no row comes back, a subtotal is the sum of all rows of its bucket and user |
| UsageSubtotals.OneSubtotalForEachUser | src/cli/mod.rs:1246-1315 | in the printed table every bucket and user that occur together have a subtotal and no others; exactly one each exactly when the rows of every user in a bucket stand together, and then it is their sum |
| UsageSubtotals.BucketKeysDistinct | src/cli/mod.rs:1207-1217 | no key has two buckets exactly when the rows of every key stand together |
| UsageSubtotals.NamedSubtotalsAreTotal | src/cli/mod.rs:1253-1315 | with user names the subtotals alone add up to the grand total, the sum of all rows |
| UsageSubtotals.TableListsRows | src/cli/mod.rs:1246-1296 | at every granularity the table lists each row once, in order, in its own bucket |
| UsageSubtotals.OneHeaderForEachBucket | src/cli/mod.rs:1246-1251 | the table has one header for each bucket, in order |
| UsageSubtotals.SubtotalsStandBehindTheirRows | src/cli/mod.rs:1263-1314 | every subtotal stands right behind a row of its user |
| UsageSubtotals.PlainTableHasNone | src/cli/mod.rs:1261-1304 | only the detailed table has subtotals |
| NumberFormat.FmtNum | src/cli/mod.rs:1235-1244 | the reversing loop puts a comma before every three characters from the right, the sign counted |
| NumberFormat.SpacedGroups | src/cli/mod.rs:1239-1243 | on digits alone that is grouping in threes |
| NumberFormat.PrintedInGroups | src/cli/mod.rs:1235-1244 | a number is printed as its sign and its digits in groups of three exactly unless it is negative with a multiple of three digits |
| NumberFormat.CommaAfterSign | src/cli/mod.rs:1235-1244 | -123 is printed as "-,123" |
| NumberFormat.PrintedNumberReadsBack | src/cli/mod.rs:1235-1244 | whatever its commas, a printed number reads as the number |
| HookStats.GroupSamples | src/report/mod.rs:365-378 | the maps hold, for exactly the hooks with samples, their durations in order, their successes and count, and their sum |
| HookStats.GroupingConserves | src/report/mod.rs:369-378 | over the hooks together no sample and no duration is lost or counted twice |
| HookStats.SuccessesConserved | src/report/mod.rs:374-375 | no success is lost or counted for another hook |
| HookStats.SuccessesAreItsOwn | src/report/mod.rs:374-375 | a hook whose samples all have one outcome has that outcome times its samples |
| HookStats.DurationsAreSorted | src/report/mod.rs:356-374 | samples in query order give every hook a sorted list |
| HookStats.RankIsLeast | src/report/mod.rs:385-386 | the rank is the least whose samples make up the percentage |
| HookStats.PercentileIsLeastCover | src/report/mod.rs:380-388 | up to 100 percent, the percentile is the least sample with at least that many percent at or below it |
| HookStats.PercentileIsMonotone | src/report/mod.rs:380-388 | a larger percentage never gives a smaller percentile |
| HookStats.PercentilesInOrder | src/report/mod.rs:391-406 | for every hook p50, p95 and p99 are in order |
| FallbackChain.FallbackChains.UpdateDbChains | src/router/fallback.rs:22-24 | the database chains are replaced as a whole |
| FallbackChain.FallbackChains.NextAfter | src/router/fallback.rs:30-53 | the early-return loops answer as the specification does, for every order in which the maps are walked |
| FallbackChain.NextIgnoresWalksIff | src/router/fallback.rs:30-53 | the answer is independent of the map order exactly when no two database chains disagree about the model and, where neither they nor a configured primary settle it, no two configured chains do |
| FallbackChain.OrderMattersIffChainsDisagree | src/router/fallback.rs:33-41 | the database's answer is independent of the map order exactly when no two of its chains mention the model and answer differently |
| FallbackChain.DatabaseDecidesAlone | src/router/fallback.rs:33-41 | whatever a database chain mentions, even at its end, is answered the same for all configured chains |
| FallbackChain.NextIsSuccessor | src/router/fallback.rs:30-53 | with chains that name no model twice and share none, every model is followed by its successor in its own chain, and the last by nothing |
| FallbackChain.AnswerStandsBehind | src/router/fallback.rs:35-40 | within a chain, repetitions included, a primary is followed by the first entry and any other model by the entry behind its first occurrence |
| FallbackChain.FirstWalkedDecides | src/router/fallback.rs:34-51 | where several chains concern the model, the first in walking order answers |
| FallbackChain.OneChainAnswers | src/router/fallback.rs:33-52 | which chain answers: the database chain that mentions the model, else the configured chain of that primary, else the configured chain that holds it, else none |
| FallbackChain.DisplayedChainIsWalked | src/router/fallback.rs:55-64 | the chain displayed for a primary is the one that is walked, unless another database chain holds that primary among its entries |
| FallbackChain.WalkVisitsChain | src/router/fallback.rs:30-53 | repeated from a primary, the answer visits that chain exactly in order and ends behind it |

### Where the code and its comments disagree

The model follows the code.

- `src/providers/credentials.rs:159-160` says that the next successful fetch
  clears an expiry. The fallback branch (254-261) returns without clearing it.
- `src/db/retention.rs:60-62` says that an experiment may be listed among the
  failures once for its redaction and once for its notes. After a failed
  redaction the loop goes on with the next experiment (160), so it is listed at
  most once (`RetentionSafety.FailuresNameNobodyTwice`).
- `src/cli/mod.rs:1235-1244` is called simple thousands formatting; it puts a
  comma right after the sign of some negative numbers.

### Where streaming and non-streaming results differ

- A tool use without arguments: its fragments join to the empty text, which the
  translator forwards (`src/providers/anthropic.rs:705-719`) and which is no JSON,
  while the one-piece call carries the text of its empty input (372-373). The
  cache's own fold of such a stream reads the empty text as the empty object
  (`src/router/cache/stream.rs:329-333`); the translator does not
  (`StreamRefinement.EmptyArgumentsDiffer`, `StreamRefinement.ArgumentsAgreeIffSpelled`).
- Finish reasons other than tool_use and stop: streamed as "stop", passed on as
  they are in one piece (`StreamRefinement.FinishesAreEqual`).

## Left out

- HTTP, SDK, subprocess and CLI calls, logging and health endpoints: what they answer is a parameter, and every answer at every time is covered.
- JSON text: writing and reading are a pair of functions, `Codec`; the round-trip lemmas ask that reading undoes writing. A non-integer number is a mantissa with an exponent.
- Characters are single values, and replacing invalid bytes while a line becomes text is a parameter (`Decoder`).
- The length of the probe timeout: a probe either brings a source and a token or does not.
- A source that changes its name, verdict or guidance over time, and a source's own caching: `Source` is a fixed record.
- The choice of the default Azure source (`DefaultSource`), one chain of conditions, and the parsing of token responses, which picks one of four fields: the lifetime is an input of the cache, and whether a source offers a fallback is decided anew at every refusal.
- Instants that overflow for enormous token lifetimes.
- SseTranslator.AnthropicSseTranslator.TranslateLine: sums of 32-bit counts wrap, as in a release build; a debug build panics there instead.
- StreamRefinement.StreamingRefinesCompletion: streams as the provider forms them, that is one opening and one closing event, and no index shared between a tool use and a later block of another kind; cache writes and the time to first token have no counterpart in a streamed chunk.
- Delivery.BytesRefineCompletion: the frames reach the client as text; their encoding as bytes and the cutting of the client's own input are not modelled. JSON is written on one line and the end mark is no JSON.
- Tool definitions, tool choice, reasoning options and request bodies of the translation, which are single expressions over one value.
- The Postgres store, which states the same deletions in one statement; stored times are compared as instants, not as texts.
- Rows that other requests write while a tick runs: between two steps of one tick only the experiments change.
- RetentionSafety.EvidenceSurvives: traffic never edits or deletes prompt rows and never reopens or edits a closed experiment.
- The earliest representable instant, which bounds the sweep's span, is a parameter.
- UsageTable.PrintTable: costs are exact reals and token sums do not overflow; padding, rules and the two decimals of an amount are not modelled.
- HookStats.GroupSamples: averages and success rates, two divisions, are not modelled.
- The bound of eight hops on a walk along a fallback chain is not part of this model.
- Guardrails, the concurrency limiter, the complexity router, registries, the cache, the circuit breaker, load balancing and policy engines, dashboards and webhooks: either plumbing or not at the centre of these properties.
