# Verified model of the agent runtime

The agent runtime answers questions about uploaded tables with a tool-calling language model. This project models
the small algorithms its correctness rests on and proves what they keep over every transcript, stream and run:

- the incremental `<think>` parser, the streaming client and the token-stream callbacks built on it;
- transcript trimming to a token budget with tool calls kept paired with their results;
- the tool loop as a state machine, its repetition counters and its observation masking;
- the response cache, the artifact store with its lineage walk, the records of tool calls;
- plan/fact aggregation, source row ids, fresh table names and segment shares.

A transcript is *tool-closed* (`Messages.ToolClosed`) when every AI message with calls is followed at once by exactly
one tool message for each distinct call id, and there is no other tool message.

Code that changes state is modelled by classes and by methods on arrays, each proved equal to a function of the old
state; the theorems are lemmas about those functions. What such a function computes is said once more on the inputs
alone, without naming it or its parts, mostly in members called `...Exactly`. Everything foreign (the model, the tools, the library that
trims messages, the clock, the second cache tier, normalisers and similarity scores) is a parameter, and the theorems
hold for all its values unless a `requires` says otherwise.

## What the proofs found

- The parser's documentation calls it safe to feed one token at a time. That holds for a text exactly when no
  `</think>` met outside a block follows text (`ThinkingRuns.ChunkInvarianceExactly`); `a</think>` is a
  counterexample (`OrphanedCloserDependsOnChunks`).
- Its documentation also says that an unclosed block is discarded. The code keeps all of its text as reasoning,
  whatever comes before the block and however the text is cut (`UnclosedIsAlwaysReasoning`); when that is clean it is
  split as on its own (`UnclosedBlockIsReasoning`). `<think>abc` is an example (`UnclosedExample`).
- Emitted pieces are not always free of tags: an opener inside a block is ordinary text, so `<think><think>` emits
  `<think>` as reasoning (`ThinkingNesting.OpenerAsReasoning`). They are free of tags in every chunking exactly when no
  exposed opener stands inside a block (`PiecesFreeExactly`); an opener followed by one to six characters of an
  unclosed block is not exposed, because the text held back cuts it in two.
- The tool loop hands back a transcript that is not tool-closed exactly when its inputs lead it to a cycle that is
  cancelled between the model's answer and its tools, or in which an output before the last one is the third with its
  key (`ToolLoopTranscript.FinalTranscript`). Four equal calls with equal results do it
  (`FourEqualResultsLeaveOpen`).
- Article matching runs after the last regrouping, so two fact rows can end on one plan key and the article table then
  counts that plan twice (`PlanFact.MatchingCanDoubleThePlan`). The plan of every set of keys is kept exactly when no
  plan group with a total other than zero meets two fact rows (`ArticleTableKeepsPlanExactly`).
- A sanitised table name can end in an underscore only when it was cut at 120 characters
  (`TableNames.SanitizedUnderscoreIsLong`), and then registering changes it and can merge it with another table
  (`LongStemsMerge`, `LettersMerge`). Registering keeps distinct table names exactly when none ends in an underscore
  (`RegisteringKeepsNames`), and merges none exactly when all of them still differ without the underscores at their
  ends (`RegisteringMergesExactly`).
- More than two segments can reach the default threshold when a sum is negative
  (`SegmentShares.NegativeSumsOverloadThree`). For all signs, more than m do exactly when the rounded share of the
  segment with m others ranked before it reaches the threshold (`FlaggedExactly`).
- Segment shares are documented as parts of the total. They are parts of the total of the listed segments, which is the
  same exactly when the segments left out sum to nothing (`SegmentShares.SharesAreOfTheWholeExactly`,
  `LimitHidesAThird`).
- A lineage is documented as topologically ordered. It is so exactly when no ancestor lies on a cycle
  (`Lineage.TopologicalExactlyWithoutCycles`); two artifacts naming each other as parents make one
  (`ExecutionStore.MutualParentsAreNotTopological`).
- Putting an artifact object twice breaks the growth of versions under its name (`ExecutionStore.PutTwice`), and under
  that name nothing else does (`GrowthExactlyForNewObjects`). Under another name a put changes versions exactly when
  the object is listed there too and gets a new version (`OtherNamesKeepVersions`).

## Model

| member | source | states |
|---|---|---|
| `ThinkingParser.ThinkingOutputParser.Feed` | backend/agent/callbacks.py:69-120 | one `feed` returns what the scan of buffer plus text gives, leaves its buffer and mode, and records the two pieces |
| `ThinkingParser.ThinkingOutputParser.FeedLoop` | backend/agent/callbacks.py:75-115 | the loop ends in the scan's result from every starting buffer |
| `ThinkingParser.ThinkingOutputParser.Flush` | backend/agent/callbacks.py:122-141 | the rest of the buffer goes to the channel of the current mode, the parser is reset |
| `ThinkingProperties.FirstCutIsFirst` | backend/agent/callbacks.py:76-104 | the tag a round reacts to is the first one, in any case, and none precedes it |
| `ThinkingProperties.TagAtExactly` | backend/agent/callbacks.py:76-86 | a tag stands exactly where its characters stand, each in either letter case |
| `ThinkingProperties.FeedIsOnline` | backend/agent/callbacks.py:69-120 | a feed that retracts nothing splits the text so far as a character-by-character reference does, whatever follows |
| `ThinkingProperties.ScanSettles` | backend/agent/callbacks.py:82-100 | every feed leaves a buffer in which no further tag is complete |
| `ThinkingRuns.SingleFeed` | backend/agent/callbacks.py:69-141 | one feed and flush give the split of the whole text, orphaned closers included |
| `ThinkingRuns.ChunkInvariance` | backend/agent/callbacks.py:47-141 | every chunking of a clean text, empty chunks included, gives the totals of a single feed |
| `ThinkingRuns.ChunkInvarianceExactly` | backend/agent/callbacks.py:47-141 | chunking is irrelevant for a text if and only if no orphaned closer in it follows text |
| `ThinkingRuns.BalancedTextsDoNotDependOnChunks` | backend/agent/callbacks.py:47-141 | in particular for every text in which no closer is met outside a block, unclosed blocks and any letter case included |
| `ThinkingRuns.OrphanedCloserDependsOnChunks` | backend/agent/callbacks.py:102-109 | a text whose totals depend on the chunking: fed at once it is reasoning, fed by character it is visible |
| `ThinkingRuns.UnclosedBlockIsReasoning` | backend/agent/callbacks.py:122-141 | a block never closed after any clean text, opened in any letter case and cut anywhere, is kept as reasoning in full, and the text before it is split as on its own |
| `ThinkingRuns.UnclosedIsAlwaysReasoning` | backend/agent/callbacks.py:69-141 | for every text that ends in a block never closed, clean or not, and every chunking, the reasoning ends with all of that block's text |
| `ThinkingRuns.UnclosedFromStart` | backend/agent/callbacks.py:122-141 | in particular a text that begins with the block is reasoning from there to its end |
| `ThinkingRuns.UnclosedExample` | backend/agent/callbacks.py:130-135 | one such text |
| `ThinkingRuns.UncleanShowsLess` | backend/agent/callbacks.py:102-109 | a text held in full never shows more than the same text fed by character, and strictly less when it is not clean |
| `ThinkingConservation.Conservation` | backend/agent/callbacks.py:69-141 | for every text and chunking the input is the emitted pieces and deleted tags laid end to end, visible pieces tag-free, reasoning pieces free of closers |
| `ThinkingConservation.NothingLost` | backend/agent/callbacks.py:69-141 | lengths add up exactly: visible, reasoning and deleted tags |
| `ThinkingNesting.PiecesFreeExactly` | backend/agent/callbacks.py:69-141 | no chunking of a text emits a piece with a complete tag in it if and only if no exposed opener stands inside a block of the text |
| `ThinkingNesting.OpenerAsReasoning` | backend/agent/callbacks.py:82-90 | a text whose only emitted piece is an opening tag |
| `ThinkingConservation.BufferStaysShort` | backend/agent/callbacks.py:82-100 | after each feed the buffer holds at most seven characters and no tag the parser reacts to |
| `LlmClient.SanitizeResponse` | backend/agent/llm_client.py:171-199 | the method computes the response with its think blocks stripped and its reasoning filled in |
| `LlmClient.SanitizedShows` | backend/agent/llm_client.py:171-199 | the response is unchanged when it has no text or nothing is to be stripped, and otherwise holds the stripped visible total; it carries the provider's own reasoning, or else that of the text unless it is blank |
| `LlmClient.EmitFinalChunk` | backend/agent/llm_client.py:202-223 | the last chunk carries the rest of the visible text and all the reasoning |
| `LlmClient.Stream` | backend/agent/llm_client.py:118-143 | the loop with its one-chunk delay yields exactly the chunks of the direct definition |
| `LlmClient.StreamShowsTotals` | backend/agent/llm_client.py:118-143 | the yielded contents put together are the visible total of the run, nothing dropped or repeated |
| `LlmClient.StreamIsPrompt` | backend/agent/llm_client.py:130-143 | when the chunk after the first k arrives, the chunks yielded show all that the parser made visible of these k |
| `LlmClient.StreamKeepsReasoning` | backend/agent/llm_client.py:118-143 | the last yielded message is a copy of the last chunk with its own reasoning, or else with the reasoning of the whole stream unless that is blank |
| `LlmClient.StreamInOrder` | backend/agent/llm_client.py:118-143 | chunks are yielded in order and at most once; only the last may be empty or get another reasoning |
| `LlmClient.StreamRefinesInvoke` | backend/agent/llm_client.py:96-143 | however a clean text is chunked, streaming shows what the single response does; both carry the same reasoning when the provider's own is the same |
| `TokenStream.TokenStreamCallbackHandler.HandleNewToken` | backend/agent/callbacks.py:1100-1120 | the fields after a token are the specified step of the old fields |
| `TokenStream.TokenStreamCallbackHandler.HandleLlmEnd` | backend/agent/callbacks.py:1122-1164 | the fields after the end of a call, with a new parser |
| `TokenStream.TokenStreamCallbackHandler.HandleAll` | backend/agent/callbacks.py:1044-1164 | any run of callbacks is the fold of those steps |
| `TokenStream.TokenStreamCallbackHandler.TakePendingThinking` | backend/agent/callbacks.py:1180-1186 | returns the last completed thinking and clears it, nothing else changes |
| `TokenStream.BlocksOverAnyRun` | backend/agent/callbacks.py:1051-1164 | with thinking shown the events are blocks of start, one or more reasoning tokens, and an end carrying their concatenation; only the last block may be open |
| `TokenStream.HidingThinking` | backend/agent/callbacks.py:1085-1098 | turning the display off changes neither the visible tokens nor any collected text |
| `TokenStream.CallCollects` | backend/agent/callbacks.py:1100-1164 | whatever the switches and the provider's own reasoning, the visible text collected is the visible part of the parser's run, and all reasoning is recorded in the order it came |
| `TokenStream.CallOnCleanText` | backend/agent/callbacks.py:1100-1164 | however a clean text is cut into tokens, the call shows its visible part, and records one step with all its reasoning when nothing is sent beside the tokens |
| `TokenEvents.RunPuts` | backend/agent/callbacks.py:1085-1164 | over any run of callbacks from any state what is queued is what is collected: visible texts and token events, with thinking shown also reasoning and its events, steps and block ends; hidden, only token events; no token event is empty, and the pending thinking is the last step |
| `TokenEvents.CallQueues` | backend/agent/callbacks.py:1100-1164 | one call queues token events that carry exactly the visible part of the parser's run, reasoning events that carry the reasoning taken up, and one block end with all of it; pending thinking and narration are what those events carry |
| `ToolGroups.CompleteToolGroups` | backend/agent/context_window.py:160-184 | the index loops find exactly the complete groups |
| `ToolGroups.DropInvalidToolCallSequences` | backend/agent/context_window.py:187-202 | the loop computes the specified filter |
| `ToolGroups.DroppedIsRepaired` | backend/agent/context_window.py:160-202 | filtering by message identity equals rebuilding the transcript by structure |
| `ToolGroups.GroupFilterTheorem` | backend/agent/context_window.py:160-202 | the result is a tool-closed subsequence that keeps every plain message and every complete group; it is the identity exactly on tool-closed transcripts, and idempotent |
| `GroupPositions.FilterByPosition` | backend/agent/context_window.py:160-202 | position by position: kept are the plain messages, each AI message all of whose ids are answered by the tool messages right after it, the first answer to each id, and nothing else |
| `GroupPositions.CompleteExactly` | backend/agent/context_window.py:166-182 | a group is complete if and only if every id called has a result among the tool messages that follow at once |
| `GroupPositions.GroupsKept` | backend/agent/context_window.py:160-202 | the complete groups end to end are what the filter keeps besides the plain messages |
| `ContextWindow.TrimContextMessages` | backend/agent/context_window.py:48-91 | the method takes the specified branch for every library result, a raised exception included |
| `TrimChoices.TrimChooses` | backend/agent/context_window.py:48-91 | which transcript is returned, for every transcript of distinct messages, budget, counter and library result: the filtered library result if there is no current turn or it covers it, else the first form of the turn that fits; the minimal messages only when none does, or when the library lost every human message |
| `ContextWindow.FitToolExchangeMessages` | backend/agent/context_window.py:260-286 | the loop returns the first candidate that fits after filtering, or else the minimal messages |
| `ContextWindow.FindLatestHuman` | backend/agent/context_window.py:205-209 | the backward loop finds the last human message |
| `ContextWindow.CompactedContents` | backend/agent/context_window.py:289-329 | compaction shortens every tool result to a fixed text but planner and instruction results and those with the call id of the last valid plan |
| `TrimChoices.FitIs` | backend/agent/context_window.py:260-286 | the turn in full if it fits, else compacted if that fits, else without its system message if that fits, else the minimal messages |
| `ContextWindow.MinimalFacts` | backend/agent/context_window.py:111-131 | the minimal messages are tool-closed and hold a human message |
| `TrimChoices.MinimalIs` | backend/agent/context_window.py:111-131 | they are the latest human message, with the first system message if and only if the two fit |
| `ContextWindow.TrimIsClosed` | backend/agent/context_window.py:48-91 | for any library result the trimmed transcript is tool-closed and keeps a human message if there was one |
| `ContextWindow.TrimFits` | backend/agent/context_window.py:48-91 | if the library returns a subsequence that fits or holds no human message, the result fits or is exactly the latest human message alone |
| `ContextWindow.CurrentTurnAllOrNothing` | backend/agent/context_window.py:212-304 | all call ids and result ids of the current turn are kept, or only the latest human message and possibly the system message |
| `ContextWindow.TrimKeepsClosed` | backend/agent/context_window.py:48-91 | a tool-closed transcript stays so for every budget, also when the library raises |
| `ObservationMasking.ApplyObservationMasking` | backend/agent/tool_loop.py:615-678 | the in-place loop computes the specified pass |
| `ObservationMasking.PassKeepsShape` | backend/agent/tool_loop.py:645-678 | a pass keeps the number of messages and the call id at every position |
| `ObservationMasking.PassByPosition` | backend/agent/tool_loop.py:645-678 | a pass leaves a message as it is or replaces a maskable one by its reference |
| `MaskingExactly.PassExactly` | backend/agent/tool_loop.py:615-678 | a pass replaces exactly the first result of each call id that is old enough, no planner or instruction result, no error, no small table, not masked before and outdone by a later table if it bears one, by its references |
| `MaskingExactly.PassNotes` | backend/agent/tool_loop.py:645-678 | the ids noted as masked are the earlier ones and those of such results |
| `MaskingExactly.RefOfOne` | backend/agent/tool_loop.py:676 | one artifact is replaced by its own reference |
| `MaskingExactly.RefsAppend` | backend/agent/tool_loop.py:676 | the references stand one per line, in order |
| `ObservationMasking.SecondPassIsIdle` | backend/agent/tool_loop.py:645-678 | a second pass at the same step changes nothing |
| `ObservationMasking.MaskingOverRuns` | backend/agent/tool_loop.py:608-678 | over every interleaving of arriving results and passes, anything masked is at least three steps old, no error, no small table and no planner or instruction result |
| `ObservationMasking.LatestTableSurvives` | backend/agent/tool_loop.py:635-675 | the most recent table-bearing result is never masked |
| `ToolLoop.ProcessOutputs` | backend/agent/tool_loop.py:1158-1266 | the output loop with its two early exits computes the specified state and stop |
| `ToolLoop.ExecuteTools` | backend/agent/tool_loop.py:1123-1295 | outputs, stubs for skipped calls, early stop and masking as specified |
| `ToolLoop.RunCycle` | backend/agent/tool_loop.py:1040-1295 | one iteration, with cancellation, an unreachable model and a final answer as further exits |
| `ToolLoop.DirectToolLoop` | backend/agent/tool_loop.py:1040-1359 | the loop returns the transcript, outcome, failure counts, call total and tool names of the specified run |
| `ToolLoop.MergeToolNames` | backend/agent/tool_loop.py:1362-1371 | the loop keeps each non-blank name once, in order |
| `ToolLoopStops.StopsOnThird` | backend/agent/tool_loop.py:1210-1266 | processing stops exactly when some output is the third with its key, and leaves outputs exactly when that is not the last one; which outputs share a key: `AlikeExactly` |
| `RepeatedCalls.SameFailureExactly` | backend/agent/tool_loop.py:101-123 | two failures count as one if and only if tool, arguments of the answered calls, error type and missing symbol agree, and without a missing symbol also the collapsed lower-case text |
| `RepeatedCalls.SameSuccessExactly` | backend/agent/tool_loop.py:1241-1250 | two successes answering known calls count as one if and only if tool, arguments and collapsed text agree |
| `RepeatedCalls.AlikeExactly` | backend/agent/tool_loop.py:1210-1258 | over both kinds, results that answer no known call being like none |
| `Text.StripExactly` | backend/agent/tool_loop.py:109-110 | stripping takes away white space at both ends and leaves none there |
| `RepeatedCalls.CollapseExactly` | backend/agent/tool_loop.py:114 | the collapsed text is the words with one blank between them |
| `LoopEnds.LoopEndsExactly` | backend/agent/tool_loop.py:1049-1266 | from empty counters the loop stops early if and only if some call comes three times with the same result, right at the first third one; otherwise it ends as the first iteration that runs no tools does, or by exhaustion |
| `LoopEnds.OutcomeExactly` | backend/agent/tool_loop.py:1049-1346 | the outcome reported, told from the inputs and whether there are artifacts |
| `LoopReports.ReportsExactly` | backend/agent/tool_loop.py:1210-1230 | the error count, retries and fingerprints are those of the outputs processed: one per failure, one per failure but the first of each tool, one per different failure |
| `LoopReports.CallsExactly` | backend/agent/tool_loop.py:1126-1134 | the loop counts the calls it runs, up to the limit of each iteration, and lists their names once in order |
| `LoopTexts.CycleWrites` | backend/agent/tool_loop.py:1123-1295 | an iteration writes the trimmed transcript, the answer, the text of each processed result and of each stub, recalls steps and artifacts by call id, and masks last, from four steps and three results on |
| `LoopTexts.QuietCycle` | backend/agent/tool_loop.py:1049-1139 | an iteration that runs no tools leaves the transcript, if cancelled at its head, or what trimming left of it, with the answer if its calls are cancelled; memory, masks and counters stay |
| `ToolLoopMasking.LoopMasksRightly` | backend/agent/tool_loop.py:1040-1295 | over every run of the loop, trimming, stubs and early stops included, whose output ids are used once, each masked call is at least three steps old, no error, no small table, and outdone by a later table if it bore one |
| `ToolLoopInstructions.InstructionsStayWhole` | backend/agent/tool_loop.py:1040-1295 | over every run of the loop whose trimming library picks from the transcript it is given: planner and instruction results are never masked, and as long as one is in the transcript it is there word for word |
| `ToolLoopInstructions.TrimmedWhole` | backend/agent/context_window.py:48-91 | trimming and its fallbacks, compaction included, never change the text of a planner or instruction result |
| `ToolLoopMasking.LoopKeepsLatestTable` | backend/agent/tool_loop.py:1040-1295 | in such runs the most recent table-bearing result is never masked |
| `ToolLoopCounts.NoProgressBound` | backend/agent/tool_loop.py:1210-1266 | if every processed output answers a known call, at most 2K+1 outputs are processed for K distinct keys; counters stay at two except one that reached three and stopped the loop |
| `ToolLoopCounts.ReportedCounts` | backend/agent/tool_loop.py:1210-1230 | the error count is the sum over keys and over tools, retries are failures less distinct failing tools, one fingerprint per distinct failure |
| `ToolLoopCounts.LoopKeepsCounts` | backend/agent/tool_loop.py:1210-1266 | after any run every counter equals the number of occurrences in the history |
| `ToolLoopTranscript.CycleTranscript` | backend/agent/tool_loop.py:1050-1295 | a cycle that starts tool-closed ends so exactly when its inputs neither cancel it before the tools nor hold, before the last output, a third one with its key |
| `ToolLoopTranscript.CycleContinues` | backend/agent/tool_loop.py:1040-1281 | the loop goes on exactly after a cycle that runs its tools and repeats nothing for the third time |
| `ToolLoopTranscript.ToolsClose` | backend/agent/tool_loop.py:1123-1281 | after outputs and stubs the transcript is tool-closed exactly when no output before the last one is the third with its key |
| `ToolLoopTranscript.TranscriptInvariant` | backend/agent/tool_loop.py:1050-1295 | with distinct call ids and one answer per executable call, the transcript is tool-closed at the head of every cycle of every run |
| `ToolLoopTranscript.FinalTranscript` | backend/agent/tool_loop.py:1236-1281 | the transcript handed back is tool-closed if and only if the inputs lead to no cycle that leaves calls unanswered |
| `ToolLoopTranscript.FourEqualResultsLeaveOpen` | backend/agent/tool_loop.py:1248-1266 | from every tool-closed state four equal results stop the loop with a call unanswered |
| `ToolLoopTranscript.EveryOutputClaimed` | backend/agent/tool_loop.py:1130-1247 | in such runs every processed output answers a known call, as the no-progress bound asks |
| `QueryCache.ResponseCache.Get` | backend/agent/runner.py:291-308 | lookup, expiry, second-tier fill and move to the end as a function of the old dictionary |
| `QueryCache.ResponseCache.Set` | backend/agent/runner.py:310-320 | insertion at the end and trimming as a function of the old dictionary |
| `QueryCache.ResponseCache.Trim` | backend/agent/runner.py:322-325 | the pop loop keeps the most recent entries up to the limit |
| `QueryCacheRuns.SizeBounded` | backend/agent/runner.py:291-325 | after any run the keys are distinct and no more than the limit |
| `QueryCacheRuns.HitsAreFresh` | backend/agent/runner.py:291-325 | a hit returns exactly the last response set for the key, at most max(1, ttl) old, and the size is at most max(8, limit) |
| `QueryCacheRuns.NotEvictedEarly` | backend/agent/runner.py:310-325 | a young response is found while fewer than the limit of other keys were set or hit since its own last use |
| `QueryCacheRuns.HitsExactly` | backend/agent/runner.py:291-325 | over every run a get hits if and only if the operations before it alone say so: the key was set, its response is young enough, and since its own last use there were never max(8, limit) other keys in use at once |
| `QueryCacheRuns.FetchedExactly` | backend/agent/runner.py:294-308 | a get only the second tier can answer returns and holds the fetched response if and only if it is young enough, and drops the least recent entry if and only if the cache was full |
| `QueryCacheRuns.DisabledIsEmpty` | backend/agent/runner.py:292-293 | a cache switched off holds and returns nothing |
| `ExecutionStore.ExecutionStore.Put` | backend/artifacts/execution.py:147-181 | parents, version, both indexes and their order after registering any artifact, stored before or not |
| `ExecutionStore.ParentsExactly` | backend/artifacts/execution.py:150-166 | the parents are those named, the non-blank source ids and the latest artifacts of the source names, each once, the named ones first |
| `ExecutionStore.ExecutionStore.GetLineage` | backend/artifacts/execution.py:203-220 | the recursive walk returns the stored artifacts of the specified walk, also on cyclic graphs |
| `ExecutionStore.ExecutionStore.GetChildren` | backend/artifacts/execution.py:200-201 | the comprehension in insertion order |
| `ExecutionStore.ExecutionStore.ChildrenMirrorParents` | backend/artifacts/execution.py:194-201 | in every valid store an artifact is among the children of another exactly when that one is among its parents |
| `ExecutionStore.ExecutionStore.PutIsStep` | backend/artifacts/execution.py:147-181 | putting a new object moves the store by one step of the value model |
| `ExecutionStore.ExecutionStore.GrowthExactlyForNewObjects` | backend/artifacts/execution.py:174-180 | versions under a name keep growing strictly if and only if the object was not listed there already |
| `ExecutionStore.ExecutionStore.OtherNamesKeepVersions` | backend/artifacts/execution.py:174-180 | versions under another name change if and only if the object is listed there and gets a new version |
| `ExecutionStore.PutTwice` | backend/artifacts/execution.py:174-181 | putting any object twice leaves versions under its name that do not grow |
| `ExecutionStore.MutualParentsAreNotTopological` | backend/artifacts/execution.py:203-220 | two puts naming each other as parents, and a lineage that is not in topological order |
| `ExecutionStore.GrowthStep` | backend/artifacts/execution.py:174-177 | the version given exceeds all versions of the name |
| `ExecutionStore.CleanRunsKeepInv` | backend/artifacts/execution.py:147-181 | runs of puts with new ids and stored explicit parents keep the graph acyclic and closed and the versions increasing |
| `ExecutionStore.LineageAfterAnyRun` | backend/artifacts/execution.py:147-220 | after every such run each lineage lists exactly the ancestors, parents first, and the latest version is the greatest |
| `Lineage.LineageListsAncestors` | backend/artifacts/execution.py:203-220 | on every parent graph, cyclic or not, the list holds exactly the stored ids reachable through parents, each once |
| `Lineage.TopologicalExactlyWithoutCycles` | backend/artifacts/execution.py:203-220 | the list is in topological order, as documented, if and only if no ancestor lies on a cycle |
| `Lineage.AddedNodeKeepsAcyclic` | backend/artifacts/execution.py:157-180 | a new id whose parents are stored closes no cycle |
| `ToolActivities.ToPersistedActivities` | backend/agent/callbacks.py:698-775 | the event loop and the closing loop return one record per start in order: with status, time and summary of the end event that belongs to it, or else ended at its start, failed exactly when asked to be, with the error text |
| `ToolActivities.OneRecordPerStart` | backend/agent/callbacks.py:698-775 | one record per start event, in start order |
| `ToolActivities.FinishedAtMostOnce` | backend/agent/callbacks.py:698-775 | no record is finished by two end events |
| `ToolActivities.OutcomeOfRecord` | backend/agent/callbacks.py:698-775 | a record ends with the status and time of the event that finished it, and unfinished when there is none |
| `ToolActivities.FinishesExactly` | backend/agent/callbacks.py:731-745 | an end event finishes exactly the call it belongs to: the last start with its id, or without such a start the last open one of its tool that has no id |
| `ToolActivities.PersistedExactly` | backend/agent/callbacks.py:698-775 | the records stored for any list of events, field by field |
| `ToolActivities.OwnEndIsStored` | backend/agent/callbacks.py:698-775 | with distinct ids the stored record is that of the first end with its own id |
| `ToolActivities.EndKeepsToItsCall` | backend/agent/callbacks.py:698-775 | an end never finishes a record carrying a different call id |
| `ToolActivities.EachCallGetsItsOwnEnd` | backend/agent/callbacks.py:698-775 | with distinct ids every interleaving gives each record the status and time of its own first end |
| `Grouping.GroupingConserves` | backend/data_access/planfact_source_service.py:693-704 | grouping keeps the sum over every set of keys, in any order of the groups |
| `ArticleMatches.GroupArticle` | backend/data_access/planfact_source_service.py:844 | a group keeps the article text of its first row |
| `Grouping.JoinKeepsFact` | backend/data_access/planfact_source_service.py:1257 | with distinct plan keys the outer join keeps every fact sum |
| `ArticleMatches.JoinExactly` | backend/data_access/planfact_source_service.py:1257 | the joined rows are exactly the pairs with one key and the rows whose key the other side lacks |
| `Grouping.JoinWeighsPlan` | backend/data_access/planfact_source_service.py:1289-1313 | for all inputs a plan row counts once for each fact row it meets, and at least once |
| `Grouping.JoinKeepsPlanExactly` | backend/data_access/planfact_source_service.py:1289-1313 | whatever the signs, the plan sum of every set of keys survives if and only if no plan row with an amount other than zero meets two fact rows |
| `Grouping.JoinKeepsTotalExactly` | backend/data_access/planfact_source_service.py:1289-1313 | without negative amounts the plan total alone survives under exactly that condition |
| `PlanFact.RewriteCfo` | backend/data_access/planfact_source_service.py:824-831 | the in-place loop rewrites the frame as `MapRowsExactly` says |
| `PlanFact.MapRowsExactly` | backend/data_access/planfact_source_service.py:824-831 | a row whose normalised CFO has a non-empty target gets that CFO, any other row and all other fields stay |
| `PlanFact.ApplyCfoMapping` | backend/data_access/planfact_source_service.py:808-859 | both frames rewritten and grouped again, or unchanged without a mapping |
| `PlanFact.MatchFactArticle` | backend/data_access/planfact_source_service.py:1128-1181 | the three search loops and the thresholds compute the specified match |
| `PlanFact.MatchIsCandidate` | backend/data_access/planfact_source_service.py:1128-1181 | a match names a candidate; scores lie in the band of their kind; anything but an exact match means no candidate has the key |
| `ArticleMatches.MatchExactly` | backend/data_access/planfact_source_service.py:1128-1181 | the match: the first candidate with the key, else the first with the key of its hand-made or built-in entry, else the first of the most similar ones, automatic from 0.90 and suggested from 0.75 |
| `PlanFact.ApplyArticleMatching` | backend/data_access/planfact_source_service.py:1044-1066 | the in-place loop rewrites the frame as `MatchRowsExactly` says |
| `ArticleMatches.MatchRowsExactly` | backend/data_access/planfact_source_service.py:1044-1066 | a row gets the article key of a match by hand, by dictionary or of at least 0.90 similarity among the plan articles of its CFO and extra key, any other row and all other fields stay |
| `PlanFact.CfoMappingConserves` | backend/data_access/planfact_source_service.py:808-859 | the fact of every set of keys is the fact of the keys mapped there, and keys stay distinct |
| `PlanFact.CfoMappingKeepsTotal` | backend/data_access/planfact_source_service.py:808-859 | total fact is preserved |
| `PlanFact.MatchingConserves` | backend/data_access/planfact_source_service.py:1044-1066 | the fact of every CFO, extra key and period is preserved whatever is rewritten |
| `PlanFact.MonthlyFact` | backend/data_access/planfact_source_service.py:693-859 | the monthly fact of a CFO and period is the sum of the dated rows of the period that have it as their target, or have no target and stand under it |
| `PlanFact.ArticleFact` | backend/data_access/planfact_source_service.py:703-1066 | the same for the article frame after mapping and matching |
| `PlanFact.TablesAgreeOnFact` | backend/data_access/planfact_source_service.py:1245-1349 | for every CFO and period both tables show the same fact, that of the source rows mapped there |
| `PlanFact.MonthlyIds` | backend/data_access/planfact_source_service.py:693-859 | the ids of a monthly row read back as exactly the ids of the base rows of its period that have its CFO as their target, or have none and stand under it, each once |
| `PlanFact.ArticleIds` | backend/data_access/planfact_source_service.py:703-1066 | the ids of an article row read back as exactly the ids of the base rows mapped to its key before matching, each once |
| `PlanFact.CfoTableKeepsPlan` | backend/data_access/planfact_source_service.py:1245-1257 | the CFO table always keeps the plan of every CFO and period |
| `PlanFact.ArticleTableKeepsPlan` | backend/data_access/planfact_source_service.py:1273-1313 | the article table keeps every plan sum when no two fact rows end on one key |
| `PlanFact.ArticleTableKeepsPlanExactly` | backend/data_access/planfact_source_service.py:1062-1065 | whatever the signs, the article table keeps every plan sum if and only if no plan group with a total other than zero meets two fact rows |
| `PlanFact.ArticleTableKeepsTotalExactly` | backend/data_access/planfact_source_service.py:1062-1065 | without negative group totals the plan total alone survives under exactly that condition |
| `PlanFact.MatchingCanDoubleThePlan` | backend/data_access/planfact_source_service.py:1062-1065 | an input on which matching makes a plan of 100 count as 200 |
| `PlanFact.VariancesAddUp` | backend/data_access/planfact_source_service.py:2799-2805 | variances of every set of keys add up to fact less plan |
| `ArticleMatches.PercentExactly` | backend/data_access/planfact_source_service.py:2799-2805 | row by row fact is plan plus variance; the share is given exactly when there is a plan, and times the plan it is the variance |
| `RowIds.CollectSourceRowIds` | backend/data_access/planfact_source_service.py:2590-2604 | the nested loops collect the readable ids of text, list and single cells once each, in order |
| `RowIds.CollectedReads` | backend/data_access/planfact_source_service.py:2590-2604 | reading a collected string gives back exactly the distinct ids |
| `RowIds.IdsExactly` | backend/data_access/planfact_source_service.py:2590-2604 | the ids of a cell are those of the parts of its text between commas, of its value or of its list that read as integers |
| `RowIds.CollectingAgain` | backend/data_access/planfact_source_service.py:2590-2604 | collecting collected strings equals collecting all the raw ids in sequence |
| `Decimal.NatTextInjective` | backend/data_access/csv_session_runtime.py:68 | different counters have different numerals |
| `Decimal.ParseIntReads` | backend/data_access/planfact_source_service.py:2599-2604 | every written id is read back by `int()` |
| `Decimal.ParseIntExactly` | backend/data_access/planfact_source_service.py:2599-2604 | a text is read if and only if it is digits with or without a sign, and white space around it |
| `TableNames.SanitizedIsTableName` | backend/data_access/csv_session_runtime.py:51-58 | a sanitised name is a safe identifier of at most 120 characters |
| `TableNames.SanitizedExactly` | backend/data_access/csv_session_runtime.py:51-58 | the name is the squashed stem without the underscores at its ends, lowered, with a default, a letter before a digit, and cut at 120 characters |
| `TableNames.SquashExactly` | backend/data_access/csv_session_runtime.py:54 | each longest run of other characters becomes one underscore, safe characters stay |
| `TableNames.SanitizedUnderscoreIsLong` | backend/data_access/csv_session_runtime.py:51-58 | a sanitised name that ends in an underscore has exactly 120 characters |
| `TableNames.SanitizeTrims` | backend/data_access/csv_session_runtime.py:51-58 | on a table name sanitising does nothing but cut the underscores at its end |
| `TableNames.ResanitizeExactly` | backend/data_access/csv_session_runtime.py:51-58 | sanitising a table name again changes nothing if and only if it does not end in an underscore |
| `TableNames.CandidatesDiffer` | backend/data_access/csv_session_runtime.py:66-72 | candidates with different counters differ, also after truncation |
| `TableNames.CandidateExactly` | backend/data_access/csv_session_runtime.py:68-69 | a candidate is the numbered suffix after as much of the base as 120 characters allow |
| `TableNames.UniqueTableName` | backend/data_access/csv_session_runtime.py:61-72 | for every finite set of names the endless loop ends, within one attempt more than there are names, with the first free candidate; it equals no name in use, up to letter case and outer white space |
| `TableNames.NameBatch` | backend/data_access/tabular_upload_service.py:229-232 | an upload names its files one after another: each name is free of all names before it, and with fewer names than the digit bound allows they are distinct table names, none in use before |
| `TableNames.FreshIsTableName` | backend/data_access/csv_session_runtime.py:66-72 | the result is a safe identifier while the counter has fewer than 119 digits |
| `TableNames.CandidateIsTableName` | backend/data_access/csv_session_runtime.py:66-72 | a candidate with such a suffix is a table name and survives sanitising |
| `TableNames.TableNamesAreTaken` | backend/data_access/csv_session_runtime.py:63 | a table name in use is recognised as taken |
| `TableNames.SafeTables` | backend/data_access/csv_session_runtime.py:208-211 | the dictionary comprehension keeps each sanitised name once |
| `TableNames.RegisteringKeepsNames` | backend/data_access/csv_session_runtime.py:208-211 | distinct table names are registered as exactly those tables if and only if none ends in an underscore |
| `TableNames.RegisteringMergesExactly` | backend/data_access/csv_session_runtime.py:208-211 | for any table names, as many tables are registered as there are names if and only if the names differ pairwise without the underscores at their ends |
| `TableNames.UnderscoreMerges` | backend/data_access/csv_session_runtime.py:208-211 | a name and the same name with an underscore are registered as one table |
| `TableNames.TruncatedAtUnderscore` | backend/data_access/csv_session_runtime.py:58 | truncation ends at an underscore for every table name of 119 characters followed by one |
| `TableNames.LongStemsMerge` | backend/data_access/csv_session_runtime.py:51-211 | two files with different sanitised names that registering makes one table |
| `TableNames.LettersMerge` | backend/data_access/csv_session_runtime.py:51-211 | one such pair of stems |
| `SegmentShares.ComputeSegmentShares` | backend/data_access/segment_aggregation.py:146-164 | the loop returns the rounded shares of the listed segments, none for a total that is not positive |
| `SegmentShares.RoundingIsNearest` | backend/data_access/segment_aggregation.py:160 | no hundredth is nearer, ties go to the even one |
| `SegmentShares.SharesAddUp` | backend/data_access/segment_aggregation.py:146-164 | the shares of n listed segments add up to 100 within n times 0.005, whatever the signs |
| `SegmentShares.FlaggedBound` | backend/data_access/segment_aggregation.py:167-172 | without negative sums, the number flagged times (threshold - 0.005) is at most 100 |
| `SegmentShares.AtMostTwoOverloaded` | backend/data_access/segment_aggregation.py:167-172 | hence at most two segments reach the default threshold |
| `SegmentShares.FlaggedExactly` | backend/data_access/segment_aggregation.py:167-172 | whatever the signs, more than m listed segments are flagged if and only if more than m are listed and the rounded share of the one after the first m reaches the threshold |
| `SegmentShares.ListedDescend` | backend/data_access/segment_aggregation.py:145-146 | the listed segments come in descending order of their sums |
| `SegmentShares.ListedExactly` | backend/data_access/segment_aggregation.py:146 | a limit lists that many segments or all, a negative one leaves that many out |
| `SegmentShares.NegativeSumsOverloadThree` | backend/data_access/segment_aggregation.py:146-172 | with a negative sum three segments can |
| `SegmentShares.ListedAreLargest` | backend/data_access/segment_aggregation.py:145-146 | every listed segment has at least the sum of every segment left out |
| `SegmentShares.SumsConserve` | backend/data_access/segment_aggregation.py:145 | the segment sums add up to all the values |
| `SegmentShares.SharesAreOfTheWholeExactly` | backend/data_access/segment_aggregation.py:128-148 | the total used is the total of the metric if and only if the segments left out sum to nothing; without negative sums, if each of them is zero |
| `SegmentShares.LimitHidesAThird` | backend/data_access/segment_aggregation.py:145-164 | a frame on which the listed segment has a share of 100 and two thirds of the metric |

## Left out

- Language model calls, tool execution, LangChain and LangGraph, the event queue of the server, databases, file storage: foreign code, represented by parameters.
- `trim_messages` is an arbitrary list; `TrimFits` asks a promise of it, and that the token estimate never grows when messages are deleted, and `InstructionsStayWhole` and `TrimmedWhole` ask that it picks from the transcript.
- Message identity: `id()` is a number carried by each message, required to be distinct within a transcript and within the library's result. A compacted copy keeps the number of its original; identities are only compared within one list.
- The Redis tier of the response cache: what it holds at a get is a parameter of `Get`; its writes and deletions are not modelled. Runs are of a cache without it; `FetchedExactly` is about one get with it after such a run. Deep copies are values.
- Hashes: cache keys, failure keys and success fingerprints are the values that are hashed, so collisions do not occur.
- Unicode: `lower()`, `casefold()`, `strip()` and the table-name pattern are modelled on single characters, with letter case for ASCII only; `int()` reads ASCII decimals without digit-group underscores.
- `Path(...).stem`: names are sanitised from the stem on.
- Floating point: amounts, scores, shares and times are exact reals.
- Row order of data-frame groups and joins: groups come in any order the theorems are then proved for; a join lists the plan rows first.
- Ties in the descending sort of segments: any ranking, with a lemma that one exists; the choice of the metric column and the unit text are not modelled.
- `_build_plan_long` and the reading of fact columns: unpivoting, date parsing, number parsing and key normalisation happen before the rows of the model.
- Collapsed text columns, row counts and file names of the plan/fact frames.
- `_plan_article_lookup`, `_article_similarity` and the normalisers: the candidates of each CFO and extra key, the scores and the normal forms are parameters.
- Artifact schema and content hash, and artifact fields that neither lineage nor versions depend on.
- The text of tool observations, textual tool calls, the final texts, the partial-result summary and exceptions other than an unreachable model.
- `MaskingOverRuns`: follows each message through an event model of results and passes only; over the loop itself, with trimming, compaction, stubs and AI messages between passes, `LoopMasksRightly` and `InstructionsStayWhole` state the same of the masked call ids.
- `LoopMasksRightly`: holds for every list the trimming library may return, so it does not say that no masked id belongs to a planner or instruction result, because such a list may give an id another name; `InstructionsStayWhole` says it for every library that picks from the transcript it is given.
- `LatestTableSurvives`: the same event model; its counterpart over the loop is `LoopKeepsLatestTable`.
- `ToPersistedActivities`: models the result summary of a record, but not its previews, code and other presentation fields.
- Asynchronous variants of the client, the Ollama client and the provider's chunk conversion: the same parser over another transport.
- Column de-duplication, session expiry, table removal: they would only add easy members.
- Locks: collector, cache and store methods run one at a time, so runs are sequences of calls.
