# Hermes agent: verified models of its stateful cores

A Dafny 4.11 project that models the parts of the Hermes agent whose correctness depends on more than one function at
a time, and proves what they promise. `dafny verify dfyconfig.toml` checks all of it.

| files | what they model |
|---|---|
| `FtsIndex`, `FtsProtocol`, `FtsProgress`, `FtsStore`, `FtsSearch` | the message table, its two external-content full-text indexes and the deferred rebuild: triggers, chunked backfill by any number of workers, crashes, finishing sweep, demotion, resumable optimization, search while a rebuild is pending |
| `Lineage`, `SessionImport` | importing sessions: validation, the cycle walk over pending and stored parents, attachment of the edges |
| `RelayStream`, `RequestMerge`, `Accumulator`, `LogicalScopes` | the Relay layer: aligning a rewritten stream with the provider's chunks and failing over, merging an intercepted request, rebuilding a message from stream events, the lifetime of logical call scopes |
| `SafeRead` | the registry of live SQLite connections that decides when a raw descriptor may be closed |
| `TtsConsumer` | the bounded queue and the drain task of streaming speech |
| `ProviderKeys`, `ConfigSteps`, `ConfigLoad`, `StepsAlike` | the steps of the configuration ladder, the configuration that loads from a file, writers that leave out defaults, and what a step makes of files that load alike |
| `MigrationLadder`, `LadderSteps`, `LadderRuns`, `LadderWriters` | the ladder of gated steps, and its runs under crashes and restarts |
| `Text`, `MemoryStore`, `Extractor` | the delimited memory store, merging into it and extracting entries from Markdown |
| `Subagents` | the lifecycle of delegated subagents |
| `SessionViews` | per-session state behind live dictionary views |
| `Collections` | optional values, and facts about sets and lists of pairs |

How the modules are built: the state is a value, each atomic step of the program is a function on it, and the main
results are lemmas about every run of those steps. Where the program updates objects in place, a class holds the same
fields, its methods do what the program's do, loops included, and each method's postcondition equates the new state
with the function. So a result about the functions is a result about the methods.

Interleavings are sequences of events: one event is one transaction, one critical section or one step made while a
lock is held, and an event carries who makes it. What a provider, an adapter, the Relay or a child agent answers is
part of the event, so every answer is covered.

## What turned out not to hold

Each of these is stated as it is in the code, with a concrete instance and, where the promise can be met, the exact
condition under which it is.

- A demotion that finds no messages (high water 0) leaves both markers for good: the status reads as "nothing
  pending", so the finish never runs and the optimization stays on offer. `FtsProgress.EmptyDemotionNeverSettles`,
  `FtsStore.SessionStore.OptimizeStorage`.
- `rebuild_fts` leaves the markers alone, unlike `_rebuild_fts_indexes`; it keeps the indexes exact if and only if no
  stored row lies in (P, H], and otherwise the next chunk indexes a row twice. `FtsProtocol.RebuildFtsKeepsInvIff`;
  `FtsProtocol.RebuildUnderMarkersDuplicates` is a run that gets there.
- A process that decided to demote before another one did demotes again and restarts the rebuild. Chunks of workers
  that hold an older, lower high water do no harm; a finish that was decided before keeps the indexes exact if and only
  if no stored row lies in the gap below the window of its sweep. `FtsProtocol.ChunkKeepsInvIff`,
  `FtsProtocol.FinishKeepsInvIff`; `FtsProtocol.StaleFinishLosesMessage` is a store on which it loses a message.
- The index, the rebuild status, that status again and the rows of the gap are read in four transactions. A hit whose
  row does not change is missed exactly when the index did not cover it yet and, at the two looks at the status, either
  no rebuild was pending any more or the markers covered it. `FtsSearch.SplitReadFindsIff`; `FtsSearch.SplitReadMisses`
  is a run that misses one.
- The cycle walk answers true on any revisit, so a session that hangs off other sessions' cycle is detached although
  its own edge is harmless. An edge with a known parent is dropped if and only if its requested lineage never reaches
  a root and no session on that lineage comes earlier in the payload. `SessionImport.WalkDecidesCut`,
  `SessionImport.HangerOnIsDetached`.
- A stream the Relay ends early leaves `output_modified` false, although the provider had more to say; a false flag
  vouches for the whole response if and only if the provider had returned or raised. `RelayStream.UnmodifiedIsWholeIff`,
  `RelayStream.EarlyEndLooksUnmodified`.
- Wrapping and unwrapping the tools of a request is a round trip if and only if `tools` is not an explicit null and no
  tool is already nested; a nested tool comes back flattened. `RequestMerge.BodyRoundTripIff`,
  `RequestMerge.BodyChangesExample`.
- Raw reads of a database file are harmless in every run if and only if no connection to a file is ever registered
  under anything but that file. A caller's own `tracking_path` and a failed path query are the two ways to break it.
  `SafeRead.HarmlessIffRight`, with the breaking run in `SafeRead.ProbeHitsLiveConnection`.
- A completed speech turn is also aborted if and only if it was cancelled at all, which can then only have happened
  while the adapter was finishing or after the end. `TtsConsumer.CompletedAndAbortedIff`,
  `TtsConsumer.CompletedMeansEverythingPlayed`; both failing runs are in `TtsConsumer.BothFlagsReachable`, built on
  `TtsConsumer.FinishingIsReachable`.
- Step 14 of the ladder undoes itself when the speech-to-text provider is called `model`; a file with that provider
  loses the model name if and only if a run that got past step 14 is repeated. `LadderRuns.CrashConvergesIff`,
  `LadderRuns.AnyCrashesConvergeIff`, `LadderRuns.CompletedRunIsFinalIff`, `LadderWriters.ModelLostExample`.
- Leaving out defaults changes what loads after step 14, and after no other step, in exactly two cases about the key
  the flat model moves under. A default model that one file writes down and the other does not counts as the user's own
  in the first and is replaced by another flat one in the second; and a default that is no section makes the step raise
  on the file that writes it down. `StepsAlike.SttAlikeIff` is the exact condition, `LadderWriters.WrittenDefaultDecides`
  and `LadderWriters.WrittenLeafRaises` are pairs of files.
- The comment at hermes_cli/config_migrations.py:652-654 places the floor gate in `run_migrations`; the code at lines
  671-685 has none: it runs the whole ladder exactly on versions below the floor. `MigrationLadder.FloorIsNotGated`.
- A stored memory entry round-trips if and only if the delimiter does not occur in the entry followed by a line break,
  which a hand-edited entry can violate. `MemoryStore.RoundTripIff`, `MemoryStore.HandEditedEntryBreaks`.
- Correlation ids belong to one child each throughout a run if and only if no registration takes an id in use, which
  overlapping launches can bring about and launches one after the other cannot. `Subagents.OwnedThroughoutIff`,
  `Subagents.OverlappingLaunchesShareAKey`, `Subagents.SequentialRunsKeepOwnership`.
- A session-field view differs from the dictionary it replaced exactly when a value that counts as absent is stored in
  it. `SessionViews.StepRefinesIff`, `SessionViews.StoredAbsentIsNotShown`.
- One lease slot a session differs from the dictionary keyed by session and generation exactly when a token is set to
  None, or while another generation of the session holds one; the older generation then cannot release its token.
  `SessionViews.LeaseRunsHeldIff`, `SessionViews.NewerGenerationTakesSlot`.

## Model

| member | source | states |
|---|---|---|
| `FtsIndex.InsertKeepsExact` | hermes_state_common.py:340-349 | inserting a new row keeps "indexed iff id <= P or id > H", each row once with its current columns, on either index |
| `FtsIndex.DeleteKeepsExact` | hermes_state_common.py:350-359 | the same for deleting, and the 'delete' command hits an entry with the old values |
| `FtsIndex.UpdateKeepsExact` | hermes_state_common.py:428-445 | the same for updates of columns, and on the trigram index also of the role, to or from tool, with a rebuild pending |
| `FtsIndex.ChunkKeepsExact` | hermes_state_search.py:190-216 | publishing progress together with the rows of the claimed range moves the boundary without a gap or a double entry |
| `FtsIndex.SweepFindsNothing` | hermes_state_search.py:80-111 | once every id is covered the boundary sweep inserts nothing, in whatever window |
| `FtsIndex.ExactIsFull` | hermes_state_schema.py:60-73 | with every row covered, an index is exact if and only if it equals the one-shot full rebuild |
| `FtsIndex.FullRebuildExactIff` | hermes_state_search.py:1807-1836 | a full rebuild that keeps the markers is exact if and only if no wanted row lies in (P, H] |
| `FtsIndex.ChunkAfterFullRebuildDuplicates` | hermes_state_schema.py:74-80 | after such a rebuild the next chunk indexes a row of its range twice |
| `FtsProtocol.RunsStayExact` | hermes_state_common.py:312-330 | in every reachable state of inserts, updates, deletes, any workers' chunks, crashes, finishes, demotion, teardown, dropped triggers and reopening, both indexes are exact whenever the triggers are installed, and no 'delete' ever missed |
| `FtsProtocol.ChunkKeepsInvIff` | hermes_state_search.py:162-228 | whatever high water a worker read earlier, its chunk keeps the invariant if and only if it claims no id beyond the stored one |
| `FtsProtocol.FinishKeepsInv` | hermes_state_search.py:80-118 | the finish changes nothing but the markers, which it removes |
| `FtsProtocol.DemoteKeepsInv` | hermes_state_search.py:393-438 | emptying both indexes and setting H to the largest id and P to 0 is an exact state |
| `FtsProtocol.FinishKeepsInvIff` | hermes_state_search.py:80-118 | a finish decided on an old status keeps the invariant if and only if every stored row still in the gap lies in the window of its sweep |
| `FtsProtocol.StaleFinishLosesMessage` | hermes_state_search.py:461-469 | a second demotion followed by a finish that was decided before it leaves the oldest message in neither index |
| `FtsProtocol.RebuildIndexesRestores` | hermes_state_schema.py:59-80 | rewriting both indexes and clearing the markers makes them exact from any content |
| `FtsProtocol.RebuildFtsKeepsInvIff` | hermes_state_search.py:1807-1836 | `rebuild_fts` keeps the invariant if and only if no stored row is waiting in (P, H] |
| `FtsProtocol.RebuildUnderMarkersDuplicates` | hermes_state_schema.py:74-80 | a run from a legacy database reaches the markers; `rebuild_fts` and one chunk then index its message twice |
| `FtsProgress.ClaimsAreBounded` | hermes_state_search.py:179-216 | after the demotion, at most H - P chunks ever claim work, however workers interleave and crash |
| `FtsProgress.RebuildStepKeepsInv` | hermes_state_search.py:162-228 | one step alone shrinks H - P or ends with the markers gone, except when H is 0 |
| `FtsProgress.BackfillIsFullRebuild` | hermes_state_search.py:162-228 | stepping until told to stop ends in the one-shot rebuild of both indexes with the messages untouched, and the markers gone if and only if H was not 0 |
| `FtsProgress.InterruptedBackfillConverges` | hermes_state_search.py:510-519 | cut off after any events at all and restarted with any chunk size, the work ends in the same place |
| `FtsProgress.EmptyDemotionNeverSettles` | hermes_state_search.py:73-77 | with no messages at demotion every step is a no-op, the markers stay and the optimization stays available |
| `FtsStore.SessionStore.Insert` | hermes_state_common.py:340-349 | the id is new, exactly that row is added, and the stored state is the specified one |
| `FtsStore.SessionStore.Update` | hermes_state_common.py:360-374 | exactly that row changes, and the stored state is the specified one |
| `FtsStore.SessionStore.BackfillChunk` | hermes_state_search.py:179-216 | the transaction is the specified one for a high water read before it began |
| `FtsStore.SessionStore.BackfillFinish` | hermes_state_search.py:80-118 | sweep and removal of the markers as specified, invariant kept |
| `FtsStore.TeardownShrinksTrash` | hermes_state_search.py:120-160 | each teardown call removes work or reports that none is left, and touches nothing else |
| `FtsStore.SessionStore.Open` | hermes_state_schema.py:611-622 | the layout is stamped only when nothing of the transition is unfinished, and dropped triggers lead to a full repair |
| `FtsStore.SessionStore.OptimizeStorage` | hermes_state_search.py:440-590 | from whatever an earlier run left, it terminates, keeps every message, leaves both indexes equal to a full rebuild, no legacy table and no trash, and is still on offer exactly when H was 0 |
| `FtsSearch.ExactIndexHits` | hermes_state_search.py:1483-1491 | a pending index returns exactly the complete hits its markers cover |
| `FtsSearch.SnapshotSearchIsComplete` | hermes_state_search.py:1630-1701 | on one snapshot, index hits and gap scan are disjoint and together hold every visible row a finished index returns |
| `FtsSearch.SplitReadFindsIff` | hermes_state_search.py:1480-1502 | with any writes between the reads of index, status, status again and rows, a hit whose row did not change is found if and only if the index covered it, or a rebuild was pending and the second status left it uncovered |
| `FtsSearch.SplitReadCompleteIff` | hermes_state_search.py:1630-1700 | the answer holds every hit whose row did not change if and only if each one meets that condition |
| `FtsSearch.SplitReadMisses` | hermes_state_search.py:1490-1502 | a run of demotion and one chunk between the reads whose only hit is missed |
| `FtsSearch.TopUp` | hermes_state_search.py:1490-1502 | matches stay in front, no id appears twice, the limit holds, and with room nothing is left out |
| `FtsSearch.AnswerIsComplete` | hermes_state_search.py:1483-1504 | with room, the list handed back has every complete hit and only visible substring matches |
| `FtsSearch.HasLoneCjkRun` | hermes_state_search.py:890-906 | true if and only if some CJK character has no CJK neighbour |
| `Lineage.WouldCreateCycle` | hermes_state_portability.py:610-627 | the walk terminates, and answers true if and only if the requested parent's lineage never reaches a root |
| `Lineage.AttachKeepsAcyclic` | hermes_state_portability.py:629-638 | an edge the walk lets through closes no cycle in the stored graph |
| `SessionImport.Validate` | hermes_state_portability.py:382-484 | no error if and only if the payload is acceptable, and then it goes on whole and in order; each entry is normalized or reported once |
| `SessionImport.SessionTable.InsertNew` | hermes_state_portability.py:501-606 | stored sessions are skipped and keep their parents, new ones arrive as roots, and the requested edges are listed |
| `SessionImport.WalkDecidesCut` | hermes_state_portability.py:629-644 | the walk drops an edge if and only if its parent is unknown, or its requested lineage never reaches a root and no session on it comes earlier in the list |
| `SessionImport.SessionTable.AttachEdges` | hermes_state_portability.py:608-644 | exactly those edges are dropped and counted, every other one is attached, and the graph stays acyclic |
| `SessionImport.SessionTable.ImportSessions` | hermes_state_portability.py:331-656 | a refused payload changes nothing; otherwise an acyclic graph stays acyclic, stored sessions keep their parents, and a new one gets its requested parent unless the exact law drops the edge |
| `SessionImport.NewSessionGetsItsParentOrNone` | hermes_state_portability.py:629-644 | the same from one entry's point of view |
| `SessionImport.HangerOnIsDetached` | hermes_state_portability.py:613-616 | every import of a payload with a session hanging off a two-session cycle ends with that session detached, although attaching it would be safe |
| `RelayStream.ManagedStream.ProviderChunk` | agent/relay_llm.py:420-422 | a chunk is queued with its JSON form before the Relay sees it |
| `RelayStream.ManagedStream.AlignChunk` | agent/relay_llm.py:553-560 | the loop finds the first equal queued chunk, forgets what it skipped and sets the flag exactly then |
| `RelayStream.ManagedStream.NextChunk` | agent/relay_llm.py:500-560 | the answer and the new state for every outcome of the Relay |
| `RelayStream.ManagedStream.PreservePendingChunks` | agent/relay_llm.py:570-597 | the queue becomes the remaining stream |
| `RelayStream.RawChunksStayInOrder` | agent/relay_llm.py:384-452 | in every run, a failing finalizer included, raw chunks reach the caller in the provider's order and never twice |
| `RelayStream.UnmodifiedIsExact` | agent/relay_llm.py:518-526 | a stream that stops with `output_modified` false delivered exactly what the provider yielded, and a prefix of it before; if the provider was over, no run yields anything beyond it |
| `RelayStream.UnmodifiedIsWholeIff` | agent/relay_llm.py:518-526 | for a stream that stops with the flag false, what was delivered is all there would have been in any continuation if and only if the provider was over |
| `RelayStream.EarlyEndLooksUnmodified` | agent/relay_llm.py:519-521 | a stream ended by the Relay before completion leaves the flag false |
| `RelayStream.FailoverDeliversPending` | agent/relay_llm.py:535-546 | a Relay failure after provider success still delivers every queued chunk once, in order, then stops |
| `RelayStream.ModifiedIffNotPassedThrough` | agent/relay_llm.py:551-560 | the flag is false if and only if the Relay passed on each chunk as it came |
| `RelayStream.EndFlagIsExact` | agent/relay_llm.py:519-521 | at the end the flag also accounts for chunks the Relay swallowed |
| `RequestMerge.OverlayChanges` | agent/relay_llm.py:873-886 | the loop over both key sets, in any order, yields the key-by-key overlay |
| `RequestMerge.RestoreProviderExtensions` | agent/relay_llm.py:953-1006 | the loop over aligned messages yields the specified restoration |
| `RequestMerge.UntouchedRequestIsOriginal` | agent/relay_llm.py:870-871 | an interception equal to the baseline gives back the original, whatever the codec dropped |
| `RequestMerge.MergeKeyByKey` | agent/relay_llm.py:876-886 | outside the messages: a key the interceptor did not change keeps the original's value, any other takes the intercepted one or vanishes |
| `RequestMerge.LosslessMergeIsIntercepted` | agent/relay_llm.py:872-892 | with a lossless codec the merge is exactly what was intercepted |
| `RequestMerge.RewrittenMessageFields` | agent/relay_llm.py:982-1006 | in aligned messages a lost extension field comes back, every other field is the intercepted one |
| `RequestMerge.MisalignedMessagesAreNotRestored` | agent/relay_llm.py:965-981 | without alignment nothing is restored |
| `RequestMerge.OverlayIsIdempotent` | agent/relay_llm.py:879-886 | merging the same interception again changes nothing |
| `RequestMerge.HeadersLaw` | agent/relay_llm.py:893-904 | internal headers never reach the provider under any spelling, the others win over the request's own, and no other key moves |
| `RequestMerge.ProviderRequest` | agent/relay_llm.py:859-905 | the whole function as merge, restoration and headers |
| `RequestMerge.BodyRoundTripIff` | agent/relay_llm.py:1039-1059 | wrapping and unwrapping tools is a round trip if and only if `tools` is not null and no tool is nested |
| `RequestMerge.BodyChangesExample` | agent/relay_llm.py:1039-1059 | a nested tool that comes back flattened, and an explicit null that is gone |
| `Accumulator.TextIsStartPlusDeltas` | agent/relay_llm.py:674-692 | text, thinking and signature of a block are its start value followed by its own deltas since its last start, in order |
| `Accumulator.PartialJsonIsStartPlusDeltas` | agent/relay_llm.py:693-697 | the same for the partial JSON of tool input |
| `Accumulator.BlockNeedsOnlyItsEvents` | agent/relay_llm.py:668-700 | a block depends on its own events only |
| `Accumulator.RaisesIffSomeBlockDoes` | agent/relay_llm.py:698-699 | an event sequence raises if and only if the events of some one block do |
| `Accumulator.InterleavingsAgree` | agent/relay_llm.py:656-726 | any two interleavings of the same per-block streams raise together or finalize to the same message |
| `Accumulator.FinalizeContent` | agent/relay_llm.py:715-726 | every block comes out once, in index order, without the internal buffer |
| `Accumulator.FinalInput` | agent/relay_llm.py:718-724 | `input` is the parse of start value and own deltas, that string when it does not parse, and untouched without partial JSON |
| `Accumulator.StreamAccumulator.ObserveEvent` | agent/relay_llm.py:656-713 | each event changes the fields as specified |
| `LogicalScopes.HandlesPoppedAtMostOnce` | agent/relay_llm.py:741-814 | over any run each handle, the turn's own included, is popped successfully at most once and open exactly until then |
| `LogicalScopes.FinishPopsNewestFirst` | agent/relay_runtime.py:713-754 | finishing pops in reverse insertion order and leaves exactly the older, unpopped prefix, in order |
| `LogicalScopes.ClosedTurnPushesNothing` | agent/relay_llm.py:751-753 | nothing is pushed on a closed turn, and it stays closed |
| `LogicalScopes.TurnContext.LogicalParent` | agent/relay_llm.py:741-773 | the registered handle, or a new one pushed for this request |
| `LogicalScopes.TurnContext.CompleteLogical` | agent/relay_llm.py:776-814 | only the registered handle is popped, and a failed pop keeps it |
| `LogicalScopes.TurnContext.FinishLogicalCalls` | agent/relay_runtime.py:713-754 | the backwards loop ends in the specified state, pop failures included |
| `LogicalScopes.TurnContext.EndThisTurn` | agent/relay_runtime.py:633-657 | the turn closes once, finishes its calls and then pops its own scope |
| `LogicalScopes.TurnRegistry.BeginTurn` | agent/relay_runtime.py:593-625 | a released lease gives no turn; otherwise one starts, with or without its own scope, and counts as active |
| `LogicalScopes.TurnRegistry.RegisterChild` | agent/relay_runtime.py:131-163 | a delegated conversation gets its parent, unless one of the two is missing or they are the same |
| `LogicalScopes.TurnRegistry.UnregisterChild` | agent/relay_runtime.py:167-175 | called while the child's turn counts as active, it forgets the parent unless the close raises |
| `LogicalScopes.TurnRegistry.EndRegisteredTurn` | agent/relay_runtime.py:627-677 | the first end closes the scopes, then the delegated conversation, then leaves the registry even if that close raised; a repeated one changes nothing |
| `LogicalScopes.TurnRegistry.Unregister` | agent/relay_runtime.py:685-695 | exactly that turn leaves, and an empty key goes with it |
| `LogicalScopes.TurnRegistry.HasActiveTurn` | agent/relay_runtime.py:679-683 | a key is active if and only if one of its turns runs |
| `SafeRead.FreeLockMeansExactCounts` | hermes_cli/sqlite_safe_read.py:121-160 | over every interleaving in which connections are registered under their files, whenever the lock is free the count of each path is its number of open connections |
| `SafeRead.RawCloseIsHarmless` | hermes_cli/sqlite_safe_read.py:341-409 | every non-forced raw close happens with no connection open on that file, if each connection to a file is registered under it |
| `SafeRead.HarmlessIffRight` | hermes_cli/sqlite_safe_read.py:239-259 | for any policy of opening connections: all its runs are harmless if and only if it registers no connection to a file under anything else |
| `SafeRead.RepeatedCloseCountsOnce` | hermes_cli/sqlite_safe_read.py:154-160 | closing a connection again decrements nothing |
| `SafeRead.ProbeHitsLiveConnection` | hermes_cli/sqlite_safe_read.py:242-249 | the run that breaks it, for a foreign tracking path and for a failed path query |
| `SafeRead.ConnectionRegistry.ConnectTracked` | hermes_cli/sqlite_safe_read.py:204-267 | opening and registering as one locked operation |
| `SafeRead.ConnectionRegistry.CloseConnection` | hermes_cli/sqlite_safe_read.py:154-160 | unregistering and closing as one locked operation |
| `SafeRead.ConnectionRegistry.UntrackConnection` | hermes_cli/sqlite_safe_read.py:132-140 | the last release removes the key |
| `SafeRead.ConnectionRegistry.ReadHeaderPreopen` | hermes_cli/sqlite_safe_read.py:363-375 | a header is read only when forced or when no connection is open on the file, and refused otherwise |
| `TtsConsumer.ClausesInOrderAndSuppressionIsAudibility` | gateway/streaming_tts_consumer.py:218-338 | at every step of every run clauses are taken in emission order and at most once, and the whole-file fallback is suppressed if and only if something was audible |
| `TtsConsumer.CompletedIffFinishedWell` | gateway/streaming_tts_consumer.py:275-306 | over any run, completed if and only if the adapter's finish returned with something heard and nothing dropped |
| `TtsConsumer.CompletedMeansEverythingPlayed` | gateway/streaming_tts_consumer.py:297-299 | completed implies the text ended, the finish returned, nothing dropped or cut short, every clause processed in order; aborted then if and only if cancelled, and only at the finish or later |
| `TtsConsumer.CompletedAndAbortedIff` | gateway/streaming_tts_consumer.py:275-299 | both flags if and only if the finish returned well and a cancellation is part of the run |
| `TtsConsumer.EarlyCancelNeverFinishes` | gateway/streaming_tts_consumer.py:384-403 | a run cancelled before the adapter was asked to finish never completes |
| `TtsConsumer.CancelDuringFinishStillCompletes` | gateway/streaming_tts_consumer.py:275-299 | a cancellation during the adapter's finish leaves the turn aborted and completed |
| `TtsConsumer.CancelAfterEndKeepsCompleted` | gateway/streaming_tts_consumer.py:384-389 | so does one after the end |
| `TtsConsumer.BothFlagsReachable` | gateway/streaming_tts_consumer.py:275-299 | runs of both kinds exist |
| `TtsConsumer.EndSentinelAlwaysFits` | gateway/streaming_tts_consumer.py:194-205 | the first finish leaves the end sentinel last in the bounded queue |
| `TtsConsumer.DrainReachesFinish` | gateway/streaming_tts_consumer.py:244-275 | from there the drain loop reaches the finish, having processed every queued clause |
| `TtsConsumer.StreamingConsumer.OnTextDelta` | gateway/streaming_tts_consumer.py:156-167 | the loop puts what fits and flags the first clause that does not |
| `TtsConsumer.StreamingConsumer.PutDone` | gateway/streaming_tts_consumer.py:194-205 | the sentinel goes in, evicting the oldest item if it must and flagging that |
| `TtsConsumer.StreamingConsumer.FinishStream` | gateway/streaming_tts_consumer.py:169-192 | tail and sentinel as specified, once |
| `TtsConsumer.StreamingConsumer.AbortStream` | gateway/streaming_tts_consumer.py:384-411 | the flag and the abort sentinel as specified, once |
| `TtsConsumer.StreamingConsumer.TakeOne` | gateway/streaming_tts_consumer.py:245-260 | one round of the drain loop |
| `TtsConsumer.StreamingConsumer.WriteOneChunk` | gateway/streaming_tts_consumer.py:329-338 | one chunk: dropped with the rest after an abort, skipped if empty, and the first one written sets the audible and suppression flags |
| `TtsConsumer.StreamingConsumer.FinishOutcome` | gateway/streaming_tts_consumer.py:283-306 | the outcome flags after the adapter's finish |
| `ProviderKeys.SlugShape` | hermes_cli/config_migrations.py:98-103 | a slug has no space or parenthesis, no two hyphens in a row and none at either end |
| `ProviderKeys.MakeSlug` | hermes_cli/config_migrations.py:98-103 | the replacement loop terminates in the collapsed form |
| `ProviderKeys.FreshKey` | hermes_cli/config_migrations.py:113-118 | the search for a free key terminates, and what it returns is not taken |
| `ProviderKeys.FreshKeyIsFirst` | hermes_cli/config_migrations.py:114-118 | every earlier candidate was taken |
| `ProviderKeys.FindKey` | hermes_cli/config_migrations.py:113-118 | the collision loop lands on that key |
| `ConfigSteps.AddEntriesOverwriteNothing` | hermes_cli/config_migrations.py:90-132 | no provider is overwritten and each added one has a key of its own |
| `ConfigSteps.Step12OverwritesNoProvider` | hermes_cli/config_migrations.py:83-138 | on the whole file: providers stay, and the legacy list goes only if something came over |
| `ConfigSteps.OverridesOnlyFillGaps` | hermes_cli/config_migrations.py:246-262 | a platform's own setting survives, every overridden platform has one, nothing else in the section moves |
| `ConfigSteps.DelegationKeepsHeadroom` | hermes_cli/config_migrations.py:618-638 | the deprecated cap goes and nobody's effective cap shrinks |
| `ConfigSteps.Grandfathered` | hermes_cli/config_migrations.py:346-371 | a plugin is enabled if and only if it is installed and not disabled |
| `ConfigSteps.SttAgain` | hermes_cli/config_migrations.py:179-216 | step 14 has nothing left to do on its own result if and only if the value did not move under a provider called like the flat key |
| `ConfigSteps.OverridesAgain` | hermes_cli/config_migrations.py:246-262 | step 16 keeps the overrides, yet has nothing left to do on its own result |
| `MigrationLadder.EligibleIsGated` | hermes_cli/config_migrations.py:683-685 | exactly the steps above the version run, in ascending order |
| `MigrationLadder.FloorIsNotGated` | hermes_cli/config_migrations.py:651-685 | the whole ladder runs if and only if the version is below the support floor |
| `LadderSteps.StepSettles` | hermes_cli/config_migrations.py:651-668 | every step has nothing left to do on the configuration it hands to the writer, except step 14 in that one case |
| `LadderSteps.LaterStepKeepsSettled` | hermes_cli/config_migrations.py:16-19 | no later step gives an earlier one work again |
| `ConfigLoad.StripLoads` | src/hermes_cli/config_py_pure.c:351-403 | whatever paths are protected and whichever default leaves are left out, with the tables this empties, the file that is left loads like the original |
| `StepsAlike.Step12Alike` | hermes_cli/config_migrations.py:76-138 | step 12 raises on both or neither of two files that load alike, and its results load alike |
| `StepsAlike.InterimAlike` | hermes_cli/config_migrations.py:221-237 | the same for step 15, whether or not its default is written down |
| `StepsAlike.OverridesAlike` | hermes_cli/config_migrations.py:240-266 | the same for step 16, platform by platform |
| `StepsAlike.Step17Alike` | hermes_cli/config_migrations.py:269-308 | the same for step 17, whose blank and "auto" defaults count as missing |
| `StepsAlike.PluginsAlike` | hermes_cli/config_migrations.py:328-369 | the same for step 21 |
| `StepsAlike.Step23Alike` | hermes_cli/config_migrations.py:415-453 | the same for step 23: seeding defaults is invisible to what loads |
| `StepsAlike.Step29Alike` | hermes_cli/config_migrations.py:508-525 | the same for step 29 |
| `StepsAlike.VerifyOffAlike` | hermes_cli/config_migrations.py:553-565 | the same for step 31, with a default that is itself "auto" or false |
| `StepsAlike.DelegationAlike` | hermes_cli/config_migrations.py:619-640 | the same for step 33 |
| `StepsAlike.SttAlikeIff` | hermes_cli/config_migrations.py:179-216 | step 14 does the same to alike sections if and only if, at the key the flat model moves under, both or neither has a model or the flat one is the default there, and, where the default is no dictionary, both or neither writes it down |
| `LadderRuns.ConfigStepAlike` | hermes_cli/config_migrations.py:651-668 | every step, step 14 given the same section, raises on both or neither of two files that load alike and leaves files that load alike |
| `LadderRuns.RunSettles` | hermes_cli/config_migrations.py:671-685 | after a run no step in it changes what loads, except step 14 in that one case, whatever defaults the writer leaves out |
| `LadderRuns.CrashConvergesIff` | hermes_cli/config_migrations.py:671-685 | dying after any number of writes and restarting from the same version ends like one run, raised errors included, if and only if step 14 had not been written on a file of that one case; ending alike means that the same configuration loads |
| `LadderRuns.AnyCrashesConvergeIff` | hermes_cli/config_migrations.py:671-685 | the same for any number of interrupted runs: it fails if and only if the file was fragile and one of them got past step 14 |
| `LadderRuns.CompletedRunIsFinalIff` | hermes_cli/config_migrations.py:671-685 | running a completed ladder again changes nothing that loads if and only if step 14 was not run on such a file; then no step has anything left to do that would |
| `LadderRuns.VerifyOnStop` | hermes_cli/config_migrations.py:539-604 | in the configuration that loads: never true after a run from below 32, something definite after one from below 31, and the section as it was from 32 on |
| `LadderWriters.StrippingWriterIsOk` | tests/hermes_cli/test_config.py:1132-1187 | a writer that leaves out defaults and protects what it likes keeps what loads, so the results on runs hold for it |
| `LadderWriters.ShippedSchemaIsOk` | hermes_cli/config_defaults.py:8-2298 | any defaults that agree with the shipped ones on the keys the steps look at meet what the results on runs ask of a schema |
| `LadderWriters.ShippedLadderConvergesIff` | hermes_cli/config_migrations.py:671-685 | with any such defaults and any such writer, restarts converge if and only if the one case did not occur |
| `LadderWriters.PlainLadderConvergesIff` | hermes_cli/config_migrations.py:671-685 | with a writer that writes what it is given, the files and outcomes are equal under the same condition |
| `LadderWriters.FragileLosesModel` | hermes_cli/config_migrations.py:211-214 | for every file of that one case the flat model is moved by one pass and gone after two |
| `LadderWriters.ModelLostExample` | hermes_cli/config_migrations.py:211-214 | a concrete file on which a restart loses the model |
| `LadderWriters.DroppedDefaultIsWrittenAgain` | hermes_cli/config_migrations.py:227-235 | a writer that drops step 15's default makes that step write on every run, and the file stays the same |
| `LadderWriters.WrittenDefaultDecides` | hermes_cli/config_migrations.py:194-204 | two files that load alike and differ after step 14 |
| `LadderWriters.WrittenLeafRaises` | hermes_cli/config_migrations.py:207-214 | two files that load alike, on one of which step 14 raises |
| `MigrationLadder.ConfigHome.MigrateTo12` | hermes_cli/config_migrations.py:76-138 | the entry loop hands the specified configuration to the writer, and nothing when no entry came over or one raises |
| `MigrationLadder.MergeOverrides` | hermes_cli/config_migrations.py:255-259 | the loop over the overrides, in any order, yields the merge or fails with the same inputs |
| `MigrationLadder.ConfigHome.SeedMissing` | hermes_cli/config_migrations.py:424-427 | every default is present and every user value wins; whether anything was added |
| `MigrationLadder.ConfigHome.MigrateTo23` | hermes_cli/config_migrations.py:415-453 | both sections are seeded in one write, which happens only if something was missing |
| `MigrationLadder.ConfigHome.TakeStep` | hermes_cli/config_migrations.py:146-163 | one write of the ladder; step 13 clears a variable in `.env` when it has a value there or in the process |
| `MigrationLadder.ConfigHome.RunMigrations` | hermes_cli/config_migrations.py:671-685 | the driver's loop is the run of the eligible steps, stopping where one raises |
| `MemoryStore.RoundTripIff` | hermes_cli/agent_import.py:226-231 | a store of stripped entries parses back to itself if and only if no entry followed by a line break contains the delimiter |
| `MemoryStore.OneLineRoundTrip` | hermes_cli/agent_import.py:559-563 | single-line entries always come back, even one that is the section sign |
| `MemoryStore.HandEditedEntryBreaks` | hermes_cli/agent_import.py:216-218 | an entry the parser accepts that does not survive being written |
| `MemoryStore.MergeEntries` | hermes_cli/agent_import.py:251-279 | the loop computes the specified merge and counts |
| `MemoryStore.MergeLaws` | hermes_cli/agent_import.py:251-279 | existing entries stay in front, no added entry repeats a normal form, the length stays within the limit or the initial length, and every incoming entry is accounted for |
| `MemoryStore.MergeIsIdempotent` | hermes_cli/agent_import.py:261-278 | merging the same entries again adds nothing, overflowed ones included |
| `Extractor.ExtractFitsStore` | hermes_cli/agent_import.py:125-207 | every extracted entry is non-empty, stripped and on one line |
| `Extractor.ExtractedFormsDiffer` | hermes_cli/agent_import.py:199-207 | no two extracted entries share a normal form, and every non-empty normal form found is there |
| `Extractor.ImportRoundTrip` | hermes_cli/agent_import.py:533-563 | importing a document writes a file that parses back to the merged entries, and importing it again adds nothing |
| `Extractor.ExtractMarkdownEntries` | hermes_cli/agent_import.py:157-207 | the line loop and the dedupe loop compute the specified extraction |
| `Subagents.RecordsOnlyMoveForward` | agent/subagent_lifecycle.py:401-470 | over any run a record's state never moves back, a result and its terminal state are final, and a recorded cancellation is not lost before a result |
| `Subagents.ReachableRecords` | agent/subagent_lifecycle.py:291-313 | a state is terminal if and only if there is a result, cancel is refused exactly then, and CANCELLED was asked for |
| `Subagents.RecordStaysIffNeverExpired` | agent/subagent_lifecycle.py:383-399 | over any run a record stays if and only if no launch ever finds it with a result past the retention period |
| `Subagents.LiveRecordsNeverLeave` | agent/subagent_lifecycle.py:383-399 | whenever a record goes missing in a run, it had a result and expired at some event before |
| `Subagents.StepOwnedIff` | agent/subagent_lifecycle.py:209-257 | of all events only a registration that takes a used correlation id breaks "one child per id", and every such one does |
| `Subagents.OwnedThroughoutIff` | agent/subagent_lifecycle.py:209-257 | over every run the ids belong to one child each throughout if and only if no registration takes a used one |
| `Subagents.SequentialRunsKeepOwnership` | agent/subagent_lifecycle.py:209-257 | runs in which each registration directly follows its own check never break it |
| `Subagents.OverlappingLaunchesShareAKey` | agent/subagent_lifecycle.py:210-257 | a run of two overlapping launches that does |
| `Subagents.LifecycleRegistry.CleanupLocked` | agent/subagent_lifecycle.py:383-399 | the loop over the expired records yields the specified registry |
| `Subagents.LifecycleRegistry.Launch` | agent/subagent_lifecycle.py:209-215 | cleanup and the check of the correlation id as one locked operation; a used id is refused |
| `Subagents.LifecycleRegistry.RegisterChild` | agent/subagent_lifecycle.py:254-257 | the record and its correlation id are stored as one locked operation |
| `Subagents.LifecycleRegistry.StartChild` | agent/subagent_lifecycle.py:401-406 | a requested cancellation is not overwritten by the start |
| `Subagents.LifecycleRegistry.ResultOf` | agent/subagent_lifecycle.py:315-329 | a result is ready if and only if the state is terminal, and then it carries that state |
| `Subagents.LifecycleRegistry.CancelChild` | agent/subagent_lifecycle.py:291-313 | the request is recorded if and only if the record is known and not terminal; the answer is unknown, already terminal, accepted, or unsupported when the agent cannot be interrupted |
| `SessionViews.SetItemShown` | gateway/session_state.py:232-234 | assignment is dictionary assignment for a present value and removal for an absent one; no other view and no lease moves |
| `SessionViews.DelItemShown` | gateway/session_state.py:236-244 | deletion succeeds if and only if the key is shown, and removes just it |
| `SessionViews.ClearScopeShown` | gateway/session_state.py:77-127 | a scope's clear empties exactly its own fields of one session, never the lease |
| `SessionViews.StepRefinesIff` | gateway/session_state.py:206-264 | one step of a view is one step of its dictionary if and only if no absent value is stored |
| `SessionViews.RunRefines` | gateway/session_state.py:206-264 | over any run of present values a view equals the dictionary it replaced |
| `SessionViews.SetTokenLeaves` | gateway/session_state.py:314-318 | after a set the session's slot holds that token alone, or nothing if it is None, and no other session's moved |
| `SessionViews.SetTokenHeld` | gateway/session_state.py:314-318 | the single slot behaves like the dictionary keyed by session and generation if and only if the token is not None and no other generation holds the session's |
| `SessionViews.LeaseRunsHeldIff` | gateway/session_state.py:314-330 | over any run of sets, releases and field operations the slots stand for that dictionary throughout if and only if no token is set to None, nor while another generation holds one |
| `SessionViews.NewerGenerationTakesSlot` | gateway/session_state.py:314-330 | a run of two sets that does, after which the older generation cannot release |
| `SessionViews.StoredAbsentIsNotShown` | gateway/session_state.py:224-234 | a stored value that counts as absent is in the dictionary and not in the view |
| `SessionViews.DelTokenHeld` | gateway/session_state.py:320-330 | a release succeeds if and only if that generation holds the token |
| `SessionViews.LeasesUntouched` | gateway/session_state.py:52-60 | no field operation, turn end or boundary moves a lease |
| `SessionViews.PersistentSurvives` | gateway/session_state.py:149-151 | turn ends and boundaries never reset the run generation nor any other persistent field |
| `SessionViews.Runner.ClearTurn` | gateway/session_state.py:77-88 | the end of a turn empties exactly the fields of that scope |
| `SessionViews.Runner.RebindToken` | gateway/session_state.py:314-318 | setting a lease writes token and generation of one session |
| `SessionViews.Runner.ReleaseToken` | gateway/session_state.py:320-330 | releasing fails and changes nothing unless that generation holds the token |
| `SessionViews.Runner.ClearField` | gateway/session_state.py:258-264 | the loop over all sessions empties one view |
| `SessionViews.Runner.ReplaceField` | gateway/session_state.py:412-416 | assigning a dictionary leaves exactly its present entries shown, and the other views alone |

## Left out

- The CJK bigram index: its triggers are defined elsewhere, and its backfill has the shape of the trigram one; its stale-index reset and its own markers are not modelled.
- Trigram availability is held fixed: without that tokenizer the finishing sweep would name a missing table.
- `FtsProtocol.RunsStayExact`: the events demote a legacy store once; what a second demotion by a process that decided earlier does is said by `FtsProtocol.ChunkKeepsInvIff` and `FtsProtocol.FinishKeepsInvIff`.
- The legacy inline index's own content: while the layout is legacy nothing is claimed about search.
- `_execute_write`, `_ensure_fts_schema`, `_has_fts_trash` and the chunk size live in hermes_state.py, which is not part of this model: a write is one atomic step and the chunk size is any positive number.
- VACUUM, checkpointing, incremental merge, throttling, progress callbacks and the `fts_optimize_available` flag row.
- `FtsSearch.SnapshotSearchIsComplete`: conjunctive queries with room under the limit only, and a term's match is assumed to be a substring match; ranking, snippets, order, OR and NOT queries and query sanitizing are not modelled.
- `SessionImport.Validate`: sizes and message shapes stand for the field-by-field checks, ids and parents arrive already stripped, and the errors raised before the pass for a payload that is not a list or has too many sessions are not modelled.
- Message rows, model fields and counters of an import, and `export_session_lineage`.
- The unmanaged path of the stream wrapper, its resource cleanup, and a completed-response stream.
- The fill-in of a missing tool type in chat-completions mode, and request values that are not JSON.
- `RequestMerge.ProviderRequest`: a list of pairs under `extra_headers` is taken like Python's `dict` takes it, except that a key that is no string and a two-field object in place of a pair count as an error.
- `Accumulator.TextIsStartPlusDeltas`: for event sequences the accumulator gets through; a citation delta for a block whose `citations` is not a list raises, and the model stops there.
- Context variables of a turn and their reset.
- The Relay library, its session open and close, contexts and asynchronous plumbing.
- `SafeRead.RawCloseIsHarmless`: for connections registered under their files, which `SafeRead.HarmlessIffRight` shows to be the exact condition; direct callers of the track functions, connections collected without close, a close that raises, and re-entry into the lock are not modelled.
- Clause texts, Markdown stripping and waiting for completion in the speech consumer; clauses are named by their ordinal.
- `_persist_migration`, `_custom_provider_entry_to_provider_config` and `load_config` live in hermes_cli/config.py, which is not part of this model: the conversion of an entry is any function, loading is a deep merge over the schema defaults without key normalization or environment references, and a write is any function of the old and new configuration.
- `LadderRuns.CrashConvergesIff`: for writers that keep what loads, which `LadderWriters.StrippingWriterIsOk` shows of every writer that leaves out defaults and `LadderWriters.PlainWriterIsOk` of one that leaves out nothing, and for schemas that meet `StepsAlike.SchemaOk`; the same goes for the other results on runs.
- `StepsAlike.SttAlikeIff`: for a schema whose speech-to-text provider is "local", as shipped, or missing, because the step itself assumes "local".
- Non-finite numbers, dictionary keys that Python identifies across types (true and 1), non-ASCII lower-casing and the console output of the ladder; the final version bump is not the ladder's.
- Non-ASCII digits in list markers, newline translation, backups and file writes of the importer; its other importers.
- `Subagents.RecordsOnlyMoveForward`: child ids are taken to be fresh; capability checks, hashes, waiting and the delivery of an interrupt are not modelled.
- Equality and printing of the session views, and plain runners without session state.
- `_heal_gateway_routing_pk` and the repair of duplicate titles: one-statement table repairs that would only add easy members.
- Process management, tools, prompts, configuration defaults and user interfaces.
