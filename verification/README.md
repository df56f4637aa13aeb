# PDI and Jarvis, verified

Dafny models of the stateful cores of the personal data index (PDI) and of the Jarvis
turn pipeline, with proofs about every run, every interleaving and every crash point.
`dafny verify dfyconfig.toml` checks everything.

## What is modelled

**World-model reconciliation.** `WorldModel`, `Matcher` and `Reconciliation` define one
synchronisation run as a function of the stored tables: decide on a fact, read its content at
most once, decide again, write, and only after a complete scan turn sources off. Tables keep
insertion order, because lookups return the first match. `InMemoryRepository` and
`SyncEngine` are the same operations on objects that are changed in place, with rollback by
snapshot, and are proved equal to the functions. On the functions: convergence of a full sync,
an invariant over all mixes of runs, deactivation only on evidence, and exactly when a second
sync is a no-op. `FactLaws` says on a fact's own fields what becomes of it.
`Checkpoint` interleaves the steps of any number of incremental runs, with
crashes and competing writers of the state row.

**The Jarvis turn.** `VisibleDeltaFilter` (think blocks), `ToolTelemetry` and
`ResourceResults` (threads), `HermesBridge` (what is written), `HermesAdapter` (lines to
events), `AdapterChecks` (which record streams pass),
`TurnRegistry` (accumulation and bounded log), `JarvisState` (the durable store),
`TurnCoordinator` (write, then publish), `TurnPipeline` (all of it together), and
`ReplayStream` (subscribers that fall behind, are cut off, and come back).

**The cutover.** `CutoverHost` is a machine whose every call may fail before, during or after
its effect, and keeps a trace of every state; `Cutover` is the operator's state machine over
it; `CutoverDatabase` is the evidence comparison and the enabling transaction. `Story` runs any
sequence of operator processes, each of which may die in any state it passed.

**Queries and ledgers.** `Cursor` and `Pagination` (keyset pages against the one ordered
query), `PipelineRegistry` (dependency search), `PipelineLedger` (runs, recovery and the
status that inspects only latest runs), `StatementTable` (publishing observed statements), and
`ChunkedBody` (section 7.1 of RFC 9112).

Results that are not what one would first expect:

- A second full sync is *not* always a no-op. A fact with an empty version tag, on a stored
  source that has none, is taken as unchanged the first time, which stores the empty tag; the
  second time the tags differ, the content is read, and the source may move to another blob.
  `IdempotentExactlyWhen` gives the exact condition, `SecondSyncIsNotIdempotent` a witness.
- A new file with the content of a stored message takes over the message's blob, and with it
  an asset of the other kind. Its own fact is refused from then on, and every sync that meets it
  fails (`FileLikeAMessage`, `BorrowedIsRefused`); `DoneFactIsUpheld` gives the
  exact condition.
- One event subscription may end before the terminal event (`MayEndBeforeTheTerminal`): a
  closed connection delivered it exactly if the turn had ended at its last look
  (`ClosedDeliveredExactlyWhen`). One reconnection then reaches it (`ReconnectReachesTheEnd`).
- The status reads latest runs and last successes in two transactions. If a provider runs
  again in between, a dependent can be reported as validated although it is not
  (`SplitReadsCanMislead`, with the history in `MisleadingHistory`). `SplitReadsSoundExactlyWhen`
  and `SplitReadsMissExactlyWhen` say when two reads are right; from one state the report is
  exact (`GetStatus`).
- A bridge may report an error code that its adapter takes over and the store refuses, exactly
  if the code starts with an underscore or has a letter or digit beyond ASCII
  (`RefusedCodeExactlyWhen`). The turn then ends failed under `runtime_stream_failed`, durably
  and publicly, with that event in place of the bridge's (`Consume`).
- A title of more than 3040 characters makes a search cursor that the service itself refuses
  (`LongTitleEndsSearch`); `WalkRefinesQuery` says exactly which walks complete.

Conventions: fresh identifiers are counters and clocks are integers that the caller moves on; a
content hash fixes a content's length; JSON text, SHA-256 and collations are parameters with
the laws they need. A `reliable` constant is false where a store or host may fail at any time.

## Model

| member | source | states |
|---|---|---|
| Reconciliation.OneReadSuffices | src/pdi/engine/sync_engine.py:222-293 | a decision made with content evidence never asks for more, so one read per fact is enough |
| StepEffects.StepHasEffect | src/pdi/identity/matcher.py:52-458 | every decision that is executed has one of six effects on the tables, with exactly the rows it writes; a fact that is not done changes nothing |
| WorldInvariants.StepKeeps | src/pdi/identity/matcher.py:98-458 | one fact keeps rows, identities and the asset of every source, and preserves the invariant |
| WorldInvariants.RunKeeps | src/pdi/engine/sync_engine.py:174-359 | any run, however it ends, keeps all of that |
| WorldInvariants.RunAllKeeps | src/pdi/engine/sync_engine.py:174-359 | so does any mix of full, incremental and failing runs |
| WorldInvariants.ReachableWorlds | src/pdi/identity/matcher.py:98-280 | every state reachable from an empty store has no dangling reference and unique (provider, external id) and (asset, hash); assets, blobs and sources are never removed and no source changes asset |
| Convergence.FullSyncConverges | src/pdi/engine/sync_engine.py:199-359 | after a normal full sync the active ids of the provider are those of its facts that name a provider and an id and are of a file or a message, plus the previously active ids otherwise seen, from any stored state and in any fact order |
| Convergence.DeactivationHasEvidence | src/pdi/engine/sync_engine.py:309-359 | a run turns a source off only if it completed, and only on its tombstone or its absence from a completed authoritative scan |
| Convergence.UncompletedRun | src/pdi/engine/sync_engine.py:309-334 | a run that did not complete left exactly what its scan wrote |
| FactLaws.DoneFactIsUpheld | src/pdi/identity/matcher.py:52-280 | a fact that names provider and id, of a file or message, once done has an active unscoped source that says field by field what it says, over a stored blob, which for a new fact is its content, in an asset of its kind; the one exception, a new file whose content is stored for something else, is an if and only if |
| FactLaws.OtherFactsDoNothing | src/pdi/identity/matcher.py:524-537 | every other fact changes nothing and is done, unless it is a folder with a size that is none |
| FactLaws.NewFactIsDone | src/pdi/identity/matcher.py:98-176 | a new file or message with a proper body is done, unless that content is stored under another length |
| FactLaws.WrongLengthRaises | src/pdi/identity/matcher.py:485-499 | evidence whose length is not the fact's size is never stored: it raises |
| FactLaws.WrongBodyRaises | src/pdi/identity/matcher.py:461-501 | so does a body read for the fact, with that very error if the evidence is itself valid |
| FactLaws.ReadExactlyWhen | src/pdi/identity/matcher.py:184-200 | the content of a known fact is read exactly if its tag is not the stored one, an empty tag counting as none, or it names a size that is not the blob's, or the stored size was another |
| FactLaws.BorrowedIsRefused | src/pdi/identity/matcher.py:117-141 | a file that has come to share a message's blob is refused for its type whenever its fact is met again, whatever runs come in between |
| FactLaws.FileLikeAMessage | src/pdi/identity/matcher.py:539-554 | which happens from an empty store: a message, a file of equal content, and the file's fact again, which raises |
| FactLaws.FullSyncMirrors | src/pdi/engine/sync_engine.py:199-359 | after a normal full sync every file or message told of is active and says what its fact says |
| FactLaws.TombstonesAreHeeded | src/pdi/engine/sync_engine.py:309-334 | after a completed run, full or incremental, nothing a tombstone names is active |
| FactLaws.CompletesExactlyWhen | src/pdi/engine/sync_engine.py:199-359 | a run completes exactly when every fact was done, discovery reached its end, and the tombstones are of the provider and unambiguous |
| Idempotence.SettledStep | src/pdi/identity/matcher.py:202-280 | a fact whose stored source already agrees with it, read again or not, changes no row |
| SecondRun.ScanSettles | src/pdi/identity/matcher.py:318-399 | a completed scan leaves every fact settled, outside the stale-blank-tag family |
| SecondRun.SecondRunIsQuiet | src/pdi/engine/sync_engine.py:199-359 | outside that family a second full sync completes and changes nothing |
| SecondRun.SecondRunDiffers | src/pdi/identity/matcher.py:202-280 | inside it, the second sync fails or changes a row |
| SecondRun.IdempotentExactlyWhen | src/pdi/engine/sync_engine.py:222-293 | the second full sync is a no-op if and only if no fact is in that family beforehand |
| BlankTagExample.SecondSyncIsNotIdempotent | src/pdi/identity/matcher.py:178-280 | a concrete store and fact for which the second sync is not a no-op |
| InMemoryStore.InMemoryRepository.FindSource | src/pdi/repository/memory.py:41-64 | the first unscoped source of that provider and id in insertion order, or the ambiguity error, as the stored objects are now |
| InMemoryStore.InMemoryRepository.ListActiveSources | src/pdi/repository/memory.py:66-79 | exactly the active unscoped sources of the provider, in order, as the stored objects themselves |
| InMemoryStore.InMemoryRepository.FindBlobByHash | src/pdi/repository/memory.py:81-89 | the first blob with that hash, whatever its asset |
| InMemoryStore.InMemoryRepository.FindBlobByHashInAsset | src/pdi/repository/memory.py:91-103 | the first blob with that hash among those of one asset |
| InMemoryStore.InMemoryRepository.ExecuteAction | src/pdi/repository/memory.py:135-192 | exactly the specified effect on the tables, or the specified error and no effect |
| InMemoryStore.InMemoryRepository.ExecuteMany | src/pdi/repository/memory.py:123-133 | all decisions or none: a failure leaves the contents as they were although stored objects were assigned in place, even when decisions share objects with the store |
| Engine.SyncEngine.ProcessFact | src/pdi/engine/sync_engine.py:199-307 | one fact on the stored objects is one step of the specification |
| Engine.SyncEngine.ScanFacts | src/pdi/engine/sync_engine.py:195-307 | the loop's tables, seen ids and skipped count are those of the specified scan |
| Engine.SyncEngine.Tombstones | src/pdi/engine/sync_engine.py:321-334 | deactivation decisions on copies, for exactly the active sources the tombstones name, stored objects untouched |
| Engine.SyncEngine.RunBatch | src/pdi/engine/sync_engine.py:174-359 | the imperative run ends in the state and with the result of the specified run |
| Engine.SyncEngine.SyncOnce | src/pdi/engine/sync_engine.py:91-101 | a full sync is that run on the provider's complete batch |
| Engine.SyncEngine.SyncIncremental | src/pdi/engine/sync_engine.py:103-172 | an advanced checkpoint is the batch's own, over the version read, after a completed run; a conflict means another writer moved the row; a refused checkpoint blocks the row; a discovery that raises anything else changes nothing |
| SyncState.StateStore.CompareAndSwapCheckpoint | src/pdi/engine/sync_engine.py:146-156 | swaps exactly when the version is the expected one and nothing is blocked, and raises the version |
| Checkpoint.PlayKeeps | src/pdi/engine/sync_engine.py:103-172 | the protocol invariant holds after every interleaving of runs, crashes and other writers |
| Checkpoint.CheckpointProtocol | src/pdi/engine/sync_engine.py:103-156 | in every interleaving each version admits at most one swap; a stored checkpoint was swapped in after every fact decision and tombstone of its batch, no fact skipped; and none is swapped in between a refused checkpoint and the recovery from it |
| Checkpoint.UndisturbedRunSwaps | src/pdi/engine/sync_engine.py:103-156 | the protocol's steps taken in a row are the sequential run: if it completes, they leave its tables and store its checkpoint under the next version |
| VisibleText.VisibleDeltaFilter.Feed | src/jarvis/runtime/hermes_bridge.py:93-122 | what is visible so far plus the stripping of what is buffered and yet to come is the stripping of the whole text |
| VisibleText.FilterChunks | src/jarvis/runtime/hermes_bridge.py:85-122 | for every way of cutting a text into feeds, the output is one whole-text removal of think blocks, which the next four rows say on the literal tags |
| VisibleText.PlainIsKept | src/jarvis/runtime/hermes_bridge.py:102-116 | text without an opening tag, in any letter case, is shown as it is |
| VisibleText.OpenBlockIsHidden | src/jarvis/runtime/hermes_bridge.py:102-116 | an opening tag without a closing one after it hides the rest |
| VisibleText.BlockIsRemoved | src/jarvis/runtime/hermes_bridge.py:102-111 | a closed block goes, tags included, and what follows is treated alike; with the two rows above this determines the visible part of every text |
| VisibleText.AnswerAroundThinking | src/jarvis/runtime/hermes_bridge.py:104-111 | on `<think>` and `</think>` themselves: what stands around the block is what is shown |
| HermesBridge.EmitSlices | src/jarvis/runtime/hermes_bridge.py:415-416 | the delta records are the text in slices of 16384, whatever other threads write in between; an exception leaves a leading part of them |
| HermesBridge.SlicesAre | src/jarvis/runtime/hermes_bridge.py:415-416 | no slice is empty, and all but the last have 16384 characters |
| HermesBridge.Answered | src/jarvis/runtime/hermes_bridge.py:395-422 | text is written in order and never beyond the visible answer, exceptions included; a zero exit with no other end reported means the answer was written in full and then completed; without exceptions or cancellation a visible answer is |
| HermesBridge.CompleteRecordsText | src/jarvis/runtime/hermes_bridge.py:403-417 | the text of a completed answer's records is the think-stripped answer |
| ToolTelemetry.AnyInterleaving | src/jarvis/runtime/hermes_bridge.py:163-204 | under every interleaving of starts and the two halves of completions, the adapter's id and matching checks never reject the stream: it accepts all of it exactly when the text is within the output limit |
| ToolTelemetry.CompletionAccepted | src/jarvis/runtime/hermes_adapter.py:196-256 | the completion record that follows such a stream is accepted, and no other end is reported |
| ToolTelemetry.ToolTelemetry.Start | src/jarvis/runtime/hermes_bridge.py:173-186 | number, entry and record are made in one locked step, after which the adapter still follows the stream, whatever its output limit |
| ToolTelemetry.ToolTelemetry.TakeCompletion | src/jarvis/runtime/hermes_bridge.py:188-197 | an operation is taken out once, and the adapter still awaits exactly what is outstanding |
| ToolTelemetry.ToolTelemetry.WriteCompletion | src/jarvis/runtime/hermes_bridge.py:198-204 | outside the lock any outstanding completion may be recorded next, and the adapter takes it |
| AdapterChecks.OrderlyExactlyWhen | src/jarvis/runtime/hermes_adapter.py:196-256 | a stream of records is accepted if and only if readiness comes first and once, operations start as 1, 2, 3 and end once under their own names, at most one completion comes, the text is within the limit and values are in range |
| AdapterChecks.OperationsAreReported | src/jarvis/runtime/hermes_bridge.py:153-204 | every operation with a usable id below the bound is reported started under the next number, and completed under the same number and names with its duration cut to range, whatever other threads do |
| ResourceResults.ExtractRefs | src/jarvis/runtime/hermes_bridge.py:243-259 | the first eight distinct canonical references of the rows, in order |
| ResourceResults.ReferencesAre | src/jarvis/runtime/hermes_bridge.py:243-259 | exactly the canonical references among the rows, in the order of their first occurrence |
| ResourceResults.EverySchedule | src/jarvis/runtime/hermes_bridge.py:262-304 | in every schedule the snapshot is acceptable to the adapter and is the result of the latest-started operation published |
| ResourceResults.PublicationOrderIsIrrelevant | src/jarvis/runtime/hermes_bridge.py:283-304 | the same published results give the same snapshot in whatever order they completed |
| ResourceResults.CompletedIsPresented | src/jarvis/runtime/hermes_bridge.py:272-300 | an operation completed with its own tool and readable rows is collected, and presented unless a later-started one was offered before |
| ResourceResults.OtherwiseNothing | src/jarvis/runtime/hermes_bridge.py:283-295 | another tool's result, or one that cannot be read, collects nothing |
| HermesAdapter.CompletionIsRecord | src/jarvis/runtime/hermes_adapter.py:196-256 | accepted lines are all readable, and completion is known exactly when a completion record was among them, with its valid references |
| HermesAdapter.DigestMeasures | src/jarvis/runtime/hermes_adapter.py:240-246 | the visible bytes counted are those of the whole text, however it is cut, and the limit error means that the text exceeds it |
| HermesAdapter.Utf8Counts | src/jarvis/runtime/hermes_adapter.py:240-243 | what is counted are the bytes of the text in UTF-8 (section 3 of RFC 3629) |
| HermesAdapter.HermesTurn.Emit | src/jarvis/runtime/hermes_adapter.py:128-162 | events are numbered on; the first terminal event is held back and ends emission |
| HermesAdapter.HermesTurn.ReadLines | src/jarvis/runtime/hermes_adapter.py:196-256 | fails exactly when the lines do not digest; otherwise the queue tells every record but empty text and completion, field by field and in order, and a reported end is held |
| HermesAdapter.HermesTurn.Conclude | src/jarvis/runtime/hermes_adapter.py:257-273 | which ending completes, cancels or fails the turn, and under which code |
| HermesAdapter.HermesTurn.Run | src/jarvis/runtime/hermes_adapter.py:116-293 | for every line sequence, exit code, timeout and exception: events numbered from 1, one terminal event, last; completed only after accepting every line, and then with all its text |
| TurnRegistry.SummaryAppend | src/jarvis/runtime/registry.py:51-63 | log, phase, text, number and end stay the summary of all that was published, under one more event |
| TurnRegistry.LogHolds | src/jarvis/runtime/registry.py:51-63 | the log is the latest events, as many as its limit, numbered up to the last |
| TurnRegistry.ActiveTurn.Publish | src/jarvis/runtime/registry.py:51-73 | publishes exactly the next number before an end, and refuses anything else without effect |
| TurnRegistry.ActiveTurnRegistry.Register | src/jarvis/runtime/registry.py:38-46 | a new turn is registered once, and only ended turns are dropped to make room |
| JarvisState.UniqueOfDistinct | src/jarvis/state/store.py:87-109 | distinct references are stored as they are |
| JarvisState.UniqueKeepsFirst | src/jarvis/state/store.py:87-109 | no reference is stored twice, and each keeps the place of its first occurrence |
| JarvisState.TrimmedIs | src/jarvis/state/store.py:53 | trimming takes white space off both ends, all of it there and nothing else |
| JarvisState.JarvisStateStore.CreateTurn | src/jarvis/state/store.py:52-73 | a trimmed user message and a running turn, exactly when the conversation exists and has no running turn |
| JarvisState.JarvisStateStore.CompleteTurn | src/jarvis/state/store.py:87-109 | only a running turn completes, once, with one assistant message; a failure changes nothing |
| JarvisState.JarvisStateStore.FinishWithoutMessage | src/jarvis/state/store.py:111-127 | ends a running turn without a message and returns an ended one unchanged |
| JarvisState.JarvisStateStore.InterruptOrphanedRunningTurns | src/jarvis/state/store.py:129-133 | all running turns, and only those, become interrupted |
| TurnCoordination.TurnCoordinator.Start | src/jarvis/web/coordinator.py:20-37 | a started turn is running, registered and owned; a runtime that does not start ends it failed, durably and publicly; an unreadable history leaves it running, unregistered and unowned |
| TurnCoordination.TurnCoordinator.Write | src/jarvis/web/coordinator.py:105-119 | the store is written before the event it allows, a refused completion becomes a failure of the same number, and an exception has changed nothing |
| TurnCoordination.TurnCoordinator.FailStream | src/jarvis/web/coordinator.py:121-127 | a running turn whose stream raised ends failed, and an ended one stays as it is |
| TurnCoordination.TurnCoordinator.Consume | src/jarvis/web/coordinator.py:102-127 | for any events, store failures and shutdown point: status and published end agree, or a shutdown kept the end unpublished; one message exactly on completion, holding all text before it; on a reliable store a complete run is published and stored as it is, or, if the store refuses its error code, with a stream failure in place of its end |
| TurnCoordination.TurnCoordinator.Shutdown | src/jarvis/web/coordinator.py:48-89 | only owned running turns change, to interrupted; afterwards none of them runs |
| TurnPipeline.UnderscoreCodeRefused | src/jarvis/state/store.py:25 | a code the adapter takes over and the store refuses |
| TurnPipeline.AccentedCodeRefused | src/jarvis/runtime/hermes_adapter.py:365-370 | another one, with a letter beyond ASCII |
| TurnPipeline.RefusedCodeExactlyWhen | src/jarvis/runtime/hermes_adapter.py:365-370 | a sanitized code is refused by the store exactly when it was taken over and starts with an underscore or has a character beyond ASCII |
| TurnPipeline.CommitOfCompleteTurn | src/jarvis/web/coordinator.py:104-120 | what a complete run commits is its whole text and its end's references |
| TurnPipeline.RunBridge | src/jarvis/runtime/hermes_bridge.py:403-417 | a run of events that ends completed carries the whole stripped answer and the collected references; a visible answer within the output limit is so reported when nothing fails or cancels, the adapter's acceptance being proved |
| TurnPipeline.RunTurn | src/jarvis/web/coordinator.py:102-127 | end to end: a turn stored as completed holds exactly the think-stripped final response and the collected references; a visible answer within the output limit is stored when nothing fails or cancels |
| ReplayStream.LookFinds | src/jarvis/runtime/registry.py:84-89 | a look finds everything beyond the cursor that the log still has |
| ReplayStream.EverySchedule | src/jarvis/runtime/registry.py:81-96 | over every schedule and chain of connections a subscriber gets published events with strictly increasing numbers |
| ReplayStream.KeepingUpMissesNothing | src/jarvis/runtime/registry.py:81-96 | no gap if it never gets past a look while more than the limit behind |
| ReplayStream.FallingBehindLoses | src/jarvis/runtime/registry.py:86-92 | otherwise it loses exactly what the log dropped |
| ReplayStream.MayEndBeforeTheTerminal | src/jarvis/runtime/registry.py:90-96 | a schedule in which one subscription ends before the terminal event |
| ReplayStream.ClosedDeliveredExactlyWhen | src/jarvis/runtime/registry.py:81-96 | over every schedule, a connection that closed delivered the terminal event if and only if the turn had already ended at its last look and the log holds anything |
| ReplayStream.ReconnectReachesTheEnd | src/jarvis/runtime/registry.py:81-96 | one more connection gives the rest of the log and closes on the terminal event |
| CutoverDatabase.PreservedTransitive | src/pdi/production_ops/database.py:92-103 | comparisons compose |
| CutoverDatabase.ComparesExactlyWhen | src/pdi/production_ops/database.py:92-103 | field by field: a comparison passes if and only if digests and each of the five counts are equal, sources and runs are kept, no state falls or vanishes, and, with a pipeline, the ledger gained one completed run of it |
| CutoverDatabase.QualificationRuns | src/pdi/production_ops/database.py:92-103 | over a whole qualification the ledger gains exactly one run per pipeline, completed; whole-table digests and the five counts end as they began, and sources, runs and states only grow |
| CutoverDatabase.Database.SetEnabled | src/pdi/production_ops/database.py:105-114 | one transaction sets exactly the planned rows, or nothing |
| CutoverDatabase.Database.VerifyDisabled | src/pdi/production_ops/database.py:116-133 | passes only over the planned rows, all disabled |
| CutoverDatabase.ReadsOnFields | src/pdi/production_ops/database.py:116-133 | what the reads accept in each of the three tables: the planned rows, with just the two providers' enabled, or none |
| CutoverDatabase.DisablingReadsBackExactlyWhen | src/pdi/production_ops/database.py:105-133 | disabling reads back as disabled exactly when the tables hold the planned rows and the preserved ones were disabled |
| CutoverHost.SaveIsSafe | src/pdi/production_ops/cutover.py:234-238 | a journal write that lists what was earned keeps every safety clause, whether or not it takes effect |
| CutoverHost.SwitchIsSafe | src/pdi/production_ops/database.py:105-114 | enabling is safe under a journal under way, disabling always |
| CutoverHost.Host.Install | src/pdi/production_ops/cutover.py:250-274 | file by file, stopping anywhere, with the release current only at the end |
| CutoverHost.Host.Stop | src/pdi/production_ops/cutover.py:286-306 | success means no timer is on and no writer runs, because timers go first |
| Cutover.Cutover.Abort | src/pdi/production_ops/cutover.py:400-426 | confirmed only with timers and writers stopped, identities read back disabled and the journal durably ABORTED; and confirmed whenever no call fails |
| Cutover.Cutover.Prepare | src/pdi/production_ops/cutover.py:359-368 | nothing is written before the journal is durable; a refused preflight changes nothing |
| Cutover.Cutover.QualifyAll | src/pdi/production_ops/cutover.py:369-380 | pipelines qualify in order, each compared with the one before, the journal listing them |
| Cutover.Cutover.Activate | src/pdi/production_ops/cutover.py:381-393 | timers go on only under a journal that lists every qualification, and PASS only once they are all on |
| Cutover.Cutover.Apply | src/pdi/production_ops/cutover.py:353-398 | PASS and a confirmed abort exclude each other; every state on the way is safe; a second attempt changes nothing |
| Cutover.Cutover.AbortRecorded | src/pdi/production_ops/cutover.py:477-481 | the operator's abort of a recorded cutover is confirmed under the same conditions |
| Cutover.Cutover.Verify | src/pdi/production_ops/cutover.py:428-437 | changes nothing, and passes exactly over a machine that still runs as recorded |
| Cutover.RunProcess | src/pdi/production_ops/cutover.py:452-498 | whatever process runs and wherever it dies, the machine is left safe, and a parked one stays parked |
| Cutover.Story | src/pdi/production_ops/cutover.py:452-498 | over any processes and crashes: config, release or enabled identities imply a durable journal, timers imply all qualifications listed, ABORTED implies inert; after a confirmed abort it is inert for good |
| Cursor.RoundTrip64 | src/pdi/query/cursor.py:38-56 | unpadded URL-safe Base64 decodes to what was encoded |
| Cursor.DecodeExactlyWhen | src/pdi/query/cursor.py:44-77 | a cursor is accepted exactly when it is short enough and the canonical sealing of a payload of this version |
| Cursor.CursorRoundTrip | src/pdi/query/cursor.py:26-77 | a cursor handed out is taken back unchanged exactly when it fits |
| Cursor.CursorFitsExactlyWhen | src/pdi/query/cursor.py:11-48 | it fits exactly when its JSON has at most 3040 bytes |
| Pagination.OrderedSorts | src/pdi/repository/postgres.py:1246-1263 | the ordered query holds exactly the rows its conditions keep, strictly ordered |
| Pagination.AfterPosition | src/pdi/repository/postgres.py:1231-1244 | the position condition keeps exactly the rows after that row in the order |
| Pagination.RestOfTheQuery | src/pdi/repository/postgres.py:1219-1263 | going on after a row, over a table that only gained later rows, gives the rest of the first query |
| Pagination.FirstRequest | src/pdi/query/service.py:159-281 | a first page is given exactly for limits of 1 to 100, a range that is not inverted, and days that are positive, within the calendar and not beside a range; it is the first rows of that ordered list, with a cursor if and only if there are more |
| Pagination.TimeCursorFits | src/pdi/query/service.py:263-276 | the cursor of a listing always fits |
| Pagination.WalkRefinesQuery | src/pdi/query/service.py:211-281 | following cursors with any limits, clocks and later inserts gives, in order and each once, exactly the rows the query asks for at the first clock reading: filters, observed range, nothing as new as the clock, and for a listing without range only the last 30 or given days; for a listing always, for a search exactly if the cursors it takes back fit |
| Pagination.WalksAgree | src/pdi/query/service.py:322-378 | two finished walks over the same window list the same resources |
| Pagination.LongCursorStops | src/pdi/query/service.py:361-373 | a cursor longer than the bound stops the walk with an error |
| Pagination.LongTitleEndsSearch | src/pdi/query/service.py:361-373 | a page that ends on a title of more than 3040 characters, with more to come, ends the search with that error |
| Pagination.ForeignCursorRefused | src/pdi/query/service.py:594-610 | a cursor of another operation or query is refused as such |
| PipelineRegistry.Search.Visit | src/pdi/data_status/registry.py:142-151 | a visit finishes its key after its dependencies, or the graph has a cycle; it terminates |
| PipelineRegistry.OrderedHasNoCycle | src/pdi/data_status/registry.py:139-154 | a finishing order of all keys excludes cycles |
| PipelineRegistry.ValidateRegistry | src/pdi/data_status/registry.py:124-154 | returns normally if and only if keys are unique and not blank, dependencies known and no cycle exists |
| PipelineLedger.OneRunning | src/pdi/data_status/repository.py:52-71 | no two runs of one pipeline are running |
| PipelineLedger.PipelineRunRepository.FailInterruptedRun | src/pdi/data_status/repository.py:131-154 | ends the one running row of the key, if any, as interrupted |
| PipelineLedger.ExecuteWithLedger | src/pdi/operational.py:182-202 | wherever the process dies the ledger stays lawful; begun runs end once, as their exit code says, and ended rows never change |
| PipelineLedger.LatestMarksLast | src/pdi/data_status/service.py:74-85 | no run of a pipeline bears later than its latest run |
| PipelineLedger.GetStatus | src/pdi/data_status/service.py:56-99 | a pipeline is reported as validated exactly when every run of its dependencies' groups is settled at its last success, which is the latest end of a completed run of it; validated implies a completed run for each dependency; from one state of the ledger no grouped run ended after the reported success |
| PipelineLedger.ReportIsSound | src/pdi/data_status/service.py:92-99 | what a reader may conclude from a view that says validated |
| PipelineLedger.SplitReadsSoundExactlyWhen | src/pdi/data_status/service.py:49-51 | with two reads, a reported validation is true of the later state if and only if no grouped run it has not seen bears later than the success |
| PipelineLedger.SplitReadsMissExactlyWhen | src/pdi/data_status/service.py:49-51 | a true validation is reported if and only if every group had a run at the first read |
| PipelineLedger.SplitReadsCanMislead | src/pdi/data_status/service.py:49-51 | two states between which a pipeline is reported as validated that is not |
| PipelineLedger.MisleadingHistory | src/pdi/data_status/repository.py:52-115 | those two states are reached one from the other by beginning and finishing runs |
| StatementTable.ValidateStatementSet | src/pdi/observation/models.py:193-228 | accepts exactly covered, well-typed sets without repeated values or several values of a single-valued predicate |
| StatementTable.ReplacingKeepsOneValue | src/pdi/observation/postgres.py:195-217 | replacing keeps one current value per single-valued predicate and generator, and no value twice |
| StatementTable.ReplacingKeepsExclusive | src/pdi/observation/postgres.py:141-176 | publishing under a family's guard keeps one current generator of the family |
| StatementTable.ObservationRepository.Publish | src/pdi/observation/postgres.py:128-220 | on a reliable store it succeeds if and only if the asset is stored and no current statement about a covered predicate is by another generator or version of the family; then the generator's current statements are the batch, as a multiset; history only grows and never turns current again; other rows are untouched; an equal batch writes nothing |
| StatementTable.ObservationRepository.MarkRunning | src/pdi/observation/postgres.py:233-265 | completed work is handed out exactly for another fingerprint, running work exactly when it is stale, failed and unknown work always |
| StatementTable.ObservationRepository.MarkFailed | src/pdi/observation/postgres.py:267-274 | a known state becomes failed with its error, keeping its start; an unknown one is refused |
| StatementTable.Republish | src/pdi/observation/postgres.py:205-210 | publishing a batch again writes nothing and its work is not handed out again |
| StatementTable.HandedOut | src/pdi/observation/postgres.py:233-274 | through the states: done for one input, handed out for any other, then kept while fresh, and after a failure handed out again |
| ChunkedBody.SoundWireDecodes | src/jarvis/web_access/http.py:302-332 | any chunks, extensions and trailers within bounds decode to the concatenated data |
| ChunkedBody.DecodesExactlyWhen | src/jarvis/web_access/http.py:302-332 | bytes are accepted as a body exactly when they start with such an encoding of it |
| ChunkedBody.SizeIsRead | src/jarvis/web_access/http.py:307-315 | a size line of a number in base 16, in either case, with any extension within the bound, is read as that number |
| ChunkedBody.OnlySizesAreRead | src/jarvis/web_access/http.py:307-315 | no other line announces a size |
| ChunkedBody.ReadExactBounded | src/jarvis/web_access/http.py:291-300 | exactly the asked-for bytes, however reads are portioned |
| ChunkedBody.ReadChunked | src/jarvis/web_access/http.py:302-332 | on any portioning, accepts only what the reference decodes and never more than the maximum; without timeouts it is the reference, errors included; it terminates |

## Left out

- Scoped repositories and principal-scoped runs: the same algorithm over another key.
- Asset titles, logging, metrics and provider metadata values: carried along, never decided on.
- Provider adapters, content download, subprocess signals and process groups: foreign behaviour; only their results are inputs.
- Engine.SyncEngine.SyncIncremental: the state row's storage (`pdi.sync_state`) is not part of this model; it is a compare-and-swap that raises the version, as the call sites need.
- SecondRun.IdempotentExactlyWhen: assumes distinct fact ids, a hash that fixes the length, and that no file's content hashes to a message's blob (`FileLikeAMessage` shows what happens otherwise).
- VisibleText.FilterChunks: letter case is folded character by character; Python's `lower` makes two characters of U+0130.
- HermesAdapter.HermesTurn.Run: the JSON syntax of a line and its field types are a parameter; a line is readable or it is not.
- TurnPipeline.RunTurn: a clean exit of the bridge is taken to mean that all its lines arrived; the agent's answer and its tool calls are inputs, and no tool thread writes after the last record.
- HermesBridge.Answered: a record of the main thread may fail to be written; the pipe itself does not break, and tool records are written whole.
- Lone surrogates in texts: characters here are Unicode scalar values.
- TurnCoordination.TurnCoordinator.Consume: a commit that takes effect although it raises is not modelled, nor events of another turn on the same stream.
- TurnCoordination.TurnCoordinator.Shutdown: the bounded wait for cancelled tasks and the clean-up of runtime children.
- Message history of a turn and the conversation list: plain reads.
- The tool descriptor table of the bridge: category, capability and tool names are inputs.
- Cutover.Cutover.Apply: file contents, ownership, health and release checks are calls that may refuse; nobody else changes journal, timers or identities meanwhile.
- Cutover.Cutover.Verify: what the evidence query reads beside the identities is any value.
- Pagination.WalkRefinesQuery: sources stay active during a walk; the filter conditions, the collation and the JSON text are parameters, with bounds on the length of that text.
- PipelineLedger.ExecuteWithLedger: the lock itself is not modelled beyond serialising runs, and clocks are strictly increasing.
- StatementTable.ObservationRepository.Publish: the order in which new rows are inserted, and JSON or float formatting of values.
- ChunkedBody.ReadChunked: header parsing, length-delimited bodies and content encodings.
- MCP servers, web routes, schema migrations, provisioning, document extraction and browser code: plumbing or unseen libraries.
