# Event-time stream engine: a verified model

The engine reorders incoming events by event time, hands them downstream when a watermark passes them,
aggregates them into tumbling windows and keyed sessions, keeps per-key totals in a partitioned store and a
journalled state backend, writes an output record per data event, and checkpoints. Six state machines make
it up, and this project models each of them, proves its laws over all runs, and then wires them together as
the pipeline does and proves what the engine as a whole promises.

The files, from the bottom up:

- `Model.dfy`: events, window identities, the window result and its fold.
- `Buffer.dfy`, `Watermark.dfy`, `Source.dfy`: the bounded reorder heap, the two-phase watermark and the
  source, one lock region per method.
- `Drain.dfy`: the drain handshake between any number of concurrent `AdvanceTo` and `Emit` calls, as an
  interleaving step system with a program counter per lock region.
- `DrainRefines.dfy`: that step system does, region by region, what the source and the tracker do.
- `Agg.dfy`, `Combiner.dfy`: the publish-once result store, and the merging of partial results.
- `Windows.dfy`, `WindowRuns.dfy`: tumbling windows with their catalog, and runs of them.
- `Sessions.dfy`, `SessionRuns.dfy`: keyed sessions, and runs of them.
- `Partition.dfy`: the partitioned store, repartitioning and cached routing.
- `State.dfy`, `Sink.dfy`, `Checkpoint.dfy`: journalled state, the in-place flushing sink, and the checkpoint
  coordinator.
- `Dag.dfy`, `Topology.dfy`: the three-colour cycle check, and the exactly-once pause and resume.
- `Engine.dfy`, `Pipeline.dfy`: the engine as one state with its operations, and the class of wired components
  proved to do exactly that.
- `ChainRuns.dfy`: each component's share of an engine run is a legal run of that component.
- `Ledger.dfy`: all components account for the same applied events.
- `FlushLedger.dfy`: deltas, state and journal, told from the applied events alone.
- `EngineHistory.dfy`: source, watermark, checkpoints and routing, told from the history of a run alone.
- `Streaming.dfy`, `EndToEnd.dfy`: from emission to publication.
- `Witnesses.dfy`: concrete runs of a fresh engine, for the promises it keeps and for those it does not.

Each class has a `View` of its fields as a value. Its methods are proved to change that view as a function
says, and the laws are lemmas about runs of those functions. Whatever the program leaves open (which of
several equal timestamps the heap yields, map iteration order, the order of equal sort keys, thread
interleaving) is left open here too: it is an argument of the step, or an arbitrary choice, and the laws
hold for all of them.

## Where the code and its comments disagree

The model follows the code. Each member named first states, for all inputs, when the comment holds and when it
does not; the members after "reached by" are runs in which it fails.

- `WindowFor` divides with truncation toward zero, so a negative timestamp that is not aligned falls into
  the window above it (`Windows.WindowForBounds`).
- The maximum starts from zero, so it is never negative (`Model.FoldAggregates`); merging a partial result
  without values after positive ones pulls the minimum to zero (`Combiner.MergeOfFolds`; for whole lists
  `Combiner.CombineIsHomomorphism`).
- The tracker's comment says every event at or below the confirmed frontier has been handed downstream. That
  holds of the events accepted before the call left its drain loop (`DrainProtocol.ConfirmedMeansDelivered`).
  Later ones stay in the buffer, unless they overflow or another call pops them
  (`DrainProtocol.LaterEventsStayBuffered`; reached by `DrainProtocol.EmittedAfterDrainIsNotCovered`), and have
  missed their window if it had been fed by then (`EndToEnd.EmittedInsideAdvance`).
- `Snapshot`'s comment asks callers to replay the returned journal on top of the restored data. The data
  already contains it, so replaying counts every journalled increment twice
  (`StateBackend.CapturedJournalIsNotOwed`).
- The capture fence compares sequence numbers, and a restore sets the sequence back. Which interference passes
  it, and what is then returned, is stated by `Checkpointing.FenceExactly` (reached by
  `Checkpointing.UnnoticedRestore`, which loses a round).
- `Commit` promises to flush the records up to a source offset, but the sink numbers its own records from one,
  in the order data events were applied. The promise is kept at every offset exactly when each pending event's
  offset is its own number among the data events (`Ledger.OffsetsMustCountData`); `Ledger.CheckpointMiscounts`
  says which events are left out and which are flushed early otherwise (reached by
  `Witnesses.FirstEventIsLeftOut` and `Witnesses.PingFlushesEarly`).
- `Connect` leaves the offending edge in the graph, and `Resume` then drops the pause buffer
  (`Topology.ResumeLosesOnCycle`, `Topology.CycleIsForever`; reached by `Topology.CycleLosesEvent`).
- A pause does not stop the watermark, so an event buffered by it can miss its window. Which replayed events
  are late is stated by `EndToEnd.PausedEventsMissTheirWindow`, and which events are late in any run by
  `EndToEnd.LateExactly` (reached by `Witnesses.PausedOnTimeEventIsLate`).
- The end of a session is said to slide forward with every touch, so that a scan never splits a live session.
  `Touch` moves it back when touches arrive out of order. A scan splits touches exactly when it comes more than a
  timeout after the latest one before it (`SessionRuns.SplitExactly`; reached by `SessionRuns.OutOfOrderSplits`).
  Events emitted ahead of the watermark are never split from another one within the timeout
  (`EndToEnd.NearbyEventsShareASession`).
- A key touched again at an instant already published makes a session the store refuses. A session of a non-empty
  key is refused exactly when an earlier one of the key had the same window (`SessionRuns.RepeatsAreRefused`), and
  the refused values are what is lost (`SessionRuns.RefusedValuesAreLost`; reached by
  `SessionRuns.RepeatedSessionIsRefused`). Touches later than every earlier scan never come to that
  (`SessionRuns.SessionsAreDisjoint`).
- Sessions and tumbling windows share the result store, and a session of the empty key can have the identity of a
  tumbling window. Whichever comes first is published, and the other is refused (`ChainRuns.StoreIsShared`,
  `ChainRuns.SessionsAccepted`). A refused session loses its values (reached by `Witnesses.EmptyKeyMeetsTumbling`).
  A refused window loses its data, whatever its keys: it is neither published nor counted as late
  (`Ledger.ClosedWindowLedger`; reached by `Witnesses.SessionDisplacesWindow`). A window with an event emitted on
  time and kept is never refused in runs without pauses (`EndToEnd.PassedWindowsAreExact`).
- A checkpoint's capture leaves out the deltas still pending (`Ledger.CaptureOmitsPending`).
- Routing and adding take their locks one after the other. After a resize in between, the value lands in place,
  in the wrong partition or out of range, depending on where the two counts put the key
  (`Partitioning.StaleRouteMisplaces`).

## Model

| member | source | states |
|---|---|---|
| EndToEnd.NoOnTimeEventIsLate | internal/topology/pipeline.go:145-149 | in every run without pauses and with distinct offsets, whatever the keys and with any overflow, an event whose window's end lay ahead of the confirmed watermark at emission never reaches the chain after its window has closed |
| EndToEnd.OnTimeEventIsAppliedOrAhead | internal/source/source.go:54-76 | such an event has been applied, or the buffer dropped it, or it still waits in the buffer with its window's end ahead of the confirmed watermark |
| EndToEnd.PassedWindowsAreExact | internal/source/source.go:54-76 | in such runs, every window that the confirmed watermark has reached and that owns an on-time event the buffer kept is closed and published with count, sum, minimum and maximum of exactly the on-time events the buffer kept, even if sessions have the window's identity |
| EndToEnd.ClosedOnTimeWindow | internal/window/window.go:86-111 | a closed window of which the buffer kept only on-time events has published all of them, and nothing as late, whatever sessions there are |
| EndToEnd.OrderIndependence | internal/source/source.go:14-18 | two runs that kept the same events of a window, in any order among any others, with different advance schedules, buffer ties, partition counts and timeouts, publish equal results for it if both have closed it and its kept events were on time in both |
| EndToEnd.SessionsEndToEnd | internal/window/session.go:60-85 | when a key's events are all emitted ahead of the watermark, its sessions are disjoint and in order, each applied data value lies in exactly one of them, and the store refuses exactly those whose tumbling window closed first, of which a non-empty key has none |
| EndToEnd.NearbyEventsShareASession | internal/window/session.go:10-11 | when a key's events are all emitted ahead of the watermark, two of its applied events at most one timeout apart share a session, in whatever order they were emitted and whenever the watermark was advanced |
| EndToEnd.PausedEventsMissTheirWindow | internal/topology/topology.go:68-71 | for any operations during a pause short of out-of-band application: a data event the resume replays is late if and only if its window was closed when the pause began, or was open then and an advance in the pause has confirmed the watermark up to its end |
| EndToEnd.LateExactly | internal/window/window.go:66-84 | in every run, pauses, overflow and empty keys included, an applied data event is late if and only if an earlier trigger passed the end of its window after an event had been applied to that window |
| EndToEnd.ClosedExactly | internal/window/window.go:66-111 | in every run a window exists if and only if an event was applied to it, and is closed if and only if a trigger passed its end after that |
| EndToEnd.EmittedInsideAdvance | internal/source/source.go:72-74 | an event emitted between the drain and the confirmation of an advance leaves the engine as if emitted after it, and has then missed its window if and only if an event had been applied to that window by the end of the drain |
| Witnesses.LoneEventIsPublished | internal/topology/pipeline.go:85-149 | one event emitted on time into a fresh engine, then an advance past its window, publish count one with its value as sum and minimum, and the greater of zero and its value as maximum |
| Witnesses.PausedOnTimeEventIsLate | internal/topology/topology.go:65-132 | a run of a fresh engine in which an event is emitted ahead of the watermark, buffered by a pause, drained past its window's end and replayed late |
| Witnesses.FirstEventIsLeftOut | internal/checkpoint/checkpoint.go:56-65 | a run in which the event at offset 0 stays pending after a checkpoint at offset 0 |
| Witnesses.PingFlushesEarly | internal/topology/pipeline.go:91-94 | a run in which a checkpoint at a ping's offset commits the record of the event after it |
| Witnesses.EmptyKeyMeetsTumbling | internal/topology/pipeline.go:44-46 | a run in which the session of an empty key is refused because its tumbling window fired first |
| Witnesses.SessionDisplacesWindow | internal/topology/pipeline.go:85-94 | a run in which a ping of the empty key makes a session with a tumbling window's identity before any data reaches that window: the window closes, the store refuses it, and its data, of a non-empty key, is neither published nor late |
| EndToEnd.DrainFillsWindow | internal/source/source.go:54-58 | after a drain past an open window's end, and before the trigger, the window holds exactly its on-time events |
| Streaming.RunIsSourced | internal/source/source.go:43-76 | at every point of a run without pauses the emitted events the buffer kept are, as a multiset, the buffered plus the applied ones; current and confirmed watermark agree; what was ahead of the watermark at emission still is while it is buffered |
| Streaming.DrainIsApplied | internal/topology/topology.go:63-73 | with distinct offsets everything a drain pops is new to the operator manager and is applied, in the order it was popped |
| Streaming.DrainedAtOnce | internal/topology/topology.go:63-73 | in every run, what an advance drains runs down the chain at once, in the order drained, if its offsets are new, unless a pause is in force |
| Streaming.KeptInRun | internal/source/buffer.go:37-46 | every emission is kept or was dropped on overflow, and the kept ones have distinct offsets |
| Ledger.PipelineLedger | internal/topology/pipeline.go:85-122 | over every run, with any pauses, resizes and checkpoints: applied events have distinct offsets, exactly those marked; for each key the partition total, the state value plus the pending delta and the sum of its applied data values are equal; the key lives in at most one partition; fewer than eight deltas are pending; the sink's records are the applied data events |
| Ledger.WindowLedger | internal/topology/pipeline.go:98-103 | in every run, whatever the keys, a window's values followed by its late ones are those of the applied data events it owns; the store has a result for it if and only if it closed or a session with its identity was emitted; the result is the fold of the window's values, or of the session's if that came first, and its late fields are the late values |
| Ledger.ClosedWindowLedger | internal/agg/agg.go:54-72 | a closed window's publication is accepted if and only if no session with its identity was emitted before it closed; then published and late counts and sums add up to all its applied data; otherwise only what is late is accounted for |
| Ledger.CoupledInEngine | internal/window/window.go:66-111 | where no session of its identity came first, a window, its store result, its catalog row and its one publication determine each other at every point of every engine run |
| Ledger.SessionLedger | internal/topology/pipeline.go:104-104 | in every run emitted and live sessions of a key hold its applied data values once each, in order; the store accepts exactly the first session of each identity whose tumbling window did not close before, and holds it as published; touches later than earlier scans make the sessions disjoint, and those of a non-empty key all accepted |
| Ledger.EngineFollowsTopology | internal/topology/pipeline.go:73-80 | an engine run takes its operator manager through a run of its own, and that run's log is what runs down the chain |
| Ledger.EngineIsLegalTopology | internal/topology/pipeline.go:73-80 | that run is legal whenever the engine's is, so all laws of the operator manager hold of the engine |
| Ledger.PausedInEngine | internal/topology/pipeline.go:73-80 | an engine run leaves the pipeline paused if and only if some submitted pause has no resume after it |
| Ledger.SubmittedAtOnce | internal/topology/topology.go:63-89 | in every engine run a submitted event with a new offset runs down the chain at once, unless it is to be processed while a pause is in force |
| Ledger.EngineSkipsNothing | internal/topology/topology.go:101-103 | while each resume finds the graph acyclic, everything submitted to the engine has been applied or is in the pause buffer, which is empty outside a pause |
| Ledger.StateLedger | internal/topology/pipeline.go:109-122 | fewer than eight deltas are pending and state plus deltas is the sum of the key's applied data values |
| Ledger.CaptureOmitsPending | internal/topology/pipeline.go:151-156 | the data a checkpoint captures is, for each key, its applied sum less the pending delta, so it holds every sum if and only if no pending delta has a value |
| FlushLedger.FlushedByEights | internal/topology/pipeline.go:109-122 | over every run, from the applied data events alone: the pending deltas are each key's sum since the latest event that brought together eight distinct keys, and fewer than eight; the state holds each key's sum over all events before, and the journal over those flushed since the latest capture; the sequence number counts events and rounds; the latest value is the last event's |
| FlushLedger.EighthKeyFlushes | internal/topology/pipeline.go:113-121 | a data event that leaves fewer than eight keys pending does not change the state's data; one that brings the eighth key empties the deltas into it |
| FlushLedger.RestoringCheckpoint | internal/topology/pipeline.go:151-156 | a checkpoint empties the journal and changes no value; until the next one the journal holds exactly what was flushed since, and restoring the snapshot the checkpoint took changes no value |
| EngineHistory.RunMatches | internal/source/source.go:43-76 | over every run: the source is stopped if and only if a stop came, and its last offset is that of the last event emitted before; the watermark is confirmed up to the greatest instant advanced to, advances are counted and no handoff is left pending; checkpoints set the committed offset and raise the position to the greatest; retries are counted |
| EngineHistory.EmittedIsAccountedFor | internal/source/buffer.go:37-51 | in every run, with pauses or not, what was emitted before the first stop is buffered, was drained or was dropped by the buffer as a least event beyond its capacity, which it never exceeds |
| EngineHistory.KeysLieAtTheirHash | internal/topology/pipeline.go:95-96 | after any engine run a key lies in just the partition that is left of its hash by the latest count, with the sum of its applied data values |
| EngineHistory.RowsFollowHistory | internal/topology/pipeline.go:98-98 | in every engine run a window and its catalog row exist, are opened, closed and counted as the applied events and triggers say |
| Ledger.RouteLedger | internal/topology/pipeline.go:95-96 | the partitioned store's total of a key is the sum of its applied data values, in at most one partition |
| Ledger.CheckpointFlushes | internal/checkpoint/checkpoint.go:56-70 | a checkpoint loses and reorders no record, and a record is committed afterwards if and only if it was before or its number is at most the source offset |
| Ledger.OffsetsMustCountData | internal/checkpoint/checkpoint.go:56-58 | checkpoints at every offset flush exactly the pending records of events up to that offset if and only if each pending event's offset is its number among the applied data events |
| Ledger.CheckpointMiscounts | internal/checkpoint/checkpoint.go:56-62 | which pending event at or below the offset is left out, and which one beyond it is flushed |
| DrainProtocol.ConfirmedMeansDelivered | internal/source/source.go:54-76 | in every interleaving, a confirmed watermark above the epoch belongs to a call past its drain and wait, and every event at or below it accepted before that call left its drain loop has returned from ingest or overflowed; the same holds of every other such call |
| DrainProtocol.LaterEventsStayBuffered | internal/source/source.go:60-75 | after any call is past its drain and wait, and until some call pops again, an accepted event within its instant is buffered if and only if it was accepted after the call left its drain loop, has not overflowed and had not been popped before by another call |
| DrainProtocol.AcceptedEventsAreConserved | internal/source/source.go:43-68 | in every interleaving each accepted event is buffered, overflowed, handed on or held by exactly one thread, and the pending counter counts the threads between pop and acknowledgement |
| DrainProtocol.StepKeepsInv | internal/source/source.go:58-76 | every step of every thread keeps the protocol invariant |
| DrainProtocol.EmittedAfterDrainIsNotCovered | internal/source/source.go:72-74 | a run in which an event emitted between drain and confirm stays buffered below the confirmed watermark |
| DrainRefines.LoopHeadTakesLeast | internal/source/source.go:60-61 | the step system's drain test pops a least buffered event within the instant, and is over if and only if there is none |
| DrainRefines.EmitRefines | internal/source/source.go:43-52 | an accepted emission of the step system is an addition to the bounded reorder buffer |
| DrainRefines.TurnRefines | internal/source/source.go:60-72 | a turn of the drain loop gives back its handoff and takes a least event within the instant, counted as pending, or finds none and waits if and only if handoffs are pending |
| DrainRefines.RestRefines | internal/source/source.go:69-74 | every other step moves its thread on, and only raising and confirming touch the watermark, as the tracker does |
| DrainRefines.AcceptsUntilStop | internal/source/source.go:43-52 | in every interleaving exactly what is emitted before the first stop is accepted, and the buffer keeps to its capacity |
| WindowRuns.WindowsAreCoupled | internal/window/window.go:66-111 | at every point of every run that leaves the window's result to it, a window is unknown, open or closed, and that determines its store result (published fold of the accepted values, late fields of the rest), its catalog row and that it was emitted once; a closed one ended at or before a confirmed instant |
| WindowRuns.ClosedStaysPublished | internal/agg/agg.go:10-13 | a closed window stays closed and its published fields never change, whatever happens later |
| WindowRuns.AcceptedThenLate | internal/window/window.go:76-83 | whoever else writes to the store, a window holds its accepted values, has late ones only once closed, and both together are all values sent to it, in order |
| WindowRuns.RowsFollowHistory | internal/window/catalog.go:32-79 | whoever else writes to the store, a window and its row exist once an event was sent to it, opened at that event's time; both are closed from the first trigger on that passed its end after that, at the instant confirmed; the row counts accepted and late events |
| WindowRuns.ListedArePublished | internal/window/window.go:96-110 | a window is among the results a trigger returns if and only if its publication was accepted then, and where its result is left to it with the fold of its accepted values |
| Windows.WindowForBounds | internal/window/window.go:57-61 | a window ends after the timestamps it owns and starts on a multiple of the size, at or before the timestamp if and only if that is non-negative or aligned, and less than one size after it otherwise |
| Windows.Manager.Ingest | internal/window/window.go:63-84 | an event for a closed window goes to the late fields, any other is appended to its window, which opens on first use; the outcome tells which; catalog and store follow |
| Windows.Manager.MaybeTrigger | internal/window/window.go:86-111 | closes exactly the closable windows whose end is confirmed, whatever the iteration order, and returns, sorted by start, one result for each of those not published before, as the store then holds it |
| Windows.Manager.FireAll | internal/window/window.go:96-108 | the loop's effect is that of firing each due window on its own, independent of the order |
| Windows.Catalog.Open | internal/window/catalog.go:32-42 | an entry is created if missing and marked open |
| Windows.Catalog.RecordEvent | internal/window/catalog.go:44-54 | counts one accepted event, on a new open entry if missing |
| Windows.Catalog.RecordLate | internal/window/catalog.go:56-66 | counts one late event, on a new closed entry if missing |
| Windows.Catalog.Close | internal/window/catalog.go:68-79 | marks the entry closed at the given time and keeps its counters |
| Windows.CatalogHistory | internal/window/catalog.go:32-79 | over every run of the catalog a row exists once its window was mentioned, counts events and late events, carries the latest status, and has the times of the first operation and of the latest closing |
| Aggregation.PublishedIsFrozen | internal/agg/agg.go:24-72 | a published result keeps its published fields under any later operations, and its late fields grow by exactly the values they carried |
| Aggregation.PublishedOnce | internal/agg/agg.go:54-72 | over any run from an empty store a window's publication is accepted at most once, exactly when it is marked emitted |
| Aggregation.StoreHistory | internal/agg/agg.go:24-72 | over every run from an empty store a result exists once anything was done for its window; it is the fold of what was updated before its first publication and published with, and its late fields count every late update and every update after |
| Aggregation.Store.Update | internal/agg/agg.go:24-40 | folds into the window's own cell, or into its late fields once published; no other window changes |
| Aggregation.Store.LateUpdate | internal/agg/agg.go:42-52 | folds into the late fields only, creating the result if missing |
| Aggregation.Store.EmitResult | internal/agg/agg.go:54-72 | refused if and only if already published; otherwise folds the values, marks and returns a copy |
| Model.FoldAggregates | internal/model/result.go:18-28 | the fold of a value list has its length, sum, least value (zero if none) and greatest value (never below zero) |
| Model.FoldOfPermutation | internal/model/result.go:18-28 | the fold does not depend on the order of the values |
| Model.ResultCell.Apply | internal/model/result.go:18-28 | one value joins the unpublished accumulation, in place |
| Model.ResultCell.ApplyLate | internal/model/result.go:30-34 | one value joins the late fields, and no published field changes |
| Combiner.Combine | internal/agg/combiner.go:20-52 | one result per window, in order of first occurrence, each the merge of that window's results, through one cell per window |
| Combiner.OrderIsFirstOccurrence | internal/agg/combiner.go:26-33 | the windows come out once each, ordered by the position of their first result |
| Combiner.MergeOfFolds | internal/agg/combiner.go:35-45 | merging two folds is the fold of the concatenation if and only if the second list is non-empty, the first is empty or the first has a value not above zero |
| Combiner.CombineIsHomomorphism | internal/agg/combiner.go:20-52 | partial results combine to the fold of all values of a window, with late fields summed, unless an empty partial came after one with values and all values are positive; then, and only then, the result differs, and only in its minimum, which is zero |
| Combiner.DisplacedMeans | internal/agg/combiner.go:39-41 | the condition in terms of the input list: some empty partial of the window has a later position than one with values |
| Combiner.CombineOfDistinct | internal/agg/combiner.go:20-52 | on pairwise distinct windows combining is the identity |
| SessionRuns.SessionsAreDisjoint | internal/window/session.go:34-85 | a key touched only later than earlier scans emits disjoint sessions with increasing starts, and its live session runs from its least touch to one timeout after its latest; if the key is not empty none is refused and each is published as the fold of its values |
| SessionRuns.RepeatsAreRefused | internal/window/session.go:75-81 | in every run a session of a non-empty key is refused if and only if an earlier one of the key had the same window; the store holds exactly the accepted ones, each as the fold of its own values |
| SessionRuns.ListedAreAccepted | internal/window/session.go:75-84 | a key is among the results a scan returns if and only if the scan adds an accepted session to its history, and then, if it is not empty, with the fold of that session's values |
| SessionRuns.SessionValuesOnce | internal/window/session.go:55-57 | in every run, whatever the order of touches and scans and whatever the key, each data value lies in exactly one emitted or live session, in touch order |
| SessionRuns.RefusedValuesAreLost | internal/window/session.go:76-81 | a key's data values are those of its accepted, its refused and its live sessions together |
| SessionRuns.RepeatedSessionIsRefused | internal/window/session.go:37-81 | the run touch, scan, same touch, scan from the empty state: the second session is refused, its value lost, and the first stays published |
| SessionRuns.SplitExactly | internal/window/session.go:68-74 | a touch and what follows it stay in one session if and only if every scan since came at most one timeout after the key's latest touch before it |
| SessionRuns.ScansNeverSplit | internal/window/session.go:10-11 | two touches at most one timeout apart share a session if the later one follows the scans before it and no touch in between goes back before the first |
| SessionRuns.OutOfOrderSplits | internal/window/session.go:49-53 | a run in which a touch that goes back lets a scan split two touches one instant apart |
| SessionRuns.EmittedHaveEnded | internal/window/session.go:72-81 | in every run each emitted session ended before some scan, and a live one ends one timeout after its latest touch |
| Sessions.SessionManager.Touch | internal/window/session.go:34-58 | creates or extends the key's session, moving end and last activity to this touch even when it is older |
| Sessions.SessionManager.ScanTimeout | internal/window/session.go:60-85 | publishes and removes exactly the expired sessions, for any iteration order, and returns, sorted by start, one result for each of those whose window was not published before, as the store then holds it |
| Partitioning.SpreadConserves | internal/agg/agg.go:154-175 | from any distribution, even a key split across partitions, spreading keeps every key's total and leaves it only where its route points |
| Partitioning.PartitionedStore.Repartition | internal/agg/agg.go:154-175 | does nothing when the counts agree or the store has another size; otherwise yields the spread and returns the number of entries, for any iteration order |
| Partitioning.PartitionedStore.Add | internal/agg/agg.go:121-126 | adds to the key's value in one partition and changes nothing else |
| Partitioning.PartitionedStore.Total | internal/agg/agg.go:177-186 | the sum of the key's values over all partitions |
| Partitioning.PartitionedStore.PartitionCount | internal/agg/agg.go:188-199 | the number of partitions that hold the key |
| Partitioning.TotalIsSum | internal/agg/agg.go:178-186 | the total of a key is the sum of what each partition holds for it, from any distribution |
| Partitioning.HoldersCount | internal/agg/agg.go:189-199 | the count by loop is the number of partitions that hold the key, from any distribution |
| Partitioning.EntriesCount | internal/agg/agg.go:156-175 | the entries a repartitioning visits are the pairs of a partition and a key it holds |
| Partitioning.RoutingIsCanonical | internal/topology/repartition.go:37-61 | over all runs of route-then-add steps and resizes, placement is a function of the last count and the added totals; every cached route is the hash route; the store has as many partitions as the count |
| Partitioning.KeysLieAtTheirHash | internal/topology/repartition.go:32-61 | after any run a route, cached or not, is the remainder of the hash by the latest count, and just that partition holds the key, with the sum of the values added to it |
| Partitioning.CacheFollowsHistory | internal/topology/repartition.go:37-61 | the cache knows exactly the keys routed since the count last changed |
| Partitioning.CanonicalTotals | internal/topology/repartition.go:12-14 | in that placement each key has its full total in exactly one partition |
| Partitioning.StaleRouteMisplaces | internal/topology/pipeline.go:95-96 | after a resize between route and add the value lands in place if both counts map the key alike, is an index out of range if the old partition is not below the new count, and is misplaced otherwise |
| Partitioning.Router.PartitionForKey | internal/topology/repartition.go:31-35 | the partition is below the count, and together with some whole number of counts it makes up the hash of the key |
| Partitioning.Router.Route | internal/topology/repartition.go:37-47 | the cached route if there is one, else the hash route, which is then cached |
| Partitioning.Router.Resize | internal/topology/repartition.go:49-61 | migrates the store by hash, publishes the count and empties the cache, or does nothing for an equal count |
| Partitioning.OwnerIsUnique | internal/topology/repartition.go:31-35 | the partition for a key is the one number below the count that is left of its hash after taking out whole counts |
| StateBackend.JournalCoversBase | internal/state/state.go:39-57 | in every reachable store the data is, key for key, the data at the last snapshot or restore plus the journal |
| StateBackend.RestoringLatestIsIdentity | internal/state/state.go:90-102 | restoring the latest snapshot, with none taken or restored since, changes no value |
| StateBackend.RestoringOlderLosesBetween | internal/state/state.go:90-102 | restoring an older snapshot loses exactly the increments between it and the latest one |
| StateBackend.CapturedJournalIsNotOwed | internal/state/state.go:75-88 | replaying a snapshot's journal on top of its data changes nothing if and only if every journalled increment is zero |
| StateBackend.IncrementsAccumulate | internal/state/state.go:39-57 | without restores the data grows by exactly the increments made, and so does the journal between snapshots |
| StateBackend.LatestIsRecorded | internal/state/state.go:59-65 | a key's latest value is the one recorded last, and rounds, snapshots and restores touch neither it nor the applied offsets |
| StateBackend.Store.Apply | internal/state/state.go:39-46 | one delta joins data and journal, and the sequence moves by one |
| StateBackend.Store.ApplyRound | internal/state/state.go:48-57 | the whole batch joins data and journal, for any iteration order, in one sequence step |
| StateBackend.Store.Record | internal/state/state.go:59-65 | sets the key's latest value and moves the sequence |
| StateBackend.Store.TakeSnapshot | internal/state/state.go:75-88 | returns data, journal and sequence, and resets only the journal |
| StateBackend.Store.RestoreSnapshot | internal/state/state.go:90-102 | data becomes the snapshot plus the journal, the journal is reset, and the sequence follows the snapshot even downwards |
| StateBackend.Store.MarkApplied | internal/state/state.go:119-125 | adds the offset to the applied set only |
| StateBackend.Store.IsApplied | internal/state/state.go:127-132 | membership in the applied set |
| Checkpointing.CaptureLosesNothing | internal/checkpoint/checkpoint.go:42-54 | under any interleaved mutations and however many captures are discarded, the returned snapshot is the store at one instant with every increment made so far, and restoring it after more increments loses none |
| Checkpointing.Coordinator.SnapshotState | internal/checkpoint/checkpoint.go:42-54 | under any interference, restores included, the loop returns the first capture whose sequence number is the version read before it |
| Checkpointing.FenceExactly | internal/checkpoint/checkpoint.go:42-54 | for any interference in any iteration: without a restore after the version read the fence passes if and only if nothing was mutated, and the capture is that version's data; with a last restore it passes if and only if the snapshot's number, one, and the mutations after it add up to the version read, and the capture is the data restored |
| Checkpointing.FenceOfMutations | internal/checkpoint/checkpoint.go:42-54 | under mutations alone the fence passes if and only if none came between version read and capture |
| Checkpointing.FenceMissesRestore | internal/state/state.go:93-102 | for interference whose last restore is to a snapshot, the fence passes if and only if that snapshot's number, one, and the mutations after it add up to the version read; the capture is then that snapshot with the journal at the restore and the later increments |
| Checkpointing.FenceWithoutRestore | internal/checkpoint/checkpoint.go:47-53 | without a restore the fence passes if and only if nothing was mutated, and then the captured data is that of the version read |
| Checkpointing.UnnoticedRestore | internal/checkpoint/checkpoint.go:47-53 | an unnoticed restore whose capture lacks a round |
| Checkpointing.PositionNeverLags | internal/checkpoint/checkpoint.go:56-99 | the position is the greatest offset ever committed or restored to and never lags the last committed offset, which may move back; retries are counted |
| Checkpointing.SinkSeesCommits | internal/checkpoint/checkpoint.go:62-62 | restores and retries leave the sink alone; writes and commits reach it in order |
| Checkpointing.Coordinator.Commit | internal/checkpoint/checkpoint.go:56-70 | flushes the sink, records the offset and advances the position |
| Checkpointing.Coordinator.Retry | internal/checkpoint/checkpoint.go:72-81 | replay starts from the last committed offset, whatever offset failed |
| Checkpointing.Coordinator.Restore | internal/checkpoint/checkpoint.go:83-99 | restores the state and moves last committed offset and position |
| Checkpointing.OffsetTracker.Commit | internal/source/offset.go:18-25 | ignores regressions |
| OutputSink.SinkPrefixLaw | internal/sink/sink.go:32-56 | committed followed by pending is the write history numbered from one, and a flush moves the boundary to the barrier, never back and never past the end |
| OutputSink.FlushSplits | internal/sink/sink.go:42-56 | filtering consecutively numbered records by a barrier cuts them in two at one place |
| OutputSink.Sink.CommitUpTo | internal/sink/sink.go:42-56 | compacts the pending slice in the same backing array without overwriting an unread record, and appends the flushed ones in order |
| OutputSink.Sink.Write | internal/sink/sink.go:32-40 | appends a record with the next number, growing the backing array when it is full |
| OperatorGraph.DAG.Validate | internal/topology/dag.go:36-68 | no error if and only if the graph has no cycle, for every edge list and iteration order; without error a topological order exists, and an error names a node on a cycle |
| OperatorGraph.DAG.Visit | internal/topology/dag.go:45-61 | a visit finishes its node after all successors, or exhibits a cycle through the reported node whose nodes are all in progress; unvisited nodes decrease |
| OperatorGraph.OrderedMeansAcyclic | internal/topology/dag.go:36-68 | a graph with a topological order has no cycle |
| OperatorGraph.DAG.Adjacencies | internal/topology/dag.go:40-43 | the successor lists contain exactly the edges |
| Topology.AppliedExactlyOnce | internal/topology/topology.go:83-89 | over every run no offset reaches the chain twice, and the applied set is exactly what did |
| Topology.ManagerHistory | internal/topology/topology.go:40-132 | over every run the manager is paused if and only if some pause has no resume after it, its buffer is then what was processed since, its operators are those added and its edges those connected between operators known by then, in order |
| Topology.LetThrough | internal/topology/topology.go:63-132 | which events each operation lets through, from the history alone: a processed one with a new offset at once unless a pause is open, an out-of-band one in any case, and a resume what was held back and is new, in offset order, unless the graph has a cycle |
| Topology.NothingIsSkipped | internal/topology/topology.go:101-132 | while every resume finds the graph acyclic, each submitted offset is applied or buffered, and outside a pause nothing is buffered |
| Topology.PauseChangesNothing | internal/topology/topology.go:63-132 | with one event per offset, a run ending outside a pause applies a permutation of what the same submissions apply without pauses |
| Topology.ReplayIsOrdered | internal/topology/topology.go:115-125 | the buffer is replayed in strictly increasing offset order |
| Topology.ResumeLosesOnCycle | internal/topology/topology.go:110-114 | a resume delivers all it takes from the buffer if and only if the graph is acyclic or those offsets were already applied |
| Topology.CycleLosesEvent | internal/topology/topology.go:59-114 | a run in which a submitted event is neither applied nor buffered after a resume |
| Topology.CycleIsForever | internal/topology/topology.go:59-60 | a cycle, once connected, is never removed |
| Topology.Manager.Connect | internal/topology/topology.go:49-61 | rejects unknown operators; otherwise adds the edge and reports an error if and only if the graph now has a cycle |
| Topology.Manager.Process | internal/topology/topology.go:63-73 | buffers while paused; otherwise lets the event through once per offset |
| Topology.Manager.ApplyNow | internal/topology/topology.go:75-81 | lets the event through once per offset, paused or not |
| Topology.Manager.Resume | internal/topology/topology.go:101-132 | ends the pause and empties the buffer in any case; replays the not yet applied buffered events in offset order, or nothing on a cycle |
| EventSource.DrainTakesOldest | internal/source/source.go:60-61 | a drain takes the oldest buffered events, all within its instant |
| EventSource.DrainIsOrdered | internal/source/source.go:14-16 | a drain hands events on in timestamp order |
| EventSource.Source.Emit | internal/source/source.go:43-52 | ignored once stopped; otherwise buffered, dropping a least event on overflow, and the last offset is this event's |
| EventSource.Source.TakeReady | internal/source/source.go:60-62 | pops a least event within the instant and counts it as pending, or finds none there |
| EventSource.Source.Confirm | internal/source/source.go:73-75 | raises and confirms the watermark and counts the drain |
| ReorderBuffer.BufferConserves | internal/source/buffer.go:37-51 | over every run added events are the buffered, popped and overflowed ones, and the size never exceeds the capacity |
| ReorderBuffer.BufferKeepsNewest | internal/source/buffer.go:37-46 | fed only by additions the buffer fills to its capacity with the newest events: no dropped event is newer than a retained one |
| ReorderBuffer.HeapRootIsMinOfBag | internal/source/buffer.go:53-59 | entry 0 is a least event of the heap |
| ReorderBuffer.Buffer.Add | internal/source/buffer.go:37-46 | the event joins the heap, and past the capacity a least event leaves it |
| ReorderBuffer.Buffer.PopMin | internal/source/buffer.go:48-51 | removes one least event |
| ReorderBuffer.Buffer.MinTimestamp | internal/source/buffer.go:53-59 | the least timestamp, or 2 to the 62nd when empty |
| Watermarks.TrackerLags | internal/watermark/watermark.go:21-47 | current is the greatest instant advanced to, confirmed is what it was at the latest confirm, and neither moves back |
| Watermarks.Tracker.Advance | internal/watermark/watermark.go:21-34 | raises the frontier and never the confirmed value |
| Watermarks.Tracker.Confirm | internal/watermark/watermark.go:36-47 | publishes the frontier and never raises it |
| Engine.CoreOpsEffect | internal/topology/pipeline.go:73-81 | every engine run acts on the operator chain exactly as its extracted sequence of chain operations |
| ChainRuns.WinOpsRun | internal/topology/pipeline.go:96-103 | in every run the tumbling side does what the window manager does on its own share of the chain's operations |
| ChainRuns.StoreIsShared | internal/topology/pipeline.go:44-46 | in every run, whatever the keys, the shared store holds of a window what the tumbling window or a session of its identity published, whichever came first, and what arrived late; the tumbling publication is refused, and the tumbling side does not have its result to itself, if and only if a session came first |
| ChainRuns.SessionOpsRun | internal/topology/pipeline.go:44-46 | the session side is a legal run of the session manager: the tumbling side never touches keyed results |
| ChainRuns.PublishedExactly | internal/agg/agg.go:55-72 | in every run, empty keys included, a window is published if and only if it is a closed tumbling window or a session with it was emitted |
| ChainRuns.SessionRefusedExactly | internal/topology/pipeline.go:130-132 | a session of any key closed by a trigger is refused if and only if a session with its window was emitted before or a tumbling window with that identity has closed by then, which takes an empty key |
| ChainRuns.SessionsAccepted | internal/agg/agg.go:54-72 | in every run, for any key, a session is accepted if and only if no earlier session had its identity and the tumbling window of that identity had not closed before it |
| ChainRuns.RouteOpsRun | internal/topology/pipeline.go:51-52 | the routing side is a run of route-then-add steps and resizes |
| ChainRuns.SinkOpsRun | internal/topology/pipeline.go:105-105 | the sink side is a run of writes and flushes whose history is the applied data events |
| Pipelines.Pipeline.NewPipeline | internal/topology/pipeline.go:42-83 | the wired components start in the engine's initial state, with three operators and two edges |
| Pipelines.Pipeline.Process | internal/topology/pipeline.go:85-107 | a ping only touches the session; a data event reaches store, state, window, session, sink and deltas |
| Pipelines.Pipeline.MaybeFlushDeltas | internal/topology/pipeline.go:109-122 | the delta joins the pending ones, and at eight keys all are applied as one round |
| Pipelines.Pipeline.TopologyProcess | internal/topology/pipeline.go:73-79 | what the operator manager lets through runs down the chain |
| Pipelines.Pipeline.TopologyResume | internal/topology/topology.go:101-132 | what a resume replays runs down the chain, in replay order |
| Pipelines.Pipeline.AdvanceTo | internal/source/source.go:54-76 | drains, hands on and acknowledges one event at a time, then confirms; the mutable components end up where the engine model says |
| Pipelines.Pipeline.Advance | internal/topology/pipeline.go:145-149 | after the drain the confirmed watermark fires windows first and sessions second |
| Pipelines.Pipeline.TriggerOnWatermark | internal/topology/pipeline.go:128-138 | windows fire before sessions, through the shared result store |
| Pipelines.Pipeline.RunCheckpoint | internal/topology/pipeline.go:151-156 | takes a snapshot of data, journal and sequence number as they are, empties the journal, and then commits |

## Left out

- The end-to-end theorems exclude pauses and out-of-band application: `EndToEnd.PausedEventsMissTheirWindow` says what a pause does to them.
- Entries of the window, session and catalog maps are values that the manager replaces, not structures behind references; the result store's entries and the combiner's are cells updated in place.
- `ingest`, `apply` and watermark observers are callbacks in the program. Here the source and the operator manager return the events, and the pipeline passes them on, so that their methods stay free of function arguments that change state.
- The resume loop marks and applies event by event; here it marks the whole replay and the pipeline then runs it down the chain. The chain never reads or writes the applied set (`Ledger.ChainKeepsApplied`), so the result is the same.
- Mutexes: each locked region is one step. Interleavings are modelled for `AdvanceTo` and `Emit` (`DrainProtocol`) and for the capture loop (`Checkpointing`); the pipeline class is sequential. Wake-ups and fairness of the condition variable are not modelled, so nothing is said about a wait ending.
- `Pipeline.Process` is atomic with respect to `Resize` in the ledger; what happens otherwise is `Partitioning.StaleRouteMisplaces`.
- State restores are not operations of the engine model, since nothing in the pipeline calls them; they are covered at the state backend and the coordinator.
- 64-bit overflow: all integers are mathematical.
- xxhash is an arbitrary fixed function from keys to natural numbers; nothing is said about its distribution.
- `container/heap` is written out as a binary heap on event time, and `sort.Slice` as an insertion sort whose callers rely on its result being some sorted permutation only.
- The order of equal starts in a trigger's or scan's result list is left open, as the program's sort leaves it.
- The monitoring catalog carries window identities and states, not their text forms; window summaries, snapshots, status pages and text rendering are display only.
- Metrics, the idle detector, the throttle, the observer fan-out, the checkpoint log and manifest, operator instance states and parallelism are not modelled; they only count or report.
- The demo feed, the event generator, HTTP serving, configuration text and signal handling are not modelled.
- `LastOffset` is the latest accepted offset, as the code stores it; its comment's claim of the highest is not stated.
