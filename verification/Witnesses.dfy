/**
  Concrete runs of a freshly built engine: one that shows the end-to-end theorems are not empty, and one for
  each promise that the engine does not keep in general.
 */
module Witnesses {
  import opened Model
  import opened Engine
  import opened ChainRuns
  import opened Streaming
  import opened EndToEnd
  import Ledger
  import W = Windows
  import K = OutputSink
  import P = Partitioning
  import R = EventSource
  import S = Sessions
  import SR = SessionRuns
  import T = Topology
  import Watermarks
  import G = OperatorGraph

  // ---------------------------------------------------------------------------------------
  // Serving one event at a time
  // ---------------------------------------------------------------------------------------

  // A run of an engine that is up, has nothing buffered, has applied `log` and has flushed nothing.
  ghost predicate Served(cfg: Config, ops: seq<Op>, log: seq<Event>, confirmed: int) {
    && cfg.Valid() && Legal(cfg, ops) && T.DistinctOffsets(log)
    && Run(cfg, ops).source.bag == multiset{} && !Run(cfg, ops).source.stopped
    && Run(cfg, ops).source.mark == Watermarks.Watermark(confirmed, confirmed)
    && Run(cfg, ops).controls == Init(cfg).controls
    && Events(CoreOps(cfg, ops)) == log
    && (forall op :: op in ops ==> !op.Checkpoint?)
  }

  lemma FreshEngine(cfg: Config)
    requires cfg.Valid()
    ensures Served(cfg, [], [], 0)
  {
    hide EmptyCore;
  }

  lemma LoneDrain(ev: Event, ts: int)
    requires ev.timestamp <= ts
    ensures R.Drains(multiset{ev}, ts, [ev])
    ensures multiset{} + multiset{ev} - multiset{} == multiset{ev}
  {
    assert Front([ev]) == [];
    assert multiset{ev} - multiset([]) == multiset{ev};
    assert multiset{ev} - multiset([ev]) == multiset{};
  }

  lemma {:induction false} EmitOne(cfg: Config, ops: seq<Op>, ev: Event)
    requires cfg.Valid() && Legal(cfg, ops) && Run(cfg, ops).source.bag == multiset{} && !Run(cfg, ops).source.stopped
    ensures
      var after := ops + [Op.Emit(ev, None)];
      && Legal(cfg, after) && Run(cfg, after) == Run(cfg, ops).(source := Run(cfg, after).source)
      && Run(cfg, after).source.bag == multiset{ev} && !Run(cfg, after).source.stopped
      && Run(cfg, after).source.mark == Run(cfg, ops).source.mark
      && CoreOps(cfg, after) == CoreOps(cfg, ops)
  {
    hide EmptyCore, T.DistinctOffsets, Events;
    assert Front(ops + [Op.Emit(ev, None)]) == ops;
    assert multiset{} + multiset{ev} == multiset{ev} && |multiset{ev}| == 1;
    assert CoreOps(cfg, ops) + [] == CoreOps(cfg, ops);
    assert multiset{ev} - multiset{} == multiset{ev};
  }

  // Emitting a new event and advancing past it applies it.
  lemma ServeOne(cfg: Config, ops: seq<Op>, log: seq<Event>, confirmed: int, ev: Event, ts: int)
    requires Served(cfg, ops, log, confirmed) && ev.timestamp <= ts && T.DistinctOffsets(log + [ev])
    ensures Served(cfg, ops + [Op.Emit(ev, None)] + [Op.Advance(ts, [ev])], log + [ev], Max(confirmed, ts))
  {
    hide EmptyCore, Events, CoreOps, Run, HandOps, HandedOn;
    var emitted := ops + [Op.Emit(ev, None)];
    var after := emitted + [Op.Advance(ts, [ev])];
    EmitOne(cfg, ops, ev);
    LoneDrain(ev, ts);
    assert Front(after) == emitted;
    DistinctPrefixOffsets(log, ev);
    Ledger.EngineFollowsTopology(cfg, emitted);
    T.AppliedExactlyOnce(Ledger.TopologyOps(emitted));
    OneOffset(ev);
    DrainAppliesAll(cfg, Run(cfg, emitted), [ev]);
    EventsOfAdvance(cfg, after);
    AdvanceOne(cfg, emitted, ts, [ev]);
  }

  lemma OneOffset(ev: Event)
    ensures T.DistinctOffsets([ev]) && T.Offsets([ev]) == {ev.offset}
  {
    T.OffsetsOfOne(ev);
  }

  lemma {:induction false} AdvanceOne(cfg: Config, ops: seq<Op>, ts: int, order: seq<Event>)
    requires cfg.Valid() && Legal(cfg, ops) && R.Drains(Run(cfg, ops).source.bag, ts, order)
    ensures Legal(cfg, ops + [Op.Advance(ts, order)])
    ensures Run(cfg, ops + [Op.Advance(ts, order)]).source == Run(cfg, ops).source.Advanced(ts, order)
    ensures Run(cfg, ops + [Op.Advance(ts, order)]).controls == HandedOn(cfg, Run(cfg, ops), order).controls
  {
    assert Front(ops + [Op.Advance(ts, order)]) == ops;
    AdvanceSource(cfg, Run(cfg, ops), Op.Advance(ts, order));
  }

  // Without a checkpoint no record is committed.
  predicate NoFlush(ops: seq<CoreOp>) {
    forall op :: op in ops ==> !op.FlushSink?
  }

  lemma {:induction false} UnflushedChain(cfg: Config, chain: seq<CoreOp>)
    requires cfg.Valid() && NoFlush(chain)
    ensures CoreRun(cfg, chain).sink.committed == []
    decreases |chain|
  {
    if chain != [] {
      hide CoreNext;
      assert Last(chain) in chain && forall op :: op in Front(chain) ==> op in chain;
      UnflushedChain(cfg, Front(chain));
      SinkStep(cfg, CoreRun(cfg, Front(chain)), Last(chain));
    }
  }

  lemma UnflushedStep(cfg: Config, e: EngineState, op: Op)
    requires cfg.Valid() && !op.Checkpoint?
    ensures NoFlush(StepOps(cfg, e, op))
  {
    hide HandOps, SubmitOps, Next;
    match op
    case Advance(_, order) => Ledger.HandOpsOnlyProcess(cfg, e, order);
    case Submit(step) => Ledger.SubmitOpsOnlyProcess(e, step);
    case _ =>
  }

  lemma {:induction false} NothingFlushed(cfg: Config, ops: seq<Op>)
    requires cfg.Valid() && forall op :: op in ops ==> !op.Checkpoint?
    ensures NoFlush(CoreOps(cfg, ops)) && Run(cfg, ops).core.sink.committed == []
    decreases |ops|
  {
    CoreOpsEffect(cfg, ops);
    if ops != [] {
      hide Run, StepOps, CoreRun;
      assert Last(ops) in ops && forall op :: op in Front(ops) ==> op in ops;
      NothingFlushed(cfg, Front(ops));
      UnflushedStep(cfg, Run(cfg, Front(ops)), Last(ops));
    }
    UnflushedChain(cfg, CoreOps(cfg, ops));
  }

  // ---------------------------------------------------------------------------------------
  // Checkpoints
  // ---------------------------------------------------------------------------------------

  /** Offsets start at zero: after a checkpoint at the offset of the very first event its record is pending. */
  lemma FirstEventIsLeftOut(cfg: Config, ev: Event)
    requires cfg.Valid() && ev.kind == KindData && ev.offset == 0
    ensures
      var ops := [Op.Emit(ev, None), Op.Advance(ev.timestamp, [ev]), Op.Checkpoint(0)];
      && Legal(cfg, ops) && Run(cfg, ops).lastCommitted == 0
      && Run(cfg, ops).core.sink.committed == []
      && Run(cfg, ops).core.sink.pending == [K.OutputRecord(ev.key, ev.value, 1)]
  {
    hide Run, CoreOps, Events, Legal, CanStep, Served, Records, DataOf;
    var served := [] + [Op.Emit(ev, None)] + [Op.Advance(ev.timestamp, [ev])];
    FreshEngine(cfg);
    assert [] + [ev] == [ev];
    ServeOne(cfg, [], [], 0, ev, ev.timestamp);
    assert served + [Op.Checkpoint(0)] == [Op.Emit(ev, None), Op.Advance(ev.timestamp, [ev]), Op.Checkpoint(0)];
    CheckpointAfter(cfg, served, [ev], Max(0, ev.timestamp), 0);
    LoneRecord(ev);
    var sink := Run(cfg, served + [Op.Checkpoint(0)]).core.sink;
    SplitOne(sink.committed, sink.pending, K.OutputRecord(ev.key, ev.value, 1));
  }

  /** Pings take offsets and leave no record: a checkpoint at a ping's offset flushes the event after it. */
  lemma PingFlushesEarly(cfg: Config, ping: Event, ev: Event)
    requires cfg.Valid() && ping.kind == KindSessionPing && ping.offset == 1
    requires ev.kind == KindData && ev.offset == 2
    ensures
      var ops := [Op.Emit(ping, None), Op.Advance(ping.timestamp, [ping]),
                  Op.Emit(ev, None), Op.Advance(ev.timestamp, [ev]), Op.Checkpoint(1)];
      && Legal(cfg, ops) && Run(cfg, ops).lastCommitted == 1
      && Run(cfg, ops).core.sink.committed == [K.OutputRecord(ev.key, ev.value, 1)]
  {
    hide Run, CoreOps, Events, Legal, CanStep, Records, DataOf, Served;
    var pinged := [] + [Op.Emit(ping, None)] + [Op.Advance(ping.timestamp, [ping])];
    var served := pinged + [Op.Emit(ev, None)] + [Op.Advance(ev.timestamp, [ev])];
    ServedPing(cfg, ping, ev);
    assert served + [Op.Checkpoint(1)] == [Op.Emit(ping, None), Op.Advance(ping.timestamp, [ping]),
      Op.Emit(ev, None), Op.Advance(ev.timestamp, [ev]), Op.Checkpoint(1)];
    CheckpointAfter(cfg, served, [ping, ev], Max(Max(0, ping.timestamp), ev.timestamp), 1);
    PingedRecord(ping, ev);
    var sink := Run(cfg, served + [Op.Checkpoint(1)]).core.sink;
    assert Records(DataOf([ping, ev]))[0] in sink.committed;
    SplitOne(sink.committed, sink.pending, K.OutputRecord(ev.key, ev.value, 1));
  }

  lemma ServedPing(cfg: Config, ping: Event, ev: Event)
    requires cfg.Valid() && ping.offset != ev.offset
    ensures Served(cfg, [] + [Op.Emit(ping, None)] + [Op.Advance(ping.timestamp, [ping])]
                        + [Op.Emit(ev, None)] + [Op.Advance(ev.timestamp, [ev])],
                   [ping, ev], Max(Max(0, ping.timestamp), ev.timestamp))
  {
    hide Served;
    FreshEngine(cfg);
    assert [] + [ping] == [ping] && [ping] + [ev] == [ping, ev];
    ServeOne(cfg, [], [], 0, ping, ping.timestamp);
    ServeOne(cfg, [] + [Op.Emit(ping, None)] + [Op.Advance(ping.timestamp, [ping])], [ping], Max(0, ping.timestamp),
      ev, ev.timestamp);
  }

  lemma SplitOne<X>(a: seq<X>, b: seq<X>, x: X)
    requires a + b == [x]
    ensures if x in a then a == [x] && b == [] else a == [] && b == [x]
  {
    assert |a| + |b| == 1;
    if a != [] {
      assert a[0] == (a + b)[0];
    } else {
      assert b == a + b;
    }
  }

  lemma {:induction false} CheckpointAfter(cfg: Config, ops: seq<Op>, log: seq<Event>, confirmed: int, offset: int)
    requires Served(cfg, ops, log, confirmed)
    ensures
      var after, records := Run(cfg, ops + [Op.Checkpoint(offset)]), Records(DataOf(log));
      && Legal(cfg, ops + [Op.Checkpoint(offset)])
      && after.core.sink.committed + after.core.sink.pending == records
      && (forall k :: 0 <= k < |records| ==> (records[k] in after.core.sink.committed <==> k + 1 <= offset))
      && after.lastCommitted == offset && (offset >= 0 ==> after.position >= offset)
  {
    hide Run, CoreOps, Events, Records, DataOf;
    assert Front(ops + [Op.Checkpoint(offset)]) == ops;
    NothingFlushed(cfg, ops);
    Ledger.CheckpointFlushes(cfg, ops, offset);
  }

  lemma LoneRecord(ev: Event)
    requires ev.kind == KindData
    ensures Records(DataOf([ev])) == [K.OutputRecord(ev.key, ev.value, 1)]
  {
    assert Front([ev]) == [];
    assert DataOf([ev]) == [ev];
  }

  lemma PingedRecord(ping: Event, ev: Event)
    requires ping.kind != KindData && ev.kind == KindData
    ensures Records(DataOf([ping, ev])) == [K.OutputRecord(ev.key, ev.value, 1)]
  {
    assert Front([ping, ev]) == [ping] && Front([ping]) == [] && Front([ev]) == [];
    assert [ping, ev] == [ping] + [ev] && [] + [ev] == [ev];
    assert DataOf([ping]) == DataOf([]) == [];
    DataSnoc([ping], ev, "");
  }

  // ---------------------------------------------------------------------------------------
  // One event
  // ---------------------------------------------------------------------------------------

  lemma LoneEmission(cfg: Config, ev: Event)
    requires cfg.Valid()
    ensures Legal(cfg, [Op.Emit(ev, None)])
    ensures Emissions(cfg, [Op.Emit(ev, None)]) == Kept(cfg, [Op.Emit(ev, None)]) == [Emission(ev, 0)]
    ensures Run(cfg, [Op.Emit(ev, None)]).source == Init(cfg).source.Emitted(ev, None)
  {
    hide EmptyCore;
    assert Front([Op.Emit(ev, None)]) == [];
    assert Legal(cfg, []);
    assert |multiset{} + multiset{ev}| == 1;
  }

  lemma LoneEventStreams(cfg: Config, ev: Event, ts: int)
    requires cfg.Valid() && ev.timestamp <= ts
    ensures
      var ops := [Op.Emit(ev, None), Op.Advance(ts, [ev])];
      && Streams(cfg, ops) && Emissions(cfg, ops) == Kept(cfg, ops) == [Emission(ev, 0)]
      && Run(cfg, ops).source.mark.confirmed == Max(0, ts)
  {
    hide HandOps, HandedOn, AfterTrigger, Run, Legal, Emissions, Kept;
    LoneEmission(cfg, ev);
    LoneDrain(ev, ts);
    AfterLoneEmission(cfg, [Op.Emit(ev, None)], Op.Advance(ts, [ev]));
    assert [Op.Emit(ev, None)] + [Op.Advance(ts, [ev])] == [Op.Emit(ev, None), Op.Advance(ts, [ev])];
    assert Front([Emission(ev, 0)]) == [];
    assert Emitted([Emission(ev, 0)]) == [ev];
  }

  lemma {:induction false} AfterLoneEmission(cfg: Config, ops: seq<Op>, op: Op)
    requires cfg.Valid() && Legal(cfg, ops) && op.Advance? && CanStep(cfg, Run(cfg, ops), op)
    ensures Legal(cfg, ops + [op])
    ensures Emissions(cfg, ops + [op]) == Emissions(cfg, ops) && Kept(cfg, ops + [op]) == Kept(cfg, ops)
    ensures Run(cfg, ops + [op]).source == Run(cfg, ops).source.Advanced(op.ts, op.order)
  {
    hide HandedOn, HandOps, AfterTrigger, CanStep;
    assert Front(ops + [op]) == ops;
    HandOpsEffect(cfg, Run(cfg, ops), op.order);
  }

  /** One event emitted on time into a fresh engine, and an advance past its window, publish its value. */
  lemma LoneEventIsPublished(cfg: Config, ev: Event, ts: int)
    requires cfg.Valid() && ev.kind == KindData
    requires 0 < WindowEnd(cfg.size, ev) <= ts
    ensures
      var w := W.WindowFor(cfg.size, ev.timestamp);
      var results := Run(cfg, [Op.Emit(ev, None), Op.Advance(ts, [ev])]).core.tumbling.results;
      w in results && results[w] == WindowResult(w, 1, ev.value, ev.value, Max(0, ev.value), true, 0, 0)
  {
    hide Run, Streams, Emissions, Kept, W.WindowFor, Aggregates;
    var ops, w := [Op.Emit(ev, None), Op.Advance(ts, [ev])], W.WindowFor(cfg.size, ev.timestamp);
    W.WindowForBounds(cfg.size, ev.timestamp);
    LoneEventStreams(cfg, ev, ts);
    LoneProjections(cfg.size, ev, w);
    PassedWindowsAreExact(cfg, ops, w);
    ClosedOnTimeWindow(cfg, ops, w);
    LoneAggregate(Run(cfg, ops).core.tumbling.results[w], w, ev.value);
  }

  lemma LoneProjections(size: int, ev: Event, w: WindowID)
    requires size > 0 && IsOnTime(size, w, Emission(ev, 0))
    ensures OnTimeEvents(size, [Emission(ev, 0)], w) == [ev] && AllOnTime(size, [Emission(ev, 0)], w)
    ensures EventsIn(size, Emitted([Emission(ev, 0)]), w) == [ev] && ValuesOf([ev]) == [ev.value]
  {
    assert Front([Emission(ev, 0)]) == [] && Front([ev]) == [];
    assert Emitted([Emission(ev, 0)]) == [ev];
  }

  lemma LoneAggregate(r: WindowResult, w: WindowID, value: int)
    requires Aggregates(r, w, [value]) && r.emitted && r.lateCount == r.lateSum == 0
    ensures r == WindowResult(w, 1, value, value, Max(0, value), true, 0, 0)
  {
    assert Front([value]) == [] && Sum([]) == 0;
    assert value in [value];
  }

  // ---------------------------------------------------------------------------------------
  // A pause
  // ---------------------------------------------------------------------------------------

  lemma WiringIsAcyclic()
    ensures !G.Cyclic(EDGES)
  {
    var order := ["sink-commit", "window-aggregate", "session-track"];
    assert G.OccursBefore(order, 1, "sink-commit") && G.OccursBefore(order, 2, "sink-commit") by {
      assert order[0] == "sink-commit";
    }
    assert Distinct(order);
    assert forall e :: e in EDGES ==> e == EDGES[0] || e == EDGES[1];
    assert order[1] == "window-aggregate" && order[2] == "session-track";
    assert G.IsTopologicalOrder(EDGES, order);
    G.OrderedMeansAcyclic(EDGES, order);
  }

  // After one event is applied, its window is open while the watermark has not reached its end.
  lemma LoneWindowIsOpen(cfg: Config, ev: Event)
    requires cfg.Valid() && ev.kind == KindData && 0 < WindowEnd(cfg.size, ev)
    ensures
      var ops, w := [Op.Emit(ev, None), Op.Advance(ev.timestamp, [ev])], W.WindowFor(cfg.size, ev.timestamp);
      && Served(cfg, ops, [ev], Max(0, ev.timestamp))
      && w in Run(cfg, ops).core.tumbling.windows && !W.IsClosed(Run(cfg, ops).core.tumbling, w)
      && Run(cfg, ops).source.mark.confirmed < WindowEnd(cfg.size, ev)
  {
    hide Run, CoreOps, Events, Served, W.WindowFor, W.IsClosed, Streams;
    var ops, w := [Op.Emit(ev, None), Op.Advance(ev.timestamp, [ev])], W.WindowFor(cfg.size, ev.timestamp);
    FreshEngine(cfg);
    assert [] + [ev] == [ev];
    OneOffset(ev);
    ServeOne(cfg, [], [], 0, ev, ev.timestamp);
    assert [] + [Op.Emit(ev, None)] + [Op.Advance(ev.timestamp, [ev])] == ops;
    W.WindowForBounds(cfg.size, ev.timestamp);
    LoneEventStreams(cfg, ev, ev.timestamp);
    RunKeepsWindow(cfg, ops, w);
    ServedLog(cfg, ops, [ev], Max(0, ev.timestamp));
    Ledger.WindowLedger(cfg, ops, w);
    LoneProjections(cfg.size, ev, w);
  }

  lemma {:induction false} ServedLog(cfg: Config, ops: seq<Op>, log: seq<Event>, confirmed: int)
    requires Served(cfg, ops, log, confirmed)
    ensures cfg.Valid() && Legal(cfg, ops) && Events(CoreOps(cfg, ops)) == log
    ensures Run(cfg, ops).core.state.applied == T.Offsets(log)
  {
    hide Run, CoreOps, Events, T.Run, T.Log, T.Offsets;
    Ledger.EngineFollowsTopology(cfg, ops);
    T.AppliedExactlyOnce(Ledger.TopologyOps(ops));
  }

  lemma PauseOne(cfg: Config, ops: seq<Op>)
    requires cfg.Valid() && Legal(cfg, ops)
    ensures
      var e, after := Run(cfg, ops), ops + [Op.Submit(T.Pause)];
      Legal(cfg, after) && Run(cfg, after) == e.(controls := e.controls.(paused := true))
  {
    hide Processed;
    assert Front(ops + [Op.Submit(T.Pause)]) == ops;
    T.OffsetsOfNone();
    assert Run(cfg, ops).core.state.applied + {} == Run(cfg, ops).core.state.applied;
  }

  // An advance during a pause moves what it pops to the pause buffer.
  lemma {:induction false} AdvancePaused(cfg: Config, ops: seq<Op>, ts: int, order: seq<Event>)
    requires cfg.Valid() && Legal(cfg, ops) && Run(cfg, ops).controls.paused
    requires R.Drains(Run(cfg, ops).source.bag, ts, order)
    ensures
      var e, after := Run(cfg, ops), ops + [Op.Advance(ts, order)];
      && Legal(cfg, after)
      && Run(cfg, after).controls == e.controls.(buffer := e.controls.buffer + order)
      && Run(cfg, after).core.state == e.core.state
      && Run(cfg, after).source.mark.confirmed >= ts
  {
    hide AfterTrigger, HandedOn, HandOps;
    AdvanceOne(cfg, ops, ts, order);
    PausedDrainOnlyBuffers(cfg, Run(cfg, ops), order);
    assert Front(ops + [Op.Advance(ts, order)]) == ops;
    AdvanceSource(cfg, Run(cfg, ops), Op.Advance(ts, order));
    Ledger.TriggerKeepsTopology(cfg, HandedOn(cfg, Run(cfg, ops), order).core,
      Run(cfg, ops + [Op.Advance(ts, order)]).source.mark.confirmed);
  }

  // A single buffered event with a new offset is replayed.
  lemma {:induction false} ResumeOne(cfg: Config, ops: seq<Op>, ev: Event)
    requires cfg.Valid() && Legal(cfg, ops) && Run(cfg, ops).controls == Controls(OPERATORS, EDGES, true, [ev])
    requires ev.offset !in Run(cfg, ops).core.state.applied
    ensures Legal(cfg, ops + [Op.Submit(T.Resume([ev]))])
    ensures T.Applies(Run(cfg, ops).Topology(), T.Resume([ev])) == [ev]
  {
    hide Run;
    assert Front(ops + [Op.Submit(T.Resume([ev]))]) == ops;
    WiringIsAcyclic();
    T.NewOneOf(Run(cfg, ops).core.state.applied, ev);
  }

  /**
    An event emitted while its window's end lay ahead of the watermark, late all the same: another event has
    opened the window, and a pause keeps this one back while an advance passes the window's end.
   */
  lemma PausedOnTimeEventIsLate(cfg: Config, first: Event, second: Event)
    requires cfg.Valid() && first.kind == second.kind == KindData && first.offset != second.offset
    requires W.WindowFor(cfg.size, first.timestamp) == W.WindowFor(cfg.size, second.timestamp)
    requires 0 < WindowEnd(cfg.size, second)
    ensures
      var end := WindowEnd(cfg.size, second);
      var before := [Op.Emit(first, None), Op.Advance(first.timestamp, [first]), Op.Submit(T.Pause)];
      var after := before + [Op.Emit(second, None), Op.Advance(end, [second])] + [Op.Submit(T.Resume([second]))];
      && Legal(cfg, after)
      && Run(cfg, before).source.mark.confirmed < end
      && second in LateEvents(cfg, CoreOps(cfg, after))
  {
    hide Run, CoreOps, Events, W.WindowFor, W.IsClosed, LateEvents, T.Applies, T.Offsets, Legal, CanStep, R.Drains;
    var end, w := WindowEnd(cfg.size, second), W.WindowFor(cfg.size, second.timestamp);
    var served := [Op.Emit(first, None), Op.Advance(first.timestamp, [first])];
    var before := served + [Op.Submit(T.Pause)];
    var emitted := before + [Op.Emit(second, None)];
    var pause := [Op.Emit(second, None), Op.Advance(end, [second])];
    LoneWindowIsOpen(cfg, first);
    ServedLog(cfg, served, [first], Max(0, first.timestamp));
    OneOffset(first);
    PauseOne(cfg, served);
    EmitOne(cfg, before, second);
    W.WindowForBounds(cfg.size, second.timestamp);
    LoneDrain(second, end);
    AdvancePaused(cfg, emitted, end, [second]);
    assert emitted + [Op.Advance(end, [second])] == before + pause;
    assert [] + [second] == [second];
    ResumeOne(cfg, before + pause, second);
    assert Op.Advance(end, [second]) in pause;
    PausedEventsMissTheirWindow(cfg, before, pause, [second], second);
    assert before == [Op.Emit(first, None), Op.Advance(first.timestamp, [first]), Op.Submit(T.Pause)];
  }

  // ---------------------------------------------------------------------------------------
  // The empty key
  // ---------------------------------------------------------------------------------------

  function LoneSession(cfg: Config, ev: Event): S.Session {
    var values := if ev.kind == KindData then [ev.value] else [];
    S.Session(ev.timestamp, ev.timestamp + cfg.timeout, ev.timestamp, values, WindowOpen)
  }

  lemma {:induction false} LoneTouch(cfg: Config, ev: Event, applied: set<int>)
    requires cfg.Valid() && ev.key == ""
    ensures
      var mark := [MarkApplied(applied)];
      var c, w := CoreRun(cfg, mark + [Process(ev)]), W.WindowFor(cfg.size, ev.timestamp);
      && c.sessions == map["" := LoneSession(cfg, ev)]
      && (ev.kind == KindData ==> w in c.tumbling.windows && c.tumbling.windows[w].state == WindowOpen)
      && SessionOps(cfg, mark) == []
  {
    hide W.WindowFor, Processed;
    var mark := [MarkApplied(applied)];
    assert Front(mark + [Process(ev)]) == mark && Front(mark) == [];
    var c := CoreRun(cfg, mark);
    assert CoreRun(cfg, []) == EmptyCore(cfg);
    assert c == CoreNext(cfg, CoreRun(cfg, []), MarkApplied(applied));
    assert c.sessions == map[] && c.tumbling == W.Tumbling(map[], map[], map[]);
    ProcessedWindows(cfg, c, ev);
    ProcessedSessions(cfg, c, ev);
    IngestStates(cfg.size, c.tumbling, ev, W.WindowFor(cfg.size, ev.timestamp));
    assert [] + [ev.value] == [ev.value];
  }

  lemma ProcessedSessions(cfg: Config, c: Core, ev: Event)
    requires cfg.Valid()
    ensures Processed(cfg, c, ev).sessions ==
      S.Touched(cfg.timeout, c.sessions, ev.key, ev.timestamp, ev.value, ev.kind == KindData)
  {
    hide W.Ingested, P.Next, S.Touched;
  }

  lemma LoneEmptyKey(cfg: Config, ev: Event, applied: set<int>)
    requires cfg.Valid() && cfg.size == cfg.timeout && ev.key == ""
    requires W.WindowFor(cfg.size, ev.timestamp).start == ev.timestamp
    ensures
      var chain, w := [MarkApplied(applied), Process(ev)], W.WindowFor(cfg.size, ev.timestamp);
      var c := CoreRun(cfg, chain);
      && c.sessions == map["" := LoneSession(cfg, ev)] && S.WindowOf(c.sessions, "") == w
      && (ev.kind == KindData ==> w in c.tumbling.windows && c.tumbling.windows[w].state == WindowOpen)
      && SR.Emissions(cfg.timeout, SessionOps(cfg, chain), "") == []
  {
    hide W.WindowFor, CoreRun;
    var mark := [MarkApplied(applied)];
    W.WindowForBounds(cfg.size, ev.timestamp);
    LoneTouch(cfg, ev, applied);
    assert mark + [Process(ev)] == [MarkApplied(applied), Process(ev)];
    assert Front(mark + [Process(ev)]) == mark;
    assert SR.Emissions(cfg.timeout, [], "") == [];
    EmissionsOfTouch(cfg.timeout, [], SR.Touch("", ev.timestamp, ev.value, ev.kind == KindData),
      SR.Foreign(CoreRun(cfg, mark + [Process(ev)]).tumbling.results), "");
  }

  lemma LoneHandOps(cfg: Config, e: EngineState, ev: Event)
    requires cfg.Valid() && !e.controls.paused && ev.offset !in e.core.state.applied
    ensures HandOps(cfg, e, [ev]) == [MarkApplied({ev.offset}), Process(ev)]
  {
    assert Front([ev]) == [];
    T.NewOneOf(e.core.state.applied, ev);
    T.OffsetsOfOne(ev);
    assert ProcessOps([ev]) == [Process(ev)];
  }

  // The first advance over a single event, as operations of the chain.
  lemma LoneChain(cfg: Config, ev: Event, ts: int)
    requires cfg.Valid() && ev.timestamp <= ts
    ensures
      var ops := [Op.Emit(ev, None), Op.Advance(ts, [ev])];
      && Served(cfg, ops, [ev], Max(0, ts))
      && CoreOps(cfg, ops) == [MarkApplied({ev.offset}), Process(ev)] + [Trigger(Max(0, ts))]
  {
    hide HandOps, HandedOn, Run, CoreOps, Events, Legal;
    var emitted, ops := [] + [Op.Emit(ev, None)], [Op.Emit(ev, None), Op.Advance(ts, [ev])];
    FreshEngine(cfg);
    EmitOne(cfg, [], ev);
    assert [] + [ev] == [ev];
    OneOffset(ev);
    ServeOne(cfg, [], [], 0, ev, ts);
    assert emitted + [Op.Advance(ts, [ev])] == ops && Front(ops) == emitted;
    NothingRun(cfg);
    LoneHandOps(cfg, Run(cfg, emitted), ev);
    EventsOfAdvance(cfg, ops);
    assert [] + [MarkApplied({ev.offset}), Process(ev)] == [MarkApplied({ev.offset}), Process(ev)];
  }

  /**
    Sessions and tumbling windows share the result store. When the timeout is the window size, one aligned
    event with an empty key makes a session with the identity of its tumbling window, which fires first: the
    session is refused.
   */
  lemma {:induction false} EmptyKeyMeetsTumbling(cfg: Config, ev: Event, ts: int)
    requires cfg.Valid() && cfg.size == cfg.timeout && ev.kind == KindData && ev.key == ""
    requires W.WindowFor(cfg.size, ev.timestamp).start == ev.timestamp && ev.timestamp + cfg.timeout < ts
    ensures
      var ops := [Op.Emit(ev, None), Op.Advance(ts, [ev])];
      && Legal(cfg, ops)
      && SR.Emissions(cfg.timeout, SessionOps(cfg, CoreOps(cfg, ops)), "") ==
         [SR.Emission(W.WindowFor(cfg.size, ev.timestamp), [ev.value], false)]
  {
    hide Run, CoreOps, CoreRun, SessionOps, SR.Emissions, W.WindowFor, Legal, W.Triggered, W.IsClosed, Served,
      SessionEmitted, Events;
    var ops, chain := [Op.Emit(ev, None), Op.Advance(ts, [ev])], [MarkApplied({ev.offset}), Process(ev)];
    LoneChain(cfg, ev, ts);
    ServedLog(cfg, ops, [ev], Max(0, ts));
    LoneEmptyKey(cfg, ev, {ev.offset});
    W.WindowForBounds(cfg.size, ev.timestamp);
    TriggerEffect(CoreRun(cfg, chain).tumbling, Max(0, ts), W.WindowFor(cfg.size, ev.timestamp));
    SessionRefusedExactly(cfg, chain, Max(0, ts), "");
  }

  // A ping of the empty key leaves a session with the identity of a tumbling window that does not exist yet.
  lemma PingComesFirst(cfg: Config, ping: Event, ts: int)
    requires cfg.Valid() && cfg.size == cfg.timeout && ping.kind != KindData && ping.key == ""
    requires W.WindowFor(cfg.size, ping.timestamp).start == ping.timestamp
    requires 0 <= ping.timestamp + cfg.timeout < ts
    ensures
      var ops, w := [Op.Emit(ping, None), Op.Advance(ts, [ping])], W.WindowFor(cfg.size, ping.timestamp);
      Served(cfg, ops, [ping], ts) && SessionCameFirst(cfg, CoreOps(cfg, ops), w)
  {
    hide Run, CoreOps, CoreRun, SessionOps, SR.Emissions, W.WindowFor, Legal, W.Triggered, W.IsClosed, Events, EventsIn,
      ValuesOf, SessionCameFirst, Served;
    var ops, w := [Op.Emit(ping, None), Op.Advance(ts, [ping])], W.WindowFor(cfg.size, ping.timestamp);
    var chain, trigger := [MarkApplied({ping.offset}), Process(ping)], Trigger(ts);
    LoneChain(cfg, ping, ts);
    ServedLog(cfg, ops, [ping], ts);
    LoneEmptyKey(cfg, ping, {ping.offset});
    SessionRefusedExactly(cfg, chain, ts, "");
    W.WindowForBounds(cfg.size, ping.timestamp);
    assert SessionEmitted(cfg, chain + [trigger], w) by {
      assert SR.Emissions(cfg.timeout, SessionOps(cfg, chain + [trigger]), "")[0].window == w;
    }
    PingFillsNothing(cfg.size, ping, w);
    if W.IsClosed(Run(cfg, ops).core.tumbling, w) {
      Ledger.ClosedWindowLedger(cfg, ops, w);
      Ledger.WindowLedger(cfg, ops, w);
    }
    CoreOpsEffect(cfg, ops);
    CameFirstSnoc(cfg, chain, trigger, w);
  }

  lemma PingFillsNothing(size: int, ping: Event, w: WindowID)
    requires size > 0 && ping.kind != KindData
    ensures EventsIn(size, [ping], w) == [] && ValuesOf([]) == []
  {
    assert Front([ping]) == [];
  }

  lemma {:induction false} NoValuesEmitted(es: seq<SR.Emission>, w: WindowID)
    requires SR.EmittedValues(es) == []
    ensures SR.FirstValues(es, w) == []
    decreases |es|
  {
    if es != [] {
      NoValuesEmitted(Front(es), w);
    }
  }

  lemma PingThenData(size: int, ping: Event, ev: Event, w: WindowID)
    requires size > 0 && ping.kind != KindData && ev.key != "" && Owns(size, w, ev)
    ensures ValuesOf(EventsIn(size, [ping, ev], w)) == [ev.value]
    ensures KeyedValues(DataOf([ping, ev]), "") == []
  {
    assert Front([ping, ev]) == [ping] && Front([ping]) == [] && Front([ev]) == [];
    assert EventsIn(size, [ping], w) == EventsIn(size, [], w) == [];
    assert EventsIn(size, [ping, ev], w) == [] + [ev] == [ev];
    assert DataOf([ping]) == DataOf([]) == [];
    assert DataOf([ping, ev]) == [] + [ev] == [ev];
  }

  /**
    It can also go the other way. A ping of the empty key makes a session with the identity of a tumbling
    window, and the session is emitted before any data reaches that window: when the window closes, the store
    refuses it, and its data, of whatever key, is neither published nor counted as late.
   */
  lemma {:induction false} SessionDisplacesWindow(cfg: Config, ping: Event, ev: Event, ts: int)
    requires cfg.Valid() && cfg.size == cfg.timeout && ping.kind != KindData && ping.key == ""
    requires W.WindowFor(cfg.size, ping.timestamp).start == ping.timestamp
    requires 0 <= ping.timestamp + cfg.timeout < ts
    requires ev.key != "" && Owns(cfg.size, W.WindowFor(cfg.size, ping.timestamp), ev) && ev.offset != ping.offset
    ensures
      var ops := [Op.Emit(ping, None), Op.Advance(ts, [ping]), Op.Emit(ev, None), Op.Advance(ts, [ev])];
      var t, w := Run(cfg, ops).core.tumbling, W.WindowFor(cfg.size, ping.timestamp);
      && Legal(cfg, ops) && Events(CoreOps(cfg, ops)) == [ping, ev]
      && W.IsClosed(t, w) && W.Values(t, w) == [ev.value]
      && w in t.results && t.results[w] == WindowResult(w, 0, 0, 0, 0, true, 0, 0)
  {
    hide Run, CoreOps, CoreRun, SessionOps, SR.Emissions, W.WindowFor, Legal, W.IsClosed, Events, EventsIn, ValuesOf,
      SessionCameFirst, Served, W.Values, HandOps, StepOps, KeyedValues, DataOf, SR.FirstValues, SessionEmitted;
    var w := W.WindowFor(cfg.size, ping.timestamp);
    var pinged := [Op.Emit(ping, None), Op.Advance(ts, [ping])];
    var ops := [Op.Emit(ping, None), Op.Advance(ts, [ping]), Op.Emit(ev, None), Op.Advance(ts, [ev])];
    W.WindowForBounds(cfg.size, ev.timestamp);
    PingComesFirst(cfg, ping, ts);
    ServedAfter(cfg, pinged, ping, ev, ts);
    assert pinged + [Op.Emit(ev, None)] + [Op.Advance(ts, [ev])] == ops;
    ServedLog(cfg, ops, [ping, ev], ts);
    var chain := CoreOps(cfg, ops);
    FedThenPassed(cfg, chain, CoreOps(cfg, pinged), ev, ts, w);
    CoreOpsEffect(cfg, ops);
    PingThenData(cfg.size, ping, ev, w);
    Ledger.WindowLedger(cfg, ops, w);
    Ledger.ClosedWindowLedger(cfg, ops, w);
    SessionOpsValues(cfg, chain, "");
    SR.SessionValuesOnce(cfg.timeout, SessionOps(cfg, chain), "");
    NoValuesEmitted(SR.Emissions(cfg.timeout, SessionOps(cfg, chain), ""), w);
    assert Sum([]) == 0;
  }

  // Serving one more event adds its mark, its turn on the chain and the trigger.
  lemma ServedAfter(cfg: Config, ops: seq<Op>, ping: Event, ev: Event, ts: int)
    requires Served(cfg, ops, [ping], ts) && ev.timestamp <= ts && ev.offset != ping.offset
    ensures
      var after := ops + [Op.Emit(ev, None)] + [Op.Advance(ts, [ev])];
      && Served(cfg, after, [ping, ev], ts)
      && CoreOps(cfg, after) == CoreOps(cfg, ops) + [MarkApplied({ev.offset}), Process(ev)] + [Trigger(ts)]
  {
    hide Run, CoreOps, Events, HandOps, HandedOn, Legal;
    var emitted := ops + [Op.Emit(ev, None)];
    var after := emitted + [Op.Advance(ts, [ev])];
    assert [ping] + [ev] == [ping, ev];
    ServeOne(cfg, ops, [ping], ts, ev, ts);
    EmitOne(cfg, ops, ev);
    ServedLog(cfg, ops, [ping], ts);
    OneOffset(ping);
    LoneHandOps(cfg, Run(cfg, emitted), ev);
    assert Front(after) == emitted;
    EventsOfAdvance(cfg, after);
  }

  // The event opens its window, if need be, and the trigger closes it; what came first stays first.
  lemma {:induction false} FedThenPassed(cfg: Config, chain: seq<CoreOp>, before: seq<CoreOp>, ev: Event,
                                         confirmed: int, w: WindowID)
    requires cfg.Valid() && chain == before + [MarkApplied({ev.offset}), Process(ev)] + [Trigger(confirmed)]
    requires Owns(cfg.size, w, ev) && w.end <= confirmed && SessionCameFirst(cfg, before, w)
    ensures W.IsClosed(CoreRun(cfg, chain).tumbling, w) && SessionCameFirst(cfg, chain, w)
  {
    hide CoreRun, SessionEmitted, SessionCameFirst, Owns;
    assert Feeds(cfg.size, chain[|chain| - 2], w) && Passes(chain[|chain| - 1], w);
    assert WasPassed(cfg.size, chain, w);
    ClosedExactly(cfg, chain, w);
    CameFirstSnoc(cfg, before, MarkApplied({ev.offset}), w);
    CameFirstSnoc(cfg, before + [MarkApplied({ev.offset})], Process(ev), w);
    CameFirstSnoc(cfg, before + [MarkApplied({ev.offset})] + [Process(ev)], Trigger(confirmed), w);
    assert chain == before + [MarkApplied({ev.offset})] + [Process(ev)] + [Trigger(confirmed)];
  }

  lemma NothingRun(cfg: Config)
    requires cfg.Valid()
    ensures CoreOps(cfg, []) == [] && Run(cfg, []).core.state.applied == {} && !Run(cfg, []).controls.paused
  {
  }
}
