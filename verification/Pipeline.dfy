/**
  The pipeline: the mutable components wired together. Every operation is proved to do to the
  components what the engine model says.
 */
module Pipelines {
  import opened Model
  import opened Engine
  import W = Windows
  import S = Sessions
  import P = Partitioning
  import B = StateBackend
  import K = OutputSink
  import T = Topology
  import R = EventSource
  import G = OperatorGraph
  import Aggregation
  import Checkpointing
  import ReorderBuffer
  import Watermarks

  class Pipeline {
    ghost const cfg: Config
    const tracker: Watermarks.Tracker
    const source: R.Source
    const agg: Aggregation.Store
    const windows: W.Manager
    const sessions: S.SessionManager
    const state: B.Store
    const sink: K.Sink
    const offsets: Checkpointing.OffsetTracker
    const checkpoint: Checkpointing.Coordinator
    const partStore: P.PartitionedStore
    const router: P.Router
    const topology: T.Manager
    var pendingDeltas: Totals

    // How the components refer to each other.
    ghost predicate Wired() {
      && cfg.Valid()
      && source.tracker == tracker && source.buffer.maxSize == cfg.bufferSize
      && windows.sink == agg && windows.size == cfg.size
      && sessions.sink == agg && sessions.timeout == cfg.timeout
      && checkpoint.store == state && checkpoint.sink == sink && checkpoint.offsets == offsets
      && router.store == partStore && router.hash == cfg.hash
      && topology.state == state
    }

    ghost predicate Valid()
      reads this, source, source.buffer, agg, agg.cells, sink, router, partStore
    {
      && Wired()
      && source.Valid() && agg.Valid() && sink.Valid()
      && RoutingValid(router.View())
    }

    ghost function CoreView(): Core
      reads this, windows, windows.catalog, windows.sink, windows.sink.cells,
        sessions, state, sink, sink.pending, router, router.store
      requires sink.Valid()
    {
      Core(windows.View(), sessions.sessions, router.View(), state.View(), pendingDeltas, sink.View())
    }

    ghost function View(): EngineState
      reads this, windows, windows.catalog, windows.sink, windows.sink.cells,
        sessions, state, sink, sink.pending, router, router.store
      reads topology, topology.dag, source, source.buffer, source.tracker, offsets, checkpoint
      requires sink.Valid()
    {
      EngineState(
        CoreView(),
        Controls(topology.operators, topology.dag.edges, topology.paused, topology.buffer),
        source.View(), offsets.committed, checkpoint.lastCommitted, checkpoint.attempts)
    }

    constructor Wire(config: Config, tracker: Watermarks.Tracker, source: R.Source,
                     windows: W.Manager, sessions: S.SessionManager, router: P.Router,
                     checkpoint: Checkpointing.Coordinator, topology: T.Manager)
      requires config.Valid()
      requires source.tracker == tracker && source.buffer.maxSize == config.bufferSize && source.Valid()
      requires windows.size == config.size && windows.Valid()
      requires sessions.sink == windows.sink && sessions.timeout == config.timeout
      requires router.hash == config.hash && router.View() == EmptyCore(config).routing
      requires checkpoint.store == topology.state && checkpoint.Valid()
      requires windows.View() == W.Tumbling(map[], map[], map[]) && sessions.sessions == map[]
      requires topology.state.View() == B.EMPTY && checkpoint.View() == Checkpointing.CoordinatorView(K.EMPTY, 0, 0, 0)
      requires Controls(topology.operators, topology.dag.edges, topology.paused, topology.buffer) ==
        Controls(OPERATORS, EDGES, false, [])
      requires source.View() == Init(config).source
      ensures Valid() && cfg == config && this.topology == topology
      ensures View() == Init(config)
    {
      cfg := config;
      this.tracker, this.source := tracker, source;
      this.agg, this.windows, this.sessions := windows.sink, windows, sessions;
      this.state, this.sink, this.offsets, this.checkpoint :=
        checkpoint.store, checkpoint.sink, checkpoint.offsets, checkpoint;
      this.partStore, this.router := router.store, router;
      this.topology := topology;
      pendingDeltas := map[];
      new;
      hide W.Manager.View, K.Sink.View, P.Router.View, B.Store.View, R.Source.View, Init, EmptyCore;
      InitParts(config);
    }

    static method NewWindows(config: Config) returns (windows: W.Manager, sessions: S.SessionManager)
      requires config.Valid()
      ensures windows.Valid() && windows.size == config.size && windows.View() == W.Tumbling(map[], map[], map[])
      ensures sessions.sink == windows.sink && sessions.timeout == config.timeout && sessions.sessions == map[]
    {
      var aggStore := new Aggregation.Store();
      windows := new W.Manager(config.size, aggStore);
      sessions := new S.SessionManager(config.timeout, aggStore);
    }

    static method NewSource(config: Config) returns (source: R.Source)
      ensures source.Valid() && source.buffer.maxSize == config.bufferSize && source.View() == Init(config).source
    {
      var tracker := new Watermarks.Tracker(0);
      var buffer := new ReorderBuffer.Buffer(config.bufferSize);
      source := new R.Source(buffer, tracker);
    }

    static method NewCheckpoint() returns (checkpoint: Checkpointing.Coordinator)
      ensures checkpoint.Valid() && checkpoint.View() == Checkpointing.CoordinatorView(K.EMPTY, 0, 0, 0)
      ensures fresh(checkpoint.store) && checkpoint.store.View() == B.EMPTY
    {
      var st := new B.Store();
      var sk := new K.Sink();
      var offsets := new Checkpointing.OffsetTracker(0);
      checkpoint := new Checkpointing.Coordinator(st, sk, offsets);
    }

    static method NewRouter(config: Config) returns (router: P.Router)
      requires config.Valid()
      ensures router.hash == config.hash && router.View() == EmptyCore(config).routing
    {
      var partStore := new P.PartitionedStore(config.partitions);
      router := new P.Router(config.partitions, partStore, config.hash);
    }

    static method NewTopology(st: B.Store) returns (topology: T.Manager)
      ensures topology.state == st
      ensures Controls(topology.operators, topology.dag.edges, topology.paused, topology.buffer) ==
        Controls(OPERATORS, EDGES, false, [])
    {
      topology := new T.Manager(st);
      topology.AddOperator("window-aggregate");
      topology.AddOperator("session-track");
      topology.AddOperator("sink-commit");
      var err := topology.Connect("window-aggregate", "sink-commit");
      err := topology.Connect("session-track", "sink-commit");
    }

    static method NewPipeline(config: Config) returns (p: Pipeline)
      requires config.Valid()
      ensures p.Valid() && p.cfg == config && p.View() == Init(config)
      ensures p.topology.operators == {"window-aggregate", "session-track", "sink-commit"}
      ensures |p.topology.dag.edges| == 2
      ensures p.topology.dag.edges[0] == G.Edge("window-aggregate", "sink-commit")
      ensures p.topology.dag.edges[1] == G.Edge("session-track", "sink-commit")
    {
      hide W.Manager.View, K.Sink.View, P.Router.View, B.Store.View, R.Source.View, Init, EmptyCore;
      var windows, sessions := NewWindows(config);
      var checkpoint := NewCheckpoint();
      var router := NewRouter(config);
      var topology := NewTopology(checkpoint.store);
      var source := NewSource(config);
      p := new Pipeline.Wire(config, source.tracker, source, windows, sessions, router, checkpoint, topology);
    }

    method Process(ev: Event)
      requires Valid()
      modifies this`pendingDeltas, windows, windows.catalog, sessions, agg, agg.cells,
        state, sink, sink.pending, router, partStore
      ensures Valid() && fresh(agg.cells - old(agg.cells)) && (sink.pending == old(sink.pending) || fresh(sink.pending))
      ensures CoreView() == Processed(cfg, old(CoreView()), ev)
    {
      hide Valid, CoreView, W.Ingested, S.Touched, DeltaAdded, P.Next;
      if ev.kind != KindData {
        Ping(ev);
      } else {
        Feed(ev);
        MaybeFlushDeltas(ev);
      }
    }

    method Ping(ev: Event)
      requires Valid()
      modifies sessions
      ensures Valid()
      ensures CoreView() == old(CoreView()).(
        sessions := S.Touched(cfg.timeout, old(CoreView()).sessions, ev.key, ev.timestamp, ev.value, false))
    {
      hide W.Manager.View, K.Sink.View, P.Router.View, B.Store.View, S.Touched;
      sessions.Touch(ev.key, ev.timestamp, ev.value, false);
    }

    // A data event reaches every component before its delta is accounted for.
    method Feed(ev: Event)
      requires Valid()
      modifies windows, windows.catalog, sessions, agg, agg.cells,
        state, sink, sink.pending, router, partStore
      ensures Valid() && fresh(agg.cells - old(agg.cells)) && (sink.pending == old(sink.pending) || fresh(sink.pending))
      ensures
        var before := old(CoreView());
        CoreView() == Core(
          W.Ingested(cfg.size, before.tumbling, ev),
          S.Touched(cfg.timeout, before.sessions, ev.key, ev.timestamp, ev.value, true),
          P.Next(cfg.hash, before.routing, P.RouteAdd(ev.key, ev.value)),
          before.state.Recorded(ev.key, ev.value),
          before.deltas,
          before.sink.Written(ev.key, ev.value))
    {
      hide W.Manager.View, K.Sink.View, P.Router.View, B.Store.View, W.Ingested, S.Touched, RoutingValid, P.Next;
      RouteAndRecord(ev.key, ev.value);
      var outcome := windows.Ingest(ev);
      TouchAndWrite(ev);
    }

    method TouchAndWrite(ev: Event)
      requires sink.Valid()
      modifies sessions, sink, sink.pending
      ensures sink.Valid() && (sink.pending == old(sink.pending) || fresh(sink.pending))
      ensures sessions.sessions ==
        S.Touched(sessions.timeout, old(sessions.sessions), ev.key, ev.timestamp, ev.value, true)
      ensures sink.View() == old(sink.View()).Written(ev.key, ev.value)
    {
      sessions.Touch(ev.key, ev.timestamp, ev.value, true);
      var rec := sink.Write(ev.key, ev.value);
    }

    // Both halves of the add, without a resize in between.
    method RouteAndRecord(key: string, value: int)
      requires router.store == partStore && RoutingValid(router.View())
      modifies router, partStore, state
      ensures RoutingValid(router.View())
      ensures router.View() == P.Next(router.hash, old(router.View()), P.RouteAdd(key, value))
      ensures state.View() == old(state.View()).Recorded(key, value)
    {
      var part := router.Route(key);
      partStore.Add(part, key, value);
      state.Record(key, value);
    }

    // The other components, which flushing deltas leaves alone.
    twostate predicate OthersUnchanged()
      requires old(sink.Valid()) && sink.Valid()
      reads this, windows, windows.catalog, windows.sink, windows.sink.cells, sessions, sink, sink.pending, router,
        router.store
    {
      && windows.View() == old(windows.View())
      && sessions.sessions == old(sessions.sessions)
      && router.View() == old(router.View())
      && sink.View() == old(sink.View())
    }

    method MaybeFlushDeltas(ev: Event)
      requires Valid()
      modifies this`pendingDeltas, state
      ensures Valid()
      ensures CoreView() == DeltaAdded(old(CoreView()), ev.key, ev.value)
    {
      hide W.Manager.View, K.Sink.View, P.Router.View, B.Store.View, RoutingValid;
      var delta := if ev.key in pendingDeltas then pendingDeltas[ev.key] else 0;
      pendingDeltas := pendingDeltas[ev.key := delta + ev.value];
      ghost var before, deltas := old(CoreView()), pendingDeltas;
      assert OthersUnchanged();
      assert deltas == Plus(before.deltas, ev.key, ev.value);
      if |pendingDeltas| < FLUSH_EVERY {
        assert CoreView() == before.(deltas := deltas);
        return;
      }
      var batch: Totals := map key | key in pendingDeltas :: pendingDeltas[key];
      assert batch == pendingDeltas;
      state.ApplyRound(batch);
      assert OthersUnchanged();
      pendingDeltas := map[];
      assert OthersUnchanged();
      assert CoreView() == before.(state := before.state.Applied(deltas), deltas := map[]);
    }

    method ProcessAll(evs: seq<Event>)
      requires Valid()
      modifies this`pendingDeltas, windows, windows.catalog, sessions, agg, agg.cells,
        state, sink, sink.pending, router, partStore
      ensures Valid() && fresh(agg.cells - old(agg.cells)) && (sink.pending == old(sink.pending) || fresh(sink.pending))
      ensures CoreView() == ProcessedAll(cfg, old(CoreView()), evs)
    {
      hide CoreView, Processed, ProcessedAll, RoutingValid;
      ghost var c := CoreView();
      ProcessedPrefixes(cfg, c, evs);
      for i := 0 to |evs|
        invariant Valid() && fresh(agg.cells - old(agg.cells))
        invariant sink.pending == old(sink.pending) || fresh(sink.pending)
        invariant CoreView() == ProcessedAll(cfg, c, evs[..i])
      {
        Process(evs[i]);
      }
    }

    // What the operator manager lets through runs down the chain at once.
    method TopologyProcess(ev: Event)
      requires Valid()
      modifies this`pendingDeltas, windows, windows.catalog, sessions, agg, agg.cells,
        state, sink, sink.pending, router, partStore, topology
      ensures Valid() && fresh(agg.cells - old(agg.cells)) && (sink.pending == old(sink.pending) || fresh(sink.pending))
      ensures View() == Submitted(cfg, old(View()), T.Process(ev))
    {
      hide W.Manager.View, K.Sink.View, P.Router.View, R.Source.View, RoutingValid, T.Next, T.Applies;
      var evs := topology.Process(ev);
      assert View() == old(View()).WithTopology(T.Next(old(View()).Topology(), T.Process(ev)));
      ProcessAll(evs);
    }

    method TopologyApplyNow(ev: Event)
      requires Valid()
      modifies this`pendingDeltas, windows, windows.catalog, sessions, agg, agg.cells,
        state, sink, sink.pending, router, partStore
      ensures Valid() && fresh(agg.cells - old(agg.cells)) && (sink.pending == old(sink.pending) || fresh(sink.pending))
      ensures View() == Submitted(cfg, old(View()), T.ApplyNow(ev))
    {
      hide W.Manager.View, K.Sink.View, P.Router.View, R.Source.View, RoutingValid, T.Next, T.Applies;
      var evs := topology.ApplyNow(ev);
      assert View() == old(View()).WithTopology(T.Next(old(View()).Topology(), T.ApplyNow(ev)));
      ProcessAll(evs);
    }

    method TopologyResume() returns (ghost order: seq<Event>)
      requires Valid()
      modifies this`pendingDeltas, windows, windows.catalog, sessions, agg, agg.cells,
        state, sink, sink.pending, router, partStore, topology
      ensures Valid() && fresh(agg.cells - old(agg.cells)) && (sink.pending == old(sink.pending) || fresh(sink.pending))
      ensures Engine.CanStep(cfg, old(View()), Submit(T.Resume(order)))
      ensures View() == Submitted(cfg, old(View()), T.Resume(order))
    {
      hide CoreView, Valid, T.Next, T.Applies, T.CanStep;
      var evs: seq<Event>;
      evs, order := Reconcile();
      ProcessAll(evs);
    }

    // The operator manager empties its buffer and marks what is new in it.
    method Reconcile() returns (evs: seq<Event>, ghost order: seq<Event>)
      requires Valid()
      modifies topology, state
      ensures Valid()
      ensures Engine.CanStep(cfg, old(View()), Submit(T.Resume(order)))
      ensures evs == T.Applies(old(View()).Topology(), T.Resume(order))
      ensures View() == old(View()).WithTopology(T.Next(old(View()).Topology(), T.Resume(order)))
    {
      hide W.Manager.View, K.Sink.View, P.Router.View, R.Source.View, RoutingValid, T.Next, T.Applies, T.CanStep;
      evs, order := topology.Resume();
    }

    method TopologyPause()
      requires Valid()
      modifies topology
      ensures Valid() && View() == Submitted(cfg, old(View()), T.Pause)
    {
      hide W.Manager.View, K.Sink.View, P.Router.View, R.Source.View, RoutingValid;
      T.OffsetsOfNone();
      topology.Pause();
      assert CoreView() == old(CoreView());
    }

    method Emit(ev: Event) returns (ghost victim: Option<Event>)
      requires Valid()
      modifies source, source.buffer
      ensures Valid() && Engine.CanStep(cfg, old(View()), Op.Emit(ev, victim))
      ensures View() == Engine.Next(cfg, old(View()), Op.Emit(ev, victim))
    {
      hide W.Manager.View, K.Sink.View, P.Router.View, RoutingValid, ReorderBuffer.CanStep, ReorderBuffer.Step;
      victim := source.Emit(ev);
      assert CoreView() == old(CoreView());
    }

    // One iteration of the drain loop: pop under the lock, hand on without it, acknowledge under it.
    method HandNext(ts: int) returns (ready: Option<Event>)
      requires Valid()
      modifies this`pendingDeltas, windows, windows.catalog, sessions, agg, agg.cells,
        state, sink, sink.pending, router, partStore, topology, source, source.buffer
      ensures Valid() && fresh(agg.cells - old(agg.cells)) && (sink.pending == old(sink.pending) || fresh(sink.pending))
      ensures ready.None? ==> View() == old(View()) && forall ev :: ev in View().source.bag ==> ev.timestamp > ts
      ensures ready.Some? ==> ReorderBuffer.IsMinOf(ready.value, old(View()).source.bag) && ready.value.timestamp <= ts
      ensures ready.Some? ==> View() == Popped(cfg, old(View()), ready.value)
    {
      hide View, CoreView, RoutingValid, ReorderBuffer.IsMinOf, Submitted;
      ghost var e := View();
      ready := TakeNext(ts);
      if ready.Some? {
        SubmittedKeepsSource(cfg, e, T.Process(ready.value), View().source);
        HandOn(ready.value);
      }
    }

    // The pop, with the lock held.
    method TakeNext(ts: int) returns (ready: Option<Event>)
      requires Valid()
      modifies source`pending, source.buffer
      ensures Valid()
      ensures ready.None? ==> View() == old(View()) && forall ev :: ev in View().source.bag ==> ev.timestamp > ts
      ensures ready.Some? ==> ReorderBuffer.IsMinOf(ready.value, old(View()).source.bag) && ready.value.timestamp <= ts
      ensures ready.Some? ==> View() == old(View()).(source :=
        old(View()).source.(
          bag := old(View()).source.bag - multiset{ready.value},
          pending := old(View()).source.pending + 1))
    {
      hide W.Manager.View, K.Sink.View, P.Router.View, B.Store.View, RoutingValid, ReorderBuffer.IsMinOf,
        Aggregation.Store.View;
      ready := source.TakeReady(ts);
      assert CoreView() == old(CoreView());
    }

    // The event is ingested and then acknowledged.
    method HandOn(ev: Event)
      requires Valid()
      modifies this`pendingDeltas, windows, windows.catalog, sessions, agg, agg.cells,
        state, sink, sink.pending, router, partStore, topology, source`pending
      ensures Valid() && fresh(agg.cells - old(agg.cells)) && (sink.pending == old(sink.pending) || fresh(sink.pending))
      ensures
        var source := old(View()).source;
        View() == Submitted(cfg, old(View()), T.Process(ev)).(source := source.(pending := source.pending - 1))
    {
      hide View, CoreView, RoutingValid, Submitted;
      SubmittedKeepsSource(cfg, View(), T.Process(ev), View().source);
      TopologyProcess(ev);
      AcknowledgeOne();
    }

    method AcknowledgeOne()
      requires Valid()
      modifies source`pending
      ensures Valid()
      ensures View() == old(View()).(source := old(View()).source.(pending := old(View()).source.pending - 1))
    {
      hide W.Manager.View, K.Sink.View, P.Router.View, B.Store.View, RoutingValid, Aggregation.Store.View;
      source.Acknowledge();
      assert CoreView() == old(CoreView());
    }

    // The drain loop of AdvanceTo; `order` is the order in which the events were handed on.
    method Drain(ts: int) returns (ghost order: seq<Event>)
      requires Valid()
      modifies this`pendingDeltas, windows, windows.catalog, sessions, agg, agg.cells,
        state, sink, sink.pending, router, partStore, topology, source, source.buffer
      ensures Valid() && fresh(agg.cells - old(agg.cells)) && (sink.pending == old(sink.pending) || fresh(sink.pending))
      ensures R.Drains(old(View()).source.bag, ts, order)
      ensures View() == Drained(cfg, old(View()), order)
    {
      hide View, CoreView, RoutingValid, Drained, Popped, ReorderBuffer.IsMinOf, R.PopsFrom, R.Source.View;
      order := [];
      ghost var e := View();
      DrainedNothing(cfg, e, ts);
      while true
        invariant Valid() && fresh(agg.cells - old(agg.cells))
        invariant sink.pending == old(sink.pending) || fresh(sink.pending)
        invariant R.PopsFrom(e.source.bag, ts, order)
        invariant View() == Drained(cfg, e, order)
        decreases |View().source.bag|
      {
        DrainedBag(cfg, e, order);
        var ready := HandNext(ts);
        if ready.None? {
          return;
        }
        DrainedOneMore(cfg, e, ts, order, ready.value);
        order := order + [ready.value];
      }
    }

    // The watermark is raised and confirmed.
    method ConfirmAt(ts: int)
      requires Valid()
      modifies source`drained, tracker
      ensures Valid()
      ensures
        var source := old(View()).source;
        View() == old(View()).(
          source := source.(mark := source.mark.Advanced(ts).Published(), drained := source.drained + 1))
    {
      hide W.Manager.View, K.Sink.View, P.Router.View, B.Store.View, RoutingValid;
      source.Confirm(ts);
      assert CoreView() == old(CoreView());
    }

    /** Drains the buffer up to ts, then raises and confirms the watermark. */
    method AdvanceTo(ts: int) returns (ghost order: seq<Event>)
      requires Valid() && View().source.pending == 0
      modifies this`pendingDeltas, windows, windows.catalog, sessions, agg, agg.cells,
        state, sink, sink.pending, router, partStore, topology, source, source.buffer, tracker
      ensures Valid() && View().source.pending == 0
      ensures fresh(agg.cells - old(agg.cells)) && (sink.pending == old(sink.pending) || fresh(sink.pending))
      ensures R.Drains(old(View()).source.bag, ts, order)
      ensures View() == AdvancedTo(cfg, old(View()), ts, order)
    {
      hide View, CoreView, RoutingValid, HandedOn, R.Drains;
      order := Drain(ts);
      ConfirmAt(ts);
    }

    /** The watermark is advanced, and its observers fire what the confirmed value allows. */
    method Advance(ts: int) returns (ghost order: seq<Event>)
      requires Valid() && View().source.pending == 0
      modifies this`pendingDeltas, windows, windows.catalog, sessions, agg, agg.cells,
        state, sink, sink.pending, router, partStore, topology, source, source.buffer, tracker
      ensures Valid() && View().source.pending == 0
      ensures fresh(agg.cells - old(agg.cells)) && (sink.pending == old(sink.pending) || fresh(sink.pending))
      ensures Engine.CanStep(cfg, old(View()), Op.Advance(ts, order))
      ensures View() == Engine.Next(cfg, old(View()), Op.Advance(ts, order))
    {
      hide View, CoreView, RoutingValid, HandedOn, R.Drains, AfterTrigger, AdvancedTo, Engine.Next;
      order := AdvanceTo(ts);
      AdvancedThenNotified(cfg, old(View()), ts, order);
      Notify();
    }

    // The observers get the confirmed watermark.
    method Notify()
      requires Valid()
      modifies windows, windows.catalog, sessions, agg, agg.cells
      ensures Valid() && fresh(agg.cells - old(agg.cells))
      ensures View() == old(View()).(core := AfterTrigger(cfg, old(View()).core, old(View()).source.mark.confirmed))
    {
      hide CoreView, RoutingValid, AfterTrigger;
      var confirmed := tracker.Confirmed();
      TriggerOnWatermark(confirmed);
    }

    method TriggerOnWatermark(confirmed: int)
      requires Valid() && tracker.View().confirmed == confirmed
      modifies windows, windows.catalog, sessions, agg, agg.cells
      ensures Valid() && fresh(agg.cells - old(agg.cells))
      ensures CoreView() == AfterTrigger(cfg, old(CoreView()), confirmed)
    {
      hide K.Sink.View, P.Router.View, B.Store.View, RoutingValid, W.Triggered, S.Scanned, Aggregation.Store.View;
      var results := windows.MaybeTrigger(tracker);
      var closed := sessions.ScanTimeout(confirmed);
    }

    method ResizePartitions(partitions: nat)
      requires Valid() && partitions > 0
      modifies router, partStore
      ensures Valid()
      ensures View() == Engine.Next(cfg, old(View()), Op.Resize(partitions))
    {
      hide W.Manager.View, K.Sink.View, B.Store.View, R.Source.View;
      router.Resize(partitions);
      assert CoreView() == old(CoreView()).(routing := router.View());
    }

    /** `snap` is the snapshot taken, which the program then drops. */
    method RunCheckpoint(offset: int) returns (ghost snap: B.Snapshot)
      requires Valid()
      modifies checkpoint, state, sink, sink.pending, offsets
      ensures Valid() && sink.pending == old(sink.pending)
      ensures View() == Engine.Next(cfg, old(View()), Op.Checkpoint(offset))
      ensures snap == B.Snapshot(old(state.data), old(state.pending), old(state.seqno))
      ensures state.data == old(state.data) && state.pending == map[]
    {
      hide View, CoreView, RoutingValid;
      snap := CaptureState();
      CommitAt(offset);
    }

    // Nothing else touches the state meanwhile, so the first capture is stable.
    method CaptureState() returns (ghost snap: B.Snapshot)
      requires Valid()
      modifies state
      ensures Valid() && View() == old(View()).(core := CoreNext(cfg, old(View()).core, Capture))
      ensures snap == B.Snapshot(old(state.data), old(state.pending), old(state.seqno))
      ensures state.data == old(state.data) && state.pending == map[]
    {
      hide W.Manager.View, P.Router.View, R.Source.View, K.Sink.View, RoutingValid;
      var taken;
      ghost var last;
      UndisturbedCapture(state.View());
      taken, last := checkpoint.SnapshotState([]);
      snap := taken;
    }

    method CommitAt(offset: int)
      requires Valid()
      modifies checkpoint, sink, sink.pending, offsets
      ensures Valid() && sink.pending == old(sink.pending)
      ensures
        var e := old(View());
        View() == e.(
          core := CoreNext(cfg, e.core, FlushSink(offset)),
          position := Max(e.position, offset),
          lastCommitted := offset)
    {
      hide W.Manager.View, P.Router.View, R.Source.View, B.Store.View, RoutingValid;
      checkpoint.Commit(offset);
      assert windows.View() == old(windows.View()) && router.View() == old(router.View());
    }

    method RetryCheckpoint(attemptOffset: int) returns (from: int)
      requires Valid()
      modifies checkpoint
      ensures Valid() && from == View().lastCommitted
      ensures View() == Engine.Next(cfg, old(View()), Op.RetryCheckpoint)
    {
      hide W.Manager.View, K.Sink.View, P.Router.View, R.Source.View, B.Store.View, RoutingValid;
      from := checkpoint.Retry(attemptOffset);
      assert CoreView() == old(CoreView());
    }
  }

  lemma InitParts(config: Config)
    ensures Init(config) == EngineState(
      Core(W.Tumbling(map[], map[], map[]), map[], EmptyCore(config).routing, B.EMPTY, map[], K.EMPTY),
      Controls(OPERATORS, EDGES, false, []), Init(config).source, 0, 0, 0)
    ensures EmptyCore(config).routing.partitions == config.partitions == |EmptyCore(config).routing.parts|
    ensures EmptyCore(config).routing.cache == map[]
  {
  }

  lemma {:induction false} ProcessedPrefixes(cfg: Config, c: Core, evs: seq<Event>)
    requires cfg.Valid()
    ensures ProcessedAll(cfg, c, evs[..0]) == c && evs[..|evs|] == evs
    ensures forall i :: 0 <= i < |evs| ==>
      ProcessedAll(cfg, c, evs[..i + 1]) == Processed(cfg, ProcessedAll(cfg, c, evs[..i]), evs[i])
  {
    hide Processed;
    forall i | 0 <= i < |evs|
      ensures ProcessedAll(cfg, c, evs[..i + 1]) == Processed(cfg, ProcessedAll(cfg, c, evs[..i]), evs[i])
    {
      assert Front(evs[..i + 1]) == evs[..i];
    }
  }

  // With no interference the first capture is stable.
  lemma UndisturbedCapture(s: B.StateView)
    ensures Checkpointing.FencePasses(s, [], 0)
    ensures B.Run(s, Checkpointing.UntilCapture([], 0)) == s
    ensures B.Run(s, Checkpointing.Attempts([], 1)) == s.JournalReset()
  {
    Checkpointing.FenceOfAttempt(s, [], 0);
    Checkpointing.AttemptExtends(s, [], 0);
    assert Checkpointing.UntilCapture([], 0) == [];
  }

  // The engine once the frontier is confirmed, before its observers are notified.
  ghost function AdvancedTo(cfg: Config, e: EngineState, ts: int, order: seq<Event>): EngineState
    requires cfg.Valid()
  {
    HandedOn(cfg, e, order).(source := e.source.Advanced(ts, order))
  }

  lemma AdvancedThenNotified(cfg: Config, e: EngineState, ts: int, order: seq<Event>)
    requires cfg.Valid()
    ensures
      var advanced := AdvancedTo(cfg, e, ts, order);
      Next(cfg, e, Op.Advance(ts, order)) ==
        advanced.(core := AfterTrigger(cfg, advanced.core, advanced.source.mark.confirmed))
    ensures AdvancedTo(cfg, e, ts, order).source.pending == e.source.pending
    ensures Next(cfg, e, Op.Advance(ts, order)).source.pending == e.source.pending
  {
    hide HandedOn, AfterTrigger;
    HandOpsEffect(cfg, e, order);
  }

  // One event popped from the buffer and handed on.
  ghost function Popped(cfg: Config, e: EngineState, ev: Event): EngineState
    requires cfg.Valid()
  {
    Submitted(cfg, e, T.Process(ev)).(source := e.source.(bag := e.source.bag - multiset{ev}))
  }

  lemma SubmittedKeepsSource(cfg: Config, e: EngineState, step: T.Op, source: R.SourceView)
    requires cfg.Valid()
    ensures Submitted(cfg, e.(source := source), step) == Submitted(cfg, e, step).(source := source)
    ensures Submitted(cfg, e, step).source == e.source
  {
  }

  lemma DrainedNothing(cfg: Config, e: EngineState, ts: int)
    requires cfg.Valid()
    ensures R.PopsFrom(e.source.bag, ts, []) && Drained(cfg, e, []) == e
  {
  }

  lemma DrainedBag(cfg: Config, e: EngineState, order: seq<Event>)
    requires cfg.Valid()
    ensures Drained(cfg, e, order).source.bag == e.source.bag - multiset(order)
  {
  }

  lemma {:induction false} DrainedOneMore(cfg: Config, e: EngineState, ts: int, order: seq<Event>, ev: Event)
    requires cfg.Valid()
    requires R.PopsFrom(e.source.bag, ts, order)
    requires ReorderBuffer.IsMinOf(ev, e.source.bag - multiset(order)) && ev.timestamp <= ts
    ensures R.PopsFrom(e.source.bag, ts, order + [ev])
    ensures Drained(cfg, e, order + [ev]) == Popped(cfg, Drained(cfg, e, order), ev)
    ensures |Drained(cfg, e, order + [ev]).source.bag| < |Drained(cfg, e, order).source.bag|
  {
    hide Submitted;
    assert Front(order + [ev]) == order;
    assert multiset(order + [ev]) == multiset(order) + multiset{ev};
    var handed := HandedOn(cfg, e, order);
    SubmittedKeepsSource(cfg, handed, T.Process(ev), e.source.(bag := e.source.bag - multiset(order)));
    SubmittedKeepsSource(cfg, handed, T.Process(ev), e.source);
    var left := e.source.bag - multiset(order);
    assert e.source.bag - multiset(order + [ev]) == left - multiset{ev};
    assert |left - multiset{ev}| == |left| - 1;
  }

  // Routes stay within the partitions there are.
  ghost predicate RoutingValid(r: P.Routing) {
    && r.partitions > 0 && |r.parts| == r.partitions
    && forall key :: key in r.cache ==> 0 <= r.cache[key] < r.partitions
  }
}
