/**
  The whole engine as one state: what the operator chain does with an event, and what each pipeline
  operation does to every component.
 */
module Engine {
  import opened Model
  import W = Windows
  import S = Sessions
  import P = Partitioning
  import B = StateBackend
  import K = OutputSink
  import T = Topology
  import G = OperatorGraph
  import R = EventSource
  import opened Watermarks
  import ReorderBuffer

  const FLUSH_EVERY := 8

  datatype Config = Config(size: int, timeout: int, bufferSize: int, partitions: nat, hash: P.Hash) {
    // What the configuration check demands.
    ghost predicate Valid() {
      size > 0 && timeout > 0 && bufferSize > 0 && partitions > 0
    }
  }

  // ---------------------------------------------------------------------------------------
  // The operator chain
  // ---------------------------------------------------------------------------------------

  datatype Core = Core(
    tumbling: W.Tumbling,
    sessions: map<string, S.Session>,
    routing: P.Routing,
    state: B.StateView,
    deltas: Totals,
    sink: K.SinkView)

  // A delta joins the pending ones; at eight keys they are applied as one round.
  function DeltaAdded(c: Core, key: string, value: int): Core {
    var deltas := Plus(c.deltas, key, value);
    if |deltas| < FLUSH_EVERY then c.(deltas := deltas)
    else c.(state := c.state.Applied(deltas), deltas := map[])
  }

  function Processed(cfg: Config, c: Core, ev: Event): Core
    requires cfg.Valid()
  {
    if ev.kind != KindData then
      c.(sessions := S.Touched(cfg.timeout, c.sessions, ev.key, ev.timestamp, ev.value, false))
    else
      DeltaAdded(
        Core(
          W.Ingested(cfg.size, c.tumbling, ev),
          S.Touched(cfg.timeout, c.sessions, ev.key, ev.timestamp, ev.value, true),
          P.Next(cfg.hash, c.routing, P.RouteAdd(ev.key, ev.value)),
          c.state.Recorded(ev.key, ev.value),
          c.deltas,
          c.sink.Written(ev.key, ev.value)),
        ev.key, ev.value)
  }

  function ProcessedAll(cfg: Config, c: Core, evs: seq<Event>): Core
    requires cfg.Valid()
    decreases |evs|
  {
    if evs == [] then c else Processed(cfg, ProcessedAll(cfg, c, Front(evs)), Last(evs))
  }

  // A confirmed watermark fires the tumbling windows first and then the expired sessions.
  function AfterTrigger(cfg: Config, c: Core, confirmed: int): Core {
    var t := W.Triggered(c.tumbling, confirmed);
    var v := S.Scanned(cfg.timeout, S.SessionView(c.sessions, t.results), confirmed);
    c.(tumbling := t.(results := v.results), sessions := v.sessions)
  }

  datatype CoreOp =
    | Process(ev: Event)
    | Trigger(confirmed: int)
    | Resize(partitions: nat)
    | FlushSink(barrier: int)
    | Capture
    | MarkApplied(offsets: set<int>)

  function CoreNext(cfg: Config, c: Core, op: CoreOp): Core
    requires cfg.Valid()
  {
    match op
    case Process(ev) => Processed(cfg, c, ev)
    case Trigger(confirmed) => AfterTrigger(cfg, c, confirmed)
    case Resize(partitions) => c.(routing := P.AfterResize(cfg.hash, c.routing, partitions))
    case FlushSink(barrier) => c.(sink := c.sink.Flushed(barrier))
    case Capture => c.(state := c.state.JournalReset())
    case MarkApplied(offsets) => c.(state := c.state.(applied := c.state.applied + offsets))
  }

  function EmptyCore(cfg: Config): Core {
    Core(W.Tumbling(map[], map[], map[]), map[],
         P.Routing(cfg.partitions, map[], seq(cfg.partitions, _ => map[])),
         B.EMPTY, map[], K.EMPTY)
  }

  function CoreRun(cfg: Config, ops: seq<CoreOp>): Core
    requires cfg.Valid()
  {
    if ops == [] then EmptyCore(cfg) else CoreNext(cfg, CoreRun(cfg, Front(ops)), Last(ops))
  }

  // ---------------------------------------------------------------------------------------
  // The pipeline
  // ---------------------------------------------------------------------------------------

  datatype Controls = Controls(operators: set<string>, edges: seq<G.Edge>, paused: bool, buffer: seq<Event>)

  datatype EngineState = EngineState(
    core: Core,
    controls: Controls,
    source: R.SourceView,
    position: int,
    lastCommitted: int,
    attempts: int)
  {
    function Topology(): T.TopologyState {
      T.TopologyState(controls.operators, controls.edges, controls.paused, controls.buffer, core.state.applied)
    }

    function WithTopology(t: T.TopologyState): EngineState {
      this.(controls := Controls(t.operators, t.edges, t.paused, t.buffer),
            core := core.(state := core.state.(applied := t.applied)))
    }
  }

  datatype Op =
    | Emit(ev: Event, victim: Option<Event>)
    | Stop
    | Advance(ts: int, order: seq<Event>)
    | Submit(step: T.Op)              // any operation of the operator manager
    | Resize(partitions: nat)
    | Checkpoint(offset: int)
    | RetryCheckpoint

  // One operator-manager step, with the events it lets through run down the chain.
  ghost function Submitted(cfg: Config, e: EngineState, step: T.Op): EngineState
    requires cfg.Valid()
  {
    var marked := e.WithTopology(T.Next(e.Topology(), step));
    marked.(core := ProcessedAll(cfg, marked.core, T.Applies(e.Topology(), step)))
  }

  // The source hands events to the operator manager one at a time.
  ghost function HandedOn(cfg: Config, e: EngineState, order: seq<Event>): EngineState
    requires cfg.Valid()
    decreases |order|
  {
    if order == [] then e else Submitted(cfg, HandedOn(cfg, e, Front(order)), T.Process(Last(order)))
  }

  // The engine after a drain has handed on `order`, before the watermark moves.
  ghost function Drained(cfg: Config, e: EngineState, order: seq<Event>): EngineState
    requires cfg.Valid()
  {
    HandedOn(cfg, e, order).(source := e.source.(bag := e.source.bag - multiset(order)))
  }

  // The rest of an advance: the watermark is raised and confirmed, and its observers fire.
  ghost function Confirmed(cfg: Config, e: EngineState, ts: int): EngineState {
    var source := e.source.(mark := e.source.mark.Advanced(ts).Published(), drained := e.source.drained + 1);
    e.(source := source, core := AfterTrigger(cfg, e.core, source.mark.confirmed))
  }

  ghost function Next(cfg: Config, e: EngineState, op: Op): EngineState
    requires cfg.Valid()
  {
    match op
    case Emit(ev, victim) => e.(source := e.source.Emitted(ev, victim))
    case Stop => e.(source := e.source.(stopped := true))
    case Advance(ts, order) =>
      var handed := HandedOn(cfg, e, order);
      var source := handed.source.Advanced(ts, order);
      handed.(source := source, core := AfterTrigger(cfg, handed.core, source.mark.confirmed))
    case Submit(step) => Submitted(cfg, e, step)
    case Resize(partitions) => e.(core := CoreNext(cfg, e.core, CoreOp.Resize(partitions)))
    case Checkpoint(offset) =>
      e.(core := CoreNext(cfg, CoreNext(cfg, e.core, Capture), FlushSink(offset)),
         position := Max(e.position, offset),
         lastCommitted := offset)
    case RetryCheckpoint => e.(attempts := e.attempts + 1)
  }

  ghost predicate CanStep(cfg: Config, e: EngineState, op: Op) {
    match op
    case Emit(ev, victim) =>
      if e.source.stopped then victim.None?
      else ReorderBuffer.CanStep(cfg.bufferSize, e.source.bag, ReorderBuffer.Add(ev, victim))
    case Advance(ts, order) => R.Drains(e.source.bag, ts, order)
    case Submit(step) => T.CanStep(e.Topology(), step)
    case Resize(partitions) => partitions > 0
    case _ => true
  }

  const OPERATORS := {"window-aggregate", "session-track", "sink-commit"}

  const EDGES := [
    G.Edge("window-aggregate", "sink-commit"),
    G.Edge("session-track", "sink-commit")]

  // A freshly built pipeline.
  function Init(cfg: Config): EngineState {
    EngineState(
      EmptyCore(cfg),
      Controls(OPERATORS, EDGES, false, []),
      R.SourceView(multiset{}, 0, -1, false, 0, Watermark(0, 0)),
      0, 0, 0)
  }

  ghost function Run(cfg: Config, ops: seq<Op>): EngineState
    requires cfg.Valid()
  {
    if ops == [] then Init(cfg) else Next(cfg, Run(cfg, Front(ops)), Last(ops))
  }

  ghost predicate Legal(cfg: Config, ops: seq<Op>)
    requires cfg.Valid()
  {
    ops != [] ==> Legal(cfg, Front(ops)) && CanStep(cfg, Run(cfg, Front(ops)), Last(ops))
  }

  // ---------------------------------------------------------------------------------------
  // The operator chain's share of an engine run
  // ---------------------------------------------------------------------------------------

  function ProcessOps(evs: seq<Event>): seq<CoreOp>
    decreases |evs|
  {
    if evs == [] then [] else ProcessOps(Front(evs)) + [Process(Last(evs))]
  }

  ghost function SubmitOps(e: EngineState, step: T.Op): seq<CoreOp> {
    var evs := T.Applies(e.Topology(), step);
    [MarkApplied(T.Offsets(evs))] + ProcessOps(evs)
  }

  ghost function HandOps(cfg: Config, e: EngineState, order: seq<Event>): seq<CoreOp>
    requires cfg.Valid()
    decreases |order|
  {
    if order == [] then []
    else HandOps(cfg, e, Front(order)) + SubmitOps(HandedOn(cfg, e, Front(order)), T.Process(Last(order)))
  }

  ghost function StepOps(cfg: Config, e: EngineState, op: Op): seq<CoreOp>
    requires cfg.Valid()
  {
    match op
    case Advance(ts, order) => HandOps(cfg, e, order) + [Trigger(Next(cfg, e, op).source.mark.confirmed)]
    case Submit(step) => SubmitOps(e, step)
    case Resize(partitions) => [CoreOp.Resize(partitions)]
    case Checkpoint(offset) => [Capture, FlushSink(offset)]
    case _ => []
  }

  ghost function CoreOps(cfg: Config, ops: seq<Op>): seq<CoreOp>
    requires cfg.Valid()
  {
    if ops == [] then [] else CoreOps(cfg, Front(ops)) + StepOps(cfg, Run(cfg, Front(ops)), Last(ops))
  }

  // Running operations of the chain from any state.
  function CoreFrom(cfg: Config, c: Core, ops: seq<CoreOp>): Core
    requires cfg.Valid()
    decreases |ops|
  {
    if ops == [] then c else CoreNext(cfg, CoreFrom(cfg, c, Front(ops)), Last(ops))
  }

  lemma {:induction false} CoreFromConcat(cfg: Config, c: Core, a: seq<CoreOp>, b: seq<CoreOp>)
    requires cfg.Valid()
    ensures CoreFrom(cfg, c, a + b) == CoreFrom(cfg, CoreFrom(cfg, c, a), b)
    decreases |b|
  {
    hide CoreNext;
    if b == [] {
      assert a + b == a;
    } else {
      assert Front(a + b) == a + Front(b);
      CoreFromConcat(cfg, c, a, Front(b));
    }
  }

  lemma CoreFromOne(cfg: Config, c: Core, op: CoreOp)
    requires cfg.Valid()
    ensures CoreFrom(cfg, c, [op]) == CoreNext(cfg, c, op)
  {
    assert Front([op]) == [];
  }

  lemma {:induction false} CoreRunFrom(cfg: Config, a: seq<CoreOp>, b: seq<CoreOp>)
    requires cfg.Valid()
    ensures CoreRun(cfg, a + b) == CoreFrom(cfg, CoreRun(cfg, a), b)
    decreases |b|
  {
    hide CoreNext;
    if b == [] {
      assert a + b == a;
    } else {
      assert Front(a + b) == a + Front(b);
      CoreRunFrom(cfg, a, Front(b));
    }
  }

  lemma {:induction false} ProcessOpsEffect(cfg: Config, c: Core, evs: seq<Event>)
    requires cfg.Valid()
    ensures CoreFrom(cfg, c, ProcessOps(evs)) == ProcessedAll(cfg, c, evs)
    decreases |evs|
  {
    if evs != [] {
      ProcessOpsEffect(cfg, c, Front(evs));
      assert Front(ProcessOps(evs)) == ProcessOps(Front(evs));
    }
  }

  lemma SubmitOpsEffect(cfg: Config, e: EngineState, step: T.Op)
    requires cfg.Valid()
    ensures Submitted(cfg, e, step).core == CoreFrom(cfg, e.core, SubmitOps(e, step))
  {
    hide CoreFrom, ProcessedAll, Processed;
    var evs := T.Applies(e.Topology(), step);
    T.AppliesAreNew(e.Topology(), step);
    var mark := MarkApplied(T.Offsets(evs));
    CoreFromOne(cfg, e.core, mark);
    CoreFromConcat(cfg, e.core, [mark], ProcessOps(evs));
    ProcessOpsEffect(cfg, CoreNext(cfg, e.core, mark), evs);
  }

  lemma {:induction false} HandOpsEffect(cfg: Config, e: EngineState, order: seq<Event>)
    requires cfg.Valid()
    ensures HandedOn(cfg, e, order).core == CoreFrom(cfg, e.core, HandOps(cfg, e, order))
    ensures HandedOn(cfg, e, order).source == e.source
    decreases |order|
  {
    if order != [] {
      HandOpsEffect(cfg, e, Front(order));
      var before, step := HandedOn(cfg, e, Front(order)), T.Process(Last(order));
      SubmitOpsEffect(cfg, before, step);
      CoreFromConcat(cfg, e.core, HandOps(cfg, e, Front(order)), SubmitOps(before, step));
    }
  }

  lemma StepOpsEffect(cfg: Config, e: EngineState, op: Op)
    requires cfg.Valid()
    ensures Next(cfg, e, op).core == CoreFrom(cfg, e.core, StepOps(cfg, e, op))
  {
    hide CoreFrom, Processed, ProcessedAll, AfterTrigger, HandOps, HandedOn;
    match op
    case Advance(ts, order) =>
      HandOpsEffect(cfg, e, order);
      var handed, trigger := HandedOn(cfg, e, order), Trigger(Next(cfg, e, op).source.mark.confirmed);
      CoreFromConcat(cfg, e.core, HandOps(cfg, e, order), [trigger]);
      CoreFromOne(cfg, handed.core, trigger);
    case Submit(step) => SubmitOpsEffect(cfg, e, step);
    case Resize(partitions) => CoreFromOne(cfg, e.core, CoreOp.Resize(partitions));
    case Checkpoint(offset) =>
      assert [Capture, FlushSink(offset)] == [Capture] + [FlushSink(offset)];
      CoreFromConcat(cfg, e.core, [Capture], [FlushSink(offset)]);
      CoreFromOne(cfg, e.core, Capture);
      CoreFromOne(cfg, CoreNext(cfg, e.core, Capture), FlushSink(offset));
    case _ => CoreFromNone(cfg, e.core);
  }

  lemma CoreFromNone(cfg: Config, c: Core)
    requires cfg.Valid()
    ensures CoreFrom(cfg, c, []) == c
  {
  }

  /** An engine run acts on the operator chain exactly as its extracted chain operations do. */
  lemma {:induction false} CoreOpsEffect(cfg: Config, ops: seq<Op>)
    requires cfg.Valid()
    ensures Run(cfg, ops).core == CoreRun(cfg, CoreOps(cfg, ops))
    decreases |ops|
  {
    if ops != [] {
      CoreOpsEffect(cfg, Front(ops));
      StepOpsEffect(cfg, Run(cfg, Front(ops)), Last(ops));
      CoreRunFrom(cfg, CoreOps(cfg, Front(ops)), StepOps(cfg, Run(cfg, Front(ops)), Last(ops)));
    }
  }
}
