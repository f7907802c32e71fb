/**
  The pipeline ledger: over every run of the engine, the partitioned store, the state with its pending
  deltas, the sink, the windows and the sessions all account for the same applied events.
 */
module Ledger {
  import opened Model
  import opened Engine
  import opened ChainRuns
  import W = Windows
  import S = Sessions
  import P = Partitioning
  import K = OutputSink
  import T = Topology
  import WR = WindowRuns
  import SR = SessionRuns

  // ---------------------------------------------------------------------------------------
  // What the operator manager let through
  // ---------------------------------------------------------------------------------------

  // How a new pipeline registers its operators.
  const SETUP: seq<T.Op> := [
    T.AddOperator("window-aggregate"),
    T.AddOperator("session-track"),
    T.AddOperator("sink-commit"),
    T.Connect("window-aggregate", "sink-commit"),
    T.Connect("session-track", "sink-commit")]

  function ProcessSteps(order: seq<Event>): seq<T.Op>
    decreases |order|
  {
    if order == [] then [] else ProcessSteps(Front(order)) + [T.Process(Last(order))]
  }

  function TopologySteps(op: Op): seq<T.Op> {
    match op
    case Advance(_, order) => ProcessSteps(order)
    case Submit(step) => [step]
    case _ => []
  }

  // The operator manager's share of an engine run.
  function TopologyOps(ops: seq<Op>): seq<T.Op> {
    if ops == [] then SETUP else TopologyOps(Front(ops)) + TopologySteps(Last(ops))
  }

  // The steps of the manager lead to the state and the log of the engine.
  ghost predicate Follows(steps: seq<T.Op>, e: EngineState, log: seq<Event>) {
    T.Run(steps) == e.Topology() && T.Log(steps) == log
  }

  lemma TopologySnoc(steps: seq<T.Op>, step: T.Op)
    ensures T.Run(steps + [step]) == T.Next(T.Run(steps), step)
    ensures T.Log(steps + [step]) == T.Log(steps) + T.Applies(T.Run(steps), step)
    ensures T.Legal(steps + [step]) <==> T.Legal(steps) && T.CanStep(T.Run(steps), step)
  {
    assert Front(steps + [step]) == steps;
  }

  lemma {:induction false} SetupFollows(cfg: Config)
    ensures Follows(SETUP, Init(cfg), []) && T.Legal(SETUP)
  {
    hide T.Legal;
    T.OffsetsOfNone();
    var s1: seq<T.Op> := [] + [SETUP[0]];
    var s2, s3 := s1 + [SETUP[1]], s1 + [SETUP[1]] + [SETUP[2]];
    var s4 := s3 + [SETUP[3]];
    NothingYet();
    TopologySnoc([], SETUP[0]);
    TopologySnoc(s1, SETUP[1]);
    TopologySnoc(s2, SETUP[2]);
    TopologySnoc(s3, SETUP[3]);
    TopologySnoc(s4, SETUP[4]);
    assert SETUP == s4 + [SETUP[4]];
  }

  lemma NothingYet()
    ensures T.Run([]) == T.EMPTY && T.Log([]) == [] && T.Legal([])
  {
  }

  lemma {:induction false} EventsConcat(a: seq<CoreOp>, b: seq<CoreOp>)
    ensures Events(a + b) == Events(a) + Events(b)
    decreases |b|
  {
    if b == [] {
      assert a + b == a;
    } else {
      assert Front(a + b) == a + Front(b) && Last(a + b) == Last(b);
      EventsConcat(a, Front(b));
      Associate(Events(a), Events(Front(b)), if Last(b).Process? then [Last(b).ev] else []);
    }
  }

  lemma {:induction false} EventsOfProcessOps(evs: seq<Event>)
    ensures Events(ProcessOps(evs)) == evs
    decreases |evs|
  {
    if evs != [] {
      EventsOfProcessOps(Front(evs));
      assert Front(ProcessOps(evs)) == ProcessOps(Front(evs));
    }
  }

  lemma EventsOfSubmitOps(e: EngineState, step: T.Op)
    ensures Events(SubmitOps(e, step)) == T.Applies(e.Topology(), step)
  {
    var evs := T.Applies(e.Topology(), step);
    var mark := MarkApplied(T.Offsets(evs));
    EventsConcat([mark], ProcessOps(evs));
    EventsOfProcessOps(evs);
    assert Front([mark]) == [];
  }

  // Nothing on the operator chain marks offsets or moves the switches.
  lemma {:induction false} ChainKeepsApplied(cfg: Config, c: Core, evs: seq<Event>)
    requires cfg.Valid()
    ensures ProcessedAll(cfg, c, evs).state.applied == c.state.applied
    decreases |evs|
  {
    if evs != [] {
      hide W.Ingested, S.Touched, P.Next;
      ChainKeepsApplied(cfg, c, Front(evs));
    }
  }

  lemma SubmitFollows(cfg: Config, steps: seq<T.Op>, e: EngineState, log: seq<Event>, step: T.Op)
    requires cfg.Valid() && Follows(steps, e, log)
    ensures Follows(steps + [step], Submitted(cfg, e, step), log + Events(SubmitOps(e, step)))
  {
    hide ProcessedAll, T.Next, T.Applies, SubmitOps;
    TopologySnoc(steps, step);
    EventsOfSubmitOps(e, step);
    ChainKeepsApplied(cfg, e.WithTopology(T.Next(e.Topology(), step)).core, T.Applies(e.Topology(), step));
  }

  lemma {:induction false} HandFollows(cfg: Config, steps: seq<T.Op>, e: EngineState, log: seq<Event>,
                                       order: seq<Event>)
    requires cfg.Valid() && Follows(steps, e, log)
    ensures Follows(steps + ProcessSteps(order), HandedOn(cfg, e, order), log + Events(HandOps(cfg, e, order)))
    decreases |order|
  {
    if order == [] {
      assert steps + [] == steps && log + [] == log;
    } else {
      hide Submitted, SubmitOps, Events, Follows;
      var front, step := Front(order), T.Process(Last(order));
      HandFollows(cfg, steps, e, log, front);
      var handed := HandedOn(cfg, e, front);
      SubmitFollows(cfg, steps + ProcessSteps(front), handed, log + Events(HandOps(cfg, e, front)), step);
      EventsConcat(HandOps(cfg, e, front), SubmitOps(handed, step));
      Associate(steps, ProcessSteps(front), [step]);
      Associate(log, Events(HandOps(cfg, e, front)), Events(SubmitOps(handed, step)));
    }
  }

  lemma {:induction false} ProcessingIsLegal(steps: seq<T.Op>, order: seq<Event>)
    requires T.Legal(steps)
    ensures T.Legal(steps + ProcessSteps(order))
    decreases |order|
  {
    if order == [] {
      assert steps + [] == steps;
    } else {
      hide T.Run, T.Legal;
      ProcessingIsLegal(steps, Front(order));
      TopologySnoc(steps + ProcessSteps(Front(order)), T.Process(Last(order)));
      assert steps + ProcessSteps(order) == steps + ProcessSteps(Front(order)) + [T.Process(Last(order))];
    }
  }

  lemma TriggerKeepsTopology(cfg: Config, c: Core, confirmed: int)
    ensures AfterTrigger(cfg, c, confirmed).state == c.state
  {
  }

  lemma {:induction false} StepFollows(cfg: Config, steps: seq<T.Op>, e: EngineState, log: seq<Event>, op: Op)
    requires cfg.Valid() && Follows(steps, e, log)
    ensures Follows(steps + TopologySteps(op), Next(cfg, e, op), log + Events(StepOps(cfg, e, op)))
    ensures T.Legal(steps) && CanStep(cfg, e, op) ==> T.Legal(steps + TopologySteps(op))
  {
    hide Submitted, SubmitOps, HandedOn, HandOps, AfterTrigger, T.Run, T.Log, T.Legal, T.CanStep;
    assert steps + [] == steps && log + [] == log;
    match op
    case Advance(ts, order) =>
      HandFollows(cfg, steps, e, log, order);
      if T.Legal(steps) {
        ProcessingIsLegal(steps, order);
      }
      var trigger := Trigger(Next(cfg, e, op).source.mark.confirmed);
      TriggerKeepsTopology(cfg, HandedOn(cfg, e, order).core, trigger.confirmed);
      EventsConcat(HandOps(cfg, e, order), [trigger]);
      assert Front([trigger]) == [] && Events([trigger]) == [];
      assert Events(HandOps(cfg, e, order)) + [] == Events(HandOps(cfg, e, order));
    case Submit(step) =>
      SubmitFollows(cfg, steps, e, log, step);
      TopologySnoc(steps, step);
    case Resize(partitions) => assert Front([CoreOp.Resize(partitions)]) == [];
    case Checkpoint(offset) =>
      assert Front([Capture, FlushSink(offset)]) == [Capture] && Front([Capture]) == [];
    case _ =>
  }

  /**
    An engine run is a run of its operator manager, and what that manager lets through is exactly what
    runs down the operator chain.
   */
  lemma {:induction false} EngineFollowsTopology(cfg: Config, ops: seq<Op>)
    requires cfg.Valid()
    ensures T.Run(TopologyOps(ops)) == Run(cfg, ops).Topology()
    ensures T.Log(TopologyOps(ops)) == Events(CoreOps(cfg, ops))
    decreases |ops|
  {
    if ops == [] {
      SetupFollows(cfg);
    } else {
      hide Next, StepOps, T.Run, T.Log, T.Legal, CanStep;
      EngineFollowsTopology(cfg, Front(ops));
      var e, log := Run(cfg, Front(ops)), Events(CoreOps(cfg, Front(ops)));
      StepFollows(cfg, TopologyOps(Front(ops)), e, log, Last(ops));
      EventsConcat(CoreOps(cfg, Front(ops)), StepOps(cfg, e, Last(ops)));
    }
  }

  lemma {:induction false} EngineIsLegalTopology(cfg: Config, ops: seq<Op>)
    requires cfg.Valid() && Legal(cfg, ops)
    ensures T.Legal(TopologyOps(ops))
    decreases |ops|
  {
    if ops == [] {
      SetupFollows(cfg);
    } else {
      hide Next, StepOps, T.Run, T.Log, T.Legal, CanStep, Events;
      EngineIsLegalTopology(cfg, Front(ops));
      EngineFollowsTopology(cfg, Front(ops));
      StepFollows(cfg, TopologyOps(Front(ops)), Run(cfg, Front(ops)), Events(CoreOps(cfg, Front(ops))), Last(ops));
    }
  }

  // Some pause submitted to the engine has no resume after it.
  ghost predicate PauseInForce(ops: seq<Op>) {
    exists i :: 0 <= i < |ops| && ops[i] == Op.Submit(T.Pause)
                && forall j :: i < j < |ops| ==> !(ops[j].Submit? && ops[j].step.Resume?)
  }

  lemma ForceSnoc(ops: seq<Op>, op: Op)
    ensures PauseInForce(ops + [op]) <==>
      op == Op.Submit(T.Pause) || (PauseInForce(ops) && !(op.Submit? && op.step.Resume?))
    ensures !PauseInForce([])
  {
    var more := ops + [op];
    assert more[|ops|] == op && forall i :: 0 <= i < |ops| ==> more[i] == ops[i];
    if op == Op.Submit(T.Pause) {
      assert more[|ops|] == Op.Submit(T.Pause);
    } else if PauseInForce(ops) && !(op.Submit? && op.step.Resume?) {
      var i :| 0 <= i < |ops| && ops[i] == Op.Submit(T.Pause)
               && forall j :: i < j < |ops| ==> !(ops[j].Submit? && ops[j].step.Resume?);
      assert more[i] == Op.Submit(T.Pause);
      assert forall j :: i < j < |more| ==> !(more[j].Submit? && more[j].step.Resume?);
    }
  }

  lemma {:induction false} DrainsKeepPause(steps: seq<T.Op>, order: seq<Event>)
    ensures T.PauseOpen(steps + ProcessSteps(order)) <==> T.PauseOpen(steps)
    decreases |order|
  {
    if order == [] {
      assert steps + [] == steps;
    } else {
      hide T.PauseOpen;
      DrainsKeepPause(steps, Front(order));
      T.PauseSnoc(steps + ProcessSteps(Front(order)), T.Process(Last(order)));
      Associate(steps, ProcessSteps(Front(order)), [T.Process(Last(order))]);
    }
  }

  lemma SetupHasNoPause()
    ensures !T.PauseOpen(SETUP)
  {
  }

  lemma {:induction false} PauseOfEngine(ops: seq<Op>)
    ensures T.PauseOpen(TopologyOps(ops)) <==> PauseInForce(ops)
    decreases |ops|
  {
    hide T.PauseOpen, PauseInForce;
    if ops == [] {
      SetupHasNoPause();
      ForceSnoc([], Op.Stop);
    } else {
      FrontThenLast(ops);
      PauseOfEngine(Front(ops));
      ForceSnoc(Front(ops), Last(ops));
      var steps := TopologyOps(Front(ops));
      assert steps + [] == steps;
      match Last(ops)
      case Advance(_, order) => DrainsKeepPause(steps, order);
      case Submit(step) => T.PauseSnoc(steps, step);
      case _ =>
    }
  }

  lemma PausedInEngine(cfg: Config, ops: seq<Op>)
    requires cfg.Valid()
    ensures Run(cfg, ops).controls.paused <==> PauseInForce(ops)
  {
    hide Run, T.Run, T.Log, T.PauseOpen, PauseInForce, TopologyOps, CoreOps;
    EngineFollowsTopology(cfg, ops);
    PauseOfEngine(ops);
    T.ManagerHistory(TopologyOps(ops));
  }

  /**
    In the engine too, what a submission lets through depends on the history alone: outside a pause an event with
    a new offset runs down the chain at once, in a pause it does not, and out of band it does in either case.
   */
  lemma {:induction false} SubmittedAtOnce(cfg: Config, ops: seq<Op>, step: T.Op)
    requires cfg.Valid() && Legal(cfg, ops + [Op.Submit(step)]) && (step.Process? || step.ApplyNow?)
    ensures
      var log, open := Events(CoreOps(cfg, ops)), step.Process? && PauseInForce(ops);
      Events(CoreOps(cfg, ops + [Op.Submit(step)])) ==
        log + if !open && T.IsNew(log, step.ev.offset) then [step.ev] else []
  {
    hide Run, T.Run, T.Log, T.Legal, T.PauseOpen, PauseInForce, CoreOps, Legal, T.IsNew, Events;
    var after := ops + [Op.Submit(step)];
    assert Front(after) == ops;
    assert TopologyOps(after) == TopologyOps(ops) + [step];
    EngineFollowsTopology(cfg, ops);
    EngineFollowsTopology(cfg, after);
    EngineIsLegalTopology(cfg, after);
    PauseOfEngine(ops);
    var more := T.LetThrough(TopologyOps(ops), step);
  }

  // ---------------------------------------------------------------------------------------
  // State and pending deltas
  // ---------------------------------------------------------------------------------------

  // What the state and the deltas not yet applied hold for a key.
  function Owed(c: Core, key: string): int {
    At(c.state.data, key) + At(c.deltas, key)
  }

  lemma DeltaStep(c: Core, key: string, value: int, k: string)
    requires |c.deltas| < FLUSH_EVERY
    ensures |DeltaAdded(c, key, value).deltas| < FLUSH_EVERY
    ensures Owed(DeltaAdded(c, key, value), k) == Owed(c, k) + if k == key then value else 0
  {
  }

  lemma StateStep(cfg: Config, c: Core, op: CoreOp, key: string)
    requires cfg.Valid() && |c.deltas| < FLUSH_EVERY
    ensures |CoreNext(cfg, c, op).deltas| < FLUSH_EVERY
    ensures Owed(CoreNext(cfg, c, op), key) ==
      Owed(c, key) + if op.Process? && op.ev.kind == KindData && key == op.ev.key then op.ev.value else 0
  {
    hide W.Ingested, W.Triggered, S.Scanned, S.Touched, P.AfterResize, P.Next, DeltaAdded;
    if op.Process? && op.ev.kind == KindData {
      var ev := op.ev;
      var fed := Core(
        W.Ingested(cfg.size, c.tumbling, ev),
        S.Touched(cfg.timeout, c.sessions, ev.key, ev.timestamp, ev.value, true),
        P.Next(cfg.hash, c.routing, P.RouteAdd(ev.key, ev.value)),
        c.state.Recorded(ev.key, ev.value),
        c.deltas,
        c.sink.Written(ev.key, ev.value));
      DeltaStep(fed, ev.key, ev.value, key);
    }
  }

  lemma NothingOwed(cfg: Config, key: string)
    ensures |EmptyCore(cfg).deltas| < FLUSH_EVERY
    ensures Owed(EmptyCore(cfg), key) == Sum(KeyedValues(DataOf([]), key))
  {
    assert Sum([]) == 0;
  }

  lemma {:induction false} StateLedger(cfg: Config, ops: seq<CoreOp>, key: string)
    requires cfg.Valid()
    ensures |CoreRun(cfg, ops).deltas| < FLUSH_EVERY
    ensures Owed(CoreRun(cfg, ops), key) == Sum(KeyedValues(DataOf(Events(ops)), key))
    decreases |ops|
  {
    hide CoreNext, EmptyCore, DataOf, KeyedValues, Sum, Owed;
    if ops == [] {
      NothingOwed(cfg, key);
    } else {
      StateLedger(cfg, Front(ops), key);
      StateStep(cfg, CoreRun(cfg, Front(ops)), Last(ops), key);
      if Last(ops).Process? {
        var evs, ev := Events(Front(ops)), Last(ops).ev;
        DataSnoc(evs, ev, key);
        DataSnoc(DataOf(evs), ev, key);
        SumSnoc(KeyedValues(DataOf(evs), key), ev.value);
      }
    }
  }

  /**
    What a checkpoint captures is the state without the pending deltas, so it holds every key's sum exactly when
    none of them is pending with a value.
   */
  lemma CaptureOmitsPending(cfg: Config, ops: seq<Op>)
    requires cfg.Valid()
    ensures
      var c, data := Run(cfg, ops).core, DataOf(Events(CoreOps(cfg, ops)));
      var captured := c.state.Captured().data;
      && (forall key :: At(captured, key) == Sum(KeyedValues(data, key)) - At(c.deltas, key))
      && ((forall key :: At(captured, key) == Sum(KeyedValues(data, key))) <==>
            forall key :: key in c.deltas ==> c.deltas[key] == 0)
  {
    hide Run, CoreOps, CoreRun, DataOf, KeyedValues, Sum, Events;
    var c, data := Run(cfg, ops).core, DataOf(Events(CoreOps(cfg, ops)));
    CoreOpsEffect(cfg, ops);
    forall key
      ensures At(c.state.Captured().data, key) == Sum(KeyedValues(data, key)) - At(c.deltas, key)
    {
      StateLedger(cfg, CoreOps(cfg, ops), key);
    }
    forall key | key in c.deltas && At(c.state.Captured().data, key) == Sum(KeyedValues(data, key))
      ensures c.deltas[key] == 0
    {
      assert At(c.deltas, key) == c.deltas[key];
    }
  }

  // ---------------------------------------------------------------------------------------
  // The ledger
  // ---------------------------------------------------------------------------------------

  // Handing events on only marks offsets and runs events down the chain.
  ghost predicate OnlyProcesses(ops: seq<CoreOp>) {
    forall op :: op in ops ==> op.Process? || op.MarkApplied?
  }

  lemma {:induction false} ProcessOpsOnlyProcess(evs: seq<Event>)
    ensures OnlyProcesses(ProcessOps(evs))
    decreases |evs|
  {
    if evs != [] {
      ProcessOpsOnlyProcess(Front(evs));
    }
  }

  lemma SubmitOpsOnlyProcess(e: EngineState, step: T.Op)
    ensures OnlyProcesses(SubmitOps(e, step))
  {
    ProcessOpsOnlyProcess(T.Applies(e.Topology(), step));
  }

  lemma {:induction false} HandOpsOnlyProcess(cfg: Config, e: EngineState, order: seq<Event>)
    requires cfg.Valid()
    ensures OnlyProcesses(HandOps(cfg, e, order))
    decreases |order|
  {
    if order != [] {
      HandOpsOnlyProcess(cfg, e, Front(order));
      SubmitOpsOnlyProcess(HandedOn(cfg, e, Front(order)), T.Process(Last(order)));
    }
  }

  lemma StepResizesPositive(cfg: Config, e: EngineState, op: Op)
    requires cfg.Valid() && CanStep(cfg, e, op)
    ensures PositiveResizes(StepOps(cfg, e, op))
  {
    hide SubmitOps, HandOps, Next;
    match op
    case Advance(_, order) => HandOpsOnlyProcess(cfg, e, order);
    case Submit(step) => SubmitOpsOnlyProcess(e, step);
    case _ =>
  }

  lemma {:induction false} ResizesArePositive(cfg: Config, ops: seq<Op>)
    requires cfg.Valid() && Legal(cfg, ops)
    ensures PositiveResizes(CoreOps(cfg, ops))
    decreases |ops|
  {
    if ops != [] {
      hide Run, StepOps, CanStep;
      ResizesArePositive(cfg, Front(ops));
      StepResizesPositive(cfg, Run(cfg, Front(ops)), Last(ops));
    }
  }

  /** While every resume finds the graph acyclic, the engine applies or buffers everything submitted to it. */
  lemma {:induction false} EngineSkipsNothing(cfg: Config, ops: seq<Op>)
    requires cfg.Valid() && Legal(cfg, ops) && T.ResumesAcyclic(TopologyOps(ops))
    ensures T.Reconciled(Run(cfg, ops).Topology(), Events(CoreOps(cfg, ops)), T.Submitted(TopologyOps(ops)))
  {
    hide T.Run, T.Log, T.Reconciled, Run, CoreOps, Events, TopologyOps;
    EngineFollowsTopology(cfg, ops);
    EngineIsLegalTopology(cfg, ops);
    T.NothingIsSkipped(TopologyOps(ops));
  }

  /**
    The events applied over a run have distinct offsets, exactly those marked as applied. For every key
    the partitioned store's total, the state's value plus the pending delta, and the sum over those
    events agree, whatever resizes, pauses and checkpoints happened; the key lives in at most one
    partition; fewer than eight deltas are pending; and the sink has recorded exactly those events.
   */
  lemma PipelineLedger(cfg: Config, ops: seq<Op>, key: string)
    requires cfg.Valid() && Legal(cfg, ops)
    ensures
      var c, evs := Run(cfg, ops).core, Events(CoreOps(cfg, ops));
      var total := Sum(KeyedValues(DataOf(evs), key));
      && T.DistinctOffsets(evs) && T.Offsets(evs) == c.state.applied
      && P.KeyTotal(c.routing.parts, key) == total
      && At(c.state.data, key) + At(c.deltas, key) == total
      && P.Holders(c.routing.parts, key) <= 1
      && |c.deltas| < FLUSH_EVERY
      && c.sink.committed + c.sink.pending == Records(DataOf(evs))
  {
    hide CoreRun, CoreOps, Run, T.Run, T.Log, K.Run, K.History, P.Run, P.KeyTotal, P.Holders, TopologyOps, Legal;
    var chain := CoreOps(cfg, ops);
    CoreOpsEffect(cfg, ops);
    EngineFollowsTopology(cfg, ops);
    T.AppliedExactlyOnce(TopologyOps(ops));
    StateLedger(cfg, chain, key);
    SinkOpsRun(cfg, chain);
    K.SinkIsNumbered(SinkOps(chain));
    RouteLedger(cfg, ops, key);
  }

  lemma RouteLedger(cfg: Config, ops: seq<Op>, key: string)
    requires cfg.Valid() && Legal(cfg, ops)
    ensures
      var parts, chain := Run(cfg, ops).core.routing.parts, CoreOps(cfg, ops);
      && P.KeyTotal(parts, key) == Sum(KeyedValues(DataOf(Events(chain)), key))
      && P.Holders(parts, key) <= 1
  {
    hide CoreRun, CoreOps, Run, P.Run, P.KeyTotal, P.Holders, P.Canonical, Legal;
    var chain := CoreOps(cfg, ops);
    CoreOpsEffect(cfg, ops);
    ResizesArePositive(cfg, ops);
    RouteOpsRun(cfg, chain);
    RouteOpsAdded(cfg, chain, key);
    P.RoutingIsCanonical(cfg.hash, cfg.partitions, RouteOps(chain));
    P.CanonicalTotals(cfg.hash, CoreRun(cfg, chain).routing.partitions, P.AddedTo(RouteOps(chain)), key);
  }

  /**
    A checkpoint at a source offset loses and reorders no record. It takes the offset for a number of
    records: a record is committed afterwards exactly when it was before or is among that many.
   */
  lemma {:induction false} CheckpointFlushes(cfg: Config, ops: seq<Op>, offset: int)
    requires cfg.Valid() && Legal(cfg, ops)
    ensures
      var before, after := Run(cfg, ops), Run(cfg, ops + [Op.Checkpoint(offset)]);
      var records := Records(DataOf(Events(CoreOps(cfg, ops))));
      && before.core.sink.committed + before.core.sink.pending ==
         after.core.sink.committed + after.core.sink.pending == records
      && (forall k :: 0 <= k < |records| ==>
            (records[k] in after.core.sink.committed <==> k < |before.core.sink.committed| || k + 1 <= offset))
      && after.lastCommitted == offset && after.position == Max(before.position, offset)
  {
    hide CoreRun, CoreOps, Run, K.Run, K.History, Records, DataOf, Events;
    var chain := CoreOps(cfg, ops);
    CoreOpsEffect(cfg, ops);
    SinkOpsRun(cfg, chain);
    CheckpointStep(cfg, ops, offset);
    FlushReaches(SinkOps(chain), offset);
  }

  lemma FlushReaches(ops: seq<K.Op>, barrier: int)
    ensures
      var before, after, history := K.Run(ops), K.Run(ops).Flushed(barrier), K.History(ops);
      && before.committed + before.pending == after.committed + after.pending == history
      && forall k :: 0 <= k < |history| ==>
           (history[k] in after.committed <==> k < |before.committed| || k + 1 <= barrier)
  {
    hide K.Run, K.History, K.UpTo, K.Beyond;
    K.SinkPrefixLaw(ops, barrier);
    SinkSnoc(ops, K.CommitUpTo(barrier));
    var history, committed := K.History(ops), K.Run(ops).Flushed(barrier).committed;
    forall k | 0 <= k < |history|
      ensures history[k] in committed <==> k < |committed|
    {
      assert k < |committed| ==> committed[k] == history[k];
    }
  }

  // The coordinator's promise at one offset: of the records still pending, the flush takes exactly those
  // of events up to the offset.
  ghost predicate CoversOffset(cfg: Config, ops: seq<Op>, offset: int)
    requires cfg.Valid()
  {
    var data := DataOf(Events(CoreOps(cfg, ops)));
    var after := Run(cfg, ops + [Op.Checkpoint(offset)]).core.sink.committed;
    forall k :: |Run(cfg, ops).core.sink.committed| <= k < |data| && k < |Records(data)| ==>
      (Records(data)[k] in after <==> data[k].offset <= offset)
  }

  /**
    What that does to the promise, event by event. A pending event up to the offset is left out exactly when
    it was applied as data event number offset + 1 or later; one beyond the offset is flushed with the rest
    exactly when it was applied that early.
   */
  lemma {:induction false} CheckpointMiscounts(cfg: Config, ops: seq<Op>, offset: int, k: nat)
    requires cfg.Valid() && Legal(cfg, ops)
    requires |Run(cfg, ops).core.sink.committed| <= k < |DataOf(Events(CoreOps(cfg, ops)))|
    ensures
      var data := DataOf(Events(CoreOps(cfg, ops)));
      var after := Run(cfg, ops + [Op.Checkpoint(offset)]).core.sink.committed;
      && k < |Records(data)|
      && (data[k].offset <= offset && Records(data)[k] !in after <==> data[k].offset <= offset <= k)
      && (offset < data[k].offset && Records(data)[k] in after <==> k < offset < data[k].offset)
  {
    hide Run, CoreOps, Records, DataOf, Events, Legal;
    CheckpointFlushes(cfg, ops, offset);
    RecordsCount(DataOf(Events(CoreOps(cfg, ops))));
  }

  /**
    The promise is kept at every offset exactly when each pending event carries, as its source offset, its
    own number among the data events: offsets that count data events, from one, in the order applied.
   */
  lemma {:induction false} OffsetsMustCountData(cfg: Config, ops: seq<Op>)
    requires cfg.Valid() && Legal(cfg, ops)
    ensures
      var data, done := DataOf(Events(CoreOps(cfg, ops))), |Run(cfg, ops).core.sink.committed|;
      (forall offset :: CoversOffset(cfg, ops, offset)) <==> forall k :: done <= k < |data| ==> data[k].offset == k + 1
  {
    hide Run, CoreOps, Records, DataOf, Events, Legal;
    var data, done := DataOf(Events(CoreOps(cfg, ops))), |Run(cfg, ops).core.sink.committed|;
    RecordsCount(data);
    if forall k :: done <= k < |data| ==> data[k].offset == k + 1 {
      forall offset
        ensures CoversOffset(cfg, ops, offset)
      {
        CheckpointFlushes(cfg, ops, offset);
      }
    }
    if forall offset :: CoversOffset(cfg, ops, offset) {
      forall k | done <= k < |data|
        ensures data[k].offset == k + 1
      {
        CheckpointFlushes(cfg, ops, k + 1);
        CheckpointFlushes(cfg, ops, data[k].offset);
        assert CoversOffset(cfg, ops, k + 1) && CoversOffset(cfg, ops, data[k].offset);
      }
    }
  }

  lemma CheckpointStep(cfg: Config, ops: seq<Op>, offset: int)
    requires cfg.Valid()
    ensures
      var before, after := Run(cfg, ops), Run(cfg, ops + [Op.Checkpoint(offset)]);
      && after.core.sink == before.core.sink.Flushed(offset)
      && after.lastCommitted == offset && after.position == Max(before.position, offset)
  {
    hide K.UpTo, K.Beyond;
    assert Front(ops + [Op.Checkpoint(offset)]) == ops;
  }

  // How the tumbling side of a chain stands to one window.
  lemma WindowsOfChain(cfg: Config, chain: seq<CoreOp>, w: WindowID)
    requires cfg.Valid()
    ensures
      var t, wins := CoreRun(cfg, chain).tumbling, WinOps(cfg, chain);
      var late := WR.Late(cfg.size, wins, w);
      && WR.Recorded(t, w, W.Values(t, w), late, WR.Emissions(cfg.size, wins, w))
      && W.Values(t, w) + late == ValuesOf(EventsIn(cfg.size, Events(chain), w))
  {
    hide CoreRun, WR.Run, WR.Accepted, WR.Late, WR.Emissions, Events, EventsIn, ValuesOf, W.Values;
    WinOpsRun(cfg, chain);
    WinOpsValues(cfg, chain, w);
    WR.AcceptedThenLate(cfg.size, WinOps(cfg, chain), w);
  }

  /**
    In every run, whatever the keys, a window's values and its late ones are those of the applied data events it
    owns, in order. The store has a result for it exactly when it has closed or a session with its identity was
    emitted. The result is the fold of its own values, unless such a session came first: then it is the fold of
    the session's, and the window's own values are neither published nor late.
   */
  lemma {:induction false} WindowLedger(cfg: Config, ops: seq<Op>, w: WindowID)
    requires cfg.Valid()
    ensures
      var t, chain := Run(cfg, ops).core.tumbling, CoreOps(cfg, ops);
      var late, first := WR.Late(cfg.size, WinOps(cfg, chain), w), SessionCameFirst(cfg, chain, w);
      var session := SR.FirstValues(SR.Emissions(cfg.timeout, SessionOps(cfg, chain), w.key), w);
      && W.Values(t, w) + late == ValuesOf(EventsIn(cfg.size, Events(chain), w))
      && (!W.IsClosed(t, w) ==> late == [])
      && (w in t.results <==> W.IsClosed(t, w) || SessionEmitted(cfg, chain, w))
      && (w in t.results ==>
            t.results[w] == Fold(w, if first then session else W.Values(t, w)).(
              emitted := true, lateCount := |late|, lateSum := Sum(late)))
      && (first ==> SessionEmitted(cfg, chain, w))
  {
    hide CoreRun, CoreOps, Run, WR.Late, WR.Emissions, Events, EventsIn, ValuesOf, SR.Emissions, SR.FirstValues,
      SR.WasEmitted, SessionCameFirst, W.Values, Fold, Sum;
    var chain := CoreOps(cfg, ops);
    CoreOpsEffect(cfg, ops);
    WindowsOfChain(cfg, chain, w);
    StoreIsShared(cfg, chain, w);
  }

  /**
    What is published and what is counted as late make up all the data of a closed window, in number and in sum,
    unless a session of its identity came first; then the store refused the window, and exactly the data counted
    as late is accounted for.
   */
  lemma ClosedWindowLedger(cfg: Config, ops: seq<Op>, w: WindowID)
    requires cfg.Valid() && W.IsClosed(Run(cfg, ops).core.tumbling, w)
    ensures
      var t, chain := Run(cfg, ops).core.tumbling, CoreOps(cfg, ops);
      var values, first := ValuesOf(EventsIn(cfg.size, Events(chain), w)), SessionCameFirst(cfg, chain, w);
      && w in t.results && t.results[w].emitted
      && WR.Emissions(cfg.size, WinOps(cfg, chain), w) == (if first then 0 else 1)
      && W.Values(t, w) != []
      && t.results[w].lateCount == |values| - |W.Values(t, w)|
      && t.results[w].lateSum == Sum(values) - Sum(W.Values(t, w))
      && (!first ==> t.results[w].count + t.results[w].lateCount == |values|)
      && (!first ==> t.results[w].sum + t.results[w].lateSum == Sum(values))
  {
    hide CoreRun, CoreOps, Run, WR.Late, WR.Emissions, Events, EventsIn, ValuesOf, SR.Emissions, SR.FirstValues,
      SR.WasEmitted, SessionCameFirst, Fold, Sum;
    var t, chain := Run(cfg, ops).core.tumbling, CoreOps(cfg, ops);
    CoreOpsEffect(cfg, ops);
    WindowsOfChain(cfg, chain, w);
    StoreIsShared(cfg, chain, w);
    WindowLedger(cfg, ops, w);
    FoldAggregates(w, W.Values(t, w));
    SumAppend(W.Values(t, w), WR.Late(cfg.size, WinOps(cfg, chain), w));
  }

  /**
    Where no session of its identity came first, the window, the store and the catalog determine each other
    in the engine as they do on their own.
   */
  lemma {:induction false} CoupledInEngine(cfg: Config, ops: seq<Op>, w: WindowID)
    requires cfg.Valid() && !SessionCameFirst(cfg, CoreOps(cfg, ops), w)
    ensures
      var t, chain := Run(cfg, ops).core.tumbling, CoreOps(cfg, ops);
      var wins := WinOps(cfg, chain);
      WR.Coupled(t, w, W.Values(t, w), WR.Late(cfg.size, wins, w), WR.Emissions(cfg.size, wins, w))
  {
    hide CoreRun, CoreOps, Run, WR.Run, WR.Accepted, WR.Late, WR.Emissions, WR.Legal, WR.Coupled, SessionCameFirst,
      Held;
    var chain := CoreOps(cfg, ops);
    CoreOpsEffect(cfg, ops);
    WinOpsRun(cfg, chain);
    StoreIsShared(cfg, chain, w);
    WR.WindowsAreCoupled(cfg.size, WinOps(cfg, chain), w);
    WR.AcceptedThenLate(cfg.size, WinOps(cfg, chain), w);
  }

  // The store holds the session's values as the published result of its identity.
  ghost predicate Published(results: map<WindowID, WindowResult>, e: SR.Emission) {
    && e.window in results
    && results[e.window] == Fold(e.window, e.values).(
         emitted := true, lateCount := results[e.window].lateCount, lateSum := results[e.window].lateSum)
  }

  lemma {:induction false} AcceptedIsPublished(cfg: Config, ops: seq<Op>, key: string, i: nat)
    requires cfg.Valid() && i < |SR.Emissions(cfg.timeout, SessionOps(cfg, CoreOps(cfg, ops)), key)|
    requires SR.Emissions(cfg.timeout, SessionOps(cfg, CoreOps(cfg, ops)), key)[i].accepted
    ensures
      var es := SR.Emissions(cfg.timeout, SessionOps(cfg, CoreOps(cfg, ops)), key);
      Published(Run(cfg, ops).core.tumbling.results, es[i])
  {
    hide Run, CoreOps, SessionOps, SR.Emissions, SR.FirstValues, SessionCameFirst, Fold, WR.Late, Events, EventsIn,
      ValuesOf, W.Values, W.IsClosed;
    var chain := CoreOps(cfg, ops);
    var es := SR.Emissions(cfg.timeout, SessionOps(cfg, chain), key);
    SessionsAccepted(cfg, chain, key);
    assert SR.WasEmitted(es, es[i].window);
    WindowLedger(cfg, ops, es[i].window);
    SR.FirstValuesOf(es, i);
  }

  /**
    In every run the emitted sessions of a key and its live one hold its applied data values, each once and in
    order. The store accepts exactly the first session of each identity whose tumbling window did not close
    before, and then holds it as published. A tumbling window has the identity of a session only if the key is
    empty. When the key's events all reach the chain later than every scan before them, its sessions are disjoint,
    so that no session stands in the way of another.
   */
  lemma {:induction false} SessionLedger(cfg: Config, ops: seq<Op>, key: string)
    requires cfg.Valid()
    ensures
      var c, chain := Run(cfg, ops).core, CoreOps(cfg, ops);
      var es := SR.Emissions(cfg.timeout, SessionOps(cfg, chain), key);
      && SR.EmittedValues(es) + SR.LiveValues(c.sessions, key) == KeyedValues(DataOf(Events(chain)), key)
      && Accepts(cfg, chain, key)
      && (forall i :: 0 <= i < |es| && es[i].accepted ==> Published(c.tumbling.results, es[i]))
      && (key != "" ==> SR.FirstWins(c.tumbling.results, es, key))
      && (SR.TouchesFollowScans(SessionOps(cfg, chain), key) ==>
            && SR.Disjoint(es, key)
            && (key != "" ==> SR.InOrder(es, key) && SR.StoreHolds(c.tumbling.results, es, key)))
  {
    hide CoreRun, CoreOps, Run, SR.Run, SR.Legal, SR.Emissions, SR.InOrder, SR.Disjoint, SR.StoreHolds,
      SR.TouchesFollowScans, SR.FirstWins, Accepts, Published;
    var chain := CoreOps(cfg, ops);
    CoreOpsEffect(cfg, ops);
    SessionOpsRun(cfg, chain);
    SessionOpsValues(cfg, chain, key);
    SR.SessionValuesOnce(cfg.timeout, SessionOps(cfg, chain), key);
    SessionsAccepted(cfg, chain, key);
    forall i | 0 <= i < |SR.Emissions(cfg.timeout, SessionOps(cfg, chain), key)|
               && SR.Emissions(cfg.timeout, SessionOps(cfg, chain), key)[i].accepted
      ensures Published(Run(cfg, ops).core.tumbling.results, SR.Emissions(cfg.timeout, SessionOps(cfg, chain), key)[i])
    {
      AcceptedIsPublished(cfg, ops, key, i);
    }
    if key != "" {
      SR.RepeatsAreRefused(cfg.timeout, SessionOps(cfg, chain), key);
    }
    if SR.TouchesFollowScans(SessionOps(cfg, chain), key) {
      SR.SessionsAreDisjoint(cfg.timeout, SessionOps(cfg, chain), key);
    }
  }
}
