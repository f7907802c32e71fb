/** What the history of an engine run alone determines about source, watermark, checkpoints and routing. */
module EngineHistory {
  import opened Model
  import opened Engine
  import opened ChainRuns
  import Ledger
  import P = Partitioning
  import T = Topology
  import W = Windows
  import S = Sessions
  import WR = WindowRuns
  import B = ReorderBuffer
  import R = EventSource

  // The offset of the latest event emitted before any stop.
  ghost function LastEmitted(ops: seq<Op>): int {
    if ops == [] then -1
    else if Last(ops).Emit? && Op.Stop !in Front(ops) then Last(ops).ev.offset
    else LastEmitted(Front(ops))
  }

  function Advances(ops: seq<Op>): nat {
    if ops == [] then 0 else Advances(Front(ops)) + if Last(ops).Advance? then 1 else 0
  }

  function Retries(ops: seq<Op>): nat {
    if ops == [] then 0 else Retries(Front(ops)) + if Last(ops).RetryCheckpoint? then 1 else 0
  }

  function LastCheckpoint(ops: seq<Op>): int {
    if ops == [] then 0 else if Last(ops).Checkpoint? then Last(ops).offset else LastCheckpoint(Front(ops))
  }

  // The greatest instant advanced to, from zero.
  ghost predicate IsReached(ops: seq<Op>, instant: int) {
    && (instant == 0 || exists op :: op in ops && op.Advance? && op.ts == instant)
    && 0 <= instant
    && (forall op :: op in ops && op.Advance? ==> op.ts <= instant)
  }

  // The greatest offset checkpointed, from zero.
  ghost predicate IsPosition(ops: seq<Op>, offset: int) {
    && (offset == 0 || exists op :: op in ops && op.Checkpoint? && op.offset == offset)
    && 0 <= offset
    && (forall op :: op in ops && op.Checkpoint? ==> op.offset <= offset)
  }

  ghost predicate Matches(e: EngineState, ops: seq<Op>) {
    && (e.source.stopped <==> Op.Stop in ops)
    && e.source.lastOffset == LastEmitted(ops)
    && e.source.drained == Advances(ops)
    && e.source.pending == 0
    && e.source.mark.current == e.source.mark.confirmed
    && IsReached(ops, e.source.mark.confirmed)
    && IsPosition(ops, e.position)
    && e.lastCommitted == LastCheckpoint(ops)
    && e.attempts == Retries(ops)
  }

  lemma {:induction false} HandingKeeps(cfg: Config, e: EngineState, order: seq<Event>)
    requires cfg.Valid()
    ensures
      var f := HandedOn(cfg, e, order);
      f.source == e.source && f.position == e.position && f.lastCommitted == e.lastCommitted && f.attempts == e.attempts
    decreases |order|
  {
    if order != [] {
      hide T.Next, T.Applies, ProcessedAll;
      HandingKeeps(cfg, e, Front(order));
    }
  }

  lemma ReachedSnoc(ops: seq<Op>, instant: int, op: Op)
    requires IsReached(ops, instant)
    ensures IsReached(ops + [op], if op.Advance? then Max(instant, op.ts) else instant)
  {
    assert forall o :: o in ops + [op] <==> o in ops || o == op;
  }

  lemma PositionSnoc(ops: seq<Op>, offset: int, op: Op)
    requires IsPosition(ops, offset)
    ensures IsPosition(ops + [op], if op.Checkpoint? then Max(offset, op.offset) else offset)
  {
    assert forall o :: o in ops + [op] <==> o in ops || o == op;
  }

  // What one operation does to the part of the engine that the history speaks of.
  lemma SourceStep(cfg: Config, e: EngineState, op: Op)
    requires cfg.Valid()
    ensures
      var s, after := e.source, Next(cfg, e, op).source;
      && (after.stopped <==> s.stopped || op.Stop?)
      && after.lastOffset == (if op.Emit? && !s.stopped then op.ev.offset else s.lastOffset)
      && after.drained == s.drained + (if op.Advance? then 1 else 0)
      && after.pending == s.pending
      && after.mark == if op.Advance? then s.mark.Advanced(op.ts).Published() else s.mark
  {
    hide HandedOn, AfterTrigger, T.Next, T.Applies, ProcessedAll, CoreNext, B.Step;
    if op.Advance? {
      HandingKeeps(cfg, e, op.order);
    }
  }

  lemma CheckpointStep(cfg: Config, e: EngineState, op: Op)
    requires cfg.Valid()
    ensures
      var after := Next(cfg, e, op);
      && after.position == (if op.Checkpoint? then Max(e.position, op.offset) else e.position)
      && after.lastCommitted == (if op.Checkpoint? then op.offset else e.lastCommitted)
      && after.attempts == e.attempts + if op.RetryCheckpoint? then 1 else 0
  {
    hide HandedOn, AfterTrigger, T.Next, T.Applies, ProcessedAll, CoreNext, B.Step;
    if op.Advance? {
      HandingKeeps(cfg, e, op.order);
    }
  }

  lemma CountsSnoc(ops: seq<Op>, op: Op)
    ensures LastEmitted(ops + [op]) == if op.Emit? && Op.Stop !in ops then op.ev.offset else LastEmitted(ops)
    ensures Advances(ops + [op]) == Advances(ops) + if op.Advance? then 1 else 0
    ensures Retries(ops + [op]) == Retries(ops) + if op.RetryCheckpoint? then 1 else 0
    ensures LastCheckpoint(ops + [op]) == if op.Checkpoint? then op.offset else LastCheckpoint(ops)
  {
    assert Front(ops + [op]) == ops;
  }

  lemma StopSnoc(ops: seq<Op>, op: Op)
    ensures Op.Stop in ops + [op] <==> Op.Stop in ops || op.Stop?
  {
  }

  lemma StepMatches(cfg: Config, e: EngineState, ops: seq<Op>, op: Op)
    requires cfg.Valid() && Matches(e, ops)
    ensures Matches(Next(cfg, e, op), ops + [op])
  {
    hide Next, IsReached, IsPosition, LastEmitted, Advances, Retries, LastCheckpoint;
    CountsSnoc(ops, op);
    StopSnoc(ops, op);
    SourceStep(cfg, e, op);
    CheckpointStep(cfg, e, op);
    ReachedSnoc(ops, e.source.mark.confirmed, op);
    PositionSnoc(ops, e.position, op);
  }

  /**
    The source accepts until the first stop and remembers the latest offset; every advance counts, and the watermark,
    confirmed as far as it goes, is the greatest instant advanced to; no handoff is left in flight; checkpoints set
    the committed offset to theirs and the position to the greatest; retries are counted.
   */
  lemma {:induction false} RunMatches(cfg: Config, ops: seq<Op>)
    requires cfg.Valid()
    ensures Matches(Run(cfg, ops), ops)
    decreases |ops|
  {
    if ops != [] {
      hide Matches, Next;
      FrontThenLast(ops);
      RunMatches(cfg, Front(ops));
      StepMatches(cfg, Run(cfg, Front(ops)), Front(ops), Last(ops));
    }
  }

  // ---------------------------------------------------------------------------------------
  // The reorder buffer
  // ---------------------------------------------------------------------------------------

  function PopOps(order: seq<Event>): seq<B.BufferOp>
    decreases |order|
  {
    if order == [] then [] else PopOps(Front(order)) + [B.PopMin(Last(order))]
  }

  // What the engine does with its buffer: additions until the first stop, and the pops of its drains.
  ghost function BufferOps(ops: seq<Op>): seq<B.BufferOp> {
    if ops == [] then []
    else
      var before, op := BufferOps(Front(ops)), Last(ops);
      if op.Emit? && Op.Stop !in Front(ops) then before + [B.Add(op.ev, op.victim)]
      else if op.Advance? then before + PopOps(op.order)
      else before
  }

  // Everything emitted before the first stop.
  ghost function AllEmitted(ops: seq<Op>): multiset<Event> {
    if ops == [] then multiset{}
    else
      AllEmitted(Front(ops))
      + if Last(ops).Emit? && Op.Stop !in Front(ops) then multiset{Last(ops).ev} else multiset{}
  }

  ghost function AllDrained(ops: seq<Op>): multiset<Event> {
    if ops == [] then multiset{}
    else AllDrained(Front(ops)) + if Last(ops).Advance? then multiset(Last(ops).order) else multiset{}
  }

  lemma BufferSnoc(ops: seq<B.BufferOp>, op: B.BufferOp, maxSize: int)
    ensures B.Run(ops + [op]) == B.Step(B.Run(ops), op)
    ensures B.Legal(maxSize, ops + [op]) <==> B.Legal(maxSize, ops) && B.CanStep(maxSize, B.Run(ops), op)
    ensures B.Added(ops + [op]) == B.Added(ops) + B.In(op) && B.Popped(ops + [op]) == B.Popped(ops) + B.Out(op)
  {
    assert Front(ops + [op]) == ops;
  }

  lemma {:induction false} PopsInTurn(ops: seq<B.BufferOp>, ts: int, order: seq<Event>, maxSize: int)
    requires B.Legal(maxSize, ops) && R.PopsFrom(B.Run(ops), ts, order)
    ensures B.Legal(maxSize, ops + PopOps(order))
    ensures B.Run(ops + PopOps(order)) == B.Run(ops) - multiset(order)
    ensures B.Added(ops + PopOps(order)) == B.Added(ops)
    ensures B.Popped(ops + PopOps(order)) == B.Popped(ops) + multiset(order)
    decreases |order|
  {
    if order == [] {
      assert ops + [] == ops;
      assert B.Run(ops) - multiset([]) == B.Run(ops) && B.Popped(ops) + multiset([]) == B.Popped(ops);
    } else {
      hide B.Run, B.Legal, B.Added, B.Popped, B.IsMinOf;
      var front, ev := Front(order), Last(order);
      PopsInTurn(ops, ts, front, maxSize);
      BufferSnoc(ops + PopOps(front), B.PopMin(ev), maxSize);
      Associate(ops, PopOps(front), [B.PopMin(ev)]);
      FrontThenLast(order);
      OneMorePopped(B.Run(ops), B.Popped(ops), front, ev);
      assert B.Added(ops) + multiset{} == B.Added(ops);
    }
  }

  lemma OneMorePopped(bag: B.Bag, popped: B.Bag, front: seq<Event>, ev: Event)
    ensures bag - multiset(front) - multiset{ev} == bag - multiset(front + [ev])
    ensures popped + multiset(front) + multiset{ev} == popped + multiset(front + [ev])
  {
    assert multiset(front + [ev]) == multiset(front) + multiset{ev};
  }

  ghost predicate BufferState(maxSize: int, ops: seq<B.BufferOp>, bag: B.Bag, emitted: B.Bag, drained: B.Bag) {
    B.Legal(maxSize, ops) && B.Run(ops) == bag && B.Added(ops) == emitted && B.Popped(ops) == drained
  }

  lemma EmitBuffers(maxSize: int, ops: seq<B.BufferOp>, bag: B.Bag, emitted: B.Bag, drained: B.Bag,
                    ev: Event, victim: Option<Event>)
    requires BufferState(maxSize, ops, bag, emitted, drained) && B.CanStep(maxSize, bag, B.Add(ev, victim))
    ensures
      var add := B.Add(ev, victim);
      BufferState(maxSize, ops + [add], B.Step(bag, add), emitted + multiset{ev}, drained)
  {
    hide B.Run, B.Legal, B.Added, B.Popped, B.Step, B.CanStep;
    BufferSnoc(ops, B.Add(ev, victim), maxSize);
    assert drained + multiset{} == drained;
  }

  lemma {:induction false} AdvanceBuffers(maxSize: int, ops: seq<B.BufferOp>, bag: B.Bag, emitted: B.Bag,
                                          drained: B.Bag, ts: int, order: seq<Event>)
    requires BufferState(maxSize, ops, bag, emitted, drained) && R.PopsFrom(bag, ts, order)
    ensures BufferState(maxSize, ops + PopOps(order), bag - multiset(order), emitted, drained + multiset(order))
  {
    hide B.Run, B.Legal, B.Added, B.Popped;
    PopsInTurn(ops, ts, order, maxSize);
  }

  ghost predicate Buffers(cfg: Config, ops: seq<Op>)
    requires cfg.Valid()
  {
    BufferState(cfg.bufferSize, BufferOps(ops), Run(cfg, ops).source.bag, AllEmitted(ops), AllDrained(ops))
  }

  // One more operation in the history of the buffer.
  lemma BufferHistorySnoc(ops: seq<Op>, op: Op)
    ensures
      var emits, after := op.Emit? && Op.Stop !in ops, ops + [op];
      && BufferOps(after) == (
           if emits then BufferOps(ops) + [B.Add(op.ev, op.victim)]
           else if op.Advance? then BufferOps(ops) + PopOps(op.order)
           else BufferOps(ops))
      && AllEmitted(after) == (if emits then AllEmitted(ops) + multiset{op.ev} else AllEmitted(ops))
      && AllDrained(after) == (if op.Advance? then AllDrained(ops) + multiset(op.order) else AllDrained(ops))
  {
    assert Front(ops + [op]) == ops;
    assert AllEmitted(ops) + multiset{} == AllEmitted(ops);
    assert AllDrained(ops) + multiset{} == AllDrained(ops);
  }

  lemma BagStep(cfg: Config, e: EngineState, op: Op)
    requires cfg.Valid()
    ensures Next(cfg, e, op).source.bag ==
      if op.Emit? && !e.source.stopped then B.Step(e.source.bag, B.Add(op.ev, op.victim))
      else if op.Advance? then e.source.bag - multiset(op.order)
      else e.source.bag
  {
    hide HandedOn, AfterTrigger, T.Next, T.Applies, ProcessedAll, CoreNext, B.Step;
    if op.Advance? {
      HandingKeeps(cfg, e, op.order);
    }
  }

  lemma StepBuffers(cfg: Config, ops: seq<Op>, op: Op)
    requires cfg.Valid() && Buffers(cfg, ops) && CanStep(cfg, Run(cfg, ops), op)
    ensures Buffers(cfg, ops + [op])
  {
    hide Next, B.Step, B.CanStep, R.PopsFrom, BufferState, BufferOps, AllEmitted, AllDrained;
    assert Front(ops + [op]) == ops;
    RunMatches(cfg, ops);
    BufferHistorySnoc(ops, op);
    var e, before := Run(cfg, ops), BufferOps(ops);
    BagStep(cfg, e, op);
    if op.Emit? && !e.source.stopped {
      EmitBuffers(cfg.bufferSize, before, e.source.bag, AllEmitted(ops), AllDrained(ops), op.ev, op.victim);
    } else if op.Advance? {
      AdvanceBuffers(cfg.bufferSize, before, e.source.bag, AllEmitted(ops), AllDrained(ops), op.ts, op.order);
    }
  }

  lemma {:induction false} EngineBuffers(cfg: Config, ops: seq<Op>)
    requires cfg.Valid() && Legal(cfg, ops)
    ensures Buffers(cfg, ops)
    decreases |ops|
  {
    if ops != [] {
      hide Buffers, CanStep;
      FrontThenLast(ops);
      EngineBuffers(cfg, Front(ops));
      StepBuffers(cfg, Front(ops), Last(ops));
    }
  }

  /**
    In every run, pauses or not: what was emitted before the first stop is buffered, was drained, or was dropped by
    the buffer as a least event beyond its capacity, which it never exceeds.
   */
  lemma {:induction false} EmittedIsAccountedFor(cfg: Config, ops: seq<Op>)
    requires cfg.Valid() && Legal(cfg, ops)
    ensures AllEmitted(ops) == Run(cfg, ops).source.bag + AllDrained(ops) + B.Overflowed(BufferOps(ops))
    ensures |Run(cfg, ops).source.bag| <= cfg.bufferSize
  {
    hide Run, B.Run, B.Legal, B.Added, B.Popped, B.Overflowed, Legal, AllEmitted, AllDrained, BufferOps;
    EngineBuffers(cfg, ops);
    B.BufferConserves(cfg.bufferSize, BufferOps(ops));
  }

  // ---------------------------------------------------------------------------------------
  // Where the partitioned store keeps a key
  // ---------------------------------------------------------------------------------------

  // The partition count set last.
  function CountNow(partitions: nat, chain: seq<CoreOp>): nat {
    if chain == [] then partitions
    else if Last(chain).Resize? then Last(chain).partitions
    else CountNow(partitions, Front(chain))
  }

  lemma {:induction false} CountOfRoutes(partitions: nat, chain: seq<CoreOp>)
    ensures P.LastCount(partitions, RouteOps(chain)) == CountNow(partitions, chain)
    decreases |chain|
  {
    if chain != [] {
      hide P.LastCount;
      CountOfRoutes(partitions, Front(chain));
      var before := RouteOps(Front(chain));
      match Last(chain)
      case Process(ev) => P.CountSnoc(partitions, before, P.RouteAdd(ev.key, ev.value));
      case Resize(n) => P.CountSnoc(partitions, before, P.Resize(n));
      case _ =>
    } else {
      assert P.LastCount(partitions, []) == partitions;
    }
  }

  lemma {:induction false} ValuesOfRoutes(chain: seq<CoreOp>, key: string)
    ensures P.AddedValues(RouteOps(chain), key) == KeyedValues(DataOf(Events(chain)), key)
    decreases |chain|
  {
    if chain != [] {
      hide KeyedValues, DataOf, P.AddedValues;
      ValuesOfRoutes(Front(chain), key);
      var before, evs := RouteOps(Front(chain)), Events(Front(chain));
      match Last(chain)
      case Process(ev) =>
        P.AddedSnoc(before, P.RouteAdd(ev.key, ev.value), key);
        DataSnoc(evs, ev, key);
        DataSnoc(DataOf(evs), ev, key);
      case Resize(n) =>
        P.AddedSnoc(before, P.Resize(n), key);
      case _ =>
    } else {
      assert P.AddedValues([], key) == [] && KeyedValues(DataOf([]), key) == [];
    }
  }

  /**
    After any run of the engine the partitioned store holds a key in just the partition that is left of its hash by
    the latest count, with the sum of its applied data values, if it has any.
   */
  lemma {:induction false} KeysLieAtTheirHash(cfg: Config, ops: seq<Op>, key: string)
    requires cfg.Valid() && Legal(cfg, ops)
    ensures
      var r, chain := Run(cfg, ops).core.routing, CoreOps(cfg, ops);
      var count, values := CountNow(cfg.partitions, chain), KeyedValues(DataOf(Events(chain)), key);
      && r.partitions == count == |r.parts|
      && (forall p :: 0 <= p < count ==>
            && (key in r.parts[p] <==> P.IsOwner(cfg.hash, key, count, p) && values != [])
            && (key in r.parts[p] ==> r.parts[p][key] == Sum(values)))
  {
    hide Run, CoreRun, CoreOps, P.Run, P.IsOwner, KeyedValues, DataOf, Events, Sum, Legal;
    var chain := CoreOps(cfg, ops);
    CoreOpsEffect(cfg, ops);
    Ledger.ResizesArePositive(cfg, ops);
    RouteOpsRun(cfg, chain);
    CountOfRoutes(cfg.partitions, chain);
    ValuesOfRoutes(chain, key);
    P.KeysLieAtTheirHash(cfg.hash, cfg.partitions, RouteOps(chain), key);
  }

  /** In the engine, too, each window and its catalog row follow the history of the operator chain. */
  lemma RowsFollowHistory(cfg: Config, ops: seq<Op>, w: WindowID)
    requires cfg.Valid()
    ensures
      var wins := WinOps(cfg, CoreOps(cfg, ops));
      && WR.ValuesInto(cfg.size, wins, w) == ValuesOf(EventsIn(cfg.size, Events(CoreOps(cfg, ops)), w))
      && WR.Catalogued(Run(cfg, ops).core.tumbling, w, WR.ValuesInto(cfg.size, wins, w),
           WR.Accepted(cfg.size, wins, w), WR.Late(cfg.size, wins, w),
           WR.FirstInto(cfg.size, wins, w), WR.PassedAt(cfg.size, wins, w))
  {
    hide Run, CoreRun, CoreOps, WR.Run, WR.Catalogued, WR.Accepted, WR.Late, WR.FirstInto, WR.PassedAt, Events;
    var chain := CoreOps(cfg, ops);
    CoreOpsEffect(cfg, ops);
    WinOpsRun(cfg, chain);
    WinOpsValues(cfg, chain, w);
    WR.RowsFollowHistory(cfg.size, WinOps(cfg, chain), w);
  }
}
