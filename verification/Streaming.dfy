/**
  Runs without pauses: what the source accepted, and where each accepted event is. Every one is still
  buffered, has been applied or was dropped on overflow, and what a drain pops is always new to the
  operator manager.
 */
module Streaming {
  import opened Model
  import opened Engine
  import opened ChainRuns
  import Ledger
  import W = Windows
  import T = Topology
  import R = EventSource
  import ReorderBuffer

  // ---------------------------------------------------------------------------------------
  // Runs, and what was emitted into them
  // ---------------------------------------------------------------------------------------

  // An event the source accepted, and the watermark confirmed at that moment.
  datatype Emission = Emission(ev: Event, confirmed: int)

  ghost function Emissions(cfg: Config, ops: seq<Op>): seq<Emission>
    requires cfg.Valid()
  {
    if ops == [] then []
    else
      var before, source := Emissions(cfg, Front(ops)), Run(cfg, Front(ops)).source;
      if Last(ops).Emit? && !source.stopped then before + [Emission(Last(ops).ev, source.mark.confirmed)] else before
  }

  function Emitted(es: seq<Emission>): seq<Event> {
    if es == [] then [] else Emitted(Front(es)) + [Last(es).ev]
  }

  // The emissions whose event the buffer has not dropped.
  ghost function Kept(cfg: Config, ops: seq<Op>): seq<Emission>
    requires cfg.Valid()
  {
    if ops == [] then []
    else
      var before, source := Kept(cfg, Front(ops)), Run(cfg, Front(ops)).source;
      if Last(ops).Emit? && !source.stopped then
        KeptAfter(before, Emission(Last(ops).ev, source.mark.confirmed), Last(ops).victim)
      else before
  }

  function KeptAfter(kept: seq<Emission>, em: Emission, victim: Option<Event>): seq<Emission> {
    if victim.Some? then Without(kept + [em], victim.value) else kept + [em]
  }

  function Without(es: seq<Emission>, ev: Event): seq<Emission> {
    if es == [] then []
    else if Last(es).ev == ev then Without(Front(es), ev)
    else Without(Front(es), ev) + [Last(es)]
  }

  // What the buffer has dropped.
  ghost function Overflowed(cfg: Config, ops: seq<Op>): seq<Event>
    requires cfg.Valid()
  {
    if ops == [] then []
    else
      var before := Overflowed(cfg, Front(ops));
      if Last(ops).Emit? && !Run(cfg, Front(ops)).source.stopped && Last(ops).victim.Some? then
        before + [Last(ops).victim.value]
      else before
  }

  // Nothing pauses the operator manager or bypasses the source.
  predicate Plain(op: Op) {
    op.Submit? ==> !op.step.Pause? && !op.step.Process? && !op.step.ApplyNow?
  }

  /** A run without pauses whose events have distinct offsets. The buffer may overflow. */
  ghost predicate Streams(cfg: Config, ops: seq<Op>)
    requires cfg.Valid()
  {
    && Legal(cfg, ops)
    && (forall op :: op in ops ==> Plain(op))
    && T.DistinctOffsets(Emitted(Emissions(cfg, ops)))
  }

  lemma EmittedSnoc(es: seq<Emission>, em: Emission)
    ensures Emitted(es + [em]) == Emitted(es) + [em.ev]
  {
    assert Front(es + [em]) == es;
  }

  lemma DistinctPrefix(evs: seq<Event>, ev: Event)
    requires T.DistinctOffsets(evs + [ev])
    ensures T.DistinctOffsets(evs) && ev !in evs
  {
    forall i, j | 0 <= i < j < |evs|
      ensures evs[i].offset != evs[j].offset
    {
      assert (evs + [ev])[i].offset != (evs + [ev])[j].offset;
    }
    forall i | 0 <= i < |evs|
      ensures evs[i] != ev
    {
      assert (evs + [ev])[i].offset != (evs + [ev])[|evs|].offset;
    }
  }

  lemma StreamsBefore(cfg: Config, ops: seq<Op>)
    requires cfg.Valid() && Streams(cfg, ops) && ops != []
    ensures Streams(cfg, Front(ops)) && CanStep(cfg, Run(cfg, Front(ops)), Last(ops)) && Plain(Last(ops))
  {
    hide Run, CanStep, T.DistinctOffsets;
    var es, source := Emissions(cfg, Front(ops)), Run(cfg, Front(ops)).source;
    if Last(ops).Emit? && !source.stopped {
      EmittedSnoc(es, Emission(Last(ops).ev, source.mark.confirmed));
      DistinctPrefix(Emitted(es), Last(ops).ev);
    }
  }

  // ---------------------------------------------------------------------------------------
  // Dropped events
  // ---------------------------------------------------------------------------------------

  lemma {:induction false} WithoutBag(es: seq<Emission>, ev: Event)
    ensures multiset(Emitted(Without(es, ev))) == multiset(Emitted(es))[ev := 0]
    ensures forall em :: em in Without(es, ev) <==> em in es && em.ev != ev
    decreases |es|
  {
    if es != [] {
      WithoutBag(Front(es), ev);
      FrontThenLast(es);
      if Last(es).ev != ev {
        EmittedSnoc(Without(Front(es), ev), Last(es));
      }
    }
  }

  lemma {:induction false} WithoutDistinct(es: seq<Emission>, ev: Event)
    requires T.DistinctOffsets(Emitted(es))
    ensures T.DistinctOffsets(Emitted(Without(es, ev)))
    ensures T.Offsets(Emitted(Without(es, ev))) <= T.Offsets(Emitted(es))
    decreases |es|
  {
    if es != [] {
      hide T.DistinctOffsets, T.Offsets;
      DistinctPrefixOffsets(Emitted(Front(es)), Last(es).ev);
      WithoutDistinct(Front(es), ev);
      var front := Without(Front(es), ev);
      if Last(es).ev != ev {
        EmittedSnoc(front, Last(es));
        T.DistinctOfMore(Emitted(front), Last(es).ev);
        T.OffsetsOfMore(Emitted(front), Last(es).ev);
      }
    }
  }

  // What the kept emissions inherit from the run.
  ghost predicate KeptOf(kept: seq<Emission>, es: seq<Emission>, dropped: seq<Event>) {
    && (forall em :: em in kept ==> em in es)
    && (forall em :: em in es ==> em in kept || em.ev in dropped)
    && T.DistinctOffsets(Emitted(kept)) && T.Offsets(Emitted(kept)) <= T.Offsets(Emitted(es))
  }

  lemma KeptAfterMembers(kept: seq<Emission>, em: Emission, victim: Option<Event>)
    ensures forall x :: x in KeptAfter(kept, em, victim) <==>
      (x in kept || x == em) && (victim.Some? ==> x.ev != victim.value)
  {
    assert forall x :: x in kept + [em] <==> x in kept || x == em;
    if victim.Some? {
      WithoutBag(kept + [em], victim.value);
    }
  }

  lemma KeptAfterDistinct(kept: seq<Emission>, em: Emission, victim: Option<Event>)
    requires T.DistinctOffsets(Emitted(kept)) && em.ev.offset !in T.Offsets(Emitted(kept))
    ensures T.DistinctOffsets(Emitted(kept) + [em.ev])
    ensures T.DistinctOffsets(Emitted(KeptAfter(kept, em, victim)))
    ensures T.Offsets(Emitted(KeptAfter(kept, em, victim))) <= T.Offsets(Emitted(kept)) + {em.ev.offset}
  {
    hide T.DistinctOffsets, T.Offsets;
    EmittedSnoc(kept, em);
    T.DistinctOfMore(Emitted(kept), em.ev);
    T.OffsetsOfMore(Emitted(kept), em.ev);
    if victim.Some? {
      WithoutDistinct(kept + [em], victim.value);
    }
  }

  lemma OneMoreKept(kept: seq<Emission>, es: seq<Emission>, dropped: seq<Event>, em: Emission, victim: Option<Event>)
    requires KeptOf(kept, es, dropped) && T.DistinctOffsets(Emitted(es) + [em.ev])
    ensures T.DistinctOffsets(Emitted(kept) + [em.ev])
    ensures KeptOf(KeptAfter(kept, em, victim), es + [em], if victim.Some? then dropped + [victim.value] else dropped)
  {
    hide T.DistinctOffsets, T.Offsets, KeptAfter;
    EmittedSnoc(es, em);
    DistinctPrefixOffsets(Emitted(es), em.ev);
    KeptAfterMembers(kept, em, victim);
    KeptAfterDistinct(kept, em, victim);
    assert forall x :: x in es + [em] <==> x in es || x == em;
  }

  lemma {:induction false} KeptInRun(cfg: Config, ops: seq<Op>)
    requires cfg.Valid() && Streams(cfg, ops)
    ensures KeptOf(Kept(cfg, ops), Emissions(cfg, ops), Overflowed(cfg, ops))
    decreases |ops|
  {
    if ops != [] {
      hide Run, KeptOf, T.DistinctOffsets, CanStep, KeptAfter;
      StreamsBefore(cfg, ops);
      KeptInRun(cfg, Front(ops));
      var es, source := Emissions(cfg, Front(ops)), Run(cfg, Front(ops)).source;
      if Last(ops).Emit? && !source.stopped {
        var em := Emission(Last(ops).ev, source.mark.confirmed);
        EmittedSnoc(es, em);
        OneMoreKept(Kept(cfg, Front(ops)), es, Overflowed(cfg, Front(ops)), em, Last(ops).victim);
      }
    }
  }

  // ---------------------------------------------------------------------------------------
  // Distinct offsets
  // ---------------------------------------------------------------------------------------

  lemma CountTwice<X>(s: seq<X>, i: nat, j: nat)
    requires i < j < |s| && s[i] == s[j]
    ensures multiset(s)[s[i]] >= 2
  {
    assert s == s[..j] + s[j..];
    assert s[..j][i] == s[i] && s[j..][0] == s[i];
    assert multiset(s) == multiset(s[..j]) + multiset(s[j..]);
    assert s[i] in multiset(s[..j]) && s[i] in multiset(s[j..]);
  }

  lemma SameOffsetSameEvent(all: seq<Event>, d: Event, e: Event)
    requires T.DistinctOffsets(all) && d in all && e in all && d.offset == e.offset
    ensures d == e
  {
    var i :| 0 <= i < |all| && all[i] == d;
    var j :| 0 <= j < |all| && all[j] == e;
    assert i == j;
  }

  // What a drain pops was never applied before.
  lemma DrainedAreNew(all: seq<Event>, bag: multiset<Event>, log: seq<Event>, order: seq<Event>)
    requires T.DistinctOffsets(all) && multiset(all) == bag + multiset(log) && multiset(order) <= bag
    ensures T.DistinctOffsets(order) && T.Offsets(order) !! T.Offsets(log)
  {
    forall ev | ev in order || ev in log
      ensures ev in all && multiset(all)[ev] == 1
    {
      assert ev in multiset(order) || ev in multiset(log);
      assert ev in multiset(all);
      T.DistinctCounts(all, ev);
    }
    forall i, j | 0 <= i < j < |order|
      ensures order[i].offset != order[j].offset
    {
      if order[i].offset == order[j].offset {
        SameOffsetSameEvent(all, order[i], order[j]);
        CountTwice(order, i, j);
      }
    }
    forall d, e | d in order && e in log
      ensures d.offset != e.offset
    {
      assert multiset(order)[d] >= 1 && multiset(log)[e] >= 1;
      if d.offset == e.offset {
        SameOffsetSameEvent(all, d, e);
      }
    }
  }

  // ---------------------------------------------------------------------------------------
  // The source's side of the invariant
  // ---------------------------------------------------------------------------------------

  function WindowEnd(size: int, ev: Event): int
    requires size > 0
  {
    W.WindowFor(size, ev.timestamp).end
  }

  // What lay ahead of the watermark when it was emitted still does while it is buffered.
  ghost predicate StillAhead(size: int, es: seq<Emission>, bag: multiset<Event>, confirmed: int)
    requires size > 0
  {
    forall em :: em in es && em.ev in bag ==>
      && (em.confirmed < WindowEnd(size, em.ev) ==> confirmed < WindowEnd(size, em.ev))
      && (em.confirmed < em.ev.timestamp ==> confirmed < em.ev.timestamp)
  }

  ghost predicate Recorded(es: seq<Emission>, confirmed: int) {
    forall em :: em in es ==> em.confirmed <= confirmed && em.ev in Emitted(es)
  }

  // Each emitted event that was not dropped is buffered or applied, and the watermark is confirmed as far
  // as it goes.
  ghost predicate SourceInv(size: int, source: R.SourceView, es: seq<Emission>, kept: seq<Emission>, log: seq<Event>)
    requires size > 0
  {
    && source.mark.current == source.mark.confirmed
    && multiset(Emitted(kept)) == source.bag + multiset(log)
    && Recorded(es, source.mark.confirmed)
    && StillAhead(size, es, source.bag, source.mark.confirmed)
  }

  lemma EmitKeepsAhead(size: int, es: seq<Emission>, bag: multiset<Event>, confirmed: int, em: Emission,
                       left: multiset<Event>)
    requires size > 0 && StillAhead(size, es, bag, confirmed) && em.confirmed == confirmed
    requires forall x :: x in es ==> x.ev != em.ev
    requires left <= bag + multiset{em.ev}
    ensures StillAhead(size, es + [em], left, confirmed)
  {
    hide WindowEnd;
    assert forall ev :: ev in left ==> ev in bag || ev == em.ev;
  }

  lemma EmitKeepsRecorded(es: seq<Emission>, confirmed: int, em: Emission)
    requires Recorded(es, confirmed) && em.confirmed == confirmed
    ensures Recorded(es + [em], confirmed)
  {
    EmittedSnoc(es, em);
    assert em.ev in Emitted(es) + [em.ev];
  }

  // The bag and the kept emissions lose the same event.
  lemma {:induction false} EmitKeepsKept(bag: multiset<Event>, kept: seq<Emission>, log: seq<Event>, em: Emission,
                                         victim: Option<Event>)
    requires multiset(Emitted(kept)) == bag + multiset(log) && T.DistinctOffsets(Emitted(kept) + [em.ev])
    requires victim.Some? ==> victim.value in bag + multiset{em.ev}
    ensures multiset(Emitted(KeptAfter(kept, em, victim))) ==
      bag + multiset{em.ev} - ReorderBuffer.Dropped(victim) + multiset(log)
  {
    hide T.DistinctOffsets;
    EmittedSnoc(kept, em);
    SnocBag(Emitted(kept), em.ev);
    if victim.Some? {
      WithoutBag(kept + [em], victim.value);
      T.DistinctCounts(Emitted(kept) + [em.ev], victim.value);
      assert multiset(Emitted(kept + [em])) == bag + multiset(log) + multiset{em.ev};
      DropOne(bag, multiset(log), em.ev, victim.value);
    } else {
      assert bag + multiset{em.ev} - multiset{} + multiset(log) == bag + multiset(log) + multiset{em.ev};
    }
  }

  lemma SnocBag<X>(s: seq<X>, x: X)
    ensures multiset(s + [x]) == multiset(s) + multiset{x}
  {
  }

  lemma DropOne(bag: multiset<Event>, log: multiset<Event>, ev: Event, victim: Event)
    requires victim in bag + multiset{ev} && (bag + log + multiset{ev})[victim] <= 1
    ensures (bag + log + multiset{ev})[victim := 0] == bag + multiset{ev} - multiset{victim} + log
  {
  }

  lemma {:induction false} EmitKeepsSource(size: int, source: R.SourceView, es: seq<Emission>, kept: seq<Emission>,
                                           log: seq<Event>, ev: Event, victim: Option<Event>)
    requires size > 0 && SourceInv(size, source, es, kept, log) && !source.stopped
    requires T.DistinctOffsets(Emitted(es) + [ev]) && T.DistinctOffsets(Emitted(kept) + [ev])
    requires victim.Some? ==> victim.value in source.bag + multiset{ev}
    ensures
      var em := Emission(ev, source.mark.confirmed);
      SourceInv(size, source.Emitted(ev, victim), es + [em], KeptAfter(kept, em, victim), log)
  {
    var em := Emission(ev, source.mark.confirmed);
    EmittedSnoc(es, em);
    DistinctPrefix(Emitted(es), ev);
    assert forall x :: x in es ==> x.ev != ev;
    hide StillAhead, T.DistinctOffsets, Recorded, KeptAfter;
    EmitKeepsKept(source.bag, kept, log, em, victim);
    EmitKeepsRecorded(es, source.mark.confirmed, em);
    EmitKeepsAhead(size, es, source.bag, source.mark.confirmed, em, source.Emitted(ev, victim).bag);
  }

  lemma WindowEndsLater(size: int)
    requires size > 0
    ensures forall ev: Event :: ev.timestamp < WindowEnd(size, ev)
  {
    forall ev: Event
      ensures ev.timestamp < WindowEnd(size, ev)
    {
      W.WindowForBounds(size, ev.timestamp);
    }
  }

  lemma AdvanceKeepsSource(size: int, source: R.SourceView, es: seq<Emission>, kept: seq<Emission>, log: seq<Event>,
                           ts: int, order: seq<Event>)
    requires size > 0 && SourceInv(size, source, es, kept, log) && R.Drains(source.bag, ts, order)
    ensures SourceInv(size, source.Advanced(ts, order), es, kept, log + order)
    ensures source.Advanced(ts, order).mark.confirmed == Max(source.mark.confirmed, ts)
  {
    R.DrainTakesOldest(source.bag, ts, order);
    WindowEndsLater(size);
    var left := source.bag - multiset(order);
    assert left + multiset(order) == source.bag;
    assert multiset(log + order) == multiset(log) + multiset(order);
    forall em | em in es && em.ev in left
      ensures em.ev in source.bag && em.ev.timestamp > ts
    {
    }
  }

  // ---------------------------------------------------------------------------------------
  // A drain hands everything on
  // ---------------------------------------------------------------------------------------

  ghost predicate AllApplied(cfg: Config, e: EngineState, order: seq<Event>)
    requires cfg.Valid()
  {
    && Events(HandOps(cfg, e, order)) == order
    && HandedOn(cfg, e, order).controls == e.controls
    && HandedOn(cfg, e, order).core.state.applied == e.core.state.applied + T.Offsets(order)
  }

  lemma {:induction false} DrainAppliesAll(cfg: Config, e: EngineState, order: seq<Event>)
    requires cfg.Valid() && !e.controls.paused
    requires T.DistinctOffsets(order) && T.Offsets(order) !! e.core.state.applied
    ensures AllApplied(cfg, e, order)
    decreases |order|
  {
    if order == [] {
      T.OffsetsOfNone();
    } else {
      hide AllApplied, T.Offsets, T.DistinctOffsets;
      FrontThenLast(order);
      DistinctPrefixOffsets(Front(order), Last(order));
      DrainAppliesAll(cfg, e, Front(order));
      OneMoreApplied(cfg, e, Front(order), Last(order));
    }
  }

  lemma {:induction false} OneMoreApplied(cfg: Config, e: EngineState, front: seq<Event>, last: Event)
    requires cfg.Valid() && !e.controls.paused && AllApplied(cfg, e, front)
    requires last.offset !in e.core.state.applied + T.Offsets(front)
    requires T.Offsets(front + [last]) == T.Offsets(front) + {last.offset}
    ensures AllApplied(cfg, e, front + [last])
  {
    hide Submitted, SubmitOps, Events, T.Offsets;
    assert Front(front + [last]) == front;
    var handed := HandedOn(cfg, e, front);
    DrainAppliesOne(cfg, handed, last);
    Ledger.EventsConcat(HandOps(cfg, e, front), SubmitOps(handed, T.Process(last)));
  }

  lemma DistinctPrefixOffsets(evs: seq<Event>, ev: Event)
    requires T.DistinctOffsets(evs + [ev])
    ensures T.DistinctOffsets(evs) && ev.offset !in T.Offsets(evs)
    ensures T.Offsets(evs + [ev]) == T.Offsets(evs) + {ev.offset}
  {
    DistinctPrefix(evs, ev);
    T.OffsetsOfMore(evs, ev);
    forall e | e in evs
      ensures e.offset != ev.offset
    {
      var i :| 0 <= i < |evs| && evs[i] == e;
      assert (evs + [ev])[i].offset != (evs + [ev])[|evs|].offset;
    }
  }

  lemma DrainAppliesOne(cfg: Config, e: EngineState, ev: Event)
    requires cfg.Valid() && !e.controls.paused && ev.offset !in e.core.state.applied
    ensures Events(SubmitOps(e, T.Process(ev))) == [ev]
    ensures Submitted(cfg, e, T.Process(ev)).controls == e.controls
    ensures Submitted(cfg, e, T.Process(ev)).core.state.applied == e.core.state.applied + {ev.offset}
  {
    hide ProcessedAll, SubmitOps;
    Ledger.EventsOfSubmitOps(e, T.Process(ev));
    T.NewOneOf(e.core.state.applied, ev);
    T.OffsetsOfOne(ev);
    Ledger.ChainKeepsApplied(cfg, e.WithTopology(T.Next(e.Topology(), T.Process(ev))).core, [ev]);
  }

  // ---------------------------------------------------------------------------------------
  // Sources along a run
  // ---------------------------------------------------------------------------------------

  ghost predicate SourcedRun(cfg: Config, ops: seq<Op>)
    requires cfg.Valid()
  {
    && SourceInv(cfg.size, Run(cfg, ops).source, Emissions(cfg, ops), Kept(cfg, ops), Events(CoreOps(cfg, ops)))
    && !Run(cfg, ops).controls.paused
  }

  // A drain is new to the operator manager, so all of it is applied, in the order it was popped.
  lemma {:induction false} DrainIsApplied(cfg: Config, ops: seq<Op>, ts: int, order: seq<Event>)
    requires cfg.Valid() && SourcedRun(cfg, ops) && T.DistinctOffsets(Emitted(Kept(cfg, ops)))
    requires R.Drains(Run(cfg, ops).source.bag, ts, order)
    ensures Events(HandOps(cfg, Run(cfg, ops), order)) == order
    ensures !HandedOn(cfg, Run(cfg, ops), order).controls.paused
  {
    hide Run, CoreOps, Events, T.DistinctOffsets, T.Offsets, HandOps, HandedOn, T.Run, T.Log;
    var e, log := Run(cfg, ops), Events(CoreOps(cfg, ops));
    Ledger.EngineFollowsTopology(cfg, ops);
    T.AppliedExactlyOnce(Ledger.TopologyOps(ops));
    R.DrainTakesOldest(e.source.bag, ts, order);
    DrainedAreNew(Emitted(Kept(cfg, ops)), e.source.bag, log, order);
    DrainAppliesAll(cfg, e, order);
  }

  /**
    In any run, what an advance drains goes down the chain at once, in the order drained, as far as its offsets
    are new, exactly unless a pause is in force.
   */
  lemma {:induction false} DrainedAtOnce(cfg: Config, ops: seq<Op>, ts: int, order: seq<Event>)
    requires cfg.Valid() && T.DistinctOffsets(order)
    requires T.Offsets(order) !! T.Offsets(Events(CoreOps(cfg, ops)))
    ensures Events(CoreOps(cfg, ops + [Op.Advance(ts, order)])) ==
      Events(CoreOps(cfg, ops)) + if Ledger.PauseInForce(ops) then [] else order
  {
    hide Run, CoreOps, Events, T.DistinctOffsets, T.Offsets, HandOps, HandedOn, T.Run, T.Log, Ledger.PauseInForce;
    assert Front(ops + [Op.Advance(ts, order)]) == ops;
    EventsOfAdvance(cfg, ops + [Op.Advance(ts, order)]);
    Ledger.PausedInEngine(cfg, ops);
    Ledger.EngineFollowsTopology(cfg, ops);
    T.AppliedExactlyOnce(Ledger.TopologyOps(ops));
    if Ledger.PauseInForce(ops) {
      PausedHandsNothing(cfg, Run(cfg, ops), order);
    } else {
      DrainAppliesAll(cfg, Run(cfg, ops), order);
    }
  }

  lemma {:induction false} PausedHandsNothing(cfg: Config, e: EngineState, order: seq<Event>)
    requires cfg.Valid() && e.controls.paused
    ensures Events(HandOps(cfg, e, order)) == [] && HandedOn(cfg, e, order).controls.paused
    decreases |order|
  {
    if order != [] {
      hide Events, SubmitOps, ProcessedAll;
      PausedHandsNothing(cfg, e, Front(order));
      var handed, step := HandedOn(cfg, e, Front(order)), T.Process(Last(order));
      Ledger.EventsOfSubmitOps(handed, step);
      Ledger.EventsConcat(HandOps(cfg, e, Front(order)), SubmitOps(handed, step));
    } else {
      assert Events([]) == [];
    }
  }

  lemma {:induction false} EventsOfAdvance(cfg: Config, ops: seq<Op>)
    requires cfg.Valid() && ops != [] && Last(ops).Advance?
    ensures
      var hand := HandOps(cfg, Run(cfg, Front(ops)), Last(ops).order);
      && CoreOps(cfg, ops) == CoreOps(cfg, Front(ops)) + hand + [Trigger(Run(cfg, ops).source.mark.confirmed)]
      && Events(CoreOps(cfg, ops)) == Events(CoreOps(cfg, Front(ops)) + hand)
      && Events(CoreOps(cfg, Front(ops)) + hand) == Events(CoreOps(cfg, Front(ops))) + Events(hand)
  {
    hide HandOps, HandedOn, AfterTrigger;
    var chain, hand := CoreOps(cfg, Front(ops)), HandOps(cfg, Run(cfg, Front(ops)), Last(ops).order);
    var trigger := Trigger(Run(cfg, ops).source.mark.confirmed);
    Ledger.EventsConcat(chain, hand);
    Associate(chain, hand, [trigger]);
    assert Front(chain + hand + [trigger]) == chain + hand;
  }

  // The other operations neither process events nor close windows.
  predicate Quiet(ops: seq<CoreOp>) {
    forall op :: op in ops ==> !op.Process? && !op.Trigger?
  }

  lemma QuietSteps(cfg: Config, e: EngineState, op: Op)
    requires cfg.Valid() && Plain(op) && !op.Advance? && !e.controls.paused
    ensures Quiet(StepOps(cfg, e, op))
    ensures !Next(cfg, e, op).controls.paused
    ensures Next(cfg, e, op).source.mark == e.source.mark
    ensures !op.Emit? ==> Next(cfg, e, op).source.bag == e.source.bag
    ensures op.Emit? ==> Next(cfg, e, op).source == e.source.Emitted(op.ev, op.victim)
  {
    T.OffsetsOfNone();
  }

  lemma {:induction false} QuietEvents(chain: seq<CoreOp>, more: seq<CoreOp>)
    requires Quiet(more)
    ensures Events(chain + more) == Events(chain)
    decreases |more|
  {
    if more == [] {
      assert chain + more == chain;
    } else {
      assert Front(chain + more) == chain + Front(more);
      assert Last(more) in more && forall op :: op in Front(more) ==> op in more;
      QuietEvents(chain, Front(more));
    }
  }

  lemma OtherKeepsSource(size: int, before: R.SourceView, after: R.SourceView, es: seq<Emission>, kept: seq<Emission>,
                         log: seq<Event>)
    requires size > 0 && SourceInv(size, before, es, kept, log)
    requires after.bag == before.bag && after.mark == before.mark
    ensures SourceInv(size, after, es, kept, log)
  {
  }

  // The buffer drops one of the events it holds or has just been given.
  lemma VictimWasBuffered(cfg: Config, e: EngineState, op: Op)
    requires op.Emit? && CanStep(cfg, e, op) && !e.source.stopped
    ensures op.victim.Some? ==> op.victim.value in e.source.bag + multiset{op.ev}
  {
  }

  lemma {:induction false} SourcedStep(cfg: Config, ops: seq<Op>)
    requires cfg.Valid() && Streams(cfg, ops) && ops != [] && SourcedRun(cfg, Front(ops))
    ensures SourcedRun(cfg, ops)
  {
    hide Next, CoreOps, Events, StepOps, HandOps, HandedOn, T.DistinctOffsets, SourceInv, R.Drains, KeptAfter;
    StreamsBefore(cfg, ops);
    KeptInRun(cfg, Front(ops));
    var e, es, log, op := Run(cfg, Front(ops)), Emissions(cfg, Front(ops)), Events(CoreOps(cfg, Front(ops))), Last(ops);
    var kept := Kept(cfg, Front(ops));
    if op.Advance? {
      DrainIsApplied(cfg, Front(ops), op.ts, op.order);
      EventsOfAdvance(cfg, ops);
      AdvanceKeepsSource(cfg.size, e.source, es, kept, log, op.ts, op.order);
      AdvanceSource(cfg, e, op);
    } else {
      QuietSteps(cfg, e, op);
      QuietCore(cfg, ops);
      if op.Emit? && !e.source.stopped {
        var em := Emission(op.ev, e.source.mark.confirmed);
        EmittedSnoc(es, em);
        OneMoreKept(kept, es, Overflowed(cfg, Front(ops)), em, op.victim);
        VictimWasBuffered(cfg, e, op);
        EmitKeepsSource(cfg.size, e.source, es, kept, log, op.ev, op.victim);
      } else {
        OtherKeepsSource(cfg.size, e.source, Run(cfg, ops).source, es, kept, log);
      }
    }
  }

  lemma {:induction false} QuietCore(cfg: Config, ops: seq<Op>)
    requires cfg.Valid() && ops != [] && Plain(Last(ops)) && !Last(ops).Advance?
    requires !Run(cfg, Front(ops)).controls.paused
    ensures Events(CoreOps(cfg, ops)) == Events(CoreOps(cfg, Front(ops)))
  {
    hide Next, StepOps, Events;
    QuietSteps(cfg, Run(cfg, Front(ops)), Last(ops));
    QuietEvents(CoreOps(cfg, Front(ops)), StepOps(cfg, Run(cfg, Front(ops)), Last(ops)));
  }

  lemma AdvanceSource(cfg: Config, e: EngineState, op: Op)
    requires cfg.Valid() && op.Advance?
    ensures Next(cfg, e, op).source == e.source.Advanced(op.ts, op.order)
    ensures Next(cfg, e, op).controls == HandedOn(cfg, e, op.order).controls
    ensures Next(cfg, e, op).core ==
      AfterTrigger(cfg, HandedOn(cfg, e, op.order).core, Next(cfg, e, op).source.mark.confirmed)
  {
    hide HandedOn, HandOps, AfterTrigger;
    HandOpsEffect(cfg, e, op.order);
  }

  lemma {:induction false} RunIsSourced(cfg: Config, ops: seq<Op>)
    requires cfg.Valid() && Streams(cfg, ops)
    ensures SourcedRun(cfg, ops)
    decreases |ops|
  {
    if ops != [] {
      hide SourcedRun, Streams;
      StreamsBefore(cfg, ops);
      RunIsSourced(cfg, Front(ops));
      SourcedStep(cfg, ops);
    }
  }
}
