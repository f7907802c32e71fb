/**
  From emission to publication, in runs without pauses. An event whose window's end lay ahead of the
  watermark when it was emitted is never late; a window the watermark has passed is published with exactly
  its on-time events, save those the reorder buffer dropped; and neither the order of arrival, nor the
  schedule of advances, nor ties in the buffer can change what is published.
 */
module EndToEnd {
  import opened Model
  import opened Engine
  import opened ChainRuns
  import opened Streaming
  import Ledger
  import W = Windows
  import P = Partitioning
  import R = EventSource
  import ReorderBuffer
  import S = Sessions
  import T = Topology
  import WR = WindowRuns
  import SR = SessionRuns

  predicate IsOnTime(size: int, w: WindowID, em: Emission)
    requires size > 0
  {
    Owns(size, w, em.ev) && em.confirmed < w.end
  }

  // The data events of a window that were emitted before the watermark reached its end.
  function OnTimeEvents(size: int, es: seq<Emission>, w: WindowID): seq<Event>
    requires size > 0
  {
    if es == [] then []
    else if IsOnTime(size, w, Last(es)) then OnTimeEvents(size, Front(es), w) + [Last(es).ev]
    else OnTimeEvents(size, Front(es), w)
  }

  // The events that reached the chain after their window had closed.
  function LateEvents(cfg: Config, ops: seq<CoreOp>): seq<Event>
    requires cfg.Valid()
  {
    if ops == [] then []
    else if IsLateStep(cfg, CoreRun(cfg, Front(ops)), Last(ops)) then LateEvents(cfg, Front(ops)) + [Last(ops).ev]
    else LateEvents(cfg, Front(ops))
  }

  predicate IsLateStep(cfg: Config, c: Core, op: CoreOp)
    requires cfg.Valid()
  {
    op.Process? && op.ev.kind == KindData && W.IsClosed(c.tumbling, W.WindowFor(cfg.size, op.ev.timestamp))
  }

  // ---------------------------------------------------------------------------------------
  // Only triggers close windows
  // ---------------------------------------------------------------------------------------

  lemma TriggerEffect(t: W.Tumbling, confirmed: int, w: WindowID)
    ensures W.IsClosed(W.Triggered(t, confirmed), w) <==> W.IsClosed(t, w) || W.Fires(t, w, confirmed)
    ensures W.Values(W.Triggered(t, confirmed), w) == W.Values(t, w)
  {
  }

  predicate NoTriggers(ops: seq<CoreOp>) {
    forall op :: op in ops ==> !op.Trigger?
  }

  // The window's state, as far as lateness depends on it, carries over from one core to the next.
  ghost predicate Carried(before: Core, after: Core, w: WindowID) {
    && (W.IsClosed(after.tumbling, w) <==> W.IsClosed(before.tumbling, w))
    && (W.IsClosed(before.tumbling, w) ==> W.Values(after.tumbling, w) == W.Values(before.tumbling, w))
  }

  lemma StepCarries(cfg: Config, c: Core, op: CoreOp, w: WindowID)
    requires cfg.Valid() && !op.Trigger?
    ensures Carried(c, CoreNext(cfg, c, op), w)
  {
    hide S.Touched, P.Next, P.AfterResize;
  }

  lemma {:induction false} OnlyTriggersClose(cfg: Config, c: Core, ops: seq<CoreOp>, w: WindowID)
    requires cfg.Valid() && NoTriggers(ops)
    ensures Carried(c, CoreFrom(cfg, c, ops), w)
    decreases |ops|
  {
    if ops != [] {
      hide CoreNext;
      assert Last(ops) in ops && forall op :: op in Front(ops) ==> op in ops;
      OnlyTriggersClose(cfg, c, Front(ops), w);
      StepCarries(cfg, CoreFrom(cfg, c, Front(ops)), Last(ops), w);
    }
  }

  // An open window holds the values of every applied event it owns.
  lemma OpenHoldsAll(cfg: Config, chain: seq<CoreOp>, w: WindowID)
    requires cfg.Valid() && !W.IsClosed(CoreRun(cfg, chain).tumbling, w)
    ensures
      var t := CoreRun(cfg, chain).tumbling;
      && W.Values(t, w) == ValuesOf(EventsIn(cfg.size, Events(chain), w))
      && (w in t.windows ==> t.windows[w].state == WindowOpen)
  {
    hide CoreRun, WR.Late, WR.Emissions, Events, EventsIn, ValuesOf, W.Values;
    Ledger.WindowsOfChain(cfg, chain, w);
    var values := W.Values(CoreRun(cfg, chain).tumbling, w);
    assert values + [] == values;
  }

  // ---------------------------------------------------------------------------------------
  // Bags of owned events
  // ---------------------------------------------------------------------------------------

  lemma {:induction false} OwnedCount(size: int, evs: seq<Event>, w: WindowID, ev: Event)
    requires size > 0
    ensures multiset(EventsIn(size, evs, w))[ev] == if Owns(size, w, ev) then multiset(evs)[ev] else 0
    decreases |evs|
  {
    if evs != [] {
      FrontThenLast(evs);
      OwnedCount(size, Front(evs), w, ev);
    }
  }

  lemma {:induction false} ValuesCount(evs: seq<Event>)
    ensures |ValuesOf(evs)| == |evs|
    decreases |evs|
  {
    if evs != [] {
      ValuesCount(Front(evs));
    }
  }

  lemma {:induction false} ValuesConcat(a: seq<Event>, b: seq<Event>)
    ensures ValuesOf(a + b) == ValuesOf(a) + ValuesOf(b)
    decreases |b|
  {
    if b == [] {
      assert a + b == a;
    } else {
      assert Front(a + b) == a + Front(b);
      ValuesConcat(a, Front(b));
    }
  }

  lemma ValuesRemoveAt(evs: seq<Event>, i: nat)
    requires i < |evs|
    ensures multiset(ValuesOf(evs)) == multiset(ValuesOf(RemoveAt(evs, i))) + multiset{evs[i].value}
  {
    hide ValuesOf;
    SplitAt(evs, i);
    ValuesSnoc(evs[..i], evs[i]);
    ValuesConcat(evs[..i] + [evs[i]], evs[i + 1..]);
    ValuesConcat(evs[..i], evs[i + 1..]);
  }

  lemma {:induction false} ValuesOfPermutation(a: seq<Event>, b: seq<Event>)
    requires multiset(a) == multiset(b)
    ensures multiset(ValuesOf(a)) == multiset(ValuesOf(b))
    decreases |a|
  {
    if a == [] {
      assert |multiset(b)| == 0;
    } else {
      hide ValuesOf;
      FrontThenLast(a);
      assert Last(a) in multiset(b);
      var i :| 0 <= i < |b| && b[i] == Last(a);
      RemoveAtBag(b, i);
      ValuesOfPermutation(Front(a), RemoveAt(b, i));
      ValuesRemoveAt(b, i);
      ValuesSnoc(Front(a), Last(a));
    }
  }

  // While the watermark has not reached the window's end, everything emitted into it is on time.
  lemma {:induction false} AllOnTimeSoFar(size: int, es: seq<Emission>, w: WindowID)
    requires size > 0 && forall em :: em in es && Owns(size, w, em.ev) ==> em.confirmed < w.end
    ensures OnTimeEvents(size, es, w) == EventsIn(size, Emitted(es), w)
    decreases |es|
  {
    if es != [] {
      assert Last(es) in es;
      AllOnTimeSoFar(size, Front(es), w);
      assert Front(Emitted(es)) == Emitted(Front(es));
    }
  }

  // Once a drain has gone past the window's end, every event of the window that was not dropped is applied.
  lemma DrainEmptiesWindow(size: int, bag: multiset<Event>, kept: seq<Event>, log: seq<Event>,
                           ts: int, order: seq<Event>, w: WindowID)
    requires size > 0 && multiset(kept) == bag + multiset(log) && R.Drains(bag, ts, order) && w.end <= ts
    ensures multiset(EventsIn(size, log + order, w)) == multiset(EventsIn(size, kept, w))
  {
    R.DrainTakesOldest(bag, ts, order);
    var left := bag - multiset(order);
    assert multiset(kept) == left + multiset(log + order);
    forall ev
      ensures multiset(EventsIn(size, log + order, w))[ev] == multiset(EventsIn(size, kept, w))[ev]
    {
      OwnedCount(size, log + order, w, ev);
      OwnedCount(size, kept, w, ev);
      WindowEndsLater(size);
      if Owns(size, w, ev) {
        assert ev !in left;
      }
    }
  }

  // ---------------------------------------------------------------------------------------
  // The invariant of one window
  // ---------------------------------------------------------------------------------------

  ghost predicate WindowInv(t: W.Tumbling, confirmed: int, w: WindowID, onTime: seq<Event>) {
    && (W.IsClosed(t, w) ==> w.end <= confirmed)
    && (w.end <= confirmed && onTime != [] ==>
          W.IsClosed(t, w) && multiset(W.Values(t, w)) == multiset(ValuesOf(onTime)))
  }

  ghost predicate WindowRun(cfg: Config, ops: seq<Op>, w: WindowID)
    requires cfg.Valid()
  {
    var e := Run(cfg, ops);
    WindowInv(e.core.tumbling, e.source.mark.confirmed, w, OnTimeEvents(cfg.size, Kept(cfg, ops), w))
  }

  lemma {:induction false} WithoutLate(size: int, es: seq<Emission>, ev: Event, w: WindowID)
    requires size > 0 && forall em :: em in es && em.ev == ev ==> !IsOnTime(size, w, em)
    ensures OnTimeEvents(size, Without(es, ev), w) == OnTimeEvents(size, es, w)
    decreases |es|
  {
    if es != [] {
      FrontThenLast(es);
      assert Last(es) in es;
      WithoutLate(size, Front(es), ev, w);
      if Last(es).ev != ev {
        assert Front(Without(Front(es), ev) + [Last(es)]) == Without(Front(es), ev);
      }
    }
  }

  // Once a window is passed, no later emission is on time for it, and none of its on-time events is still
  // there to be dropped.
  lemma EmitKeepsOnTime(size: int, source: R.SourceView, es: seq<Emission>, kept: seq<Emission>, log: seq<Event>,
                        ev: Event, victim: Option<Event>, w: WindowID)
    requires size > 0 && SourceInv(size, source, es, kept, log) && w.end <= source.mark.confirmed
    requires forall em :: em in kept ==> em in es && em.ev != ev
    requires victim.Some? ==> victim.value in source.bag + multiset{ev}
    ensures OnTimeEvents(size, KeptAfter(kept, Emission(ev, source.mark.confirmed), victim), w) ==
      OnTimeEvents(size, kept, w)
  {
    var em := Emission(ev, source.mark.confirmed);
    var more := kept + [em];
    assert Front(more) == kept;
    if victim.Some? {
      forall x | x in more && x.ev == victim.value
        ensures !IsOnTime(size, w, x)
      {
        if x.ev != ev {
          assert x in es && x.ev in source.bag;
        }
      }
      WithoutLate(size, more, victim.value, w);
    }
  }

  lemma QuietKeepsWindow(cfg: Config, ops: seq<Op>, w: WindowID)
    requires cfg.Valid() && Streams(cfg, ops) && ops != [] && !Last(ops).Advance? && WindowRun(cfg, Front(ops), w)
    ensures WindowRun(cfg, ops, w)
  {
    hide Next, StepOps, CoreFrom, W.IsClosed, W.Values, Kept, Streams, SourceInv, OnTimeEvents, CanStep, CoreOps;
    StreamsBefore(cfg, ops);
    RunIsSourced(cfg, Front(ops));
    var e, op := Run(cfg, Front(ops)), Last(ops);
    QuietSteps(cfg, e, op);
    StepOpsEffect(cfg, e, op);
    OnlyTriggersClose(cfg, e.core, StepOps(cfg, e, op), w);
    if w.end <= e.source.mark.confirmed {
      PassedKeepsOnTime(cfg, ops, w);
    }
  }

  lemma PassedKeepsOnTime(cfg: Config, ops: seq<Op>, w: WindowID)
    requires cfg.Valid() && Streams(cfg, ops) && ops != [] && w.end <= Run(cfg, Front(ops)).source.mark.confirmed
    ensures OnTimeEvents(cfg.size, Kept(cfg, ops), w) == OnTimeEvents(cfg.size, Kept(cfg, Front(ops)), w)
  {
    hide Run, KeptAfter, Streams, SourceInv, KeptOf, OnTimeEvents, CanStep, CoreOps;
    StreamsBefore(cfg, ops);
    RunIsSourced(cfg, Front(ops));
    var e, op, kept := Run(cfg, Front(ops)), Last(ops), Kept(cfg, Front(ops));
    if op.Emit? && !e.source.stopped {
      NewEvent(cfg, ops);
      VictimWasBuffered(cfg, e, op);
      EmitKeepsOnTime(cfg.size, e.source, Emissions(cfg, Front(ops)), kept, Events(CoreOps(cfg, Front(ops))),
        op.ev, op.victim, w);
    }
  }

  // What an accepted emission adds is new.
  lemma NewEvent(cfg: Config, ops: seq<Op>)
    requires cfg.Valid() && Streams(cfg, ops) && ops != [] && Last(ops).Emit? && !Run(cfg, Front(ops)).source.stopped
    ensures forall em :: em in Kept(cfg, Front(ops)) ==> em in Emissions(cfg, Front(ops)) && em.ev != Last(ops).ev
  {
    hide Run, T.DistinctOffsets;
    StreamsBefore(cfg, ops);
    KeptInRun(cfg, Front(ops));
    RunIsSourced(cfg, Front(ops));
    var es, em := Emissions(cfg, Front(ops)), Emission(Last(ops).ev, Run(cfg, Front(ops)).source.mark.confirmed);
    EmittedSnoc(es, em);
    DistinctPrefix(Emitted(es), em.ev);
  }

  // A trigger that passes the end of an open window publishes it with what it holds.
  lemma TriggerKeepsWindow(t: W.Tumbling, before: int, confirmed: int, w: WindowID, onTime: seq<Event>)
    requires WindowInv(t, before, w, onTime) && before <= confirmed
    requires w.end <= confirmed && before < w.end ==> multiset(W.Values(t, w)) == multiset(ValuesOf(onTime))
    requires before < w.end && w in t.windows ==> t.windows[w].state == WindowOpen
    ensures WindowInv(W.Triggered(t, confirmed), confirmed, w, onTime)
  {
    TriggerEffect(t, confirmed, w);
    ValuesCount(onTime);
    if w.end <= confirmed && onTime != [] && before < w.end {
      assert |multiset(W.Values(t, w))| == |multiset(ValuesOf(onTime))| > 0;
    }
  }

  lemma {:induction false} EmissionIsEmitted(es: seq<Emission>, em: Emission)
    requires em in es
    ensures em.ev in Emitted(es)
    decreases |es|
  {
    FrontThenLast(es);
    if em != Last(es) {
      EmissionIsEmitted(Front(es), em);
    }
  }

  lemma {:induction false} EmissionOf(es: seq<Emission>, ev: Event) returns (em: Emission)
    requires ev in Emitted(es)
    ensures em in es && em.ev == ev
    decreases |es|
  {
    if Last(es).ev == ev {
      em := Last(es);
    } else {
      em := EmissionOf(Front(es), ev);
    }
  }

  // The core after a drain, as a run of the chain.
  lemma AfterDrain(cfg: Config, ops: seq<Op>, order: seq<Event>, w: WindowID)
    requires cfg.Valid()
    ensures
      var e, hand := Run(cfg, ops), HandOps(cfg, Run(cfg, ops), order);
      && HandedOn(cfg, e, order).core == CoreRun(cfg, CoreOps(cfg, ops) + hand)
      && Carried(e.core, HandedOn(cfg, e, order).core, w)
  {
    hide Run, CoreOps, CoreRun, CoreFrom, HandOps, HandedOn, Carried;
    var e, hand := Run(cfg, ops), HandOps(cfg, Run(cfg, ops), order);
    HandOpsEffect(cfg, e, order);
    CoreOpsEffect(cfg, ops);
    CoreRunFrom(cfg, CoreOps(cfg, ops), hand);
    Ledger.HandOpsOnlyProcess(cfg, e, order);
    OnlyTriggersClose(cfg, e.core, hand, w);
  }

  // After a drain that goes past an open window's end, the window holds its on-time events.
  lemma DrainFillsWindow(cfg: Config, ops: seq<Op>, w: WindowID)
    requires cfg.Valid() && Streams(cfg, ops) && ops != [] && Last(ops).Advance?
    requires WindowRun(cfg, Front(ops), w) && Run(cfg, Front(ops)).source.mark.confirmed < w.end
    ensures
      var t := HandedOn(cfg, Run(cfg, Front(ops)), Last(ops).order).core.tumbling;
      && !W.IsClosed(t, w)
      && (w in t.windows ==> t.windows[w].state == WindowOpen)
      && (w.end <= Last(ops).ts ==>
            multiset(W.Values(t, w)) == multiset(ValuesOf(OnTimeEvents(cfg.size, Kept(cfg, ops), w))))
  {
    hide Run, CoreOps, CoreRun, HandOps, HandedOn, Events, EventsIn, ValuesOf, Owns;
    hide T.DistinctOffsets, R.Drains, W.IsClosed, W.Values, OnTimeEvents, Streams;
    StreamsBefore(cfg, ops);
    RunIsSourced(cfg, Front(ops));
    RunIsSourced(cfg, ops);
    var e, kept, order := Run(cfg, Front(ops)), Kept(cfg, ops), Last(ops).order;
    AfterDrain(cfg, Front(ops), order, w);
    DrainedLog(cfg, ops);
    var chain := CoreOps(cfg, Front(ops)) + HandOps(cfg, e, order);
    OpenHoldsAll(cfg, chain, w);
    if w.end <= Last(ops).ts {
      DrainEmptiesWindow(cfg.size, e.source.bag, Emitted(kept), Events(CoreOps(cfg, Front(ops))), Last(ops).ts, order,
        w);
      KeptInRun(cfg, Front(ops));
      AllOnTimeSoFar(cfg.size, kept, w);
      ValuesOfPermutation(EventsIn(cfg.size, Events(chain), w), EventsIn(cfg.size, Emitted(kept), w));
    }
  }

  // What the chain has processed once a drain is through.
  lemma DrainedLog(cfg: Config, ops: seq<Op>)
    requires cfg.Valid() && Streams(cfg, ops) && ops != [] && Last(ops).Advance?
    ensures
      var e := Run(cfg, Front(ops));
      var chain := CoreOps(cfg, Front(ops)) + HandOps(cfg, e, Last(ops).order);
      && Events(HandOps(cfg, e, Last(ops).order)) == Last(ops).order
      && Events(chain) == Events(CoreOps(cfg, Front(ops))) + Last(ops).order
      && R.Drains(e.source.bag, Last(ops).ts, Last(ops).order)
  {
    hide Run, CoreOps, HandOps, HandedOn, Events, T.DistinctOffsets, R.Drains;
    StreamsBefore(cfg, ops);
    RunIsSourced(cfg, Front(ops));
    RunIsSourced(cfg, ops);
    KeptInRun(cfg, Front(ops));
    DrainIsApplied(cfg, Front(ops), Last(ops).ts, Last(ops).order);
    EventsOfAdvance(cfg, ops);
  }

  lemma AdvanceKeepsWindow(cfg: Config, ops: seq<Op>, w: WindowID)
    requires cfg.Valid() && Streams(cfg, ops) && ops != [] && Last(ops).Advance?
    requires WindowRun(cfg, Front(ops), w)
    ensures WindowRun(cfg, ops, w)
  {
    hide Next, CoreOps, CoreRun, HandOps, HandedOn, R.Drains, W.IsClosed, W.Values, OnTimeEvents, Streams, AfterTrigger;
    StreamsBefore(cfg, ops);
    var e, op := Run(cfg, Front(ops)), Last(ops);
    AdvanceSource(cfg, e, op);
    AfterDrain(cfg, Front(ops), op.order, w);
    RunIsSourced(cfg, Front(ops));
    var t, onTime := HandedOn(cfg, e, op.order).core.tumbling, OnTimeEvents(cfg.size, Kept(cfg, ops), w);
    var confirmed := Run(cfg, ops).source.mark.confirmed;
    if e.source.mark.confirmed < w.end {
      DrainFillsWindow(cfg, ops, w);
    }
    TriggerKeepsWindow(t, e.source.mark.confirmed, confirmed, w, onTime);
    TriggerWindows(cfg, HandedOn(cfg, e, op.order).core, confirmed, w);
  }

  lemma TriggerWindows(cfg: Config, c: Core, confirmed: int, w: WindowID)
    ensures W.IsClosed(AfterTrigger(cfg, c, confirmed).tumbling, w) <==>
      W.IsClosed(W.Triggered(c.tumbling, confirmed), w)
    ensures W.Values(AfterTrigger(cfg, c, confirmed).tumbling, w) == W.Values(W.Triggered(c.tumbling, confirmed), w)
  {
    hide W.Triggered, S.Scanned;
  }

  lemma {:induction false} RunKeepsWindow(cfg: Config, ops: seq<Op>, w: WindowID)
    requires cfg.Valid() && Streams(cfg, ops)
    ensures WindowRun(cfg, ops, w)
    decreases |ops|
  {
    if ops != [] {
      hide WindowRun, Streams;
      StreamsBefore(cfg, ops);
      RunKeepsWindow(cfg, Front(ops), w);
      if Last(ops).Advance? {
        AdvanceKeepsWindow(cfg, ops, w);
      } else {
        QuietKeepsWindow(cfg, ops, w);
      }
    }
  }

  // ---------------------------------------------------------------------------------------
  // No on-time event is late
  // ---------------------------------------------------------------------------------------

  lemma LateSnoc(cfg: Config, chain: seq<CoreOp>, op: CoreOp, ev: Event)
    requires cfg.Valid()
    ensures ev in LateEvents(cfg, chain + [op]) <==>
      ev in LateEvents(cfg, chain) || (IsLateStep(cfg, CoreRun(cfg, chain), op) && op.ev == ev)
  {
    hide CoreRun, W.IsClosed, W.WindowFor;
    assert Front(chain + [op]) == chain;
  }

  lemma EventsSnoc(ops: seq<CoreOp>, op: CoreOp)
    ensures Events(ops + [op]) == if op.Process? then Events(ops) + [op.ev] else Events(ops)
  {
    assert Front(ops + [op]) == ops;
  }

  // An event handed on between triggers is late exactly when its window was closed before.
  lemma {:induction false} LateBetweenTriggers(cfg: Config, chain: seq<CoreOp>, more: seq<CoreOp>, ev: Event)
    requires cfg.Valid() && NoTriggers(more)
    ensures ev in LateEvents(cfg, chain + more) <==>
      || ev in LateEvents(cfg, chain)
      || (ev in Events(more) && ev.kind == KindData
          && W.IsClosed(CoreRun(cfg, chain).tumbling, W.WindowFor(cfg.size, ev.timestamp)))
    decreases |more|
  {
    if more == [] {
      assert chain + more == chain;
    } else {
      hide CoreRun, W.IsClosed, W.WindowFor, LateEvents, Events;
      var front, op := Front(more), Last(more);
      FrontThenLast(more);
      assert chain + more == chain + front + [op];
      LateBetweenTriggers(cfg, chain, front, ev);
      LateSnoc(cfg, chain + front, op, ev);
      EventsSnoc(front, op);
      CoreRunFrom(cfg, chain, front);
      OnlyTriggersClose(cfg, CoreRun(cfg, chain), front, W.WindowFor(cfg.size, ev.timestamp));
    }
  }

  lemma TriggersAreNotLate(cfg: Config, chain: seq<CoreOp>, confirmed: int)
    requires cfg.Valid()
    ensures LateEvents(cfg, chain + [Trigger(confirmed)]) == LateEvents(cfg, chain)
  {
    assert Front(chain + [Trigger(confirmed)]) == chain;
  }

  // No on-time emission has been late so far.
  ghost predicate NoneLate(cfg: Config, ops: seq<Op>)
    requires cfg.Valid()
  {
    forall em :: em in Emissions(cfg, ops) && em.confirmed < WindowEnd(cfg.size, em.ev) ==>
      em.ev !in LateEvents(cfg, CoreOps(cfg, ops))
  }

  lemma {:induction false} LateWereApplied(cfg: Config, chain: seq<CoreOp>)
    requires cfg.Valid()
    ensures forall ev :: ev in LateEvents(cfg, chain) ==> ev in Events(chain)
    decreases |chain|
  {
    if chain != [] {
      hide CoreRun;
      LateWereApplied(cfg, Front(chain));
    }
  }

  lemma QuietAddsNoLate(cfg: Config, ops: seq<Op>)
    requires cfg.Valid() && ops != [] && Plain(Last(ops)) && !Last(ops).Advance?
    requires !Run(cfg, Front(ops)).controls.paused
    ensures forall ev :: ev in LateEvents(cfg, CoreOps(cfg, ops)) ==> ev in LateEvents(cfg, CoreOps(cfg, Front(ops)))
  {
    hide Next, StepOps, LateEvents, Events, Quiet;
    var chain, more := CoreOps(cfg, Front(ops)), StepOps(cfg, Run(cfg, Front(ops)), Last(ops));
    QuietSteps(cfg, Run(cfg, Front(ops)), Last(ops));
    QuietHasNoEvents(more);
    forall ev | ev in LateEvents(cfg, chain + more)
      ensures ev in LateEvents(cfg, chain)
    {
      LateBetweenTriggers(cfg, chain, more, ev);
    }
  }

  lemma NewEventIsNotLate(cfg: Config, ops: seq<Op>, ev: Event)
    requires cfg.Valid() && Streams(cfg, ops) && ev !in Emitted(Emissions(cfg, ops))
    ensures ev !in LateEvents(cfg, CoreOps(cfg, ops))
  {
    hide Run, LateEvents, Events, CoreOps, Streams, Emissions, Kept;
    RunIsSourced(cfg, ops);
    KeptInRun(cfg, ops);
    LateWereApplied(cfg, CoreOps(cfg, ops));
    forall kept | kept in Emitted(Kept(cfg, ops))
      ensures kept in Emitted(Emissions(cfg, ops))
    {
      var em := EmissionOf(Kept(cfg, ops), kept);
      EmissionIsEmitted(Emissions(cfg, ops), em);
    }
    assert ev !in multiset(Emitted(Kept(cfg, ops)));
    assert ev in Events(CoreOps(cfg, ops)) <==> ev in multiset(Events(CoreOps(cfg, ops)));
  }

  lemma QuietKeepsNoneLate(cfg: Config, ops: seq<Op>)
    requires cfg.Valid() && Streams(cfg, ops) && ops != [] && !Last(ops).Advance? && NoneLate(cfg, Front(ops))
    ensures NoneLate(cfg, ops)
  {
    hide Run, StepOps, LateEvents, Events, T.DistinctOffsets, CanStep, CoreOps, W.WindowFor;
    StreamsBefore(cfg, ops);
    RunIsSourced(cfg, Front(ops));
    QuietAddsNoLate(cfg, ops);
    var source, es, op := Run(cfg, Front(ops)).source, Emissions(cfg, Front(ops)), Last(ops);
    if op.Emit? && !source.stopped {
      EmittedSnoc(es, Emission(op.ev, source.mark.confirmed));
      DistinctPrefix(Emitted(es), op.ev);
      NewEventIsNotLate(cfg, Front(ops), op.ev);
    }
  }

  lemma {:induction false} QuietHasNoEvents(ops: seq<CoreOp>)
    requires Quiet(ops)
    ensures Events(ops) == [] && NoTriggers(ops)
    decreases |ops|
  {
    if ops != [] {
      assert Last(ops) in ops && forall op :: op in Front(ops) ==> op in ops;
      QuietHasNoEvents(Front(ops));
    }
  }

  lemma AdvanceKeepsNoneLate(cfg: Config, ops: seq<Op>)
    requires cfg.Valid() && Streams(cfg, ops) && ops != [] && Last(ops).Advance? && NoneLate(cfg, Front(ops))
    ensures NoneLate(cfg, ops)
  {
    hide Run, HandOps, LateEvents, Events, T.DistinctOffsets, CanStep, W.IsClosed, W.Values, W.WindowFor;
    StreamsBefore(cfg, ops);
    RunIsSourced(cfg, Front(ops));
    var e, op := Run(cfg, Front(ops)), Last(ops);
    var chain, hand := CoreOps(cfg, Front(ops)), HandOps(cfg, e, op.order);
    CoreOpsEffect(cfg, Front(ops));
    EventsOfAdvance(cfg, ops);
    TriggersAreNotLate(cfg, chain + hand, Run(cfg, ops).source.mark.confirmed);
    DrainedLog(cfg, ops);
    R.DrainTakesOldest(e.source.bag, op.ts, op.order);
    Ledger.HandOpsOnlyProcess(cfg, e, op.order);
    forall em | em in Emissions(cfg, ops) && em.confirmed < WindowEnd(cfg.size, em.ev)
      ensures em.ev !in LateEvents(cfg, CoreOps(cfg, ops))
    {
      if em.ev in LateEvents(cfg, chain + hand) {
        LateBetweenTriggers(cfg, chain, hand, em.ev);
        W.WindowForBounds(cfg.size, em.ev.timestamp);
        RunKeepsWindow(cfg, Front(ops), W.WindowFor(cfg.size, em.ev.timestamp));
      }
    }
  }

  lemma {:induction false} NoneIsLate(cfg: Config, ops: seq<Op>)
    requires cfg.Valid() && Streams(cfg, ops)
    ensures NoneLate(cfg, ops)
    decreases |ops|
  {
    if ops != [] {
      hide NoneLate, Streams;
      StreamsBefore(cfg, ops);
      NoneIsLate(cfg, Front(ops));
      if Last(ops).Advance? {
        AdvanceKeepsNoneLate(cfg, ops);
      } else {
        QuietKeepsNoneLate(cfg, ops);
      }
    }
  }

  /**
    An event whose window's end lay ahead of the confirmed watermark when it was emitted never reaches
    the chain after its window has closed.
   */
  lemma {:induction false} NoOnTimeEventIsLate(cfg: Config, ops: seq<Op>, em: Emission)
    requires cfg.Valid() && Streams(cfg, ops) && em in Emissions(cfg, ops)
    requires em.confirmed < WindowEnd(cfg.size, em.ev)
    ensures em.ev !in LateEvents(cfg, CoreOps(cfg, ops))
  {
    hide Run, CoreOps, LateEvents, Streams;
    NoneIsLate(cfg, ops);
  }

  /**
    It has been applied, or was dropped on overflow, or it still waits in the buffer with its window's end
    ahead of the watermark.
   */
  lemma {:induction false} OnTimeEventIsAppliedOrAhead(cfg: Config, ops: seq<Op>, em: Emission)
    requires cfg.Valid() && Streams(cfg, ops) && em in Emissions(cfg, ops)
    requires em.confirmed < WindowEnd(cfg.size, em.ev)
    ensures em.ev in Run(cfg, ops).source.bag || em.ev in Events(CoreOps(cfg, ops)) || em.ev in Overflowed(cfg, ops)
    ensures em.ev in Run(cfg, ops).source.bag ==> Run(cfg, ops).source.mark.confirmed < WindowEnd(cfg.size, em.ev)
  {
    hide Run, CoreOps, Streams, Kept;
    RunIsSourced(cfg, ops);
    KeptInRun(cfg, ops);
    if em in Kept(cfg, ops) {
      EmissionIsEmitted(Kept(cfg, ops), em);
      assert em.ev in multiset(Emitted(Kept(cfg, ops)));
      assert em.ev in multiset(Events(CoreOps(cfg, ops))) ==> em.ev in Events(CoreOps(cfg, ops));
    }
  }

  // ---------------------------------------------------------------------------------------
  // Passed windows are published with exactly their on-time events
  // ---------------------------------------------------------------------------------------

  ghost predicate TriggersUpTo(ops: seq<CoreOp>, confirmed: int) {
    forall op :: op in ops && op.Trigger? ==> op.confirmed <= confirmed
  }

  lemma {:induction false} ScansAreTriggers(cfg: Config, chain: seq<CoreOp>, confirmed: int)
    requires cfg.Valid() && TriggersUpTo(chain, confirmed)
    ensures ScansUpTo(SessionOps(cfg, chain), confirmed)
    decreases |chain|
  {
    if chain != [] {
      hide CoreRun, W.Triggered;
      assert Last(chain) in chain && forall op :: op in Front(chain) ==> op in chain;
      ScansAreTriggers(cfg, Front(chain), confirmed);
    }
  }

  lemma {:induction false} TriggersAreConfirmed(cfg: Config, ops: seq<Op>)
    requires cfg.Valid()
    ensures TriggersUpTo(CoreOps(cfg, ops), Run(cfg, ops).source.mark.confirmed)
    decreases |ops|
  {
    if ops != [] {
      hide Next, StepOps;
      TriggersAreConfirmed(cfg, Front(ops));
      StepIsConfirmed(cfg, Run(cfg, Front(ops)), Last(ops));
    }
  }

  lemma StepIsConfirmed(cfg: Config, e: EngineState, op: Op)
    requires cfg.Valid()
    ensures e.source.mark.confirmed <= Next(cfg, e, op).source.mark.confirmed
    ensures TriggersUpTo(StepOps(cfg, e, op), Next(cfg, e, op).source.mark.confirmed)
  {
    hide HandedOn, HandOps, AfterTrigger, SubmitOps;
    match op
    case Advance(_, order) =>
      HandOpsEffect(cfg, e, order);
      Ledger.HandOpsOnlyProcess(cfg, e, order);
    case Submit(step) => Ledger.SubmitOpsOnlyProcess(e, step);
    case _ =>
  }

  // In every run, the confirmed watermark is past the end of each emitted session.
  lemma EmittedSessionsArePassed(cfg: Config, ops: seq<Op>, w: WindowID)
    requires cfg.Valid() && SessionEmitted(cfg, CoreOps(cfg, ops), w)
    ensures w.end < Run(cfg, ops).source.mark.confirmed
  {
    hide Run, CoreOps, SessionOps;
    var chain := CoreOps(cfg, ops);
    TriggersAreConfirmed(cfg, ops);
    ScansAreTriggers(cfg, chain, Run(cfg, ops).source.mark.confirmed);
    SR.EmittedHaveEnded(cfg.timeout, SessionOps(cfg, chain), w.key);
  }

  lemma {:induction false} NoSessionBetweenTriggers(cfg: Config, chain: seq<CoreOp>, more: seq<CoreOp>, w: WindowID)
    requires cfg.Valid() && NoTriggers(more)
    ensures SessionEmitted(cfg, chain + more, w) <==> SessionEmitted(cfg, chain, w)
    decreases |more|
  {
    if more == [] {
      assert chain + more == chain;
    } else {
      hide CoreRun, SR.Emissions, SR.WasEmitted;
      assert Front(chain + more) == chain + Front(more);
      assert Last(more) in more && forall op :: op in Front(more) ==> op in more;
      NoSessionBetweenTriggers(cfg, chain, Front(more), w);
      if Last(more).Process? {
        var ev := Last(more).ev;
        EmissionsOfTouch(cfg.timeout, SessionOps(cfg, chain + Front(more)),
          SR.Touch(ev.key, ev.timestamp, ev.value, ev.kind == KindData),
          SR.Foreign(CoreRun(cfg, chain + more).tumbling.results), w.key);
      }
    }
  }

  // Once the tumbling window has closed first, no session can come first any more.
  lemma {:induction false} ClosedComesFirst(cfg: Config, chain: seq<CoreOp>, more: seq<CoreOp>, w: WindowID)
    requires cfg.Valid() && W.IsClosed(CoreRun(cfg, chain).tumbling, w) && !SessionCameFirst(cfg, chain, w)
    ensures !SessionCameFirst(cfg, chain + more, w)
    decreases |more|
  {
    if more == [] {
      assert chain + more == chain;
    } else {
      hide CoreRun, W.IsClosed, SessionEmitted, SessionCameFirst;
      assert Front(chain + more) == chain + Front(more);
      ClosedComesFirst(cfg, chain, Front(more), w);
      StaysClosed(cfg, chain, more, w);
      FrontThenLast(chain + more);
      CameFirstSnoc(cfg, chain + Front(more), Last(more), w);
    }
  }

  lemma {:induction false} StaysClosed(cfg: Config, chain: seq<CoreOp>, more: seq<CoreOp>, w: WindowID)
    requires cfg.Valid() && W.IsClosed(CoreRun(cfg, chain).tumbling, w)
    ensures W.IsClosed(CoreRun(cfg, chain + more).tumbling, w)
    decreases |more|
  {
    if more == [] {
      assert chain + more == chain;
    } else {
      hide CoreNext, W.IsClosed;
      assert Front(chain + more) == chain + Front(more) && Last(chain + more) == Last(more);
      StaysClosed(cfg, chain, Front(more), w);
      ClosedStays(cfg, CoreRun(cfg, chain + Front(more)), Last(more), w);
    }
  }

  // No session has come first for a passed window with an on-time event.
  ghost predicate OnTimeComesFirst(cfg: Config, ops: seq<Op>, w: WindowID)
    requires cfg.Valid()
  {
    w.end <= Run(cfg, ops).source.mark.confirmed && OnTimeEvents(cfg.size, Kept(cfg, ops), w) != [] ==>
      W.IsClosed(Run(cfg, ops).core.tumbling, w) && !SessionCameFirst(cfg, CoreOps(cfg, ops), w)
  }

  lemma CameFirstWasEmitted(cfg: Config, chain: seq<CoreOp>, w: WindowID)
    requires cfg.Valid() && SessionCameFirst(cfg, chain, w)
    ensures SessionEmitted(cfg, chain, w)
  {
    hide CoreRun, SR.Emissions, SR.WasEmitted, SessionCameFirst, WR.Late, WR.Emissions, W.IsClosed, WR.Legal;
    StoreIsShared(cfg, chain, w);
  }

  // The advance that passes the window's end closes it before its trigger scans the sessions, and no session
  // that ended no earlier has been emitted by then.
  lemma PassingComesFirst(cfg: Config, ops: seq<Op>, w: WindowID)
    requires cfg.Valid() && ops != [] && Last(ops).Advance?
    requires Run(cfg, Front(ops)).source.mark.confirmed < w.end && W.IsClosed(Run(cfg, ops).core.tumbling, w)
    ensures !SessionCameFirst(cfg, CoreOps(cfg, ops), w)
  {
    hide Run, CoreOps, CoreRun, HandOps, SessionEmitted, SessionCameFirst, W.IsClosed, Events;
    var chain, hand := CoreOps(cfg, Front(ops)), HandOps(cfg, Run(cfg, Front(ops)), Last(ops).order);
    if SessionEmitted(cfg, chain, w) {
      EmittedSessionsArePassed(cfg, Front(ops), w);
    }
    Ledger.HandOpsOnlyProcess(cfg, Run(cfg, Front(ops)), Last(ops).order);
    NoSessionBetweenTriggers(cfg, chain, hand, w);
    if SessionCameFirst(cfg, chain + hand, w) {
      CameFirstWasEmitted(cfg, chain + hand, w);
    }
    EventsOfAdvance(cfg, ops);
    CoreOpsEffect(cfg, ops);
    CameFirstSnoc(cfg, chain + hand, Trigger(Run(cfg, ops).source.mark.confirmed), w);
  }

  lemma {:induction false} OnTimeWindowsComeFirst(cfg: Config, ops: seq<Op>, w: WindowID)
    requires cfg.Valid() && Streams(cfg, ops)
    ensures OnTimeComesFirst(cfg, ops, w)
    decreases |ops|
  {
    hide CoreOps, OnTimeEvents, SessionCameFirst, W.IsClosed, Streams, Kept, Next, StepOps;
    RunKeepsWindow(cfg, ops, w);
    if ops != [] {
      StreamsBefore(cfg, ops);
      OnTimeWindowsComeFirst(cfg, Front(ops), w);
      if w.end <= Run(cfg, Front(ops)).source.mark.confirmed {
        PassedKeepsOnTime(cfg, ops, w);
        CoreOpsEffect(cfg, Front(ops));
        if W.IsClosed(Run(cfg, Front(ops)).core.tumbling, w) && !SessionCameFirst(cfg, CoreOps(cfg, Front(ops)), w) {
          MoreSteps(cfg, ops);
          ClosedComesFirst(cfg, CoreOps(cfg, Front(ops)), StepOps(cfg, Run(cfg, Front(ops)), Last(ops)), w);
        }
      } else if Last(ops).Advance? {
        if W.IsClosed(Run(cfg, ops).core.tumbling, w) {
          PassingComesFirst(cfg, ops, w);
        }
      } else {
        RunIsSourced(cfg, Front(ops));
        QuietSteps(cfg, Run(cfg, Front(ops)), Last(ops));
      }
    } else {
      NothingOnTime(cfg, w);
    }
  }

  lemma NothingOnTime(cfg: Config, w: WindowID)
    requires cfg.Valid()
    ensures OnTimeEvents(cfg.size, Kept(cfg, []), w) == []
  {
  }

  lemma MoreSteps(cfg: Config, ops: seq<Op>)
    requires cfg.Valid() && ops != []
    ensures CoreOps(cfg, ops) == CoreOps(cfg, Front(ops)) + StepOps(cfg, Run(cfg, Front(ops)), Last(ops))
  {
  }

  /**
    Once the confirmed watermark has reached the end of a window that some on-time event belongs to which
    the buffer has not dropped, the window is closed and published, with the count, sum, least and greatest
    value of exactly those events, whatever sessions there are.
   */
  lemma {:induction false} PassedWindowsAreExact(cfg: Config, ops: seq<Op>, w: WindowID)
    requires cfg.Valid() && Streams(cfg, ops)
    requires w.end <= Run(cfg, ops).source.mark.confirmed
    requires OnTimeEvents(cfg.size, Kept(cfg, ops), w) != []
    ensures W.IsClosed(Run(cfg, ops).core.tumbling, w)
    ensures w in Run(cfg, ops).core.tumbling.results && Run(cfg, ops).core.tumbling.results[w].emitted
    ensures Aggregates(Run(cfg, ops).core.tumbling.results[w], w, ValuesOf(OnTimeEvents(cfg.size, Kept(cfg, ops), w)))
  {
    hide Run, CoreOps, Events, EventsIn, ValuesOf, OnTimeEvents, Streams, WR.Late, Aggregates, SessionCameFirst,
      SessionEmitted, SR.FirstValues, W.IsClosed, W.Values;
    RunKeepsWindow(cfg, ops, w);
    OnTimeWindowsComeFirst(cfg, ops, w);
    Ledger.WindowLedger(cfg, ops, w);
    var held, values := W.Values(Run(cfg, ops).core.tumbling, w), ValuesOf(OnTimeEvents(cfg.size, Kept(cfg, ops), w));
    FoldAggregates(w, held);
    AggregatesCarryOver(Fold(w, held), w, held, values);
    OnlyPublishedFields(Fold(w, held), Run(cfg, ops).core.tumbling.results[w], w, values);
  }

  lemma OnlyPublishedFields(r: WindowResult, s: WindowResult, w: WindowID, values: seq<int>)
    requires Aggregates(r, w, values)
    requires s == r.(emitted := s.emitted, lateCount := s.lateCount, lateSum := s.lateSum)
    ensures Aggregates(s, w, values)
  {
  }

  // ---------------------------------------------------------------------------------------
  // Order independence
  // ---------------------------------------------------------------------------------------

  ghost predicate AllOnTime(size: int, es: seq<Emission>, w: WindowID)
    requires size > 0
  {
    forall em :: em in es && Owns(size, w, em.ev) ==> em.confirmed < w.end
  }

  lemma AppliedOwned(size: int, all: seq<Event>, bag: multiset<Event>, log: seq<Event>, w: WindowID)
    requires size > 0 && multiset(all) == bag + multiset(log)
    ensures |EventsIn(size, log, w)| <= |EventsIn(size, all, w)|
  {
    forall ev
      ensures multiset(EventsIn(size, log, w))[ev] <= multiset(EventsIn(size, all, w))[ev]
    {
      OwnedCount(size, log, w, ev);
      OwnedCount(size, all, w, ev);
    }
    var a, b := multiset(EventsIn(size, log, w)), multiset(EventsIn(size, all, w));
    assert a <= b && b == a + (b - a);
  }

  // A run that has closed a tumbling window of which only on-time events were kept.
  ghost predicate ClosesOnTime(cfg: Config, ops: seq<Op>, w: WindowID) {
    && cfg.Valid() && Streams(cfg, ops)
    && AllOnTime(cfg.size, Kept(cfg, ops), w)
    && W.IsClosed(Run(cfg, ops).core.tumbling, w)
  }

  /** A closed window of which only on-time events were kept has published all of them, and nothing as late. */
  lemma {:induction false} ClosedOnTimeWindow(cfg: Config, ops: seq<Op>, w: WindowID)
    requires ClosesOnTime(cfg, ops, w)
    ensures
      var t := Run(cfg, ops).core.tumbling;
      && w in t.results && t.results[w].emitted
      && t.results[w].lateCount == t.results[w].lateSum == 0
      && Aggregates(t.results[w], w, ValuesOf(EventsIn(cfg.size, Emitted(Kept(cfg, ops)), w)))
  {
    hide Run, CoreOps, Events, EventsIn, ValuesOf, OnTimeEvents, Streams, WR.Late, WR.Emissions, Aggregates,
      SessionCameFirst, SessionEmitted, SR.FirstValues, W.Values;
    var e, es, chain := Run(cfg, ops), Kept(cfg, ops), CoreOps(cfg, ops);
    var owned, held := EventsIn(cfg.size, Emitted(es), w), W.Values(e.core.tumbling, w);
    RunKeepsWindow(cfg, ops, w);
    RunIsSourced(cfg, ops);
    AllOnTimeSoFar(cfg.size, es, w);
    AppliedOwned(cfg.size, Emitted(es), e.source.bag, Events(chain), w);
    ValuesCount(EventsIn(cfg.size, Events(chain), w));
    ValuesCount(owned);
    Ledger.ClosedWindowLedger(cfg, ops, w);
    Ledger.WindowLedger(cfg, ops, w);
    OnTimeWindowsComeFirst(cfg, ops, w);
    assert |multiset(held)| == |held| && |multiset(ValuesOf(owned))| == |ValuesOf(owned)|;
    assert owned != [];
    FoldAggregates(w, held);
    AggregatesCarryOver(Fold(w, held), w, held, ValuesOf(owned));
    OnlyPublishedFields(Fold(w, held), e.core.tumbling.results[w], w, ValuesOf(owned));
  }

  /**
    Two runs that kept the same events of a window, in whatever order among whatever others, with their own
    schedules of advances, their own ties in the buffer and their own settings besides the window size, publish
    the same result for it once both have closed it and only on-time events of it were kept in either.
   */
  lemma {:induction false} OrderIndependence(cfg1: Config, ops1: seq<Op>, cfg2: Config, ops2: seq<Op>, w: WindowID)
    requires cfg1.size == cfg2.size && ClosesOnTime(cfg1, ops1, w) && ClosesOnTime(cfg2, ops2, w)
    requires multiset(EventsIn(cfg1.size, Emitted(Kept(cfg1, ops1)), w)) ==
             multiset(EventsIn(cfg2.size, Emitted(Kept(cfg2, ops2)), w))
    ensures w in Run(cfg1, ops1).core.tumbling.results && w in Run(cfg2, ops2).core.tumbling.results
    ensures Run(cfg1, ops1).core.tumbling.results[w] == Run(cfg2, ops2).core.tumbling.results[w]
    ensures Run(cfg1, ops1).core.tumbling.results[w].emitted
  {
    hide Run, Kept, Emitted, EventsIn, ValuesOf, Streams, AllOnTime;
    var evs1 := EventsIn(cfg1.size, Emitted(Kept(cfg1, ops1)), w);
    var evs2 := EventsIn(cfg2.size, Emitted(Kept(cfg2, ops2)), w);
    ClosedOnTimeWindow(cfg1, ops1, w);
    ClosedOnTimeWindow(cfg2, ops2, w);
    ValuesOfPermutation(evs1, evs2);
    var r1, r2 := Run(cfg1, ops1).core.tumbling.results[w], Run(cfg2, ops2).core.tumbling.results[w];
    AggregatesOfPermutation(r1, r2, w, ValuesOf(evs1), ValuesOf(evs2));
  }

  // ---------------------------------------------------------------------------------------
  // Sessions
  // ---------------------------------------------------------------------------------------

  // Every event of the key was emitted ahead of the confirmed watermark.
  ghost predicate KeyOnTime(es: seq<Emission>, key: string) {
    forall em :: em in es && em.ev.key == key ==> em.confirmed < em.ev.timestamp
  }

  ghost predicate ScansUpTo(ops: seq<SR.Op>, confirmed: int) {
    forall op :: op in ops && op.Scan? ==> op.now <= confirmed
  }

  ghost predicate SessionsFollow(ops: seq<SR.Op>, key: string, confirmed: int) {
    SR.TouchesFollowScans(ops, key) && ScansUpTo(ops, confirmed)
  }

  lemma FollowsSnoc(ops: seq<SR.Op>, op: SR.Op, key: string, before: int, confirmed: int)
    requires SessionsFollow(ops, key, before) && before <= confirmed
    requires op.Touch? && op.key == key ==> before < op.ts
    requires op.Scan? ==> op.now <= confirmed
    ensures SessionsFollow(ops + [op], key, confirmed)
  {
    forall i, j | 0 <= i < j < |ops + [op]| && (ops + [op])[i].Scan?
                  && (ops + [op])[j].Touch? && (ops + [op])[j].key == key
      ensures (ops + [op])[i].now < (ops + [op])[j].ts
    {
      assert (ops + [op])[i] == ops[i] && ops[i] in ops;
      if j < |ops| {
        assert (ops + [op])[j] == ops[j];
      }
    }
  }

  lemma {:induction false} HandedFollow(cfg: Config, chain: seq<CoreOp>, more: seq<CoreOp>, key: string, confirmed: int)
    requires cfg.Valid() && Ledger.OnlyProcesses(more)
    requires SessionsFollow(SessionOps(cfg, chain), key, confirmed)
    requires forall ev :: ev in Events(more) && ev.key == key ==> confirmed < ev.timestamp
    ensures SessionsFollow(SessionOps(cfg, chain + more), key, confirmed)
    decreases |more|
  {
    if more == [] {
      assert chain + more == chain;
    } else {
      hide CoreRun, SessionsFollow;
      var front, op := Front(more), Last(more);
      assert op in more && forall o :: o in front ==> o in more;
      assert forall ev :: ev in Events(front) ==> ev in Events(more);
      assert Front(chain + more) == chain + front;
      HandedFollow(cfg, chain, front, key, confirmed);
      if op.Process? {
        assert op.ev in Events(more);
        var before, ev := SessionOps(cfg, chain + front), op.ev;
        var touch := SR.Touch(ev.key, ev.timestamp, ev.value, ev.kind == KindData);
        var foreign := SR.Foreign(CoreRun(cfg, chain + more).tumbling.results);
        FollowsSnoc(before, touch, key, confirmed, confirmed);
        FollowsSnoc(before + [touch], foreign, key, confirmed, confirmed);
        assert SessionOps(cfg, chain + more) == before + [touch] + [foreign];
      }
    }
  }

  lemma TriggerFollows(cfg: Config, chain: seq<CoreOp>, key: string, before: int, confirmed: int)
    requires cfg.Valid() && SessionsFollow(SessionOps(cfg, chain), key, before) && before <= confirmed
    ensures SessionsFollow(SessionOps(cfg, chain + [Trigger(confirmed)]), key, confirmed)
  {
    hide CoreRun, SessionsFollow;
    assert Front(chain + [Trigger(confirmed)]) == chain;
    var ops := SessionOps(cfg, chain);
    var foreign := SR.Foreign(W.Triggered(CoreRun(cfg, chain).tumbling, confirmed).results);
    FollowsSnoc(ops, foreign, key, before, before);
    FollowsSnoc(ops + [foreign], SR.Scan(confirmed), key, before, confirmed);
    assert SessionOps(cfg, chain + [Trigger(confirmed)]) == ops + [foreign] + [SR.Scan(confirmed)];
  }

  lemma {:induction false} QuietSessions(cfg: Config, chain: seq<CoreOp>, more: seq<CoreOp>)
    requires cfg.Valid() && Quiet(more)
    ensures SessionOps(cfg, chain + more) == SessionOps(cfg, chain)
    decreases |more|
  {
    if more == [] {
      assert chain + more == chain;
    } else {
      hide CoreRun;
      assert Front(chain + more) == chain + Front(more);
      assert Last(more) in more && forall op :: op in Front(more) ==> op in more;
      QuietSessions(cfg, chain, Front(more));
    }
  }

  lemma AdvanceFollows(cfg: Config, ops: seq<Op>, key: string)
    requires cfg.Valid() && Streams(cfg, ops) && ops != [] && Last(ops).Advance? && KeyOnTime(Emissions(cfg, ops), key)
    requires SessionsFollow(SessionOps(cfg, CoreOps(cfg, Front(ops))), key, Run(cfg, Front(ops)).source.mark.confirmed)
    ensures SessionsFollow(SessionOps(cfg, CoreOps(cfg, ops)), key, Run(cfg, ops).source.mark.confirmed)
  {
    hide Run, CoreOps, HandOps, HandedOn, Events, T.DistinctOffsets, T.Offsets, CanStep, SessionOps, SessionsFollow,
      Kept, Streams;
    StreamsBefore(cfg, ops);
    RunIsSourced(cfg, Front(ops));
    var e, es, op := Run(cfg, Front(ops)), Emissions(cfg, Front(ops)), Last(ops);
    var chain, hand := CoreOps(cfg, Front(ops)), HandOps(cfg, e, op.order);
    DrainedLog(cfg, ops);
    KeptInRun(cfg, Front(ops));
    DrainIsAhead(cfg.size, e.source, es, Kept(cfg, Front(ops)), Events(chain), op.ts, op.order, key);
    Ledger.HandOpsOnlyProcess(cfg, e, op.order);
    HandedFollow(cfg, chain, hand, key, e.source.mark.confirmed);
    EventsOfAdvance(cfg, ops);
    ConfirmedGrows(cfg, ops);
    TriggerFollows(cfg, chain + hand, key, e.source.mark.confirmed, Run(cfg, ops).source.mark.confirmed);
  }

  lemma ConfirmedGrows(cfg: Config, ops: seq<Op>)
    requires cfg.Valid() && ops != [] && Last(ops).Advance?
    ensures Run(cfg, Front(ops)).source.mark.confirmed <= Run(cfg, ops).source.mark.confirmed
  {
    hide HandedOn, HandOps, AfterTrigger;
    HandOpsEffect(cfg, Run(cfg, Front(ops)), Last(ops).order);
  }

  lemma DrainIsAhead(size: int, source: R.SourceView, es: seq<Emission>, kept: seq<Emission>, log: seq<Event>,
                     ts: int, order: seq<Event>, key: string)
    requires size > 0 && SourceInv(size, source, es, kept, log) && KeyOnTime(es, key)
    requires R.PopsFrom(source.bag, ts, order)
    requires forall em :: em in kept ==> em in es
    ensures forall ev :: ev in order && ev.key == key ==> source.mark.confirmed < ev.timestamp
  {
    R.DrainTakesOldest(source.bag, ts, order);
    forall ev | ev in order && ev.key == key
      ensures source.mark.confirmed < ev.timestamp
    {
      assert ev in multiset(Emitted(kept));
      var em := EmissionOf(kept, ev);
    }
  }

  lemma {:induction false} TouchesAreAhead(cfg: Config, ops: seq<Op>, key: string)
    requires cfg.Valid() && Streams(cfg, ops) && KeyOnTime(Emissions(cfg, ops), key)
    ensures SessionsFollow(SessionOps(cfg, CoreOps(cfg, ops)), key, Run(cfg, ops).source.mark.confirmed)
    decreases |ops|
  {
    if ops != [] {
      hide Streams, SessionOps, SessionsFollow, Next, StepOps, Quiet;
      StreamsBefore(cfg, ops);
      assert forall em :: em in Emissions(cfg, Front(ops)) ==> em in Emissions(cfg, ops);
      TouchesAreAhead(cfg, Front(ops), key);
      if Last(ops).Advance? {
        AdvanceFollows(cfg, ops, key);
      } else {
        RunIsSourced(cfg, Front(ops));
        QuietSteps(cfg, Run(cfg, Front(ops)), Last(ops));
        QuietSessions(cfg, CoreOps(cfg, Front(ops)), StepOps(cfg, Run(cfg, Front(ops)), Last(ops)));
      }
    }
  }

  /**
    When every event of a key is emitted ahead of the confirmed watermark, the key's sessions come out
    disjoint and in order, each of its applied data values lies in exactly one emitted or live session, and the
    store refuses just those whose tumbling window closed first. Only the empty key has any of those.
   */
  lemma {:induction false} SessionsEndToEnd(cfg: Config, ops: seq<Op>, key: string)
    requires cfg.Valid() && Streams(cfg, ops) && KeyOnTime(Emissions(cfg, ops), key)
    ensures
      var c, chain := Run(cfg, ops).core, CoreOps(cfg, ops);
      var es := SR.Emissions(cfg.timeout, SessionOps(cfg, chain), key);
      && SR.Disjoint(es, key)
      && SR.EmittedValues(es) + SR.LiveValues(c.sessions, key) == KeyedValues(DataOf(Events(chain)), key)
      && (forall i :: 0 <= i < |es| ==> (es[i].accepted <==> SessionCameFirst(cfg, chain, es[i].window)))
      && (forall i :: 0 <= i < |es| && es[i].accepted ==> Ledger.Published(c.tumbling.results, es[i]))
      && (key != "" ==> SR.InOrder(es, key) && SR.StoreHolds(c.tumbling.results, es, key))
  {
    hide Streams, SessionOps, Run, CoreOps, SessionCameFirst, SR.InOrder, SR.StoreHolds, Ledger.Published;
    TouchesAreAhead(cfg, ops, key);
    Ledger.SessionLedger(cfg, ops, key);
    var es := SR.Emissions(cfg.timeout, SessionOps(cfg, CoreOps(cfg, ops)), key);
    forall i | 0 <= i < |es|
      ensures SR.IsFirst(es, i)
    {
      assert forall j :: 0 <= j < i ==> es[j].window.end < es[i].window.start < es[i].window.end;
    }
  }

  // The touches of a key come in order, up to `latest`.
  ghost predicate Paced(ops: seq<SR.Op>, key: string, latest: int) {
    && (forall i, j :: 0 <= i < j < |ops| && SR.Touches(ops[i], key) && SR.Touches(ops[j], key) ==>
          ops[i].ts <= ops[j].ts)
    && (forall i :: 0 <= i < |ops| && SR.Touches(ops[i], key) ==> ops[i].ts <= latest)
  }

  lemma PacedSnoc(ops: seq<SR.Op>, op: SR.Op, key: string, before: int, latest: int)
    requires Paced(ops, key, before) && before <= latest
    requires SR.Touches(op, key) ==> before <= op.ts <= latest
    ensures Paced(ops + [op], key, latest)
  {
    var more := ops + [op];
    assert more[|ops|] == op && forall i :: 0 <= i < |ops| ==> more[i] == ops[i];
  }

  lemma ProcessTouches(cfg: Config, chain: seq<CoreOp>, ev: Event)
    returns (touch: SR.Op, foreign: SR.Op)
    requires cfg.Valid()
    ensures touch == SR.Touch(ev.key, ev.timestamp, ev.value, ev.kind == KindData) && foreign.Foreign?
    ensures SessionOps(cfg, chain + [Process(ev)]) == SessionOps(cfg, chain) + [touch] + [foreign]
  {
    hide CoreRun;
    assert Front(chain + [Process(ev)]) == chain;
    touch := SR.Touch(ev.key, ev.timestamp, ev.value, ev.kind == KindData);
    foreign := SR.Foreign(CoreRun(cfg, chain + [Process(ev)]).tumbling.results);
  }

  lemma {:induction false} HandedPaced(cfg: Config, chain: seq<CoreOp>, more: seq<CoreOp>, key: string, before: int,
                                       latest: int)
    requires cfg.Valid() && Ledger.OnlyProcesses(more) && before <= latest
    requires Paced(SessionOps(cfg, chain), key, before) && SortedBy(Events(more), R.Timestamp)
    requires forall ev :: ev in Events(more) && ev.key == key ==> before < ev.timestamp <= latest
    ensures Paced(SessionOps(cfg, chain + more), key, latest)
    decreases |more|
  {
    if more == [] {
      assert chain + more == chain;
      PacedFurther(SessionOps(cfg, chain), key, before, latest);
    } else {
      hide Paced, SessionOps;
      var front, op := Front(more), Last(more);
      FrontThenLast(more);
      EventsSnoc(front, op);
      assert op in more && forall o :: o in front ==> o in more;
      if op.Process? {
        var evs, ev := Events(front), op.ev;
        assert chain + more == chain + front + [Process(ev)];
        OrderBefore(evs, ev);
        var now := if ev.key == key then ev.timestamp else latest;
        assert ev in Events(more) && forall e :: e in evs ==> e in Events(more);
        HandedPaced(cfg, chain, front, key, before, now);
        var touch, foreign := ProcessTouches(cfg, chain + front, ev);
        PacedSnoc(SessionOps(cfg, chain + front), touch, key, now, latest);
        PacedSnoc(SessionOps(cfg, chain + front) + [touch], foreign, key, latest, latest);
      } else {
        HandedPaced(cfg, chain, front, key, before, latest);
        MarksTouchNothing(cfg, chain + front, op);
        assert chain + more == chain + front + [op];
      }
    }
  }

  lemma PacedFurther(ops: seq<SR.Op>, key: string, before: int, latest: int)
    requires Paced(ops, key, before) && before <= latest
    ensures Paced(ops, key, latest)
  {
  }

  lemma OrderBefore(evs: seq<Event>, ev: Event)
    requires SortedBy(evs + [ev], R.Timestamp)
    ensures SortedBy(evs, R.Timestamp) && forall e :: e in evs ==> e.timestamp <= ev.timestamp
  {
    var more := evs + [ev];
    assert more[|evs|] == ev && forall i :: 0 <= i < |evs| ==> more[i] == evs[i];
  }

  lemma MarksTouchNothing(cfg: Config, chain: seq<CoreOp>, op: CoreOp)
    requires cfg.Valid() && op.MarkApplied?
    ensures SessionOps(cfg, chain + [op]) == SessionOps(cfg, chain)
  {
    hide CoreRun;
    assert Front(chain + [op]) == chain;
  }

  lemma TriggerPaced(cfg: Config, chain: seq<CoreOp>, key: string, confirmed: int, latest: int)
    requires cfg.Valid() && Paced(SessionOps(cfg, chain), key, latest)
    ensures Paced(SessionOps(cfg, chain + [Trigger(confirmed)]), key, latest)
  {
    hide CoreRun, Paced;
    assert Front(chain + [Trigger(confirmed)]) == chain;
    var ops := SessionOps(cfg, chain);
    var foreign := SR.Foreign(W.Triggered(CoreRun(cfg, chain).tumbling, confirmed).results);
    PacedSnoc(ops, foreign, key, latest, latest);
    PacedSnoc(ops + [foreign], SR.Scan(confirmed), key, latest, latest);
    assert SessionOps(cfg, chain + [Trigger(confirmed)]) == ops + [foreign] + [SR.Scan(confirmed)];
  }

  lemma AdvancePaced(cfg: Config, ops: seq<Op>, key: string)
    requires cfg.Valid() && Streams(cfg, ops) && ops != [] && Last(ops).Advance? && KeyOnTime(Emissions(cfg, ops), key)
    requires Paced(SessionOps(cfg, CoreOps(cfg, Front(ops))), key, Run(cfg, Front(ops)).source.mark.confirmed)
    ensures Paced(SessionOps(cfg, CoreOps(cfg, ops)), key, Run(cfg, ops).source.mark.confirmed)
  {
    hide Run, CoreOps, HandOps, HandedOn, Events, T.DistinctOffsets, T.Offsets, CanStep, SessionOps, Paced, Kept,
      Streams;
    StreamsBefore(cfg, ops);
    RunIsSourced(cfg, Front(ops));
    var e, es, op := Run(cfg, Front(ops)), Emissions(cfg, Front(ops)), Last(ops);
    var chain, hand := CoreOps(cfg, Front(ops)), HandOps(cfg, e, op.order);
    DrainedLog(cfg, ops);
    KeptInRun(cfg, Front(ops));
    DrainIsAhead(cfg.size, e.source, es, Kept(cfg, Front(ops)), Events(chain), op.ts, op.order, key);
    R.DrainIsOrdered(e.source.bag, op.ts, op.order);
    R.DrainTakesOldest(e.source.bag, op.ts, op.order);
    Ledger.HandOpsOnlyProcess(cfg, e, op.order);
    ConfirmedReaches(cfg, ops);
    HandedPaced(cfg, chain, hand, key, e.source.mark.confirmed, Run(cfg, ops).source.mark.confirmed);
    EventsOfAdvance(cfg, ops);
    TriggerPaced(cfg, chain + hand, key, Run(cfg, ops).source.mark.confirmed, Run(cfg, ops).source.mark.confirmed);
  }

  lemma ConfirmedReaches(cfg: Config, ops: seq<Op>)
    requires cfg.Valid() && Streams(cfg, ops) && ops != [] && Last(ops).Advance?
    ensures Run(cfg, ops).source.mark.confirmed == Max(Run(cfg, Front(ops)).source.mark.confirmed, Last(ops).ts)
  {
    hide HandedOn, HandOps, AfterTrigger, Streams, Emissions, Kept, CoreOps, Events;
    StreamsBefore(cfg, ops);
    RunIsSourced(cfg, Front(ops));
    HandOpsEffect(cfg, Run(cfg, Front(ops)), Last(ops).order);
  }

  lemma {:induction false} TouchesArePaced(cfg: Config, ops: seq<Op>, key: string)
    requires cfg.Valid() && Streams(cfg, ops) && KeyOnTime(Emissions(cfg, ops), key)
    ensures Paced(SessionOps(cfg, CoreOps(cfg, ops)), key, Run(cfg, ops).source.mark.confirmed)
    decreases |ops|
  {
    if ops != [] {
      hide Streams, SessionOps, Paced, Next, StepOps, Quiet;
      StreamsBefore(cfg, ops);
      assert forall em :: em in Emissions(cfg, Front(ops)) ==> em in Emissions(cfg, ops);
      TouchesArePaced(cfg, Front(ops), key);
      if Last(ops).Advance? {
        AdvancePaced(cfg, ops, key);
      } else {
        RunIsSourced(cfg, Front(ops));
        QuietSteps(cfg, Run(cfg, Front(ops)), Last(ops));
        QuietSessions(cfg, CoreOps(cfg, Front(ops)), StepOps(cfg, Run(cfg, Front(ops)), Last(ops)));
      }
    }
  }

  /**
    When every event of a key is emitted ahead of the confirmed watermark, no scan splits its sessions: two of
    its applied events at most one timeout apart always share a session, in whatever order they were emitted
    and whenever the watermark was advanced.
   */
  lemma NearbyEventsShareASession(cfg: Config, ops: seq<Op>, key: string, i: nat, j: nat)
    requires cfg.Valid() && Streams(cfg, ops) && KeyOnTime(Emissions(cfg, ops), key)
    requires i < j < |SessionOps(cfg, CoreOps(cfg, ops))|
    requires
      var touches := SessionOps(cfg, CoreOps(cfg, ops));
      && SR.Touches(touches[i], key) && SR.Touches(touches[j], key)
      && touches[j].ts - touches[i].ts <= cfg.timeout
    ensures SR.SameSession(cfg.timeout, SessionOps(cfg, CoreOps(cfg, ops))[..j + 1], key, i)
  {
    hide Streams, SessionOps, Run, CoreOps, SR.SameSession;
    TouchesArePaced(cfg, ops, key);
    TouchesAreAhead(cfg, ops, key);
    SR.ScansNeverSplit(cfg.timeout, SessionOps(cfg, CoreOps(cfg, ops)), key, i, j);
  }

  // ---------------------------------------------------------------------------------------
  // Lateness in every run, and what a pause does to it
  // ---------------------------------------------------------------------------------------

  predicate Feeds(size: int, op: CoreOp, w: WindowID)
    requires size > 0
  {
    op.Process? && Owns(size, w, op.ev)
  }

  predicate Passes(op: CoreOp, w: WindowID) {
    op.Trigger? && w.end <= op.confirmed
  }

  ghost predicate WasFed(size: int, chain: seq<CoreOp>, w: WindowID)
    requires size > 0
  {
    exists i :: 0 <= i < |chain| && Feeds(size, chain[i], w)
  }

  // A trigger passed the window's end after an event had been applied to it.
  ghost predicate WasPassed(size: int, chain: seq<CoreOp>, w: WindowID)
    requires size > 0
  {
    exists i, j :: 0 <= i < j < |chain| && Feeds(size, chain[i], w) && Passes(chain[j], w)
  }

  lemma FedSnoc(size: int, chain: seq<CoreOp>, op: CoreOp, w: WindowID)
    requires size > 0
    ensures WasFed(size, chain + [op], w) <==> WasFed(size, chain, w) || Feeds(size, op, w)
    ensures WasPassed(size, chain + [op], w) <==> WasPassed(size, chain, w) || (WasFed(size, chain, w) && Passes(op, w))
  {
    var more := chain + [op];
    assert more[|chain|] == op && forall i :: 0 <= i < |chain| ==> more[i] == chain[i];
    if WasPassed(size, chain, w) {
      var i, j :| 0 <= i < j < |chain| && Feeds(size, chain[i], w) && Passes(chain[j], w);
      assert Feeds(size, more[i], w) && Passes(more[j], w);
    }
    if WasFed(size, chain, w) {
      var i :| 0 <= i < |chain| && Feeds(size, chain[i], w);
      assert Feeds(size, more[i], w);
    }
  }

  // The lifecycle of a window, as far as lateness depends on it.
  ghost predicate Lifecycle(t: W.Tumbling, w: WindowID, fed: bool, passed: bool) {
    && (w in t.windows <==> fed)
    && (w in t.windows ==> t.windows[w].state == if passed then WindowClosed else WindowOpen)
    && (passed ==> fed)
  }

  lemma StepLives(cfg: Config, c: Core, op: CoreOp, w: WindowID, fed: bool, passed: bool)
    requires cfg.Valid() && Lifecycle(c.tumbling, w, fed, passed)
    ensures Lifecycle(CoreNext(cfg, c, op).tumbling, w, fed || Feeds(cfg.size, op, w), passed || (fed && Passes(op, w)))
  {
    hide S.Touched, S.Scanned, P.Next, P.AfterResize, W.Triggered, W.Ingested, Processed, AfterTrigger;
    match op
    case Process(ev) =>
      ProcessedWindows(cfg, c, ev);
      IngestStates(cfg.size, c.tumbling, ev, w);
    case Trigger(confirmed) =>
      TriggerStates(cfg, c, confirmed, w);
    case _ =>
  }

  lemma IngestStates(size: int, t: W.Tumbling, ev: Event, w: WindowID)
    requires size > 0
    ensures
      var after := W.Ingested(size, t, ev);
      && (w in after.windows <==> w in t.windows || W.WindowFor(size, ev.timestamp) == w)
      && (w in after.windows ==> after.windows[w].state == if w in t.windows then t.windows[w].state else WindowOpen)
  {
    hide W.WindowFor;
  }

  /**
    In every run, with any pauses and overflow: a window exists exactly when an event was applied to it, and
    it is closed exactly when a trigger passed its end after that.
   */
  lemma {:induction false} ClosedExactly(cfg: Config, chain: seq<CoreOp>, w: WindowID)
    requires cfg.Valid()
    ensures Lifecycle(CoreRun(cfg, chain).tumbling, w, WasFed(cfg.size, chain, w), WasPassed(cfg.size, chain, w))
    decreases |chain|
  {
    if chain != [] {
      hide CoreNext, Lifecycle, WasFed, WasPassed;
      ClosedExactly(cfg, Front(chain), w);
      FrontThenLast(chain);
      FedSnoc(cfg.size, Front(chain), Last(chain), w);
      StepLives(cfg, CoreRun(cfg, Front(chain)), Last(chain), w,
        WasFed(cfg.size, Front(chain), w), WasPassed(cfg.size, Front(chain), w));
    }
  }

  /** So an applied data event is late exactly when its window had been fed and then passed before. */
  lemma {:induction false} LateExactly(cfg: Config, chain: seq<CoreOp>, ev: Event)
    requires cfg.Valid() && ev.kind == KindData
    ensures IsLateStep(cfg, CoreRun(cfg, chain), Process(ev)) <==>
      WasPassed(cfg.size, chain, W.WindowFor(cfg.size, ev.timestamp))
  {
    hide CoreRun, WasFed, WasPassed;
    ClosedExactly(cfg, chain, W.WindowFor(cfg.size, ev.timestamp));
  }

  // What may happen while the operator manager is paused, short of ending the pause; nothing is applied
  // out of band.
  predicate DuringPause(op: Op) {
    op.Submit? ==> !op.step.Resume? && !op.step.ApplyNow?
  }

  predicate Advances(ops: seq<Op>) {
    exists op :: op in ops && op.Advance?
  }

  lemma {:induction false} PausedDrainOnlyBuffers(cfg: Config, e: EngineState, order: seq<Event>)
    requires cfg.Valid() && e.controls.paused
    ensures HandedOn(cfg, e, order) == e.(controls := e.controls.(buffer := e.controls.buffer + order))
    decreases |order|
  {
    if order == [] {
      assert e.controls.buffer + [] == e.controls.buffer;
    } else {
      hide Processed;
      PausedDrainOnlyBuffers(cfg, e, Front(order));
      T.OffsetsOfNone();
      assert e.core.state.applied + {} == e.core.state.applied;
      Associate(e.controls.buffer, Front(order), [Last(order)]);
    }
  }

  // During a pause an advance only moves events to the pause buffer, yet it confirms the watermark and
  // fires; no other operation touches a window.
  lemma PausedStep(cfg: Config, e: EngineState, op: Op)
    requires cfg.Valid() && e.controls.paused && DuringPause(op)
    ensures Next(cfg, e, op).controls.paused
    ensures op.Advance? ==>
      && Next(cfg, e, op).controls.buffer == e.controls.buffer + op.order
      && Next(cfg, e, op).core == AfterTrigger(cfg, e.core, Next(cfg, e, op).source.mark.confirmed)
    ensures !op.Advance? ==>
      Next(cfg, e, op).core.tumbling == e.core.tumbling && Next(cfg, e, op).source.mark == e.source.mark
    ensures e.source.mark.confirmed <= Next(cfg, e, op).source.mark.confirmed
  {
    hide Processed, AfterTrigger;
    match op
    case Advance(ts, order) =>
      PausedDrainOnlyBuffers(cfg, e, order);
    case Submit(step) =>
      T.OffsetsOfNone();
    case _ =>
  }

  // What a pause has done to one window since it began: closed it, if it was open and an advance has
  // confirmed the watermark up to its end.
  ghost predicate PausedWindow(before: EngineState, after: EngineState, advanced: bool, w: WindowID) {
    && after.controls.paused
    && before.source.mark.confirmed <= after.source.mark.confirmed
    && (!advanced ==> after.source.mark.confirmed == before.source.mark.confirmed)
    && (w in after.core.tumbling.windows <==> w in before.core.tumbling.windows)
    && (w in after.core.tumbling.windows ==>
          after.core.tumbling.windows[w].state.WindowOpen? || after.core.tumbling.windows[w].state.WindowClosed?)
    && (W.IsClosed(after.core.tumbling, w) <==>
         || W.IsClosed(before.core.tumbling, w)
         || (w in before.core.tumbling.windows && advanced && w.end <= after.source.mark.confirmed))
  }

  lemma PausedWindowStep(cfg: Config, before: EngineState, e: EngineState, advanced: bool, op: Op, w: WindowID)
    requires cfg.Valid() && PausedWindow(before, e, advanced, w) && DuringPause(op)
    ensures PausedWindow(before, Next(cfg, e, op), advanced || op.Advance?, w)
  {
    PausedStep(cfg, e, op);
    hide Next;
    if op.Advance? {
      var confirmed := Next(cfg, e, op).source.mark.confirmed;
      TriggerStates(cfg, e.core, confirmed, w);
    }
  }

  lemma TriggerStates(cfg: Config, c: Core, confirmed: int, w: WindowID)
    ensures
      var t, after := c.tumbling, AfterTrigger(cfg, c, confirmed).tumbling;
      && (w in after.windows <==> w in t.windows)
      && (w in t.windows ==>
            after.windows[w].state == if W.Fires(t, w, confirmed) then WindowClosed else t.windows[w].state)
  {
    hide S.Scanned;
  }

  lemma {:induction false} PausedRun(cfg: Config, ops: seq<Op>, pause: seq<Op>, w: WindowID)
    requires cfg.Valid() && Run(cfg, ops).controls.paused
    requires forall op :: op in pause ==> DuringPause(op)
    ensures PausedWindow(Run(cfg, ops), Run(cfg, ops + pause), Advances(pause), w)
    decreases |pause|
  {
    if pause == [] {
      assert ops + pause == ops;
      CoreOpsEffect(cfg, ops);
      ClosedExactly(cfg, CoreOps(cfg, ops), w);
    } else {
      hide Next, PausedWindow, DuringPause;
      FrontThenLast(pause);
      assert Front(ops + pause) == ops + Front(pause) && Last(pause) in pause;
      PausedRun(cfg, ops, Front(pause), w);
      PausedWindowStep(cfg, Run(cfg, ops), Run(cfg, ops + Front(pause)), Advances(Front(pause)), Last(pause), w);
      assert Advances(pause) <==> Advances(Front(pause)) || Last(pause).Advance?;
    }
  }

  // A resume counts an event as late exactly when its window is closed by then.
  lemma ReplayIsLate(cfg: Config, ops: seq<Op>, order: seq<Event>, ev: Event)
    requires cfg.Valid() && ev.kind == KindData
    requires ev in T.Applies(Run(cfg, ops).Topology(), T.Resume(order))
    ensures ev in LateEvents(cfg, CoreOps(cfg, ops + [Op.Submit(T.Resume(order))])) <==>
      W.IsClosed(Run(cfg, ops).core.tumbling, W.WindowFor(cfg.size, ev.timestamp))
  {
    hide Run, SubmitOps, LateEvents, Events, CoreRun, T.Applies, W.IsClosed, T.Run, T.Log;
    var e, chain, step := Run(cfg, ops), CoreOps(cfg, ops), T.Resume(order);
    var more := SubmitOps(e, step);
    assert Front(ops + [Op.Submit(step)]) == ops;
    assert CoreOps(cfg, ops + [Op.Submit(step)]) == chain + more;
    Ledger.EventsOfSubmitOps(e, step);
    Ledger.SubmitOpsOnlyProcess(e, step);
    LateBetweenTriggers(cfg, chain, more, ev);
    CoreOpsEffect(cfg, ops);
    LateWereApplied(cfg, chain);
    Ledger.EngineFollowsTopology(cfg, ops);
    T.AppliedExactlyOnce(Ledger.TopologyOps(ops));
    T.AppliesAreNew(e.Topology(), step);
    assert ev.offset in T.Offsets(T.Applies(e.Topology(), step));
  }

  /**
    Whatever was emitted, drained, resized, checkpointed or connected during a pause: a data event that the
    resume replays is late exactly when its window was closed at the beginning of the pause, or was open
    then and some advance in the pause has confirmed the watermark up to its end. (The watermark never
    moves back, so it is the one at the resume that counts.)
   */
  lemma {:induction false} PausedEventsMissTheirWindow(cfg: Config, ops: seq<Op>, pause: seq<Op>, order: seq<Event>,
                                                       ev: Event)
    requires cfg.Valid() && Run(cfg, ops).controls.paused
    requires forall op :: op in pause ==> DuringPause(op)
    requires ev in T.Applies(Run(cfg, ops + pause).Topology(), T.Resume(order)) && ev.kind == KindData
    ensures
      var t, w := Run(cfg, ops).core.tumbling, W.WindowFor(cfg.size, ev.timestamp);
      ev in LateEvents(cfg, CoreOps(cfg, ops + pause + [Op.Submit(T.Resume(order))])) <==>
        || W.IsClosed(t, w)
        || (w in t.windows && Advances(pause) && w.end <= Run(cfg, ops + pause).source.mark.confirmed)
  {
    hide Run, CoreOps, LateEvents, W.IsClosed, T.Applies;
    PausedRun(cfg, ops, pause, W.WindowFor(cfg.size, ev.timestamp));
    ReplayIsLate(cfg, ops + pause, order, ev);
  }

  // ---------------------------------------------------------------------------------------
  // Emission in the middle of an advance
  // ---------------------------------------------------------------------------------------

  lemma AdvanceInTwo(cfg: Config, e: EngineState, ts: int, order: seq<Event>)
    requires cfg.Valid()
    ensures Next(cfg, e, Op.Advance(ts, order)) == Confirmed(cfg, Drained(cfg, e, order), ts)
  {
    hide HandedOn, HandOps, AfterTrigger;
    HandOpsEffect(cfg, e, order);
  }

  lemma EmitCommutes(cfg: Config, drained: EngineState, ts: int, ev: Event, victim: Option<Event>)
    requires cfg.Valid()
    ensures Confirmed(cfg, Next(cfg, drained, Op.Emit(ev, victim)), ts) ==
      Next(cfg, Confirmed(cfg, drained, ts), Op.Emit(ev, victim))
    ensures CanStep(cfg, drained, Op.Emit(ev, victim)) <==>
      CanStep(cfg, Confirmed(cfg, drained, ts), Op.Emit(ev, victim))
  {
    hide AfterTrigger, ReorderBuffer.CanStep, ReorderBuffer.Step;
  }

  /**
    The lock is free between the drain and the confirmation of an advance, so events can be emitted there. The
    engine ends up as if they had been emitted after the advance, although the watermark they could see was the
    one before it. So such an event, on time by that watermark, is late the moment the advance is over exactly
    when its window had been fed by the end of the drain.
   */
  lemma {:induction false} EmittedInsideAdvance(cfg: Config, ops: seq<Op>, ts: int, order: seq<Event>,
                                                ev: Event, victim: Option<Event>)
    requires cfg.Valid() && ev.kind == KindData && WindowEnd(cfg.size, ev) <= ts
    ensures
      var e := Run(cfg, ops);
      var after := Confirmed(cfg, Next(cfg, Drained(cfg, e, order), Op.Emit(ev, victim)), ts);
      && after == Run(cfg, ops + [Op.Advance(ts, order)] + [Op.Emit(ev, victim)])
      && (IsLateStep(cfg, after.core, Process(ev)) <==>
            WasFed(cfg.size, CoreOps(cfg, ops) + HandOps(cfg, e, order), W.WindowFor(cfg.size, ev.timestamp)))
  {
    hide HandedOn, HandOps, AfterTrigger, CoreOps, WasFed, WasPassed, CoreRun;
    var e, w := Run(cfg, ops), W.WindowFor(cfg.size, ev.timestamp);
    AdvanceInTwo(cfg, e, ts, order);
    EmitCommutes(cfg, Drained(cfg, e, order), ts, ev, victim);
    assert Front(ops + [Op.Advance(ts, order)]) == ops;
    assert Front(ops + [Op.Advance(ts, order)] + [Op.Emit(ev, victim)]) == ops + [Op.Advance(ts, order)];
    AfterDrain(cfg, ops, order, w);
    ClosedExactly(cfg, CoreOps(cfg, ops) + HandOps(cfg, e, order), w);
    HandOpsEffect(cfg, e, order);
    AdvanceSource(cfg, e, Op.Advance(ts, order));
    var confirmed := Next(cfg, e, Op.Advance(ts, order)).source.mark.confirmed;
    TriggerStates(cfg, HandedOn(cfg, e, order).core, confirmed, w);
  }
}
