/**
  Each component's view of what the operator chain does, so that the component's own run theorems
  apply to runs of the whole engine.
 */
module ChainRuns {
  import opened Model
  import opened Engine
  import W = Windows
  import S = Sessions
  import P = Partitioning
  import K = OutputSink
  import WR = WindowRuns
  import SR = SessionRuns
  import Aggregation

  // The events the chain processed, and the data events among them.
  function Events(ops: seq<CoreOp>): seq<Event> {
    if ops == [] then []
    else if Last(ops).Process? then Events(Front(ops)) + [Last(ops).ev]
    else Events(Front(ops))
  }

  function DataOf(evs: seq<Event>): seq<Event> {
    if evs == [] then []
    else if Last(evs).kind == KindData then DataOf(Front(evs)) + [Last(evs)]
    else DataOf(Front(evs))
  }

  function KeyedValues(evs: seq<Event>, key: string): seq<int> {
    if evs == [] then []
    else if Last(evs).key == key then KeyedValues(Front(evs), key) + [Last(evs).value]
    else KeyedValues(Front(evs), key)
  }

  // The data events a tumbling window owns.
  function EventsIn(size: int, evs: seq<Event>, w: WindowID): seq<Event>
    requires size > 0
  {
    if evs == [] then []
    else if Owns(size, w, Last(evs)) then EventsIn(size, Front(evs), w) + [Last(evs)]
    else EventsIn(size, Front(evs), w)
  }

  predicate Owns(size: int, w: WindowID, ev: Event)
    requires size > 0
  {
    ev.kind == KindData && W.WindowFor(size, ev.timestamp) == w
  }

  function ValuesOf(evs: seq<Event>): seq<int> {
    if evs == [] then [] else ValuesOf(Front(evs)) + [Last(evs).value]
  }

  // ---------------------------------------------------------------------------------------
  // Tumbling windows
  // ---------------------------------------------------------------------------------------

  function WinOps(cfg: Config, ops: seq<CoreOp>): seq<WR.Op>
    requires cfg.Valid()
  {
    if ops == [] then []
    else
      var before := WinOps(cfg, Front(ops));
      match Last(ops)
      case Process(ev) => if ev.kind == KindData then before + [WR.Ingest(ev)] else before
      case Trigger(confirmed) => before + [WR.Trigger(confirmed), WR.Foreign(CoreRun(cfg, ops).tumbling.results)]
      case _ => before
  }

  lemma WinRunSnoc(size: int, ops: seq<WR.Op>, op: WR.Op)
    requires size > 0
    ensures WR.Run(size, ops + [op]) == WR.Next(size, WR.Run(size, ops), op)
  {
    assert Front(ops + [op]) == ops;
  }

  lemma WinRunTrigger(size: int, ops: seq<WR.Op>, confirmed: int, results: Aggregation.Results)
    requires size > 0
    ensures
      var more := ops + [WR.Trigger(confirmed), WR.Foreign(results)];
      WR.Run(size, more) == W.Triggered(WR.Run(size, ops), confirmed).(results := results)
  {
    hide W.Triggered, WR.Run;
    WinRunSnoc(size, ops, WR.Trigger(confirmed));
    WinRunSnoc(size, ops + [WR.Trigger(confirmed)], WR.Foreign(results));
    Associate(ops, [WR.Trigger(confirmed)], [WR.Foreign(results)]);
    assert [WR.Trigger(confirmed)] + [WR.Foreign(results)] == [WR.Trigger(confirmed), WR.Foreign(results)];
  }

  lemma TriggerKeepsRecords(cfg: Config, c: Core, confirmed: int)
    ensures
      var t, after := W.Triggered(c.tumbling, confirmed), AfterTrigger(cfg, c, confirmed);
      after.tumbling == t.(results := after.tumbling.results)
  {
    hide W.Triggered, S.Scanned;
  }

  /** In every run the tumbling side does what the window manager does on its own share of the operations. */
  lemma {:induction false} WinOpsRun(cfg: Config, ops: seq<CoreOp>)
    requires cfg.Valid()
    ensures WR.Run(cfg.size, WinOps(cfg, ops)) == CoreRun(cfg, ops).tumbling
    decreases |ops|
  {
    if ops != [] {
      hide W.Ingested, W.Triggered, Processed, AfterTrigger, P.AfterResize;
      WinOpsRun(cfg, Front(ops));
      var before, c := WinOps(cfg, Front(ops)), CoreRun(cfg, Front(ops));
      match Last(ops)
      case Process(ev) =>
        ProcessedWindows(cfg, c, ev);
        WinRunSnoc(cfg.size, before, WR.Ingest(ev));
      case Trigger(confirmed) =>
        TriggerKeepsRecords(cfg, c, confirmed);
        WinRunTrigger(cfg.size, before, confirmed, CoreRun(cfg, ops).tumbling.results);
      case _ =>
    }
  }

  lemma {:induction false} WinOpsValues(cfg: Config, ops: seq<CoreOp>, w: WindowID)
    requires cfg.Valid()
    ensures WR.ValuesInto(cfg.size, WinOps(cfg, ops), w) == ValuesOf(EventsIn(cfg.size, Events(ops), w))
    decreases |ops|
  {
    if ops != [] {
      hide CoreRun, W.WindowFor;
      WinOpsValues(cfg, Front(ops), w);
      var before := WinOps(cfg, Front(ops));
      match Last(ops)
      case Process(ev) =>
        assert Front(Events(ops)) == Events(Front(ops));
        ValuesSnoc(EventsIn(cfg.size, Events(Front(ops)), w), ev);
        if ev.kind == KindData {
          assert Front(before + [WR.Ingest(ev)]) == before;
        }
      case Trigger(confirmed) =>
        var results := CoreRun(cfg, ops).tumbling.results;
        TriggerCarriesNothing(cfg.size, before, confirmed, results, w);
      case _ =>
    }
  }

  lemma ValuesSnoc(evs: seq<Event>, ev: Event)
    ensures ValuesOf(evs + [ev]) == ValuesOf(evs) + [ev.value]
  {
    assert Front(evs + [ev]) == evs;
  }

  lemma TriggerCarriesNothing(size: int, before: seq<WR.Op>, confirmed: int, results: Aggregation.Results, w: WindowID)
    requires size > 0
    ensures WR.ValuesInto(size, before + [WR.Trigger(confirmed), WR.Foreign(results)], w) ==
      WR.ValuesInto(size, before, w)
  {
    assert Front(before + [WR.Trigger(confirmed), WR.Foreign(results)]) == before + [WR.Trigger(confirmed)];
    assert Front(before + [WR.Trigger(confirmed)]) == before;
  }

  // ---------------------------------------------------------------------------------------
  // Sessions
  // ---------------------------------------------------------------------------------------

  function SessionOps(cfg: Config, ops: seq<CoreOp>): seq<SR.Op>
    requires cfg.Valid()
  {
    if ops == [] then []
    else
      var before, c := SessionOps(cfg, Front(ops)), CoreRun(cfg, Front(ops));
      match Last(ops)
      case Process(ev) =>
        before + [SR.Touch(ev.key, ev.timestamp, ev.value, ev.kind == KindData),
                  SR.Foreign(CoreRun(cfg, ops).tumbling.results)]
      case Trigger(confirmed) =>
        before + [SR.Foreign(W.Triggered(c.tumbling, confirmed).results), SR.Scan(confirmed)]
      case _ => before
  }

  lemma SessionRunTwice(timeout: int, ops: seq<SR.Op>, a: SR.Op, b: SR.Op)
    ensures SR.Run(timeout, ops + [a, b]) == SR.Next(timeout, SR.Next(timeout, SR.Run(timeout, ops), a), b)
    ensures SR.Legal(timeout, ops)
      && (a.Foreign? ==> SR.KeyedUntouched(SR.Run(timeout, ops).results, a.results))
      && (b.Foreign? ==> SR.KeyedUntouched(SR.Next(timeout, SR.Run(timeout, ops), a).results, b.results))
      ==> SR.Legal(timeout, ops + [a, b])
  {
    assert Front(ops + [a, b]) == ops + [a];
    assert Front(ops + [a]) == ops;
  }

  lemma SessionValuesTwice(ops: seq<SR.Op>, a: SR.Op, b: SR.Op, key: string)
    requires !a.Touch? || !b.Touch?
    ensures SR.DataValues(ops + [a, b], key) ==
      if a.Touch? && a.key == key && a.hasValue then SR.DataValues(ops, key) + [a.value]
      else if b.Touch? && b.key == key && b.hasValue then SR.DataValues(ops, key) + [b.value]
      else SR.DataValues(ops, key)
  {
    assert Front(ops + [a, b]) == ops + [a];
    assert Front(ops + [a]) == ops;
  }

  // One more event in each of the projections of the event sequence.
  lemma DataSnoc(evs: seq<Event>, ev: Event, key: string)
    ensures DataOf(evs + [ev]) == if ev.kind == KindData then DataOf(evs) + [ev] else DataOf(evs)
    ensures KeyedValues(evs + [ev], key) ==
      if ev.key == key then KeyedValues(evs, key) + [ev.value] else KeyedValues(evs, key)
  {
    assert Front(evs + [ev]) == evs;
  }

  ghost predicate TumblingKeys(t: W.Tumbling) {
    forall w :: w in t.windows ==> w.key == ""
  }

  lemma IngestLeavesKeyed(size: int, t: W.Tumbling, ev: Event)
    requires size > 0 && TumblingKeys(t)
    ensures SR.KeyedUntouched(t.results, W.Ingested(size, t, ev).results)
    ensures TumblingKeys(W.Ingested(size, t, ev))
  {
  }

  lemma TriggerLeavesKeyed(t: W.Tumbling, confirmed: int)
    requires TumblingKeys(t)
    ensures SR.KeyedUntouched(t.results, W.Triggered(t, confirmed).results)
    ensures TumblingKeys(W.Triggered(t, confirmed))
  {
  }

  /** The tumbling side never touches the results of keyed sessions. */
  lemma {:induction false} SessionOpsRun(cfg: Config, ops: seq<CoreOp>)
    requires cfg.Valid()
    ensures SR.Run(cfg.timeout, SessionOps(cfg, ops)) ==
      S.SessionView(CoreRun(cfg, ops).sessions, CoreRun(cfg, ops).tumbling.results)
    ensures SR.Legal(cfg.timeout, SessionOps(cfg, ops))
    ensures TumblingKeys(CoreRun(cfg, ops).tumbling)
    decreases |ops|
  {
    if ops != [] {
      hide W.Ingested, W.Triggered, S.Scanned, S.Touched, SR.KeyedUntouched, TumblingKeys;
      SessionOpsRun(cfg, Front(ops));
      var before, c := SessionOps(cfg, Front(ops)), CoreRun(cfg, Front(ops));
      match Last(ops)
      case Process(ev) =>
        SessionRunTwice(cfg.timeout, before,
          SR.Touch(ev.key, ev.timestamp, ev.value, ev.kind == KindData),
          SR.Foreign(CoreRun(cfg, ops).tumbling.results));
        IngestLeavesKeyed(cfg.size, c.tumbling, ev);
        NothingTouched(c.tumbling.results);
      case Trigger(confirmed) =>
        SessionRunTwice(cfg.timeout, before, SR.Foreign(W.Triggered(c.tumbling, confirmed).results),
          SR.Scan(confirmed));
        TriggerLeavesKeyed(c.tumbling, confirmed);
        OnlyWindowsMatter(W.Triggered(c.tumbling, confirmed), CoreRun(cfg, ops).tumbling);
      case _ =>
    }
  }

  lemma NothingTouched(rs: Aggregation.Results)
    ensures SR.KeyedUntouched(rs, rs)
  {
  }

  lemma OnlyWindowsMatter(t: W.Tumbling, u: W.Tumbling)
    requires t.windows == u.windows && TumblingKeys(t)
    ensures TumblingKeys(u)
  {
  }

  lemma {:induction false} SessionOpsValues(cfg: Config, ops: seq<CoreOp>, key: string)
    requires cfg.Valid()
    ensures SR.DataValues(SessionOps(cfg, ops), key) == KeyedValues(DataOf(Events(ops)), key)
    decreases |ops|
  {
    if ops != [] {
      hide CoreRun, SR.DataValues, DataOf, KeyedValues, W.Triggered;
      SessionOpsValues(cfg, Front(ops), key);
      var before, c, evs := SessionOps(cfg, Front(ops)), CoreRun(cfg, Front(ops)), Events(Front(ops));
      match Last(ops)
      case Process(ev) =>
        SessionValuesTwice(before, SR.Touch(ev.key, ev.timestamp, ev.value, ev.kind == KindData),
          SR.Foreign(CoreRun(cfg, ops).tumbling.results), key);
        DataSnoc(evs, ev, key);
        DataSnoc(DataOf(evs), ev, key);
      case Trigger(confirmed) =>
        SessionValuesTwice(before, SR.Foreign(W.Triggered(c.tumbling, confirmed).results), SR.Scan(confirmed), key);
      case _ =>
    } else {
      assert SR.DataValues([], key) == [];
    }
  }

  // ---------------------------------------------------------------------------------------
  // The store the two window families share
  // ---------------------------------------------------------------------------------------

  // A session with this very window has been emitted, of whatever key, accepted or not.
  ghost predicate SessionEmitted(cfg: Config, chain: seq<CoreOp>, w: WindowID)
    requires cfg.Valid()
  {
    SR.WasEmitted(SR.Emissions(cfg.timeout, SessionOps(cfg, chain), w.key), w)
  }

  // At some point of the run a session with this very window had been emitted and the tumbling window with
  // its identity had not closed.
  ghost predicate SessionCameFirst(cfg: Config, chain: seq<CoreOp>, w: WindowID)
    requires cfg.Valid()
  {
    chain != [] &&
      (|| SessionCameFirst(cfg, Front(chain), w)
       || (SessionEmitted(cfg, chain, w) && !W.IsClosed(CoreRun(cfg, chain).tumbling, w)))
  }

  // What the store holds of a window: nothing before it is published; then, for good, the values of whichever
  // came first, the tumbling window or a session of the same identity, and what arrived late.
  ghost predicate Held(t: W.Tumbling, es: seq<SR.Emission>, first: bool, late: seq<int>, emissions: nat, w: WindowID) {
    && (w in t.results <==> W.IsClosed(t, w) || SR.WasEmitted(es, w))
    && (w in t.results ==>
          t.results[w] == Fold(w, if first then SR.FirstValues(es, w) else W.Values(t, w)).(
            emitted := true, lateCount := |late|, lateSum := Sum(late)))
    && (first ==> SR.WasEmitted(es, w))
    && (SR.WasEmitted(es, w) && !W.IsClosed(t, w) ==> first)
    && (!W.IsClosed(t, w) ==> late == [])
    && emissions == if W.IsClosed(t, w) && !first then 1 else 0
  }

  lemma IngestHolds(size: int, t: W.Tumbling, ev: Event, es: seq<SR.Emission>, first: bool, late: seq<int>,
                    emissions: nat, w: WindowID)
    requires size > 0 && Held(t, es, first, late, emissions, w)
    ensures
      var into := W.WindowFor(size, ev.timestamp) == w;
      Held(W.Ingested(size, t, ev), es, first,
        if into && W.IsClosed(t, w) then late + [ev.value] else late, emissions, w)
    ensures W.IsClosed(W.Ingested(size, t, ev), w) <==> W.IsClosed(t, w)
  {
    hide W.WindowFor, Fold, Sum, SR.WasEmitted, SR.FirstValues;
    SumSnoc(late, ev.value);
  }

  lemma TriggerHolds(t: W.Tumbling, confirmed: int, es: seq<SR.Emission>, first: bool, late: seq<int>,
                     emissions: nat, w: WindowID)
    requires Held(t, es, first, late, emissions, w)
    ensures Held(W.Triggered(t, confirmed), es, first, late,
              emissions + if w in W.NewlyPublished(t, confirmed) then 1 else 0, w)
    ensures W.IsClosed(W.Triggered(t, confirmed), w) <==> W.IsClosed(t, w) || W.Fires(t, w, confirmed)
  {
    hide SR.WasEmitted, SR.FirstValues;
    FoldAggregates(w, W.Values(t, w));
    assert Sum([]) == 0;
  }

  // A scan's share of the session history of one key.
  ghost function ScanEmission(timeout: int, v: S.SessionView, now: int, key: string): seq<SR.Emission> {
    if key in S.Expired(timeout, v.sessions, now) && key in v.sessions then
      var w := S.WindowOf(v.sessions, key);
      [SR.Emission(w, v.sessions[key].values, !Aggregation.Lookup(v.results, w).emitted)]
    else []
  }

  lemma ScanHolds(timeout: int, t: W.Tumbling, sessions: map<string, S.Session>, now: int, es: seq<SR.Emission>,
                  first: bool, late: seq<int>, emissions: nat, w: WindowID)
    requires Held(t, es, first, late, emissions, w)
    ensures
      var v := S.SessionView(sessions, t.results);
      var after, more := S.Scanned(timeout, v, now).results, es + ScanEmission(timeout, v, now, w.key);
      var firstNow := first || (SR.WasEmitted(more, w) && !W.IsClosed(t, w));
      && Held(t.(results := after), more, firstNow, late, emissions, w)
      && (WR.Untouched(t.results, after, w) <==> (firstNow ==> first))
  {
    hide S.Scanned, S.Expired, SR.WasEmitted;
    var v := S.SessionView(sessions, t.results);
    SR.ScannedResults(timeout, v, now, w.key);
    assert Sum([]) == 0;
    assert es + [] == es;
    if w.key in S.Expired(timeout, sessions, now) && w.key in sessions {
      var x := S.WindowOf(sessions, w.key);
      var e := SR.Emission(x, sessions[w.key].values, !Aggregation.Lookup(v.results, x).emitted);
      SR.SnocFirst(es, e);
      assert Front(es + [e]) == es;
      FoldAggregates(w, e.values);
    }
  }

  lemma EmissionsOfTouch(timeout: int, ops: seq<SR.Op>, touch: SR.Op, foreign: SR.Op, key: string)
    requires touch.Touch? && foreign.Foreign?
    ensures SR.Emissions(timeout, ops + [touch, foreign], key) == SR.Emissions(timeout, ops, key)
  {
    hide SR.Run;
    assert Front(ops + [touch, foreign]) == ops + [touch];
    assert Front(ops + [touch]) == ops;
  }

  lemma EmissionsOfScan(timeout: int, ops: seq<SR.Op>, foreign: SR.Op, now: int, key: string)
    requires foreign.Foreign?
    ensures SR.Emissions(timeout, ops + [foreign, SR.Scan(now)], key) ==
      SR.Emissions(timeout, ops, key) +
        ScanEmission(timeout, SR.Run(timeout, ops).(results := foreign.results), now, key)
  {
    assert Front(ops + [foreign, SR.Scan(now)]) == ops + [foreign];
    assert Front(ops + [foreign]) == ops;
  }

  lemma ProcessedWindows(cfg: Config, c: Core, ev: Event)
    requires cfg.Valid()
    ensures Processed(cfg, c, ev).tumbling ==
      if ev.kind == KindData then W.Ingested(cfg.size, c.tumbling, ev) else c.tumbling
  {
    hide W.Ingested, P.Next, S.Touched;
  }

  lemma WinSnoc(size: int, ops: seq<WR.Op>, op: WR.Op, w: WindowID)
    requires size > 0
    ensures WR.Late(size, ops + [op], w) ==
      if WR.IngestsInto(size, op, w) && W.IsClosed(WR.Run(size, ops), w) then WR.Late(size, ops, w) + [op.ev.value]
      else WR.Late(size, ops, w)
    ensures WR.Emissions(size, ops + [op], w) == WR.Emissions(size, ops, w)
      + if op.Trigger? && w in W.NewlyPublished(WR.Run(size, ops), op.confirmed) then 1 else 0
    ensures WR.Legal(size, ops + [op], w) <==>
      WR.Legal(size, ops, w) && (op.Foreign? ==> WR.Untouched(WR.Run(size, ops).results, op.results, w))
  {
    hide WR.Run;
    assert Front(ops + [op]) == ops;
  }

  lemma WinSnocTrigger(size: int, ops: seq<WR.Op>, confirmed: int, results: Aggregation.Results, w: WindowID)
    requires size > 0
    ensures
      var more := ops + [WR.Trigger(confirmed), WR.Foreign(results)];
      && WR.Late(size, more, w) == WR.Late(size, ops, w)
      && WR.Emissions(size, more, w) == WR.Emissions(size, ops, w)
           + (if w in W.NewlyPublished(WR.Run(size, ops), confirmed) then 1 else 0)
      && (WR.Legal(size, more, w) <==>
            WR.Legal(size, ops, w) && WR.Untouched(W.Triggered(WR.Run(size, ops), confirmed).results, results, w))
  {
    hide WR.Run, WR.Late, WR.Emissions, WR.Legal, WR.Untouched, W.Triggered, W.NewlyPublished;
    WinRunSnoc(size, ops, WR.Trigger(confirmed));
    WinSnoc(size, ops, WR.Trigger(confirmed), w);
    WinSnoc(size, ops + [WR.Trigger(confirmed)], WR.Foreign(results), w);
    Associate(ops, [WR.Trigger(confirmed)], [WR.Foreign(results)]);
    assert [WR.Trigger(confirmed)] + [WR.Foreign(results)] == [WR.Trigger(confirmed), WR.Foreign(results)];
  }

  // The law of the shared store at one point of a run, and when the tumbling side has the store to itself.
  ghost predicate Shared(cfg: Config, chain: seq<CoreOp>, w: WindowID)
    requires cfg.Valid()
  {
    var wins, first := WinOps(cfg, chain), SessionCameFirst(cfg, chain, w);
    && Held(CoreRun(cfg, chain).tumbling, SR.Emissions(cfg.timeout, SessionOps(cfg, chain), w.key), first,
            WR.Late(cfg.size, wins, w), WR.Emissions(cfg.size, wins, w), w)
    && (WR.Legal(cfg.size, wins, w) <==> !first)
  }

  lemma NothingShared(cfg: Config, w: WindowID)
    requires cfg.Valid()
    ensures Shared(cfg, [], w)
  {
    assert SR.Emissions(cfg.timeout, [], w.key) == [];
  }

  lemma CameFirstSnoc(cfg: Config, chain: seq<CoreOp>, op: CoreOp, w: WindowID)
    requires cfg.Valid()
    ensures SessionCameFirst(cfg, chain + [op], w) <==>
      || SessionCameFirst(cfg, chain, w)
      || (SessionEmitted(cfg, chain + [op], w) && !W.IsClosed(CoreRun(cfg, chain + [op]).tumbling, w))
  {
    hide SessionEmitted, CoreRun, W.IsClosed;
    assert Front(chain + [op]) == chain;
  }

  lemma {:induction false} SharedByProcess(cfg: Config, chain: seq<CoreOp>, ev: Event, w: WindowID)
    requires cfg.Valid() && Shared(cfg, chain, w)
    ensures Shared(cfg, chain + [Process(ev)], w)
  {
    hide W.Ingested, SR.Run, SR.Emissions, Processed, W.IsClosed, WR.Late, WR.Emissions, WR.Legal, WR.Run,
      SR.WasEmitted, SR.FirstValues, W.WindowFor, SessionCameFirst, Sum, Fold, W.Values;
    var t, more, wins := CoreRun(cfg, chain).tumbling, chain + [Process(ev)], WinOps(cfg, chain);
    assert Front(more) == chain;
    var es, late := SR.Emissions(cfg.timeout, SessionOps(cfg, chain), w.key), WR.Late(cfg.size, wins, w);
    var first, emissions := SessionCameFirst(cfg, chain, w), WR.Emissions(cfg.size, wins, w);
    WinOpsRun(cfg, chain);
    ProcessedWindows(cfg, CoreRun(cfg, chain), ev);
    EmissionsOfTouch(cfg.timeout, SessionOps(cfg, chain), SR.Touch(ev.key, ev.timestamp, ev.value, ev.kind == KindData),
      SR.Foreign(CoreRun(cfg, more).tumbling.results), w.key);
    CameFirstSnoc(cfg, chain, Process(ev), w);
    if ev.kind == KindData {
      WinSnoc(cfg.size, wins, WR.Ingest(ev), w);
      IngestHolds(cfg.size, t, ev, es, first, late, emissions, w);
    }
  }

  lemma SharedByTrigger(cfg: Config, chain: seq<CoreOp>, confirmed: int, w: WindowID)
    requires cfg.Valid() && Shared(cfg, chain, w)
    ensures Shared(cfg, chain + [Trigger(confirmed)], w)
  {
    hide W.Triggered, S.Scanned, S.Expired, SR.Run, SR.Emissions, W.IsClosed, WR.Late, WR.Emissions, WR.Legal,
      WR.Run, WR.Untouched, SR.WasEmitted, SR.FirstValues, SessionCameFirst, Held, ScanEmission, W.NewlyPublished,
      W.Fires;
    var c, more, wins := CoreRun(cfg, chain), chain + [Trigger(confirmed)], WinOps(cfg, chain);
    assert Front(more) == chain;
    var t := W.Triggered(c.tumbling, confirmed);
    var es, late := SR.Emissions(cfg.timeout, SessionOps(cfg, chain), w.key), WR.Late(cfg.size, wins, w);
    var first, emissions := SessionCameFirst(cfg, chain, w), WR.Emissions(cfg.size, wins, w);
    WinOpsRun(cfg, chain);
    SessionOpsRun(cfg, chain);
    TriggerHolds(c.tumbling, confirmed, es, first, late, emissions, w);
    var published := emissions + if w in W.NewlyPublished(c.tumbling, confirmed) then 1 else 0;
    ScanHolds(cfg.timeout, t, c.sessions, confirmed, es, first, late, published, w);
    EmissionsOfScan(cfg.timeout, SessionOps(cfg, chain), SR.Foreign(t.results), confirmed, w.key);
    WinSnocTrigger(cfg.size, wins, confirmed, CoreRun(cfg, more).tumbling.results, w);
    CameFirstSnoc(cfg, chain, Trigger(confirmed), w);
    SameWindowsClosed(t, CoreRun(cfg, more).tumbling.results, w);
  }

  lemma SameWindowsClosed(t: W.Tumbling, results: Aggregation.Results, w: WindowID)
    ensures W.IsClosed(t.(results := results), w) <==> W.IsClosed(t, w)
  {
  }

  lemma SharedByOther(cfg: Config, chain: seq<CoreOp>, op: CoreOp, w: WindowID)
    requires cfg.Valid() && Shared(cfg, chain, w) && !op.Process? && !op.Trigger?
    ensures Shared(cfg, chain + [op], w)
  {
    hide SR.Run, SR.Emissions, P.AfterResize, W.IsClosed, WR.Late, WR.Emissions, WR.Legal, SessionCameFirst;
    assert Front(chain + [op]) == chain;
    CameFirstSnoc(cfg, chain, op, w);
  }

  /**
    In every run, whatever the keys: the store holds a window exactly when it is a closed tumbling window or a
    session with its identity was emitted; the published fields are the fold of the values of whichever came
    first, and the late fields account for exactly the data that arrived after the tumbling window closed. The
    tumbling publication is refused, and the tumbling side does not have its result to itself, exactly when a
    session came first.
   */
  lemma {:induction false} StoreIsShared(cfg: Config, chain: seq<CoreOp>, w: WindowID)
    requires cfg.Valid()
    ensures Shared(cfg, chain, w)
    decreases |chain|
  {
    hide Shared;
    if chain == [] {
      NothingShared(cfg, w);
    } else {
      FrontThenLast(chain);
      StoreIsShared(cfg, Front(chain), w);
      match Last(chain)
      case Process(ev) => SharedByProcess(cfg, Front(chain), ev, w);
      case Trigger(confirmed) => SharedByTrigger(cfg, Front(chain), confirmed, w);
      case _ => SharedByOther(cfg, Front(chain), Last(chain), w);
    }
  }

  /**
    So a window has been published exactly when it is a closed tumbling window or a session with that window
    was emitted.
   */
  lemma {:induction false} PublishedExactly(cfg: Config, chain: seq<CoreOp>, w: WindowID)
    requires cfg.Valid()
    ensures
      var t := CoreRun(cfg, chain).tumbling;
      Aggregation.Lookup(t.results, w).emitted <==> W.IsClosed(t, w) || SessionEmitted(cfg, chain, w)
  {
    hide CoreRun, SR.Emissions, W.IsClosed, WR.Late, WR.Emissions, WR.Legal, SessionCameFirst, SR.WasEmitted;
    StoreIsShared(cfg, chain, w);
  }

  /**
    A session that a trigger closes, of any key, is refused exactly when a session with the same window
    was emitted before or a tumbling window with the same identity has closed by then. The second can only
    happen to the empty key.
   */
  lemma {:induction false} SessionRefusedExactly(cfg: Config, chain: seq<CoreOp>, confirmed: int, key: string)
    requires cfg.Valid() && key in S.Expired(cfg.timeout, CoreRun(cfg, chain).sessions, confirmed)
    ensures
      var c, es := CoreRun(cfg, chain), SR.Emissions(cfg.timeout, SessionOps(cfg, chain), key);
      var w := S.WindowOf(c.sessions, key);
      var refused := W.IsClosed(W.Triggered(c.tumbling, confirmed), w) || SessionEmitted(cfg, chain, w);
      && SR.Emissions(cfg.timeout, SessionOps(cfg, chain + [Trigger(confirmed)]), key) ==
         es + [SR.Emission(w, c.sessions[key].values, !refused)]
      && (W.IsClosed(W.Triggered(c.tumbling, confirmed), w) ==> key == "")
  {
    hide W.Triggered, SR.Run, SR.Emissions, SR.WasEmitted, W.Fires;
    var c, before := CoreRun(cfg, chain), SessionOps(cfg, chain);
    var t, w := W.Triggered(c.tumbling, confirmed), S.WindowOf(c.sessions, key);
    hide CoreRun;
    assert Front(chain + [Trigger(confirmed)]) == chain;
    SessionOpsRun(cfg, chain);
    StoreIsShared(cfg, chain, w);
    TriggerHolds(c.tumbling, confirmed, SR.Emissions(cfg.timeout, before, w.key), SessionCameFirst(cfg, chain, w),
      WR.Late(cfg.size, WinOps(cfg, chain), w), WR.Emissions(cfg.size, WinOps(cfg, chain), w), w);
    TriggerLeavesKeyed(c.tumbling, confirmed);
    EmissionsOfScan(cfg.timeout, before, SR.Foreign(t.results), confirmed, key);
  }

  // What one more operation adds to the session history of a key.
  lemma {:induction false} HistorySnoc(cfg: Config, chain: seq<CoreOp>, op: CoreOp, key: string)
    returns (more: seq<SR.Emission>)
    requires cfg.Valid()
    ensures SR.Emissions(cfg.timeout, SessionOps(cfg, chain + [op]), key) ==
      SR.Emissions(cfg.timeout, SessionOps(cfg, chain), key) + more
    ensures more ==
      if op.Trigger? then
        var c := CoreRun(cfg, chain);
        var v := S.SessionView(c.sessions, W.Triggered(c.tumbling, op.confirmed).results);
        ScanEmission(cfg.timeout, v, op.confirmed, key)
      else []
  {
    hide CoreNext, W.Triggered, SR.Run, SR.Emissions, ScanEmission;
    assert Front(chain + [op]) == chain;
    var before, es := SessionOps(cfg, chain), SR.Emissions(cfg.timeout, SessionOps(cfg, chain), key);
    SessionOpsRun(cfg, chain);
    more := [];
    assert es + [] == es;
    match op
    case Process(ev) =>
      EmissionsOfTouch(cfg.timeout, before, SR.Touch(ev.key, ev.timestamp, ev.value, ev.kind == KindData),
        SR.Foreign(CoreRun(cfg, chain + [op]).tumbling.results), key);
    case Trigger(confirmed) =>
      var c := CoreRun(cfg, chain);
      var foreign := SR.Foreign(W.Triggered(c.tumbling, confirmed).results);
      EmissionsOfScan(cfg.timeout, before, foreign, confirmed, key);
      more := ScanEmission(cfg.timeout, S.SessionView(c.sessions, foreign.results), confirmed, key);
    case _ =>
  }

  lemma ClosedStays(cfg: Config, c: Core, op: CoreOp, w: WindowID)
    requires cfg.Valid() && W.IsClosed(c.tumbling, w)
    ensures W.IsClosed(CoreNext(cfg, c, op).tumbling, w)
  {
    hide S.Touched, S.Scanned, P.Next, P.AfterResize;
  }

  // Who came first is settled with the first session of the identity.
  lemma {:induction false} EmittedIsSettled(cfg: Config, chain: seq<CoreOp>, op: CoreOp, w: WindowID)
    requires cfg.Valid() && SessionEmitted(cfg, chain, w)
    ensures SessionCameFirst(cfg, chain + [op], w) <==> SessionCameFirst(cfg, chain, w)
  {
    hide CoreNext, SR.Emissions, SR.WasEmitted, SessionCameFirst, WR.Late, WR.Emissions, WR.Legal, W.IsClosed;
    StoreIsShared(cfg, chain, w);
    CameFirstSnoc(cfg, chain, op, w);
    assert Front(chain + [op]) == chain && Last(chain + [op]) == op;
    if W.IsClosed(CoreRun(cfg, chain).tumbling, w) {
      ClosedStays(cfg, CoreRun(cfg, chain), op, w);
    }
  }

  // The store accepts the first session of an identity, unless the tumbling window came first; it is refused
  // otherwise.
  ghost predicate Accepts(cfg: Config, chain: seq<CoreOp>, key: string)
    requires cfg.Valid()
  {
    var es := SR.Emissions(cfg.timeout, SessionOps(cfg, chain), key);
    forall i :: 0 <= i < |es| ==>
      && es[i].window.key == key
      && (es[i].accepted <==> SR.IsFirst(es, i) && SessionCameFirst(cfg, chain, es[i].window))
  }

  lemma {:induction false} NewSessionAccepted(cfg: Config, chain: seq<CoreOp>, confirmed: int, key: string,
                                              e: SR.Emission)
    requires cfg.Valid()
    requires
      var c := CoreRun(cfg, chain);
      var v := S.SessionView(c.sessions, W.Triggered(c.tumbling, confirmed).results);
      ScanEmission(cfg.timeout, v, confirmed, key) == [e]
    ensures
      var es := SR.Emissions(cfg.timeout, SessionOps(cfg, chain), key);
      && e.window.key == key
      && (e.accepted <==> !SR.WasEmitted(es, e.window) && SessionCameFirst(cfg, chain + [Trigger(confirmed)], e.window))
  {
    hide W.Triggered, SR.Emissions, SR.WasEmitted, SR.FirstValues, SessionCameFirst, WR.Late, WR.Emissions, WR.Legal,
      S.Expired, S.Scanned, W.IsClosed, W.Fires, W.NewlyPublished;
    var c, w, es := CoreRun(cfg, chain), e.window, SR.Emissions(cfg.timeout, SessionOps(cfg, chain), key);
    var t := W.Triggered(c.tumbling, confirmed);
    assert Front(chain + [Trigger(confirmed)]) == chain;
    StoreIsShared(cfg, chain, w);
    TriggerHolds(c.tumbling, confirmed, es, SessionCameFirst(cfg, chain, w),
      WR.Late(cfg.size, WinOps(cfg, chain), w), WR.Emissions(cfg.size, WinOps(cfg, chain), w), w);
    CameFirstSnoc(cfg, chain, Trigger(confirmed), w);
    SameWindowsClosed(t, CoreRun(cfg, chain + [Trigger(confirmed)]).tumbling.results, w);
    var more := HistorySnoc(cfg, chain, Trigger(confirmed), key);
    SR.SnocFirst(es, e);
  }

  lemma AcceptsSnoc(cfg: Config, chain: seq<CoreOp>, op: CoreOp, key: string)
    requires cfg.Valid() && Accepts(cfg, chain, key)
    ensures Accepts(cfg, chain + [op], key)
  {
    hide CoreRun, SR.Emissions, SR.IsFirst, SessionCameFirst;
    var es := SR.Emissions(cfg.timeout, SessionOps(cfg, chain), key);
    var more := HistorySnoc(cfg, chain, op, key);
    forall i | 0 <= i < |es|
      ensures SessionCameFirst(cfg, chain + [op], es[i].window) <==> SessionCameFirst(cfg, chain, es[i].window)
    {
      assert SessionEmitted(cfg, chain, es[i].window);
      EmittedIsSettled(cfg, chain, op, es[i].window);
    }
    if more != [] {
      NewSessionAccepted(cfg, chain, op.confirmed, key, more[0]);
      SR.SnocFirst(es, more[0]);
    } else {
      assert es + more == es;
    }
  }

  /**
    For any key, in every run: a session is refused exactly when an earlier session had its identity or the
    tumbling window of that identity closed before the first such session.
   */
  lemma {:induction false} SessionsAccepted(cfg: Config, chain: seq<CoreOp>, key: string)
    requires cfg.Valid()
    ensures Accepts(cfg, chain, key)
    decreases |chain|
  {
    hide Accepts;
    if chain == [] {
      NothingAccepted(cfg, key);
    } else {
      FrontThenLast(chain);
      SessionsAccepted(cfg, Front(chain), key);
      AcceptsSnoc(cfg, Front(chain), Last(chain), key);
    }
  }

  lemma NothingAccepted(cfg: Config, key: string)
    requires cfg.Valid()
    ensures Accepts(cfg, [], key)
  {
    assert SR.Emissions(cfg.timeout, [], key) == [];
  }

  // ---------------------------------------------------------------------------------------
  // Routing and sink
  // ---------------------------------------------------------------------------------------

  function RouteOps(ops: seq<CoreOp>): seq<P.Op> {
    if ops == [] then []
    else
      var before := RouteOps(Front(ops));
      match Last(ops)
      case Process(ev) => if ev.kind == KindData then before + [P.RouteAdd(ev.key, ev.value)] else before
      case Resize(partitions) => before + [P.Resize(partitions)]
      case _ => before
  }

  ghost predicate PositiveResizes(ops: seq<CoreOp>) {
    forall op :: op in ops && op.Resize? ==> op.partitions > 0
  }

  // What one operation of the chain does to the routing and to the sink.
  lemma RoutingStep(cfg: Config, c: Core, op: CoreOp)
    requires cfg.Valid()
    ensures CoreNext(cfg, c, op).routing ==
      match op
      case Process(ev) =>
        if ev.kind == KindData then P.Next(cfg.hash, c.routing, P.RouteAdd(ev.key, ev.value)) else c.routing
      case Resize(partitions) => P.Next(cfg.hash, c.routing, P.Resize(partitions))
      case _ => c.routing
  {
    hide W.Ingested, W.Triggered, S.Scanned, S.Touched, P.AfterResize;
    if op.Resize? {
      ResizeIsStep(cfg.hash, c.routing, op.partitions);
    }
  }

  lemma SinkStep(cfg: Config, c: Core, op: CoreOp)
    requires cfg.Valid()
    ensures CoreNext(cfg, c, op).sink ==
      match op
      case Process(ev) => if ev.kind == KindData then c.sink.Written(ev.key, ev.value) else c.sink
      case FlushSink(barrier) => c.sink.Flushed(barrier)
      case _ => c.sink
  {
    hide W.Ingested, W.Triggered, S.Scanned, S.Touched, P.AfterResize, P.Next;
  }

  lemma RouteSnoc(hash: P.Hash, partitions: nat, ops: seq<P.Op>, op: P.Op)
    ensures P.Run(hash, partitions, ops + [op]) == P.Next(hash, P.Run(hash, partitions, ops), op)
    ensures P.AddedTo(ops + [op]) == if op.RouteAdd? then Plus(P.AddedTo(ops), op.key, op.value) else P.AddedTo(ops)
  {
    assert Front(ops + [op]) == ops;
  }

  lemma {:induction false} RouteOpsRun(cfg: Config, ops: seq<CoreOp>)
    requires cfg.Valid()
    ensures P.Run(cfg.hash, cfg.partitions, RouteOps(ops)) == CoreRun(cfg, ops).routing
    ensures PositiveResizes(ops) ==> forall op :: op in RouteOps(ops) && op.Resize? ==> op.partitions > 0
    decreases |ops|
  {
    if ops != [] {
      hide P.Next, P.AfterResize, CoreNext, P.Run;
      assert forall op :: op in Front(ops) ==> op in ops;
      assert Last(ops) in ops;
      RouteOpsRun(cfg, Front(ops));
      RoutingStep(cfg, CoreRun(cfg, Front(ops)), Last(ops));
      match Last(ops)
      case Process(ev) => RouteSnoc(cfg.hash, cfg.partitions, RouteOps(Front(ops)), P.RouteAdd(ev.key, ev.value));
      case Resize(partitions) => RouteSnoc(cfg.hash, cfg.partitions, RouteOps(Front(ops)), P.Resize(partitions));
      case _ =>
    }
  }

  lemma AddedSnoc(data: seq<Event>, added: Totals, ev: Event, key: string)
    requires At(added, key) == Sum(KeyedValues(data, key))
    ensures At(Plus(added, ev.key, ev.value), key) == Sum(KeyedValues(data + [ev], key))
  {
    hide Sum, KeyedValues;
    DataSnoc(data, ev, key);
    SumSnoc(KeyedValues(data, key), ev.value);
  }

  lemma {:induction false} RouteOpsAdded(cfg: Config, ops: seq<CoreOp>, key: string)
    requires cfg.Valid()
    ensures At(P.AddedTo(RouteOps(ops)), key) == Sum(KeyedValues(DataOf(Events(ops)), key))
    decreases |ops|
  {
    if ops != [] {
      hide P.Run, P.AddedTo, DataOf, KeyedValues, Sum, At, Plus;
      RouteOpsAdded(cfg, Front(ops), key);
      var before, evs := RouteOps(Front(ops)), Events(Front(ops));
      match Last(ops)
      case Process(ev) =>
        RouteSnoc(cfg.hash, cfg.partitions, before, P.RouteAdd(ev.key, ev.value));
        DataSnoc(evs, ev, key);
        AddedSnoc(DataOf(evs), P.AddedTo(before), ev, key);
      case Resize(partitions) => RouteSnoc(cfg.hash, cfg.partitions, before, P.Resize(partitions));
      case _ =>
    } else {
      assert Sum([]) == 0;
    }
  }

  lemma ResizeIsStep(hash: P.Hash, r: P.Routing, partitions: nat)
    ensures P.Next(hash, r, P.Resize(partitions)) == P.AfterResize(hash, r, partitions)
  {
  }

  function SinkOps(ops: seq<CoreOp>): seq<K.Op> {
    if ops == [] then []
    else
      var before := SinkOps(Front(ops));
      match Last(ops)
      case Process(ev) => if ev.kind == KindData then before + [K.Write(ev.key, ev.value)] else before
      case FlushSink(barrier) => before + [K.CommitUpTo(barrier)]
      case _ => before
  }

  // The data events as numbered output records.
  function Records(data: seq<Event>): seq<K.OutputRecord> {
    if data == [] then [] else Records(Front(data)) + [K.OutputRecord(Last(data).key, Last(data).value, |data|)]
  }

  lemma {:induction false} RecordsCount(data: seq<Event>)
    ensures |Records(data)| == |data|
    decreases |data|
  {
    if data != [] {
      RecordsCount(Front(data));
    }
  }

  lemma SinkSnoc(ops: seq<K.Op>, op: K.Op)
    ensures K.Run(ops + [op]) == K.Next(K.Run(ops), op)
    ensures K.History(ops + [op]) ==
      K.History(ops) + (if op.Write? then [K.OutputRecord(op.key, op.value, |K.History(ops)| + 1)] else [])
  {
    assert Front(ops + [op]) == ops;
  }

  lemma RecordsSnoc(data: seq<Event>, ev: Event)
    ensures Records(data + [ev]) == Records(data) + [K.OutputRecord(ev.key, ev.value, |Records(data)| + 1)]
  {
    assert Front(data + [ev]) == data;
    RecordsCount(data);
  }

  lemma {:induction false} SinkOpsRun(cfg: Config, ops: seq<CoreOp>)
    requires cfg.Valid()
    ensures K.Run(SinkOps(ops)) == CoreRun(cfg, ops).sink
    ensures K.History(SinkOps(ops)) == Records(DataOf(Events(ops)))
    decreases |ops|
  {
    if ops != [] {
      hide CoreNext, K.Run, K.History, Records, DataOf, K.UpTo, K.Beyond;
      SinkOpsRun(cfg, Front(ops));
      SinkStep(cfg, CoreRun(cfg, Front(ops)), Last(ops));
      var before, evs := SinkOps(Front(ops)), Events(Front(ops));
      match Last(ops)
      case Process(ev) =>
        SinkSnoc(before, K.Write(ev.key, ev.value));
        DataSnoc(evs, ev, "");
        RecordsSnoc(DataOf(evs), ev);
      case FlushSink(barrier) => SinkSnoc(before, K.CommitUpTo(barrier));
      case _ =>
    }
  }
}
