/**
  Runs of the tumbling window manager from an empty store, and what ties the open and closed
  windows, the published results and the catalog together at every point of a run.
 */
module WindowRuns {
  import opened Model
  import opened Aggregation
  import opened Windows

  // A run interleaves events, triggers, and whatever the session side does to the shared store.
  datatype Op = Ingest(ev: Event) | Trigger(confirmed: int) | Foreign(results: Results)

  const EMPTY := Tumbling(map[], map[], map[])

  function Next(size: int, t: Tumbling, op: Op): Tumbling
    requires size > 0
  {
    match op
    case Ingest(ev) => Ingested(size, t, ev)
    case Trigger(confirmed) => Triggered(t, confirmed)
    case Foreign(results) => t.(results := results)
  }

  function Run(size: int, ops: seq<Op>): Tumbling
    requires size > 0
  {
    if ops == [] then EMPTY else Next(size, Run(size, Front(ops)), Last(ops))
  }

  ghost predicate Untouched(before: Results, after: Results, w: WindowID) {
    (w in after <==> w in before) && (w in before && w in after ==> after[w] == before[w])
  }

  // The session side leaves this window's result alone.
  ghost predicate Legal(size: int, ops: seq<Op>, w: WindowID)
    requires size > 0
  {
    ops != [] ==>
      && Legal(size, Front(ops), w)
      && (Last(ops).Foreign? ==> Untouched(Run(size, Front(ops)).results, Last(ops).results, w))
  }

  predicate IngestsInto(size: int, op: Op, w: WindowID)
    requires size > 0
  {
    op.Ingest? && WindowFor(size, op.ev.timestamp) == w
  }

  // The values a window took while open, and those that arrived after it closed.
  function Accepted(size: int, ops: seq<Op>, w: WindowID): seq<int>
    requires size > 0
  {
    if ops == [] then []
    else
      var before := Accepted(size, Front(ops), w);
      if IngestsInto(size, Last(ops), w) && !IsClosed(Run(size, Front(ops)), w) then before + [Last(ops).ev.value]
      else before
  }

  function Late(size: int, ops: seq<Op>, w: WindowID): seq<int>
    requires size > 0
  {
    if ops == [] then []
    else
      var before := Late(size, Front(ops), w);
      if IngestsInto(size, Last(ops), w) && IsClosed(Run(size, Front(ops)), w) then before + [Last(ops).ev.value]
      else before
  }

  // How often a window's publication was accepted by the store.
  function Emissions(size: int, ops: seq<Op>, w: WindowID): nat
    requires size > 0
  {
    if ops == [] then 0
    else
      Emissions(size, Front(ops), w)
      + if Last(ops).Trigger? && w in NewlyPublished(Run(size, Front(ops)), Last(ops).confirmed) then 1 else 0
  }

  predicate SeenConfirmed(ops: seq<Op>, instant: int) {
    exists op :: op in ops && op.Trigger? && instant <= op.confirmed
  }

  // ---------------------------------------------------------------------------------------
  // The coupling, one window at a time
  // ---------------------------------------------------------------------------------------

  ghost predicate UnknownWindow(t: Tumbling, w: WindowID, accepted: seq<int>, late: seq<int>, emissions: nat) {
    && w !in t.catalog
    && w !in t.results
    && accepted == late == [] && emissions == 0
  }

  ghost predicate OpenWindow(t: Tumbling, w: WindowID, accepted: seq<int>, late: seq<int>, emissions: nat) {
    && w in t.windows && t.windows[w] == Managed(WindowOpen, accepted)
    && w !in t.results
    && late == [] && emissions == 0
    && w in t.catalog && t.catalog[w].state == WindowOpen
    && t.catalog[w].events == |accepted| && t.catalog[w].late == 0
  }

  ghost predicate ClosedWindow(t: Tumbling, w: WindowID, accepted: seq<int>, late: seq<int>, emissions: nat) {
    && w in t.windows && t.windows[w] == Managed(WindowClosed, accepted)
    && w in t.results
    && t.results[w] == Fold(w, accepted).(emitted := true, lateCount := |late|, lateSum := Sum(late))
    && emissions == 1
    && w in t.catalog && t.catalog[w].state == WindowClosed
    && t.catalog[w].events == t.results[w].count && t.catalog[w].late == t.results[w].lateCount
  }

  ghost predicate Coupled(t: Tumbling, w: WindowID, accepted: seq<int>, late: seq<int>, emissions: nat) {
    if w !in t.windows then UnknownWindow(t, w, accepted, late, emissions)
    else if IsClosed(t, w) then ClosedWindow(t, w, accepted, late, emissions)
    else OpenWindow(t, w, accepted, late, emissions)
  }

  lemma IngestKeepsCoupled(size: int, t: Tumbling, ev: Event, w: WindowID, accepted: seq<int>, late: seq<int>,
                           emissions: nat)
    requires size > 0 && Coupled(t, w, accepted, late, emissions)
    ensures
      var into := WindowFor(size, ev.timestamp) == w;
      Coupled(Ingested(size, t, ev), w,
        if into && !IsClosed(t, w) then accepted + [ev.value] else accepted,
        if into && IsClosed(t, w) then late + [ev.value] else late, emissions)
  {
    hide WindowFor, Sum, Fold;
    if WindowFor(size, ev.timestamp) == w {
      if w !in t.windows {
        assert [] + [ev.value] == [ev.value];
      } else if IsClosed(t, w) {
        LateKeepsClosed(t, ev.value, w, accepted, late, emissions);
      }
    }
  }

  lemma LateKeepsClosed(t: Tumbling, value: int, w: WindowID, accepted: seq<int>, late: seq<int>, emissions: nat)
    requires ClosedWindow(t, w, accepted, late, emissions)
    ensures ClosedWindow(
      t.(results := Aggregation.Step(t.results, LateUpdate(w, value)), catalog := LateRecorded(t.catalog, w)),
      w, accepted, late + [value], emissions)
  {
    hide Sum, Fold;
    SumSnoc(late, value);
    FoldAggregates(w, accepted);
  }

  lemma TriggerKeepsCoupled(t: Tumbling, confirmed: int, w: WindowID, accepted: seq<int>, late: seq<int>,
                            emissions: nat)
    requires Coupled(t, w, accepted, late, emissions)
    ensures
      Coupled(Triggered(t, confirmed), w, accepted, late,
        emissions + if w in NewlyPublished(t, confirmed) then 1 else 0)
    ensures IsClosed(Triggered(t, confirmed), w) <==> IsClosed(t, w) || (w in t.windows && w.end <= confirmed)
  {
    FoldAggregates(w, accepted);
    if w in Due(t, confirmed) {
      assert OpenWindow(t, w, accepted, late, emissions);
      assert Published(t, w) == Fold(w, accepted).(emitted := true);
      assert Sum([]) == 0;
    }
  }

  /**
    At every point of every run that leaves its result to it, a window is unknown, open or closed, and its
    store result, its catalog row and the number of its publications are determined by which of the three
    it is.
   */
  lemma {:induction false} WindowsAreCoupled(size: int, ops: seq<Op>, w: WindowID)
    requires size > 0 && Legal(size, ops, w)
    ensures Coupled(Run(size, ops), w, Accepted(size, ops, w), Late(size, ops, w), Emissions(size, ops, w))
    ensures IsClosed(Run(size, ops), w) ==> SeenConfirmed(ops, w.end)
    decreases |ops|
  {
    if ops != [] {
      var before, op := Front(ops), Last(ops);
      WindowsAreCoupled(size, before, w);
      assert ops == before + [op];
      match op
      case Ingest(ev) =>
        IngestKeepsCoupled(size, Run(size, before), ev, w,
          Accepted(size, before, w), Late(size, before, w), Emissions(size, before, w));
        assert IsClosed(Run(size, ops), w) ==> IsClosed(Run(size, before), w);
      case Trigger(confirmed) =>
        TriggerKeepsCoupled(Run(size, before), confirmed, w,
          Accepted(size, before, w), Late(size, before, w), Emissions(size, before, w));
        assert op in ops;
      case Foreign(results) =>
    }
  }

  /** Once closed, a window stays closed and its published fields never change. */
  lemma {:induction false} ClosedStaysPublished(size: int, ops: seq<Op>, more: seq<Op>, w: WindowID)
    requires size > 0 && Legal(size, ops + more, w) && IsClosed(Run(size, ops), w)
    ensures IsClosed(Run(size, ops + more), w)
    ensures Accepted(size, ops + more, w) == Accepted(size, ops, w)
    ensures w in Run(size, ops).results && w in Run(size, ops + more).results
    ensures
      var was, now := Run(size, ops).results[w], Run(size, ops + more).results[w];
      now == was.(lateCount := now.lateCount, lateSum := now.lateSum)
    decreases |more|
  {
    if more == [] {
      assert ops + more == ops;
      WindowsAreCoupled(size, ops, w);
    } else {
      assert Front(ops + more) == ops + Front(more);
      ClosedStaysPublished(size, ops, Front(more), w);
      WindowsAreCoupled(size, ops + Front(more), w);
      WindowsAreCoupled(size, ops + more, w);
    }
  }

  // ---------------------------------------------------------------------------------------
  // Every event is accounted for
  // ---------------------------------------------------------------------------------------

  function ValuesInto(size: int, ops: seq<Op>, w: WindowID): seq<int>
    requires size > 0
  {
    if ops == [] then []
    else if IngestsInto(size, Last(ops), w) then ValuesInto(size, Front(ops), w) + [Last(ops).ev.value]
    else ValuesInto(size, Front(ops), w)
  }

  // What a window's record holds in any run, whoever else writes to the store.
  ghost predicate Recorded(t: Tumbling, w: WindowID, accepted: seq<int>, late: seq<int>, emissions: nat) {
    && Values(t, w) == accepted
    && (w in t.windows ==> accepted != [] && (t.windows[w].state == WindowOpen || IsClosed(t, w)))
    && (!IsClosed(t, w) ==> late == [] && emissions == 0)
  }

  lemma IngestRecords(size: int, t: Tumbling, ev: Event, w: WindowID, accepted: seq<int>, late: seq<int>,
                      emissions: nat)
    requires size > 0 && Recorded(t, w, accepted, late, emissions)
    ensures
      var into := WindowFor(size, ev.timestamp) == w;
      Recorded(Ingested(size, t, ev), w,
        if into && !IsClosed(t, w) then accepted + [ev.value] else accepted,
        if into && IsClosed(t, w) then late + [ev.value] else late, emissions)
  {
    hide WindowFor;
  }

  lemma TriggerRecords(t: Tumbling, confirmed: int, w: WindowID, accepted: seq<int>, late: seq<int>, emissions: nat)
    requires Recorded(t, w, accepted, late, emissions)
    ensures
      Recorded(Triggered(t, confirmed), w, accepted, late,
        emissions + if w in NewlyPublished(t, confirmed) then 1 else 0)
  {
  }

  /**
    Whoever else writes to the store, a window holds its accepted values, has late ones and a publication
    only once closed, and the accepted values followed by the late ones are all the values sent to it, in order.
   */
  lemma {:induction false} AcceptedThenLate(size: int, ops: seq<Op>, w: WindowID)
    requires size > 0
    ensures Recorded(Run(size, ops), w, Accepted(size, ops, w), Late(size, ops, w), Emissions(size, ops, w))
    ensures ValuesInto(size, ops, w) == Accepted(size, ops, w) + Late(size, ops, w)
    decreases |ops|
  {
    if ops != [] {
      hide Recorded, Ingested, Triggered, NewlyPublished, WindowFor;
      AcceptedThenLate(size, Front(ops), w);
      var t, accepted, late := Run(size, Front(ops)), Accepted(size, Front(ops), w), Late(size, Front(ops), w);
      match Last(ops)
      case Ingest(ev) => IngestKeepsAll(size, t, ev, w, accepted, late, Emissions(size, Front(ops), w));
      case Trigger(confirmed) => TriggerRecords(t, confirmed, w, accepted, late, Emissions(size, Front(ops), w));
      case Foreign(results) => SameWindows(t, results, w, accepted, late, Emissions(size, Front(ops), w));
    }
  }

  lemma IngestKeepsAll(size: int, t: Tumbling, ev: Event, w: WindowID, accepted: seq<int>, late: seq<int>,
                       emissions: nat)
    requires size > 0 && Recorded(t, w, accepted, late, emissions)
    ensures
      var into := WindowFor(size, ev.timestamp) == w;
      Recorded(Ingested(size, t, ev), w,
        if into && !IsClosed(t, w) then accepted + [ev.value] else accepted,
        if into && IsClosed(t, w) then late + [ev.value] else late, emissions)
    ensures !IsClosed(t, w) ==> accepted + late + [ev.value] == accepted + [ev.value] + late
    ensures accepted + late + [ev.value] == accepted + (late + [ev.value])
  {
    hide Ingested, WindowFor;
    IngestRecords(size, t, ev, w, accepted, late, emissions);
  }

  lemma SameWindows(t: Tumbling, results: Results, w: WindowID, accepted: seq<int>, late: seq<int>, emissions: nat)
    requires Recorded(t, w, accepted, late, emissions)
    ensures Recorded(t.(results := results), w, accepted, late, emissions)
  {
  }

  /**
    The results a trigger lists are its publications: a window is among them exactly when this adds to its
    emissions, and where its result is left to it, with the fold of the values it had accepted.
   */
  lemma ListedArePublished(size: int, ops: seq<Op>, confirmed: int, rs: seq<WindowResult>, w: WindowID)
    requires size > 0
    requires ListsPublished(rs, Run(size, ops), confirmed, Run(size, ops + [Trigger(confirmed)]).results)
    ensures
      var listed := exists r :: r in rs && r.window == w;
      && Emissions(size, ops + [Trigger(confirmed)], w) == Emissions(size, ops, w) + (if listed then 1 else 0)
      && (listed && Legal(size, ops, w) ==> Fold(w, Accepted(size, ops, w)).(emitted := true) in rs)
  {
    hide Triggered, Fold;
    var t, after := Run(size, ops), Run(size, ops + [Trigger(confirmed)]).results;
    assert Front(ops + [Trigger(confirmed)]) == ops;
    assert Publishes(t, confirmed, w) <==> w in NewlyPublished(t, confirmed);
    if Publishes(t, confirmed, w) {
      assert after[w] in rs && after[w].window == w;
    }
    if r :| r in rs && r.window == w {
      if Legal(size, ops, w) {
        WindowsAreCoupled(size, ops, w);
        WindowsAreCoupled(size, ops + [Trigger(confirmed)], w);
        NothingLate(w, Accepted(size, ops, w));
      }
    }
  }

  lemma NothingLate(w: WindowID, values: seq<int>)
    ensures Fold(w, values).(emitted := true) == Fold(w, values).(emitted := true, lateCount := 0, lateSum := Sum([]))
  {
    FoldAggregates(w, values);
  }

  // ---------------------------------------------------------------------------------------
  // The catalog's times
  // ---------------------------------------------------------------------------------------

  // The timestamp of the first event sent to the window.
  function FirstInto(size: int, ops: seq<Op>, w: WindowID): int
    requires size > 0
  {
    if ops == [] then 0
    else if IngestsInto(size, Last(ops), w) && ValuesInto(size, Front(ops), w) == [] then Last(ops).ev.timestamp
    else FirstInto(size, Front(ops), w)
  }

  // What the first trigger had confirmed that passed the window's end after an event was sent to it.
  function PassedAt(size: int, ops: seq<Op>, w: WindowID): Option<int>
    requires size > 0
  {
    if ops == [] then None
    else
      var before, op := PassedAt(size, Front(ops), w), Last(ops);
      if before.None? && op.Trigger? && w.end <= op.confirmed && ValuesInto(size, Front(ops), w) != [] then
        Some(op.confirmed)
      else before
  }

  ghost predicate Catalogued(t: Tumbling, w: WindowID, all: seq<int>, accepted: seq<int>, late: seq<int>,
                             first: int, passed: Option<int>) {
    && (w in t.windows <==> all != []) && (w in t.catalog <==> all != [])
    && (IsClosed(t, w) <==> passed.Some?) && (passed.Some? ==> all != [])
    && (w in t.windows ==> t.windows[w].state == if passed.Some? then WindowClosed else WindowOpen)
    && (w in t.catalog ==>
          t.catalog[w] == Entry(if passed.Some? then WindowClosed else WindowOpen, |accepted|, |late|, first,
                                if passed.Some? then passed.value else 0))
    && (all == [] ==> accepted == late == [])
  }

  lemma IngestCatalogued(size: int, t: Tumbling, ev: Event, w: WindowID, all: seq<int>, accepted: seq<int>,
                         late: seq<int>, first: int, passed: Option<int>)
    requires size > 0 && Catalogued(t, w, all, accepted, late, first, passed)
    ensures
      var into := WindowFor(size, ev.timestamp) == w;
      Catalogued(Ingested(size, t, ev), w, if into then all + [ev.value] else all,
        if into && !IsClosed(t, w) then accepted + [ev.value] else accepted,
        if into && IsClosed(t, w) then late + [ev.value] else late,
        if into && all == [] then ev.timestamp else first, passed)
  {
    hide WindowFor;
  }

  lemma TriggerCatalogued(t: Tumbling, confirmed: int, w: WindowID, all: seq<int>, accepted: seq<int>,
                          late: seq<int>, first: int, passed: Option<int>)
    requires Catalogued(t, w, all, accepted, late, first, passed)
    ensures Catalogued(Triggered(t, confirmed), w, all, accepted, late, first,
      if passed.None? && w.end <= confirmed && all != [] then Some(confirmed) else passed)
  {
  }

  lemma ResultsCatalogued(t: Tumbling, results: Results, w: WindowID, all: seq<int>, accepted: seq<int>,
                          late: seq<int>, first: int, passed: Option<int>)
    requires Catalogued(t, w, all, accepted, late, first, passed)
    ensures Catalogued(t.(results := results), w, all, accepted, late, first, passed)
  {
  }

  /**
    In every run, whoever else writes to the store: a window and its catalog row exist once an event was sent to it;
    the row was opened at that event's time and counts accepted and late events; and both are closed from the first
    trigger on that passed the window's end after that, at the instant it had confirmed.
   */
  lemma {:induction false} RowsFollowHistory(size: int, ops: seq<Op>, w: WindowID)
    requires size > 0
    ensures Catalogued(Run(size, ops), w, ValuesInto(size, ops, w), Accepted(size, ops, w), Late(size, ops, w),
      FirstInto(size, ops, w), PassedAt(size, ops, w))
    decreases |ops|
  {
    if ops != [] {
      hide Catalogued, Ingested, Triggered, WindowFor;
      RowsFollowHistory(size, Front(ops), w);
      var t, all, first := Run(size, Front(ops)), ValuesInto(size, Front(ops), w), FirstInto(size, Front(ops), w);
      var accepted, late := Accepted(size, Front(ops), w), Late(size, Front(ops), w);
      var passed := PassedAt(size, Front(ops), w);
      match Last(ops)
      case Ingest(ev) => IngestCatalogued(size, t, ev, w, all, accepted, late, first, passed);
      case Trigger(confirmed) => TriggerCatalogued(t, confirmed, w, all, accepted, late, first, passed);
      case Foreign(results) => ResultsCatalogued(t, results, w, all, accepted, late, first, passed);
    }
  }
}
