/** Tumbling windows: their lifecycle, the shared result store and the monitoring catalog. */
module Windows {
  import opened Model
  import opened Aggregation
  import Watermarks

  // ---------------------------------------------------------------------------------------
  // Which window owns a timestamp
  // ---------------------------------------------------------------------------------------

  // The source divides with truncation toward zero.
  function TruncatedQuotient(a: int, b: int): int
    requires b > 0
  {
    if a >= 0 then a / b else -((-a) / b)
  }

  function WindowFor(size: int, ts: int): WindowID
    requires size > 0
  {
    var start := TruncatedQuotient(ts, size) * size;
    WindowID(start, start + size, "")
  }

  lemma QuotientBounds(a: int, b: int)
    requires b > 0 && a >= 0
    ensures a / b * b <= a < a / b * b + b
    ensures a / b * b == a <==> a % b == 0
  {
    assert a == a / b * b + a % b;
  }

  /**
    A window always ends after the timestamps it owns. It also starts at or before them exactly when
    the timestamp is non-negative or aligned; other negative timestamps fall into the next window up.
   */
  lemma {:induction false} WindowForBounds(size: int, ts: int)
    requires size > 0
    ensures var w := WindowFor(size, ts);
      && ts < w.end && w.end == w.start + size && w.key == ""
      && w.start % size == 0
      && (w.start <= ts <==> ts >= 0 || ts % size == 0)
      && w.start < ts + size
  {
    var q := TruncatedQuotient(ts, size);
    MultipleOfSize(q, size);
    if ts >= 0 {
      QuotientBounds(ts, size);
    } else {
      QuotientBounds(-ts, size);
      assert q * size == -((-ts) / size * size);
      NegatedRemainder(ts, size);
    }
  }

  lemma {:induction false} MultipleOfSize(q: int, size: int)
    requires size > 0
    ensures (q * size) % size == 0
  {
    RemainderUnique(q * size, size, q, 0);
  }

  lemma {:induction false} RemainderUnique(a: int, b: int, q: int, r: int)
    requires b > 0 && 0 <= r < b && a == q * b + r
    ensures a / b == q && a % b == r
  {
    var d := a / b - q;
    assert d * b == r - a % b;
    assert -b < d * b < b;
    NoMultipleBetween(d, b);
  }

  lemma NoMultipleBetween(d: int, b: int)
    requires b > 0 && -b < d * b < b
    ensures d == 0
  {
    assert d >= 1 ==> (d - 1) * b >= 0;
    assert d <= -1 ==> (d + 1) * b <= 0;
  }

  lemma {:induction false} NegatedRemainder(ts: int, size: int)
    requires size > 0
    ensures ts % size == 0 <==> (-ts) % size == 0
  {
    if ts % size == 0 {
      assert ts == ts / size * size;
      RemainderUnique(-ts, size, -(ts / size), 0);
    }
    if (-ts) % size == 0 {
      assert -ts == (-ts) / size * size;
      RemainderUnique(ts, size, -((-ts) / size), 0);
    }
  }

  // ---------------------------------------------------------------------------------------
  // State
  // ---------------------------------------------------------------------------------------

  datatype Managed = Managed(state: WindowState, values: seq<int>)

  datatype Entry = Entry(state: WindowState, events: int, late: int, openedAt: int, closedAt: int)

  type CatalogView = map<WindowID, Entry>

  function NewEntry(state: WindowState, at: int): Entry {
    Entry(state, 0, 0, at, 0)
  }

  function EntryOr(c: CatalogView, w: WindowID, otherwise: Entry): Entry {
    if w in c then c[w] else otherwise
  }

  function Opened(c: CatalogView, w: WindowID, at: int): CatalogView {
    c[w := EntryOr(c, w, NewEntry(WindowOpen, at)).(state := WindowOpen)]
  }

  function EventRecorded(c: CatalogView, w: WindowID, at: int): CatalogView {
    var e := EntryOr(c, w, NewEntry(WindowOpen, at));
    c[w := e.(events := e.events + 1)]
  }

  function LateRecorded(c: CatalogView, w: WindowID): CatalogView {
    var e := EntryOr(c, w, NewEntry(WindowClosed, 0));
    c[w := e.(late := e.late + 1)]
  }

  function ClosedEntry(c: CatalogView, w: WindowID, at: int): Entry {
    EntryOr(c, w, NewEntry(WindowClosed, at)).(state := WindowClosed, closedAt := at)
  }

  class Catalog {
    var entries: map<WindowID, Entry>

    constructor ()
      ensures entries == map[]
    {
      entries := map[];
    }

    method Open(w: WindowID, at: int)
      modifies this
      ensures entries == Opened(old(entries), w, at)
    {
      if w !in entries {
        entries := entries[w := Entry(WindowOpen, 0, 0, at, 0)];
      }
      entries := entries[w := entries[w].(state := WindowOpen)];
    }

    method RecordEvent(w: WindowID, at: int)
      modifies this
      ensures entries == EventRecorded(old(entries), w, at)
    {
      if w !in entries {
        entries := entries[w := Entry(WindowOpen, 0, 0, at, 0)];
      }
      entries := entries[w := entries[w].(events := entries[w].events + 1)];
    }

    method RecordLate(w: WindowID)
      modifies this
      ensures entries == LateRecorded(old(entries), w)
    {
      if w !in entries {
        entries := entries[w := Entry(WindowClosed, 0, 0, 0, 0)];
      }
      entries := entries[w := entries[w].(late := entries[w].late + 1)];
    }

    method Close(w: WindowID, at: int)
      modifies this
      ensures entries == old(entries)[w := ClosedEntry(old(entries), w, at)]
    {
      if w !in entries {
        entries := entries[w := Entry(WindowClosed, 0, 0, at, 0)];
      }
      entries := entries[w := entries[w].(state := WindowClosed, closedAt := at)];
    }
  }

  // ---------------------------------------------------------------------------------------
  // Runs of the catalog
  // ---------------------------------------------------------------------------------------

  datatype CatalogOp =
    | Open(w: WindowID, at: int)
    | RecordEvent(w: WindowID, at: int)
    | RecordLate(w: WindowID)
    | Close(w: WindowID, at: int)

  function CatalogRun(ops: seq<CatalogOp>): CatalogView {
    if ops == [] then map[]
    else
      var c := CatalogRun(Front(ops));
      match Last(ops)
      case Open(w, at) => Opened(c, w, at)
      case RecordEvent(w, at) => EventRecorded(c, w, at)
      case RecordLate(w) => LateRecorded(c, w)
      case Close(w, at) => c[w := ClosedEntry(c, w, at)]
  }

  // The operations on one window.
  function OnWindow(ops: seq<CatalogOp>, w: WindowID): seq<CatalogOp> {
    if ops == [] then []
    else if Last(ops).w == w then OnWindow(Front(ops), w) + [Last(ops)]
    else OnWindow(Front(ops), w)
  }

  function EventCount(ops: seq<CatalogOp>): nat {
    if ops == [] then 0 else EventCount(Front(ops)) + if Last(ops).RecordEvent? then 1 else 0
  }

  function LateCount(ops: seq<CatalogOp>): nat {
    if ops == [] then 0 else LateCount(Front(ops)) + if Last(ops).RecordLate? then 1 else 0
  }

  // The latest opening or closing decides; before any, the first operation does.
  function Status(ops: seq<CatalogOp>): WindowState
    requires ops != []
  {
    if Last(ops).Open? then WindowOpen
    else if Last(ops).Close? then WindowClosed
    else if |ops| > 1 then Status(Front(ops))
    else if Last(ops).RecordEvent? then WindowOpen
    else WindowClosed
  }

  function LastClosing(ops: seq<CatalogOp>): int {
    if ops == [] then 0 else if Last(ops).Close? then Last(ops).at else LastClosing(Front(ops))
  }

  /**
    A row exists once its window was mentioned. It counts the events and the late events, carries the latest status,
    was opened at the time of the first operation (zero if that was a late event) and closed at that of the latest
    closing.
   */
  lemma {:induction false} CatalogHistory(ops: seq<CatalogOp>, w: WindowID)
    ensures
      var own := OnWindow(ops, w);
      if own == [] then w !in CatalogRun(ops)
      else
        && w in CatalogRun(ops)
        && CatalogRun(ops)[w] == Entry(Status(own), EventCount(own), LateCount(own),
             if own[0].RecordLate? then 0 else own[0].at, LastClosing(own))
    decreases |ops|
  {
    if ops != [] {
      CatalogHistory(Front(ops), w);
      var own := OnWindow(Front(ops), w);
      if Last(ops).w == w {
        assert Front(own + [Last(ops)]) == own;
        assert own != [] ==> (own + [Last(ops)])[0] == own[0];
      }
    }
  }

  // Everything the tumbling side reads or writes; `results` is shared with the session side.
  datatype Tumbling = Tumbling(windows: map<WindowID, Managed>, catalog: CatalogView, results: Results)

  predicate IsClosed(t: Tumbling, w: WindowID) {
    w in t.windows && t.windows[w].state == WindowClosed
  }

  function Ingested(size: int, t: Tumbling, ev: Event): Tumbling
    requires size > 0
  {
    var w := WindowFor(size, ev.timestamp);
    if IsClosed(t, w) then
      t.(results := Aggregation.Step(t.results, LateUpdate(w, ev.value)),
         catalog := LateRecorded(t.catalog, w))
    else
      var mw := if w in t.windows then t.windows[w] else Managed(WindowOpen, []);
      var c := if w in t.windows then t.catalog else Opened(t.catalog, w, ev.timestamp);
      t.(windows := t.windows[w := mw.(values := mw.values + [ev.value])],
         catalog := EventRecorded(c, w, ev.timestamp))
  }

  predicate Fires(t: Tumbling, w: WindowID, confirmed: int) {
    w in t.windows && w.end <= confirmed && t.windows[w].state.CanClose()
  }

  // The windows a trigger closes.
  function Due(t: Tumbling, confirmed: int): set<WindowID> {
    set w | w in t.windows && Fires(t, w, confirmed)
  }

  function ClosedWindows(windows: map<WindowID, Managed>, fired: set<WindowID>): map<WindowID, Managed> {
    map w | w in windows :: if w in fired then windows[w].(state := WindowClosed) else windows[w]
  }

  function ClosedCatalog(c: CatalogView, fired: set<WindowID>, at: int): CatalogView {
    map w | w in c.Keys + fired :: if w in fired then ClosedEntry(c, w, at) else c[w]
  }

  function PublishedResults(t: Tumbling, fired: set<WindowID>): Results {
    map w | w in t.results.Keys + fired :: if w in fired then Published(t, w) else t.results[w]
  }

  // The state once the windows in `fired` have closed and published; each one acts on its own.
  function AfterFiring(t: Tumbling, at: int, fired: set<WindowID>): Tumbling {
    Tumbling(ClosedWindows(t.windows, fired), ClosedCatalog(t.catalog, fired, at), PublishedResults(t, fired))
  }

  function Values(t: Tumbling, w: WindowID): seq<int> {
    if w in t.windows then t.windows[w].values else []
  }

  function Published(t: Tumbling, w: WindowID): WindowResult {
    var r := Lookup(t.results, w);
    if r.emitted then r else r.AppliedAll(Values(t, w)).(emitted := true)
  }

  function Triggered(t: Tumbling, confirmed: int): Tumbling {
    AfterFiring(t, confirmed, Due(t, confirmed))
  }

  // The windows whose publication this trigger gets accepted.
  function NewlyPublished(t: Tumbling, confirmed: int): set<WindowID> {
    set w | w in Due(t, confirmed) && !Lookup(t.results, w).emitted
  }

  // `rs` lists the published result of each window in `ws` once.
  ghost predicate AreResultsOf(rs: seq<WindowResult>, t: Tumbling, ws: set<WindowID>) {
    && |rs| == |ws|
    && (forall r :: r in rs ==> r.window in ws && r == Published(t, r.window))
    && (forall w :: w in ws ==> Published(t, w) in rs)
  }

  // The window is due and no result with its identity has been published.
  predicate Publishes(t: Tumbling, confirmed: int, w: WindowID) {
    && w in t.windows && w.end <= confirmed
    && (t.windows[w].state == WindowOpen || t.windows[w].state == WindowTriggering)
    && !(w in t.results && t.results[w].emitted)
  }

  // A trigger lists one result for each window that it publishes, as the store holds it afterwards.
  ghost predicate ListsPublished(rs: seq<WindowResult>, t: Tumbling, confirmed: int, after: Results) {
    && (forall w :: Publishes(t, confirmed, w) ==> w in after && after[w] in rs && after[w].window == w)
    && (forall r :: r in rs ==>
          Publishes(t, confirmed, r.window) && r.window in after && after[r.window] == r && r.emitted)
    && (forall i, j :: 0 <= i < j < |rs| ==> rs[i].window != rs[j].window)
  }

  lemma ResultsArePublished(rs: seq<WindowResult>, t: Tumbling, confirmed: int)
    requires AreResultsOf(rs, t, NewlyPublished(t, confirmed))
    requires forall w :: w in t.results ==> t.results[w].window == w
    ensures ListsPublished(rs, t, confirmed, Triggered(t, confirmed).results)
  {
    var ws := NewlyPublished(t, confirmed);
    forall w | w in ws
      ensures Published(t, w).window == w && Published(t, w).emitted && Published(t, w) in rs
    {
      AppliedAllKeeps(Lookup(t.results, w), Values(t, w));
    }
    DistinctByIdentity(rs, (r: WindowResult) => r.window, ws);
  }

  lemma AddResult(rs: seq<WindowResult>, t: Tumbling, ws: set<WindowID>, r: WindowResult)
    requires AreResultsOf(rs, t, ws) && r.window !in ws && r == Published(t, r.window)
    ensures AreResultsOf(rs + [r], t, ws + {r.window})
  {
  }

  lemma SameResults(rs: seq<WindowResult>, ss: seq<WindowResult>, t: Tumbling, ws: set<WindowID>)
    requires AreResultsOf(rs, t, ws) && multiset(rs) == multiset(ss)
    ensures AreResultsOf(ss, t, ws)
  {
    SameMembers(rs, ss);
  }

  lemma {:induction false} NothingDone(t: Tumbling, at: int)
    ensures Due(t, at) - t.windows.Keys == NewlyPublished(t, at) - t.windows.Keys == {}
    ensures AfterFiring(t, at, {}) == t
    ensures AreResultsOf([], t, {})
  {
    NothingFired(t, at);
  }

  lemma NothingFired(t: Tumbling, at: int)
    ensures AfterFiring(t, at, {}) == t
  {
    assert ClosedWindows(t.windows, {}) == t.windows;
    assert ClosedCatalog(t.catalog, {}, at) == t.catalog;
    assert PublishedResults(t, {}) == t.results;
  }

  // What closing a single window does.
  function OneFired(t: Tumbling, w: WindowID, at: int): Tumbling
    requires w in t.windows
  {
    Tumbling(
      t.windows[w := t.windows[w].(state := WindowClosed)],
      t.catalog[w := ClosedEntry(t.catalog, w, at)],
      Aggregation.Step(t.results, EmitResult(w, t.windows[w].values)))
  }

  lemma {:induction false} OneMoreFired(t: Tumbling, at: int, fired: set<WindowID>, w: WindowID)
    requires w in t.windows && w !in fired
    ensures AfterFiring(t, at, fired + {w}) == OneFired(AfterFiring(t, at, fired), w, at)
    ensures Lookup(AfterFiring(t, at, fired).results, w) == Lookup(t.results, w)
  {
    var mid := AfterFiring(t, at, fired);
    assert ClosedWindows(t.windows, fired + {w}) == mid.windows[w := mid.windows[w].(state := WindowClosed)];
    assert ClosedCatalog(t.catalog, fired + {w}, at) == mid.catalog[w := ClosedEntry(mid.catalog, w, at)];
    OneMorePublished(t, fired, w);
  }

  lemma OneMorePublished(t: Tumbling, fired: set<WindowID>, w: WindowID)
    requires w in t.windows && w !in fired
    ensures PublishedResults(t, fired + {w}) ==
      Aggregation.Step(PublishedResults(t, fired), EmitResult(w, t.windows[w].values))
    ensures Lookup(PublishedResults(t, fired), w) == Lookup(t.results, w)
  {
    var rs := PublishedResults(t, fired);
    var all := PublishedResults(t, fired + {w});
    assert all[w] == Published(t, w);
    if Lookup(t.results, w).emitted {
      assert all == rs;
    } else {
      assert all == rs[w := Published(t, w)];
    }
  }

  datatype Outcome = OutcomeAccepted | OutcomeLate

  class Manager {
    const size: int
    const sink: Store
    const catalog: Catalog
    var windows: map<WindowID, Managed>

    ghost predicate Valid()
      reads this, sink, sink.cells
    {
      size > 0 && sink.Valid()
    }

    ghost function View(): Tumbling
      reads this, catalog, sink, sink.cells
    {
      Tumbling(windows, catalog.entries, sink.View())
    }

    constructor (size: int, sink: Store)
      requires size > 0 && sink.Valid()
      ensures Valid() && this.size == size && this.sink == sink
      ensures View() == Tumbling(map[], map[], sink.View()) && fresh(catalog)
    {
      this.size := size;
      this.sink := sink;
      this.catalog := new Catalog();
      windows := map[];
    }

    method Ingest(ev: Event) returns (outcome: Outcome)
      requires Valid()
      modifies this, catalog, sink, sink.cells
      ensures Valid() && fresh(sink.cells - old(sink.cells))
      ensures View() == Ingested(size, old(View()), ev)
      ensures outcome.OutcomeLate? <==> IsClosed(old(View()), WindowFor(size, ev.timestamp))
    {
      hide WindowFor, LateRecorded, EventRecorded, Opened, Aggregation.Step, Store.View;
      var w := WindowFor(size, ev.timestamp);
      if w !in windows {
        windows := windows[w := Managed(WindowOpen, [])];
        catalog.Open(w, ev.timestamp);
      }
      if windows[w].state == WindowClosed {
        outcome := TakeLate(w, ev.value);
      } else {
        outcome := Take(w, ev);
      }
    }

    method TakeLate(w: WindowID, value: int) returns (outcome: Outcome)
      requires Valid()
      modifies catalog, sink, sink.cells
      ensures Valid() && fresh(sink.cells - old(sink.cells))
      ensures sink.View() == Aggregation.Step(old(sink.View()), LateUpdate(w, value))
      ensures catalog.entries == LateRecorded(old(catalog.entries), w)
      ensures outcome == OutcomeLate
    {
      sink.LateUpdate(w, value);
      catalog.RecordLate(w);
      return OutcomeLate;
    }

    method Take(w: WindowID, ev: Event) returns (outcome: Outcome)
      requires w in windows
      modifies this, catalog
      ensures windows == old(windows)[w := old(windows[w]).(values := old(windows[w]).values + [ev.value])]
      ensures catalog.entries == EventRecorded(old(catalog.entries), w, ev.timestamp)
      ensures outcome == OutcomeAccepted
    {
      windows := windows[w := windows[w].(values := windows[w].values + [ev.value])];
      catalog.RecordEvent(w, ev.timestamp);
      return OutcomeAccepted;
    }

    // The store's part of it.
    method EmitFor(w: WindowID, values: seq<int>) returns (result: WindowResult, ok: bool)
      requires Valid() && w in windows && windows[w].values == values
      modifies sink, sink.cells
      ensures Valid() && fresh(sink.cells - old(sink.cells))
      ensures sink.View() == Aggregation.Step(old(sink.View()), EmitResult(w, values))
      ensures ok <==> !Lookup(old(View()).results, w).emitted
      ensures ok ==> result == Published(old(View()), w) && result.window == w
    {
      AppliedAllKeeps(Lookup(View().results, w), values);
      result, ok := sink.EmitResult(w, values);
    }

    // One window's turn in the trigger loop.
    method Fire(w: WindowID, confirmed: int) returns (result: WindowResult, ok: bool)
      requires Valid() && w in windows
      modifies this, catalog, sink, sink.cells
      ensures Valid() && fresh(sink.cells - old(sink.cells))
      ensures View() == OneFired(old(View()), w, confirmed)
      ensures ok <==> !Lookup(old(View()).results, w).emitted
      ensures ok ==> result == Published(old(View()), w) && result.window == w
    {
      hide ClosedEntry, Store.View, Lookup, Published, Aggregation.Step;
      var mw := windows[w];
      mw := mw.(state := WindowTriggering);
      result, ok := EmitFor(w, mw.values);
      mw := mw.(state := WindowClosing);
      mw := mw.(state := WindowClosed);
      windows := windows[w := mw];
      catalog.Close(w, confirmed);
    }

    // One iteration of the trigger loop; `fired` and `published` are what earlier ones closed and listed.
    method Turn(w: WindowID, confirmed: int, emitted: seq<WindowResult>,
                ghost t: Tumbling, ghost fired: set<WindowID>, ghost published: set<WindowID>)
      returns (more: seq<WindowResult>)
      requires Valid() && w in t.windows && w !in fired && w !in published
      requires View() == AfterFiring(t, confirmed, fired)
      requires AreResultsOf(emitted, t, published)
      modifies this, catalog, sink, sink.cells
      ensures Valid() && fresh(sink.cells - old(sink.cells))
      ensures View() == AfterFiring(t, confirmed, if w in Due(t, confirmed) then fired + {w} else fired)
      ensures AreResultsOf(more, t, if w in NewlyPublished(t, confirmed) then published + {w} else published)
    {
      more := emitted;
      assert windows[w] == t.windows[w];
      if w.end <= confirmed && windows[w].state.CanClose() {
        OneMoreFired(t, confirmed, fired, w);
        var result, ok := Fire(w, confirmed);
        if ok {
          AddResult(emitted, t, published, result);
          more := emitted + [result];
        }
      }
    }

    // The trigger loop, before its results are sorted.
    method FireAll(confirmed: int) returns (emitted: seq<WindowResult>)
      requires Valid()
      modifies this, catalog, sink, sink.cells
      ensures Valid() && fresh(sink.cells - old(sink.cells))
      ensures View() == Triggered(old(View()), confirmed)
      ensures AreResultsOf(emitted, old(View()), NewlyPublished(old(View()), confirmed))
    {
      hide AfterFiring, AreResultsOf, Due, NewlyPublished;
      ghost var t := View();
      ghost var due, publish := Due(t, confirmed), NewlyPublished(t, confirmed);
      emitted := [];
      var todo := windows.Keys;
      NothingDone(t, confirmed);
      while todo != {}
        invariant Valid() && fresh(sink.cells - old(sink.cells))
        invariant todo <= t.windows.Keys
        invariant View() == AfterFiring(t, confirmed, due - todo)
        invariant AreResultsOf(emitted, t, publish - todo)
        decreases |todo|
      {
        var w :| w in todo;
        OneLess(due, todo, w);
        OneLess(publish, todo, w);
        emitted := Turn(w, confirmed, emitted, t, due - todo, publish - todo);
        todo := todo - {w};
      }
      assert due - {} == due && publish - {} == publish;
    }

    lemma ResultsKnowWindows()
      requires Valid()
      ensures View().results == sink.View()
      ensures forall w :: w in View().results ==> View().results[w].window == w
    {
    }

    method MaybeTrigger(tracker: Watermarks.Tracker) returns (emitted: seq<WindowResult>)
      requires Valid()
      modifies this, catalog, sink, sink.cells
      ensures Valid() && fresh(sink.cells - old(sink.cells))
      ensures View() == Triggered(old(View()), tracker.View().confirmed)
      ensures ListsPublished(emitted, old(View()), tracker.View().confirmed, sink.View())
      ensures SortedBy(emitted, (r: WindowResult) => r.window.start)
    {
      hide Triggered, AreResultsOf, NewlyPublished, SortedBy, ListsPublished, View;
      ResultsKnowWindows();
      var confirmed := tracker.Confirmed();
      var unsorted := FireAll(confirmed);
      emitted := SortBy(unsorted, (r: WindowResult) => r.window.start);
      SameResults(unsorted, emitted, old(View()), NewlyPublished(old(View()), confirmed));
      ResultsArePublished(emitted, old(View()), confirmed);
      ResultsKnowWindows();
    }
  }
}
