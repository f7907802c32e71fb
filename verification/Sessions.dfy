/** Keyed session windows with sliding boundaries, closed by a timeout scan. */
module Sessions {
  import opened Model
  import opened Aggregation

  datatype Session = Session(start: int, end: int, lastActive: int, values: seq<int>, state: WindowState)

  // The session map, and the result store it shares with the tumbling side.
  datatype SessionView = SessionView(sessions: map<string, Session>, results: Results)

  function Touched(timeout: int, ss: map<string, Session>, key: string, ts: int, value: int, hasValue: bool)
    : map<string, Session>
  {
    var s :=
      if key !in ss then Session(ts, ts + timeout, ts, [], WindowOpen)
      else ss[key].(start := if ts < ss[key].start then ts else ss[key].start, lastActive := ts, end := ts + timeout);
    ss[key := if hasValue then s.(values := s.values + [value]) else s]
  }

  predicate IsExpired(timeout: int, s: Session, now: int) {
    s.state != WindowClosed && now - s.lastActive > timeout
  }

  function Expired(timeout: int, ss: map<string, Session>, now: int): set<string> {
    set key | key in ss && IsExpired(timeout, ss[key], now)
  }

  function WindowOf(ss: map<string, Session>, key: string): WindowID
    requires key in ss
  {
    WindowID(ss[key].start, ss[key].end, key)
  }

  function PublishedSession(v: SessionView, key: string): WindowResult
    requires key in v.sessions
  {
    var w := WindowOf(v.sessions, key);
    var r := Lookup(v.results, w);
    if r.emitted then r else r.AppliedAll(v.sessions[key].values).(emitted := true)
  }

  // Does closing the sessions of `keys` publish window w?
  predicate Closes(ss: map<string, Session>, keys: set<string>, w: WindowID) {
    w.key in keys && w.key in ss && w == WindowOf(ss, w.key)
  }

  function WindowsOf(ss: map<string, Session>, keys: set<string>): (ws: set<WindowID>)
    ensures forall w :: w in ws <==> Closes(ss, keys, w)
  {
    set key | key in keys && key in ss :: WindowOf(ss, key)
  }

  function ClosedResults(v: SessionView, keys: set<string>): Results {
    map w | w in v.results.Keys + WindowsOf(v.sessions, keys) ::
      if Closes(v.sessions, keys, w) then PublishedSession(v, w.key) else Lookup(v.results, w)
  }

  // The state once the sessions of `keys` have been published and removed.
  function AfterClosing(v: SessionView, keys: set<string>): SessionView {
    SessionView(map key | key in v.sessions && key !in keys :: v.sessions[key], ClosedResults(v, keys))
  }

  function Scanned(timeout: int, v: SessionView, now: int): SessionView {
    AfterClosing(v, Expired(timeout, v.sessions, now))
  }

  // The expired sessions whose publication the store accepts.
  function NewlyPublished(timeout: int, v: SessionView, now: int): set<string> {
    set key | key in Expired(timeout, v.sessions, now) && key in v.sessions
              && !Lookup(v.results, WindowOf(v.sessions, key)).emitted
  }

  ghost predicate AreResultsOf(rs: seq<WindowResult>, v: SessionView, keys: set<string>) {
    && |rs| == |keys|
    && (forall r :: r in rs ==>
          r.window.key in keys && r.window.key in v.sessions && r == PublishedSession(v, r.window.key))
    && (forall key :: key in keys && key in v.sessions ==> PublishedSession(v, key) in rs)
  }

  // The session has outlived its timeout, and no result with its identity has been published.
  predicate IsDue(timeout: int, v: SessionView, now: int, key: string) {
    && key in v.sessions
    && v.sessions[key].state != WindowClosed && now - v.sessions[key].lastActive > timeout
    && var w := WindowID(v.sessions[key].start, v.sessions[key].end, key);
       !(w in v.results && v.results[w].emitted)
  }

  ghost predicate Listed(rs: seq<WindowResult>, key: string) {
    exists r :: r in rs && r.window.key == key
  }

  // A scan lists one result for each session that is due, as the store holds it afterwards.
  ghost predicate ListsDue(rs: seq<WindowResult>, timeout: int, v: SessionView, now: int, after: Results) {
    && (forall key :: Listed(rs, key) <==> IsDue(timeout, v, now, key))
    && (forall r :: r in rs && r.window.key in v.sessions ==>
          && r.window == WindowID(v.sessions[r.window.key].start, v.sessions[r.window.key].end, r.window.key)
          && r.window in after && after[r.window] == r && r.emitted)
    && (forall i, j :: 0 <= i < j < |rs| ==> rs[i].window.key != rs[j].window.key)
  }

  lemma ResultsAreDue(rs: seq<WindowResult>, timeout: int, v: SessionView, now: int)
    requires AreResultsOf(rs, v, NewlyPublished(timeout, v, now))
    requires forall w :: w in v.results ==> v.results[w].window == w
    ensures ListsDue(rs, timeout, v, now, Scanned(timeout, v, now).results)
  {
    var keys, due := NewlyPublished(timeout, v, now), Expired(timeout, v.sessions, now);
    forall key | key in keys
      ensures PublishedSession(v, key).window == WindowOf(v.sessions, key) && PublishedSession(v, key).emitted
      ensures PublishedSession(v, key) in rs && Listed(rs, key)
    {
      AppliedAllKeeps(Lookup(v.results, WindowOf(v.sessions, key)), v.sessions[key].values);
    }
    DistinctByIdentity(rs, (r: WindowResult) => r.window.key, keys);
    forall r | r in rs
      ensures Closes(v.sessions, due, r.window)
    {
    }
  }

  lemma AddResult(rs: seq<WindowResult>, v: SessionView, keys: set<string>, key: string, r: WindowResult)
    requires AreResultsOf(rs, v, keys) && key !in keys && key in v.sessions
    requires r == PublishedSession(v, key) && r.window.key == key
    ensures AreResultsOf(rs + [r], v, keys + {key})
  {
  }

  lemma SameResults(rs: seq<WindowResult>, ss: seq<WindowResult>, v: SessionView, keys: set<string>)
    requires AreResultsOf(rs, v, keys) && multiset(rs) == multiset(ss)
    ensures AreResultsOf(ss, v, keys)
  {
    SameMembers(rs, ss);
  }

  lemma NothingClosed(v: SessionView)
    ensures AfterClosing(v, {}) == v
  {
    assert AfterClosing(v, {}).sessions == v.sessions;
    assert ClosedResults(v, {}) == v.results;
  }

  lemma {:induction false} NothingDone(timeout: int, v: SessionView, now: int)
    ensures Expired(timeout, v.sessions, now) - v.sessions.Keys == {}
    ensures NewlyPublished(timeout, v, now) - v.sessions.Keys == {}
    ensures AfterClosing(v, {}) == v
    ensures AreResultsOf([], v, {})
  {
    hide AfterClosing;
    NothingClosed(v);
  }

  function OneClosed(v: SessionView, key: string): SessionView
    requires key in v.sessions
  {
    SessionView(
      v.sessions - {key},
      Aggregation.Step(v.results, EmitResult(WindowOf(v.sessions, key), v.sessions[key].values)))
  }

  lemma OneMoreResult(v: SessionView, keys: set<string>, key: string)
    requires key in v.sessions && key !in keys
    ensures Lookup(ClosedResults(v, keys), WindowOf(v.sessions, key)) == Lookup(v.results, WindowOf(v.sessions, key))
    ensures ClosedResults(v, keys + {key}) ==
      Aggregation.Step(ClosedResults(v, keys), EmitResult(WindowOf(v.sessions, key), v.sessions[key].values))
  {
    var rs, all, w := ClosedResults(v, keys), ClosedResults(v, keys + {key}), WindowOf(v.sessions, key);
    assert forall x :: Closes(v.sessions, keys + {key}, x) <==> Closes(v.sessions, keys, x) || x == w;
    if Lookup(v.results, w).emitted {
      assert all == rs;
    } else {
      assert all == rs[w := PublishedSession(v, key)];
    }
  }

  lemma OneMoreClosed(v: SessionView, keys: set<string>, key: string)
    requires key in v.sessions && key !in keys
    ensures key in AfterClosing(v, keys).sessions && AfterClosing(v, keys).sessions[key] == v.sessions[key]
    ensures Lookup(AfterClosing(v, keys).results, WindowOf(v.sessions, key)) ==
      Lookup(v.results, WindowOf(v.sessions, key))
    ensures AfterClosing(v, keys + {key}) == OneClosed(AfterClosing(v, keys), key)
  {
    var mid, all := AfterClosing(v, keys), AfterClosing(v, keys + {key});
    OneMoreResult(v, keys, key);
    assert all.sessions == mid.sessions - {key};
  }

  class SessionManager {
    const timeout: int
    const sink: Store
    var sessions: map<string, Session>

    ghost predicate Valid()
      reads this, sink, sink.cells
    {
      sink.Valid()
    }

    ghost function View(): SessionView
      reads this, sink, sink.cells
    {
      SessionView(sessions, sink.View())
    }

    constructor (timeout: int, sink: Store)
      requires sink.Valid()
      ensures Valid() && this.timeout == timeout && this.sink == sink && sessions == map[]
    {
      this.timeout := timeout;
      this.sink := sink;
      sessions := map[];
    }

    method Touch(key: string, ts: int, value: int, hasValue: bool)
      modifies this
      ensures sessions == Touched(timeout, old(sessions), key, ts, value, hasValue)
    {
      if key !in sessions {
        sessions := sessions[key := Session(ts, ts + timeout, ts, [], WindowOpen)];
      } else {
        var ss := sessions[key];
        if ts < ss.start {
          ss := ss.(start := ts);
        }
        ss := ss.(lastActive := ts);
        ss := ss.(end := ts + timeout);
        sessions := sessions[key := ss];
      }
      if hasValue {
        sessions := sessions[key := sessions[key].(values := sessions[key].values + [value])];
      }
    }

    // One expired session's turn in the scan loop.
    method Close(key: string) returns (result: WindowResult, ok: bool)
      requires Valid() && key in sessions
      modifies this, sink, sink.cells
      ensures Valid() && fresh(sink.cells - old(sink.cells))
      ensures View() == OneClosed(old(View()), key)
      ensures ok <==> !Lookup(old(View()).results, WindowOf(old(sessions), key)).emitted
      ensures ok ==> result == PublishedSession(old(View()), key) && result.window.key == key
    {
      ghost var before := View();
      var ss := sessions[key];
      AppliedAllKeeps(Lookup(before.results, WindowOf(before.sessions, key)), ss.values);
      ss := ss.(state := WindowTriggering);
      result, ok := sink.EmitResult(WindowID(ss.start, ss.end, key), ss.values);
      ss := ss.(state := WindowClosed);
      sessions := sessions - {key};
    }

    method Turn(key: string, now: int, emitted: seq<WindowResult>,
                ghost v: SessionView, ghost closed: set<string>, ghost published: set<string>)
      returns (more: seq<WindowResult>)
      requires Valid() && key in v.sessions && key !in closed && key !in published
      requires View() == AfterClosing(v, closed)
      requires AreResultsOf(emitted, v, published)
      modifies this, sink, sink.cells
      ensures Valid() && fresh(sink.cells - old(sink.cells))
      ensures View() == AfterClosing(v, if key in Expired(timeout, v.sessions, now) then closed + {key} else closed)
      ensures AreResultsOf(more, v, if key in NewlyPublished(timeout, v, now) then published + {key} else published)
    {
      more := emitted;
      OneMoreClosed(v, closed, key);
      if sessions[key].state != WindowClosed && now - sessions[key].lastActive > timeout {
        var result, ok := Close(key);
        if ok {
          AddResult(emitted, v, published, key, result);
          more := emitted + [result];
        }
      }
    }

    // The scan loop, before its results are sorted.
    method CloseAll(now: int) returns (emitted: seq<WindowResult>)
      requires Valid()
      modifies this, sink, sink.cells
      ensures Valid() && fresh(sink.cells - old(sink.cells))
      ensures View() == Scanned(timeout, old(View()), now)
      ensures AreResultsOf(emitted, old(View()), NewlyPublished(timeout, old(View()), now))
    {
      hide AfterClosing, AreResultsOf, Expired, NewlyPublished;
      ghost var v := View();
      ghost var due, publish := Expired(timeout, v.sessions, now), NewlyPublished(timeout, v, now);
      emitted := [];
      var todo := sessions.Keys;
      NothingDone(timeout, v, now);
      while todo != {}
        invariant Valid() && fresh(sink.cells - old(sink.cells))
        invariant todo <= v.sessions.Keys
        invariant View() == AfterClosing(v, due - todo)
        invariant AreResultsOf(emitted, v, publish - todo)
        decreases |todo|
      {
        var key :| key in todo;
        OneLess(due, todo, key);
        OneLess(publish, todo, key);
        emitted := Turn(key, now, emitted, v, due - todo, publish - todo);
        todo := todo - {key};
      }
      assert due - {} == due && publish - {} == publish;
    }

    method ScanTimeout(now: int) returns (emitted: seq<WindowResult>)
      requires Valid()
      modifies this, sink, sink.cells
      ensures Valid() && fresh(sink.cells - old(sink.cells))
      ensures View() == Scanned(timeout, old(View()), now)
      ensures ListsDue(emitted, timeout, old(View()), now, sink.View())
      ensures SortedBy(emitted, (r: WindowResult) => r.window.start)
    {
      hide Scanned, AreResultsOf, NewlyPublished, ListsDue;
      var unsorted := CloseAll(now);
      emitted := SortBy(unsorted, (r: WindowResult) => r.window.start);
      SameResults(unsorted, emitted, old(View()), NewlyPublished(timeout, old(View()), now));
      ResultsAreDue(emitted, timeout, old(View()), now);
    }
  }
}
