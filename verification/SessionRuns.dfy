/**
  Runs of the session manager, followed one key at a time: which sessions a key emits, how they lie
  on the time line, and where each of its data values ends up.
 */
module SessionRuns {
  import opened Model
  import opened Aggregation
  import opened Sessions

  // A run interleaves touches, scans, and whatever the tumbling side does to the shared store.
  datatype Op =
    | Touch(key: string, ts: int, value: int, hasValue: bool)
    | Scan(now: int)
    | Foreign(results: Results)

  function Next(timeout: int, v: SessionView, op: Op): SessionView {
    match op
    case Touch(key, ts, value, hasValue) => v.(sessions := Touched(timeout, v.sessions, key, ts, value, hasValue))
    case Scan(now) => Scanned(timeout, v, now)
    case Foreign(results) => v.(results := results)
  }

  function Run(timeout: int, ops: seq<Op>): SessionView {
    if ops == [] then SessionView(map[], map[]) else Next(timeout, Run(timeout, Front(ops)), Last(ops))
  }

  // The tumbling side only writes under the empty key.
  ghost predicate KeyedUntouched(before: Results, after: Results) {
    forall w: WindowID :: w.key != "" ==>
      (w in after <==> w in before) && (w in before && w in after ==> after[w] == before[w])
  }

  ghost predicate Legal(timeout: int, ops: seq<Op>) {
    ops != [] ==>
      && Legal(timeout, Front(ops))
      && (Last(ops).Foreign? ==> KeyedUntouched(Run(timeout, Front(ops)).results, Last(ops).results))
  }

  // ---------------------------------------------------------------------------------------
  // One key's history
  // ---------------------------------------------------------------------------------------

  // A session leaving the map, and whether the store accepted its publication.
  datatype Emission = Emission(window: WindowID, values: seq<int>, accepted: bool)

  predicate Closing(timeout: int, v: SessionView, op: Op, key: string) {
    op.Scan? && key in Expired(timeout, v.sessions, op.now)
  }

  function Emissions(timeout: int, ops: seq<Op>, key: string): seq<Emission> {
    if ops == [] then []
    else
      var before, v := Emissions(timeout, Front(ops), key), Run(timeout, Front(ops));
      if Closing(timeout, v, Last(ops), key) && key in v.sessions then
        var w := WindowOf(v.sessions, key);
        before + [Emission(w, v.sessions[key].values, !Lookup(v.results, w).emitted)]
      else before
  }

  // The instants the key was touched at since its last emission.
  function LiveTouches(timeout: int, ops: seq<Op>, key: string): seq<int> {
    if ops == [] then []
    else
      var before := LiveTouches(timeout, Front(ops), key);
      if Closing(timeout, Run(timeout, Front(ops)), Last(ops), key) then []
      else if Last(ops).Touch? && Last(ops).key == key then before + [Last(ops).ts]
      else before
  }

  // Every data value the key was touched with.
  function DataValues(ops: seq<Op>, key: string): seq<int> {
    if ops == [] then []
    else if Last(ops).Touch? && Last(ops).key == key && Last(ops).hasValue then
      DataValues(Front(ops), key) + [Last(ops).value]
    else DataValues(Front(ops), key)
  }

  function EmittedValues(es: seq<Emission>): seq<int> {
    if es == [] then [] else EmittedValues(Front(es)) + Last(es).values
  }

  function LiveValues(ss: map<string, Session>, key: string): seq<int> {
    if key in ss then ss[key].values else []
  }

  // The caller's side of the contract: a key is only touched later than every scan already made.
  ghost predicate TouchesFollowScans(ops: seq<Op>, key: string) {
    forall i, j :: 0 <= i < j < |ops| && ops[i].Scan? && ops[j].Touch? && ops[j].key == key ==> ops[i].now < ops[j].ts
  }

  ghost predicate BeforeSomeScan(ops: seq<Op>, instant: int) {
    exists i :: 0 <= i < |ops| && ops[i].Scan? && instant < ops[i].now
  }

  // ---------------------------------------------------------------------------------------
  // What every run does with a key's values
  // ---------------------------------------------------------------------------------------

  lemma TouchedValues(timeout: int, ss: map<string, Session>, op: Op, key: string)
    requires op.Touch?
    ensures LiveValues(Touched(timeout, ss, op.key, op.ts, op.value, op.hasValue), key) ==
      if op.key == key && op.hasValue then LiveValues(ss, key) + [op.value] else LiveValues(ss, key)
  {
  }

  lemma ScannedValues(timeout: int, v: SessionView, now: int, key: string)
    ensures LiveValues(Scanned(timeout, v, now).sessions, key) ==
      if key in Expired(timeout, v.sessions, now) then [] else LiveValues(v.sessions, key)
    ensures key in Expired(timeout, v.sessions, now) ==> key in v.sessions
  {
  }

  lemma EmittedSnoc(es: seq<Emission>, e: Emission)
    ensures EmittedValues(es + [e]) == EmittedValues(es) + e.values
  {
    assert Front(es + [e]) == es;
  }

  /** In every run, each data value of a key lies in exactly one emitted or live session, in touch order. */
  lemma {:induction false} SessionValuesOnce(timeout: int, ops: seq<Op>, key: string)
    ensures EmittedValues(Emissions(timeout, ops, key)) + LiveValues(Run(timeout, ops).sessions, key) ==
      DataValues(ops, key)
    decreases |ops|
  {
    if ops != [] {
      hide Touched, Scanned, EmittedValues, LiveValues;
      SessionValuesOnce(timeout, Front(ops), key);
      var v, es, op := Run(timeout, Front(ops)), Emissions(timeout, Front(ops), key), Last(ops);
      match op
      case Touch(_, _, value, _) =>
        TouchedValues(timeout, v.sessions, op, key);
        Associate(EmittedValues(es), LiveValues(v.sessions, key), [value]);
      case Scan(now) =>
        ScannedValues(timeout, v, now, key);
        if key in Expired(timeout, v.sessions, now) {
          EmittedSnoc(es, Emission(WindowOf(v.sessions, key), v.sessions[key].values,
            !Lookup(v.results, WindowOf(v.sessions, key)).emitted));
          LiveMeans(v.sessions, key);
          assert DataValues(ops, key) + [] == DataValues(ops, key);
        }
      case Foreign(_) =>
    }
  }

  lemma LiveMeans(ss: map<string, Session>, key: string)
    requires key in ss
    ensures LiveValues(ss, key) == ss[key].values
  {
  }

  // No earlier session of the key had the same window.
  ghost predicate IsFirst(es: seq<Emission>, i: nat)
    requires i < |es|
  {
    forall j :: 0 <= j < i ==> es[j].window != es[i].window
  }

  ghost predicate WasEmitted(es: seq<Emission>, w: WindowID) {
    exists i :: 0 <= i < |es| && es[i].window == w
  }

  // The values of the first session with this window.
  ghost function FirstValues(es: seq<Emission>, w: WindowID): seq<int> {
    if es == [] then []
    else if WasEmitted(Front(es), w) then FirstValues(Front(es), w)
    else if Last(es).window == w then Last(es).values
    else []
  }

  ghost predicate AcceptsFirsts(es: seq<Emission>, key: string) {
    forall i :: 0 <= i < |es| ==> es[i].window.key == key && (es[i].accepted <==> IsFirst(es, i))
  }

  ghost predicate HoldsAccepted(results: Results, es: seq<Emission>) {
    forall i :: 0 <= i < |es| && es[i].accepted ==>
      es[i].window in results && results[es[i].window] == Fold(es[i].window, es[i].values).(emitted := true)
  }

  ghost predicate HoldsOnlyEmitted(results: Results, es: seq<Emission>, key: string) {
    forall w :: w in results && w.key == key ==> WasEmitted(es, w)
  }

  // The store accepted the first session of each window and refused every other; what it holds for the
  // key is exactly the accepted ones, each with its own values.
  ghost predicate FirstWins(results: Results, es: seq<Emission>, key: string) {
    AcceptsFirsts(es, key) && HoldsAccepted(results, es) && HoldsOnlyEmitted(results, es, key)
  }

  lemma {:induction false} FirstOf(es: seq<Emission>, i: nat) returns (first: nat)
    requires i < |es|
    ensures first <= i && es[first].window == es[i].window && IsFirst(es, first)
    decreases i
  {
    if IsFirst(es, i) {
      first := i;
    } else {
      var j :| 0 <= j < i && es[j].window == es[i].window;
      first := FirstOf(es, j);
    }
  }

  lemma EmittedMeansRepeated(results: Results, es: seq<Emission>, key: string, w: WindowID)
    requires FirstWins(results, es, key) && w.key == key
    ensures Lookup(results, w).emitted <==> WasEmitted(es, w)
    ensures w in results ==> WasEmitted(es, w)
  {
    if WasEmitted(es, w) {
      var i :| 0 <= i < |es| && es[i].window == w;
      var first := FirstOf(es, i);
      assert es[first].accepted;
    }
  }

  lemma SnocFirst(es: seq<Emission>, e: Emission)
    ensures forall i :: 0 <= i < |es| ==> (IsFirst(es + [e], i) <==> IsFirst(es, i))
    ensures IsFirst(es + [e], |es|) <==> !WasEmitted(es, e.window)
    ensures forall w :: WasEmitted(es + [e], w) <==> WasEmitted(es, w) || w == e.window
  {
    var more := es + [e];
    assert forall i :: 0 <= i < |es| ==> more[i] == es[i];
    assert more[|es|] == e;
  }

  lemma {:induction false} FirstValuesOf(es: seq<Emission>, i: nat)
    requires i < |es| && IsFirst(es, i)
    ensures FirstValues(es, es[i].window) == es[i].values
    decreases |es|
  {
    var front := Front(es);
    FrontThenLast(es);
    SnocFirst(front, Last(es));
    if i < |front| {
      assert front[i] == es[i];
      FirstValuesOf(front, i);
      assert WasEmitted(front, es[i].window);
    }
  }

  // What a scan leaves in the store under one key.
  lemma ScannedResults(timeout: int, v: SessionView, now: int, key: string)
    ensures
      var after, due := Scanned(timeout, v, now).results, key in Expired(timeout, v.sessions, now) && key in v.sessions;
      forall w: WindowID :: w.key == key ==>
        if due && w == WindowOf(v.sessions, key) then w in after && after[w] == PublishedSession(v, key)
        else (w in after <==> w in v.results) && (w in after && w in v.results ==> after[w] == v.results[w])
  {
    var keys := Expired(timeout, v.sessions, now);
    forall w: WindowID | w.key == key
      ensures Closes(v.sessions, keys, w) <==> key in keys && key in v.sessions && w == WindowOf(v.sessions, key)
    {
    }
  }

  // Publishing one more session of a key: refused if its window was emitted before.
  lemma PublishKeepsFirst(before: Results, after: Results, es: seq<Emission>, key: string, e: Emission)
    requires FirstWins(before, es, key) && e.window.key == key && e.accepted == !Lookup(before, e.window).emitted
    requires e.window in after
    requires after[e.window] ==
      if e.accepted then Lookup(before, e.window).AppliedAll(e.values).(emitted := true) else Lookup(before, e.window)
    requires forall w: WindowID :: w.key == key && w != e.window ==>
      (w in after <==> w in before) && (w in before && w in after ==> after[w] == before[w])
    ensures FirstWins(after, es + [e], key)
  {
    SnocFirst(es, e);
    EmittedMeansRepeated(before, es, key, e.window);
    OneMoreAccepted(es, key, e);
    OneMoreHeld(before, after, es, key, e);
    hide AcceptsFirsts, HoldsAccepted;
    assert HoldsOnlyEmitted(after, es + [e], key);
  }

  lemma OneMoreAccepted(es: seq<Emission>, key: string, e: Emission)
    requires AcceptsFirsts(es, key) && e.window.key == key && (e.accepted <==> !WasEmitted(es, e.window))
    ensures AcceptsFirsts(es + [e], key)
  {
    SnocFirst(es, e);
    hide IsFirst, WasEmitted;
    forall i | 0 <= i < |es + [e]|
      ensures (es + [e])[i].window.key == key && ((es + [e])[i].accepted <==> IsFirst(es + [e], i))
    {
      if i < |es| {
        assert (es + [e])[i] == es[i];
      }
    }
  }

  lemma OneMoreHeld(before: Results, after: Results, es: seq<Emission>, key: string, e: Emission)
    requires HoldsAccepted(before, es) && AcceptsFirsts(es, key) && e.window.key == key
    requires e.accepted ==> e.window !in before && !WasEmitted(es, e.window)
    requires e.window in after
    requires after[e.window] ==
      if e.accepted then Lookup(before, e.window).AppliedAll(e.values).(emitted := true) else Lookup(before, e.window)
    requires forall w: WindowID :: w.key == key && w != e.window ==>
      (w in after <==> w in before) && (w in before && w in after ==> after[w] == before[w])
    ensures HoldsAccepted(after, es + [e])
  {
    hide IsFirst;
    forall i | 0 <= i < |es + [e]| && (es + [e])[i].accepted
      ensures (es + [e])[i].window in after
      ensures after[(es + [e])[i].window] == Fold((es + [e])[i].window, (es + [e])[i].values).(emitted := true)
    {
      if i < |es| {
        assert (es + [e])[i] == es[i];
        assert es[i].window == e.window ==> WasEmitted(es, e.window) && !e.accepted;
      }
    }
  }

  lemma EmitKeepsFirst(timeout: int, v: SessionView, now: int, es: seq<Emission>, key: string)
    requires FirstWins(v.results, es, key) && key in Expired(timeout, v.sessions, now) && key in v.sessions
    ensures
      var w := WindowOf(v.sessions, key);
      FirstWins(Scanned(timeout, v, now).results,
        es + [Emission(w, v.sessions[key].values, !Lookup(v.results, w).emitted)], key)
  {
    hide FirstWins, Scanned, Expired;
    ScannedResults(timeout, v, now, key);
    var w := WindowOf(v.sessions, key);
    var e := Emission(w, v.sessions[key].values, !Lookup(v.results, w).emitted);
    PublishKeepsFirst(v.results, Scanned(timeout, v, now).results, es, key, e);
  }

  lemma FrameKeepsFirst(before: Results, after: Results, es: seq<Emission>, key: string)
    requires FirstWins(before, es, key)
    requires forall w: WindowID :: w.key == key ==>
      (w in after <==> w in before) && (w in before && w in after ==> after[w] == before[w])
    ensures FirstWins(after, es, key)
  {
    hide IsFirst, WasEmitted;
  }

  /**
    In every run, a session of a non-empty key is refused exactly when an earlier one of the key had the
    same window. The values of the refused ones are the values the store loses: what it holds for the key
    is the accepted sessions and nothing else.
   */
  lemma {:induction false} RepeatsAreRefused(timeout: int, ops: seq<Op>, key: string)
    requires Legal(timeout, ops) && key != ""
    ensures FirstWins(Run(timeout, ops).results, Emissions(timeout, ops, key), key)
    decreases |ops|
  {
    if ops != [] {
      hide FirstWins, Scanned, Touched;
      RepeatsAreRefused(timeout, Front(ops), key);
      var v, es, op := Run(timeout, Front(ops)), Emissions(timeout, Front(ops), key), Last(ops);
      match op
      case Touch(_, _, _, _) =>
      case Scan(now) =>
        if key in Expired(timeout, v.sessions, now) {
          EmitKeepsFirst(timeout, v, now, es, key);
        } else {
          ScannedResults(timeout, v, now, key);
          FrameKeepsFirst(v.results, Scanned(timeout, v, now).results, es, key);
        }
      case Foreign(results) => FrameKeepsFirst(v.results, results, es, key);
    }
  }

  /**
    The results a scan lists are the sessions it gets accepted: a key is among them exactly when its history grows
    by an accepted session, and then, if it is not empty, with the fold of that session's values.
   */
  lemma ListedAreAccepted(timeout: int, ops: seq<Op>, now: int, rs: seq<WindowResult>, key: string)
    requires ListsDue(rs, timeout, Run(timeout, ops), now, Run(timeout, ops + [Scan(now)]).results)
    ensures
      var es, more := Emissions(timeout, ops, key), Emissions(timeout, ops + [Scan(now)], key);
      && (Listed(rs, key) <==> |more| == |es| + 1 && Last(more).accepted)
      && (Listed(rs, key) && Legal(timeout, ops) && key != "" ==>
            Fold(Last(more).window, Last(more).values).(emitted := true) in rs)
  {
    hide Scanned, Fold, FirstWins;
    assert Front(ops + [Scan(now)]) == ops;
    if Listed(rs, key) && Legal(timeout, ops) && key != "" {
      var r :| r in rs && r.window.key == key;
      RepeatsAreRefused(timeout, ops + [Scan(now)], key);
      var more := Emissions(timeout, ops + [Scan(now)], key);
      HoldsLast(Run(timeout, ops + [Scan(now)]).results, more, key);
    }
  }

  lemma HoldsLast(results: Results, es: seq<Emission>, key: string)
    requires FirstWins(results, es, key) && es != [] && Last(es).accepted
    ensures Last(es).window in results
    ensures results[Last(es).window] == Fold(Last(es).window, Last(es).values).(emitted := true)
  {
    hide AcceptsFirsts, HoldsOnlyEmitted, Fold;
  }

  // The values of the refused sessions, and of the accepted ones.
  function ValuesWhere(es: seq<Emission>, accepted: bool): seq<int> {
    if es == [] then []
    else if Last(es).accepted == accepted then ValuesWhere(Front(es), accepted) + Last(es).values
    else ValuesWhere(Front(es), accepted)
  }

  lemma {:induction false} ValuesSplit(es: seq<Emission>)
    ensures multiset(EmittedValues(es)) == multiset(ValuesWhere(es, true)) + multiset(ValuesWhere(es, false))
    decreases |es|
  {
    if es != [] {
      ValuesSplit(Front(es));
    }
  }

  /** So the data values of a key are the published, the refused and the live ones together. */
  lemma {:induction false} RefusedValuesAreLost(timeout: int, ops: seq<Op>, key: string)
    ensures
      var es, live := Emissions(timeout, ops, key), LiveValues(Run(timeout, ops).sessions, key);
      multiset(DataValues(ops, key)) ==
        multiset(ValuesWhere(es, true)) + multiset(ValuesWhere(es, false)) + multiset(live)
  {
    hide Emissions, Run, DataValues, LiveValues;
    SessionValuesOnce(timeout, ops, key);
    ValuesSplit(Emissions(timeout, ops, key));
  }

  lemma NewTouch(timeout: int, ops: seq<Op>, key: string, ts: int, value: int)
    requires key !in Run(timeout, ops).sessions
    ensures
      var v, w := Run(timeout, ops), Run(timeout, ops + [Touch(key, ts, value, true)]);
      && w.results == v.results && key in w.sessions
      && w.sessions[key] == Session(ts, ts + timeout, ts, [value], WindowOpen)
      && Emissions(timeout, ops + [Touch(key, ts, value, true)], key) == Emissions(timeout, ops, key)
      && (Legal(timeout, ops) ==> Legal(timeout, ops + [Touch(key, ts, value, true)]))
  {
    assert Front(ops + [Touch(key, ts, value, true)]) == ops;
    assert [] + [value] == [value];
  }

  lemma ScanPast(timeout: int, ops: seq<Op>, key: string, now: int)
    requires key in Expired(timeout, Run(timeout, ops).sessions, now)
    ensures
      var v := Run(timeout, ops);
      var w := WindowOf(v.sessions, key);
      && key !in Run(timeout, ops + [Scan(now)]).sessions
      && Emissions(timeout, ops + [Scan(now)], key) ==
         Emissions(timeout, ops, key) + [Emission(w, v.sessions[key].values, !Lookup(v.results, w).emitted)]
      && (Legal(timeout, ops) ==> Legal(timeout, ops + [Scan(now)]))
  {
    hide ClosedResults;
    assert Front(ops + [Scan(now)]) == ops;
  }

  // A touch of a key without a session, and a scan past its timeout.
  lemma TouchThenScan(timeout: int, ops: seq<Op>, key: string, ts: int, value: int, now: int)
    requires key !in Run(timeout, ops).sessions && ts + timeout < now
    ensures
      var more, w := ops + [Touch(key, ts, value, true)] + [Scan(now)], WindowID(ts, ts + timeout, key);
      && key !in Run(timeout, more).sessions
      && (Legal(timeout, ops) ==> Legal(timeout, more))
      && Emissions(timeout, more, key) ==
         Emissions(timeout, ops, key) + [Emission(w, [value], !Lookup(Run(timeout, ops).results, w).emitted)]
  {
    hide Run, Emissions, Legal;
    NewTouch(timeout, ops, key, ts, value);
    ScanPast(timeout, ops + [Touch(key, ts, value, true)], key, now);
  }

  lemma RefusedSecond(w: WindowID, first: int, second: int)
    ensures ValuesWhere([Emission(w, [first], true), Emission(w, [second], false)], false) == [second]
  {
    var es := [Emission(w, [first], true), Emission(w, [second], false)];
    assert Front(es) == [Emission(w, [first], true)] && Front(Front(es)) == [];
    assert ValuesWhere(Front(es), false) == [];
    assert [] + [second] == [second];
  }

  /** A run that loses a value: the same touch again after its session has been emitted. */
  lemma RepeatedSessionIsRefused(timeout: int, key: string, ts: int, first: int, second: int, now: int)
    requires key != "" && ts + timeout < now
    ensures
      var ops := [Touch(key, ts, first, true), Scan(now), Touch(key, ts, second, true), Scan(now)];
      var w := WindowID(ts, ts + timeout, key);
      && Legal(timeout, ops)
      && Emissions(timeout, ops, key) == [Emission(w, [first], true), Emission(w, [second], false)]
      && ValuesWhere(Emissions(timeout, ops, key), false) == [second]
      && w in Run(timeout, ops).results && Run(timeout, ops).results[w] == Fold(w, [first]).(emitted := true)
  {
    hide Run, Emissions, Legal;
    var w := WindowID(ts, ts + timeout, key);
    EmptyRun(timeout, key);
    TouchThenScan(timeout, [], key, ts, first, now);
    var once := [] + [Touch(key, ts, first, true)] + [Scan(now)];
    TouchThenScan(timeout, once, key, ts, second, now);
    var ops := once + [Touch(key, ts, second, true)] + [Scan(now)];
    assert ops == [Touch(key, ts, first, true), Scan(now), Touch(key, ts, second, true), Scan(now)];
    RepeatsAreRefused(timeout, ops, key);
    var es := Emissions(timeout, ops, key);
    assert es[0].window == es[1].window == w;
    assert IsFirst(es, 0) && !IsFirst(es, 1);
    assert es == [Emission(w, [first], true), Emission(w, [second], false)];
    RefusedSecond(w, first, second);
  }

  lemma EmptyRun(timeout: int, key: string)
    ensures Legal(timeout, []) && key !in Run(timeout, []).sessions && Emissions(timeout, [], key) == []
    ensures Run(timeout, []).results == map[]
  {
  }

  // ---------------------------------------------------------------------------------------
  // The invariant of touches that follow scans
  // ---------------------------------------------------------------------------------------

  ghost predicate IsLeast(ts: seq<int>, m: int) {
    m in ts && forall t :: t in ts ==> m <= t
  }

  // The live session spans from its earliest touch to one timeout after its latest.
  ghost predicate LiveSession(timeout: int, ss: map<string, Session>, key: string, touches: seq<int>) {
    if touches == [] then key !in ss
    else
      && key in ss
      && ss[key].state == WindowOpen
      && ss[key].lastActive == Last(touches)
      && ss[key].end == ss[key].lastActive + timeout
      && IsLeast(touches, ss[key].start)
  }

  // Emitted sessions are disjoint and in order.
  ghost predicate Disjoint(es: seq<Emission>, key: string) {
    && (forall i :: 0 <= i < |es| ==> es[i].window.key == key && es[i].window.start < es[i].window.end)
    && (forall i, j :: 0 <= i < j < |es| ==> es[i].window.end < es[j].window.start)
  }

  // They were also all accepted.
  ghost predicate InOrder(es: seq<Emission>, key: string) {
    Disjoint(es, key) && forall i :: 0 <= i < |es| ==> es[i].accepted
  }

  // What the store holds for the key is exactly its emitted sessions, each with its own values.
  ghost predicate StoreHolds(results: Results, es: seq<Emission>, key: string) {
    && (forall i :: 0 <= i < |es| ==>
          es[i].window in results && results[es[i].window] == Fold(es[i].window, es[i].values).(emitted := true))
    && (forall w :: w in results && w.key == key ==> WasEmitted(es, w))
  }

  // Each emitted session ended before some scan, and before every touch that came after it.
  ghost predicate ScansCover(ops: seq<Op>, es: seq<Emission>) {
    forall i :: 0 <= i < |es| ==> BeforeSomeScan(ops, es[i].window.end)
  }

  ghost predicate EndBefore(es: seq<Emission>, touches: seq<int>) {
    forall i, t :: 0 <= i < |es| && t in touches ==> es[i].window.end < t
  }

  ghost predicate Inv(timeout: int, ops: seq<Op>, key: string) {
    var v, es, touches := Run(timeout, ops), Emissions(timeout, ops, key), LiveTouches(timeout, ops, key);
    && LiveSession(timeout, v.sessions, key, touches)
    && Disjoint(es, key)
    && ScansCover(ops, es)
    && EndBefore(es, touches)
  }

  lemma ScansOnlyGrow(ops: seq<Op>, es: seq<Emission>)
    requires ops != [] && ScansCover(Front(ops), es)
    ensures ScansCover(ops, es)
  {
    forall i | 0 <= i < |es|
      ensures BeforeSomeScan(ops, es[i].window.end)
    {
      assert BeforeSomeScan(Front(ops), es[i].window.end);
      var j :| 0 <= j < |Front(ops)| && Front(ops)[j].Scan? && es[i].window.end < Front(ops)[j].now;
      assert ops[j] == Front(ops)[j];
    }
  }

  // In every run a session ends one timeout after its latest touch, so a scan that expires it is later.
  lemma {:induction false} EmittedHaveEnded(timeout: int, ops: seq<Op>, key: string)
    ensures ScansCover(ops, Emissions(timeout, ops, key))
    ensures
      var ss := Run(timeout, ops).sessions;
      key in ss ==> ss[key].end == ss[key].lastActive + timeout
    decreases |ops|
  {
    if ops != [] {
      hide ScansCover, ClosedResults;
      EmittedHaveEnded(timeout, Front(ops), key);
      var v, es := Run(timeout, Front(ops)), Emissions(timeout, Front(ops), key);
      ScansOnlyGrow(ops, es);
      if Closing(timeout, v, Last(ops), key) && key in v.sessions {
        var w := WindowOf(v.sessions, key);
        OneMoreCovered(ops, es, Emission(w, v.sessions[key].values, !Lookup(v.results, w).emitted));
      }
    } else {
      assert Emissions(timeout, [], key) == [];
    }
  }

  lemma TouchIsLater(ops: seq<Op>, es: seq<Emission>, touches: seq<int>, key: string)
    requires ops != [] && Last(ops).Touch? && Last(ops).key == key && TouchesFollowScans(ops, key)
    requires ScansCover(Front(ops), es) && EndBefore(es, touches)
    ensures EndBefore(es, touches + [Last(ops).ts])
  {
    forall i | 0 <= i < |es|
      ensures es[i].window.end < Last(ops).ts
    {
      assert BeforeSomeScan(Front(ops), es[i].window.end);
      var j :| 0 <= j < |Front(ops)| && Front(ops)[j].Scan? && es[i].window.end < Front(ops)[j].now;
      assert ops[j] == Front(ops)[j] && ops[|ops| - 1] == Last(ops);
    }
  }

  lemma TouchedSession(timeout: int, ss: map<string, Session>, key: string, touches: seq<int>,
                       ts: int, value: int, hasValue: bool)
    requires LiveSession(timeout, ss, key, touches)
    ensures LiveSession(timeout, Touched(timeout, ss, key, ts, value, hasValue), key, touches + [ts])
  {
    assert forall t :: t in touches + [ts] <==> t in touches || t == ts;
    assert Last(touches + [ts]) == ts;
  }

  lemma {:induction false} TouchKeeps(timeout: int, ops: seq<Op>, key: string)
    requires ops != [] && Last(ops).Touch? && TouchesFollowScans(ops, key) && Inv(timeout, Front(ops), key)
    ensures Inv(timeout, ops, key)
  {
    hide Disjoint, ScansCover, EndBefore, TouchesFollowScans;
    var es, touches := Emissions(timeout, ops, key), LiveTouches(timeout, Front(ops), key);
    var ss := Run(timeout, Front(ops)).sessions;
    ScansOnlyGrow(ops, es);
    if Last(ops).key == key {
      hide LiveSession;
      TouchIsLater(ops, es, touches, key);
      TouchedSession(timeout, ss, key, touches, Last(ops).ts, Last(ops).value, Last(ops).hasValue);
    }
  }

  lemma AppendDisjoint(es: seq<Emission>, e: Emission, key: string)
    requires Disjoint(es, key) && e.window.key == key && e.window.start < e.window.end
    requires forall i :: 0 <= i < |es| ==> es[i].window.end < e.window.start
    ensures Disjoint(es + [e], key)
  {
  }

  lemma ClosingEffect(timeout: int, ops: seq<Op>, key: string) returns (e: Emission)
    requires timeout > 0 && ops != [] && Last(ops).Scan? && Inv(timeout, Front(ops), key)
    requires key in Expired(timeout, Run(timeout, Front(ops)).sessions, Last(ops).now)
    ensures Emissions(timeout, ops, key) == Emissions(timeout, Front(ops), key) + [e]
    ensures e.window.end < Last(ops).now
    ensures Disjoint(Emissions(timeout, ops, key), key)
  {
    hide ScansCover;
    var v := Run(timeout, Front(ops));
    var before, touches := Emissions(timeout, Front(ops), key), LiveTouches(timeout, Front(ops), key);
    var w := WindowOf(v.sessions, key);
    e := Emission(w, v.sessions[key].values, !Lookup(v.results, w).emitted);
    assert Last(touches) in touches && v.sessions[key].start in touches;
    AppendDisjoint(before, e, key);
  }

  lemma OneMoreCovered(ops: seq<Op>, es: seq<Emission>, e: Emission)
    requires ops != [] && Last(ops).Scan? && ScansCover(ops, es) && e.window.end < Last(ops).now
    ensures ScansCover(ops, es + [e])
    ensures EndBefore(es + [e], [])
  {
    assert ops[|ops| - 1] == Last(ops);
    assert BeforeSomeScan(ops, e.window.end);
  }

  lemma ScanSessions(timeout: int, v: SessionView, now: int, key: string, touches: seq<int>)
    requires LiveSession(timeout, v.sessions, key, touches)
    ensures LiveSession(timeout, Scanned(timeout, v, now).sessions, key,
      if key in Expired(timeout, v.sessions, now) then [] else touches)
  {
  }

  lemma ScanKeeps(timeout: int, ops: seq<Op>, key: string)
    requires timeout > 0 && ops != [] && Last(ops).Scan? && Inv(timeout, Front(ops), key)
    ensures Inv(timeout, ops, key)
  {
    hide Disjoint, ScansCover, EndBefore, LiveSession, Scanned;
    var v, now := Run(timeout, Front(ops)), Last(ops).now;
    var before := Emissions(timeout, Front(ops), key);
    ScansOnlyGrow(ops, before);
    ScanSessions(timeout, v, now, key, LiveTouches(timeout, Front(ops), key));
    if key in Expired(timeout, v.sessions, now) {
      var e := ClosingEffect(timeout, ops, key);
      OneMoreCovered(ops, before, e);
    }
  }

  lemma {:induction false} RunKeepsInv(timeout: int, ops: seq<Op>, key: string)
    requires timeout > 0 && TouchesFollowScans(ops, key)
    ensures Inv(timeout, ops, key)
    decreases |ops|
  {
    if ops != [] {
      assert forall i :: 0 <= i < |Front(ops)| ==> Front(ops)[i] == ops[i];
      RunKeepsInv(timeout, Front(ops), key);
      match Last(ops)
      case Touch(_, _, _, _) => TouchKeeps(timeout, ops, key);
      case Scan(_) => ScanKeeps(timeout, ops, key);
      case Foreign(_) => ScansOnlyGrow(ops, Emissions(timeout, ops, key));
    }
  }

  lemma DisjointAreFirst(results: Results, es: seq<Emission>, key: string)
    requires Disjoint(es, key) && FirstWins(results, es, key)
    ensures InOrder(es, key) && StoreHolds(results, es, key)
  {
    forall i, j | 0 <= j < i < |es|
      ensures es[j].window != es[i].window
    {
      assert es[j].window.end < es[i].window.start < es[i].window.end;
    }
  }

  /**
    For a key touched only later than every earlier scan, in whatever order otherwise: the sessions it emits
    are disjoint with strictly increasing starts, and the live session spans its touches. If the key is not
    empty the store refuses none of them and holds exactly them.
   */
  lemma {:induction false} SessionsAreDisjoint(timeout: int, ops: seq<Op>, key: string)
    requires timeout > 0 && TouchesFollowScans(ops, key)
    ensures Disjoint(Emissions(timeout, ops, key), key)
    ensures Legal(timeout, ops) && key != "" ==>
      && InOrder(Emissions(timeout, ops, key), key)
      && StoreHolds(Run(timeout, ops).results, Emissions(timeout, ops, key), key)
    ensures LiveSession(timeout, Run(timeout, ops).sessions, key, LiveTouches(timeout, ops, key))
    ensures key in Run(timeout, ops).sessions ==>
      forall e :: e in Emissions(timeout, ops, key) ==> e.window.end < Run(timeout, ops).sessions[key].start
  {
    hide Run, Emissions, FirstWins, InOrder, StoreHolds, Disjoint, Legal;
    RunKeepsInv(timeout, ops, key);
    LiveEndsLater(timeout, ops, key);
    if Legal(timeout, ops) && key != "" {
      RepeatsAreRefused(timeout, ops, key);
      DisjointAreFirst(Run(timeout, ops).results, Emissions(timeout, ops, key), key);
    }
  }

  lemma LiveEndsLater(timeout: int, ops: seq<Op>, key: string)
    requires Inv(timeout, ops, key)
    ensures key in Run(timeout, ops).sessions ==>
      forall e :: e in Emissions(timeout, ops, key) ==> e.window.end < Run(timeout, ops).sessions[key].start
  {
    hide Run, Emissions, Disjoint, ScansCover;
  }

  // ---------------------------------------------------------------------------------------
  // When a scan splits a key's touches
  // ---------------------------------------------------------------------------------------

  predicate Touches(op: Op, key: string) {
    op.Touch? && op.key == key
  }

  // The key's latest touch, in the order they arrived; zero before the first.
  function LatestTouch(ops: seq<Op>, key: string): int {
    if ops == [] then 0
    else if Touches(Last(ops), key) then Last(ops).ts
    else LatestTouch(Front(ops), key)
  }

  // Nothing of the key has been emitted since its touch at position i.
  ghost predicate SameSession(timeout: int, ops: seq<Op>, key: string, i: nat)
    requires i < |ops|
  {
    Emissions(timeout, ops, key) == Emissions(timeout, ops[..i + 1], key)
  }

  // Every scan since then came at most one timeout after the key's latest touch before it.
  ghost predicate ScannedInTime(timeout: int, ops: seq<Op>, key: string, i: nat) {
    forall m :: i < m < |ops| && ops[m].Scan? ==> ops[m].now - LatestTouch(ops[..m], key) <= timeout
  }

  lemma InTimeSnoc(timeout: int, ops: seq<Op>, op: Op, key: string, i: nat)
    requires i < |ops|
    ensures ScannedInTime(timeout, ops + [op], key, i) <==>
      ScannedInTime(timeout, ops, key, i) && (op.Scan? ==> op.now - LatestTouch(ops, key) <= timeout)
  {
    var more := ops + [op];
    assert more[..|ops|] == ops && more[|ops|] == op;
    assert forall m :: 0 <= m < |ops| ==> more[m] == ops[m] && more[..m] == ops[..m];
  }

  lemma EmissionsSnoc(timeout: int, ops: seq<Op>, op: Op, key: string)
    ensures |Emissions(timeout, ops + [op], key)| >= |Emissions(timeout, ops, key)|
    ensures Emissions(timeout, ops + [op], key) == Emissions(timeout, ops, key) <==>
      !(Closing(timeout, Run(timeout, ops), op, key) && key in Run(timeout, ops).sessions)
  {
    hide Run;
    assert Front(ops + [op]) == ops;
  }

  // The key's live session was last active at its latest touch.
  ghost predicate LiveAt(v: SessionView, key: string, latest: int) {
    key in v.sessions && v.sessions[key].state == WindowOpen && v.sessions[key].lastActive == latest
  }

  lemma {:induction false} SessionsStayOpen(timeout: int, ops: seq<Op>, key: string)
    ensures key in Run(timeout, ops).sessions ==> Run(timeout, ops).sessions[key].state == WindowOpen
    decreases |ops|
  {
    if ops != [] {
      SessionsStayOpen(timeout, Front(ops), key);
    }
  }

  lemma LiveStep(timeout: int, v: SessionView, op: Op, key: string, latest: int)
    requires LiveAt(v, key, latest) && !Closing(timeout, v, op, key)
    ensures LiveAt(Next(timeout, v, op), key, if Touches(op, key) then op.ts else latest)
  {
  }

  lemma ClosesLate(timeout: int, v: SessionView, op: Op, key: string, latest: int)
    requires LiveAt(v, key, latest)
    ensures Closing(timeout, v, op, key) <==> op.Scan? && op.now - latest > timeout
  {
  }

  /**
    A touch and what follows it stay in one session exactly as long as every scan comes at most one timeout
    after the key's latest touch before that scan.
   */
  lemma {:induction false} SplitExactly(timeout: int, ops: seq<Op>, key: string, i: nat)
    requires i < |ops| && Touches(ops[i], key)
    ensures SameSession(timeout, ops, key, i) <==> ScannedInTime(timeout, ops, key, i)
    ensures SameSession(timeout, ops, key, i) ==> LiveAt(Run(timeout, ops), key, LatestTouch(ops, key))
    decreases |ops|
  {
    hide Emissions, LiveAt, Next, ScannedInTime, Closing;
    if i == |ops| - 1 {
      assert ops[..i + 1] == ops;
      TouchIsLive(timeout, ops, key);
    } else {
      var front, op := Front(ops), Last(ops);
      FrontThenLast(ops);
      assert front[..i + 1] == ops[..i + 1] && front[i] == ops[i];
      SplitExactly(timeout, front, key, i);
      InTimeSnoc(timeout, front, op, key, i);
      EmissionsSnoc(timeout, front, op, key);
      if SameSession(timeout, front, key, i) {
        ClosesLate(timeout, Run(timeout, front), op, key, LatestTouch(front, key));
        LiveIsThere(Run(timeout, front), key, LatestTouch(front, key));
        if !Closing(timeout, Run(timeout, front), op, key) {
          LiveStep(timeout, Run(timeout, front), op, key, LatestTouch(front, key));
        }
      } else {
        SplitGrows(timeout, front, key, i + 1);
      }
    }
  }

  lemma LiveIsThere(v: SessionView, key: string, latest: int)
    requires LiveAt(v, key, latest)
    ensures key in v.sessions
  {
  }

  lemma TouchIsLive(timeout: int, ops: seq<Op>, key: string)
    requires ops != [] && Touches(Last(ops), key)
    ensures LiveAt(Run(timeout, ops), key, LatestTouch(ops, key))
    ensures ScannedInTime(timeout, ops, key, |ops| - 1)
  {
    SessionsStayOpen(timeout, Front(ops), key);
  }

  // A history that has changed has grown.
  lemma {:induction false} SplitGrows(timeout: int, ops: seq<Op>, key: string, n: nat)
    requires n <= |ops|
    ensures
      || Emissions(timeout, ops, key) == Emissions(timeout, ops[..n], key)
      || |Emissions(timeout, ops, key)| > |Emissions(timeout, ops[..n], key)|
    decreases |ops|
  {
    hide Run, Closing;
    if n == |ops| {
      assert ops[..n] == ops;
    } else {
      FrontThenLast(ops);
      assert Front(ops)[..n] == ops[..n];
      EmissionsSnoc(timeout, Front(ops), Last(ops), key);
      SplitGrows(timeout, Front(ops), key, n);
    }
  }

  // Touches of the key between i and j are never earlier than the one at i.
  ghost predicate NoneEarlier(ops: seq<Op>, key: string, i: nat, j: nat)
    requires i < j < |ops| && ops[i].Touch?
  {
    forall m :: i <= m < j && Touches(ops[m], key) ==> ops[i].ts <= ops[m].ts
  }

  lemma {:induction false} LatestIsNoEarlier(ops: seq<Op>, key: string, i: nat, j: nat, m: nat)
    requires i < m <= j < |ops| && Touches(ops[i], key) && NoneEarlier(ops, key, i, j)
    ensures ops[i].ts <= LatestTouch(ops[..m], key)
    decreases m
  {
    assert Front(ops[..m]) == ops[..m - 1] && Last(ops[..m]) == ops[m - 1];
    if !Touches(ops[m - 1], key) {
      LatestIsNoEarlier(ops, key, i, j, m - 1);
    }
  }

  /**
    A scan never splits a live session: two touches at most one timeout apart share a session, provided the
    later one comes after the scans before it and no touch in between goes back before the first.
   */
  lemma {:induction false} ScansNeverSplit(timeout: int, ops: seq<Op>, key: string, i: nat, j: nat)
    requires i < j < |ops| && Touches(ops[i], key) && Touches(ops[j], key)
    requires TouchesFollowScans(ops, key) && NoneEarlier(ops, key, i, j)
    requires ops[j].ts - ops[i].ts <= timeout
    ensures SameSession(timeout, ops[..j + 1], key, i)
  {
    var upTo := ops[..j + 1];
    forall m | i < m < |upTo| && upTo[m].Scan?
      ensures upTo[m].now - LatestTouch(upTo[..m], key) <= timeout
    {
      LatestIsNoEarlier(ops, key, i, j, m);
      assert upTo[..m] == ops[..m];
    }
    SplitExactly(timeout, upTo, key, i);
  }

  /**
    Touches out of order: the second moves the session's last activity back, and a scan then splits it although
    the third, later than the scan, is next to the first.
   */
  lemma OutOfOrderSplits(key: string, a: int, b: int, c: int)
    requires key != ""
    ensures
      var ops := [Touch(key, 100, a, true), Touch(key, 0, b, true), Scan(60), Touch(key, 101, c, true)];
      && Legal(50, ops) && TouchesFollowScans(ops, key) && !SameSession(50, ops, key, 0)
      && Emissions(50, ops, key) == [Emission(WindowID(0, 50, key), [a, b], true)]
  {
    hide Run, Emissions, Legal;
    var ops := [Touch(key, 100, a, true), Touch(key, 0, b, true), Scan(60), Touch(key, 101, c, true)];
    var first := [] + [Touch(key, 100, a, true)];
    var second := first + [Touch(key, 0, b, true)];
    EmptyRun(50, key);
    NewTouch(50, [], key, 100, a);
    TouchAgain(50, first, key, 0, b);
    assert [a] + [b] == [a, b];
    ScanPast(50, second, key, 60);
    NewTouch(50, second + [Scan(60)], key, 101, c);
    assert ops == second + [Scan(60)] + [Touch(key, 101, c, true)];
    assert ops[..1] == first;
  }

  lemma TouchAgain(timeout: int, ops: seq<Op>, key: string, ts: int, value: int)
    requires key in Run(timeout, ops).sessions && ts < Run(timeout, ops).sessions[key].start
    ensures
      var v, w := Run(timeout, ops), Run(timeout, ops + [Touch(key, ts, value, true)]);
      && w.results == v.results && key in w.sessions
      && w.sessions[key] == Session(ts, ts + timeout, ts, v.sessions[key].values + [value], v.sessions[key].state)
      && Emissions(timeout, ops + [Touch(key, ts, value, true)], key) == Emissions(timeout, ops, key)
      && (Legal(timeout, ops) ==> Legal(timeout, ops + [Touch(key, ts, value, true)]))
  {
    assert Front(ops + [Touch(key, ts, value, true)]) == ops;
  }
}
