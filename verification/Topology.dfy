/**
  The operator manager: it feeds events to the operator chain at most once per offset, buffers them
  while paused, and reconciles the buffer on resume.
 */
module Topology {
  import opened Model
  import opened OperatorGraph
  import StateBackend

  datatype TopologyState = TopologyState(
    operators: set<string>, edges: seq<Edge>, paused: bool, buffer: seq<Event>, applied: set<int>)

  datatype Op =
    | Process(ev: Event)
    | ApplyNow(ev: Event)
    | Pause
    | Resume(order: seq<Event>)  // the order in which the sort left the buffer
    | AddOperator(name: string)
    | Connect(from: string, to: string)

  function Offset(ev: Event): int {
    ev.offset
  }

  // The events whose offset is new, given what is already applied.
  function NewOnes(applied: set<int>, evs: seq<Event>): seq<Event> {
    if evs == [] then []
    else
      var before := NewOnes(applied, Front(evs));
      if Last(evs).offset in applied + Offsets(before) then before else before + [Last(evs)]
  }

  function Offsets(evs: seq<Event>): set<int> {
    set ev | ev in evs :: ev.offset
  }

  // The events a step hands to the operator chain, in order.
  ghost function Applies(v: TopologyState, op: Op): seq<Event> {
    match op
    case Process(ev) => if v.paused then [] else NewOnes(v.applied, [ev])
    case ApplyNow(ev) => NewOnes(v.applied, [ev])
    case Resume(order) => if !v.paused || Cyclic(v.edges) then [] else NewOnes(v.applied, order)
    case _ => []
  }

  ghost function Next(v: TopologyState, op: Op): TopologyState {
    var marked := v.(applied := v.applied + Offsets(Applies(v, op)));
    match op
    case Process(ev) => if v.paused then v.(buffer := v.buffer + [ev]) else marked
    case ApplyNow(ev) => marked
    case Pause => v.(paused := true)
    case Resume(order) => if v.paused then marked.(buffer := [], paused := false) else v
    case AddOperator(name) => v.(operators := v.operators + {name})
    case Connect(from, to) =>
      if from in v.operators && to in v.operators then v.(edges := v.edges + [Edge(from, to)]) else v
  }

  ghost predicate CanStep(v: TopologyState, op: Op) {
    op.Resume? && v.paused && !Cyclic(v.edges) ==>
      multiset(op.order) == multiset(v.buffer) && SortedBy(op.order, Offset)
  }

  datatype ConnectError = UnknownOperator(name: string) | CycleDetected(name: string)

  lemma OffsetsOfOne(ev: Event)
    ensures Offsets([]) == {} && Offsets([ev]) == {ev.offset}
  {
    assert ev in [ev];
  }

  lemma OffsetsOfMore(evs: seq<Event>, ev: Event)
    ensures Offsets(evs + [ev]) == Offsets(evs) + {ev.offset}
  {
    assert forall e :: e in evs + [ev] <==> e in evs || e == ev;
  }

  lemma NewOneOf(applied: set<int>, ev: Event)
    ensures NewOnes(applied, [ev]) == if ev.offset in applied then [] else [ev]
  {
    assert Front([ev]) == [];
    OffsetsOfOne(ev);
  }

  class Manager {
    const state: StateBackend.Store
    const dag: DAG
    var operators: set<string>
    var buffer: seq<Event>
    var paused: bool

    ghost function View(): TopologyState
      reads this, state, dag
    {
      TopologyState(operators, dag.edges, paused, buffer, state.applied)
    }

    constructor (state: StateBackend.Store)
      ensures this.state == state && fresh(dag)
      ensures View() == TopologyState({}, [], false, [], state.applied)
    {
      this.state := state;
      dag := new DAG();
      operators, buffer, paused := {}, [], false;
    }

    method AddOperator(name: string)
      modifies this`operators
      ensures View() == Next(old(View()), Op.AddOperator(name))
    {
      operators := operators + {name};
    }

    /** Adds the edge even when the graph then has a cycle; the caller only gets the error. */
    method Connect(from: string, to: string) returns (err: Option<ConnectError>)
      modifies dag
      ensures View() == Next(old(View()), Op.Connect(from, to))
      ensures err.None? <==> from in operators && to in operators && !Cyclic(dag.edges)
      ensures err.Some? && err.value.CycleDetected? <==> from in operators && to in operators && Cyclic(dag.edges)
    {
      if from !in operators {
        return Some(UnknownOperator(from));
      }
      if to !in operators {
        return Some(UnknownOperator(to));
      }
      dag.Connect(from, to);
      var cycle := dag.Validate();
      return if cycle.Some? then Some(CycleDetected(cycle.value)) else None;
    }

    // The events returned are those the source passes to its apply callback.
    method Process(ev: Event) returns (toApply: seq<Event>)
      modifies this`buffer, state
      ensures View() == Next(old(View()), Op.Process(ev)) && toApply == Applies(old(View()), Op.Process(ev))
      ensures state.View() == old(state.View()).(applied := View().applied)
    {
      if paused {
        buffer := buffer + [ev];
        return [];
      }
      toApply := ApplyLocked(ev);
    }

    method ApplyNow(ev: Event) returns (toApply: seq<Event>)
      modifies state
      ensures View() == Next(old(View()), Op.ApplyNow(ev)) && toApply == Applies(old(View()), Op.ApplyNow(ev))
      ensures state.View() == old(state.View()).(applied := View().applied)
    {
      toApply := ApplyLocked(ev);
    }

    method ApplyLocked(ev: Event) returns (toApply: seq<Event>)
      modifies state
      ensures toApply == NewOnes(old(state.applied), [ev])
      ensures state.View() == old(state.View()).(applied := old(state.applied) + Offsets(toApply))
    {
      NewOneOf(state.applied, ev);
      OffsetsOfOne(ev);
      var isApplied := state.IsApplied(ev.offset);
      if isApplied {
        return [];
      }
      state.MarkApplied(ev.offset);
      return [ev];
    }

    method Pause()
      modifies this`paused
      ensures View() == Next(old(View()), Op.Pause)
    {
      paused := true;
    }

    method Resume() returns (replayed: seq<Event>, ghost order: seq<Event>)
      modifies this`buffer, this`paused, state
      ensures CanStep(old(View()), Op.Resume(order))
      ensures View() == Next(old(View()), Op.Resume(order)) && replayed == Applies(old(View()), Op.Resume(order))
      ensures state.View() == old(state.View()).(applied := View().applied)
      ensures !paused && buffer == (if old(paused) then [] else old(buffer))
    {
      OffsetsOfNone();
      replayed, order := [], [];
      if !paused {
        return;
      }
      var err := dag.Validate();
      if err.Some? {
        buffer, paused := [], false;
        return;
      }
      var sorted := SortBy(buffer, Offset);
      order := sorted;
      replayed := Replay(sorted);
      buffer, paused := [], false;
    }

    // The replay loop of Resume.
    method Replay(sorted: seq<Event>) returns (replayed: seq<Event>)
      modifies state
      ensures replayed == NewOnes(old(state.applied), sorted)
      ensures state.View() == old(state.View()).(applied := old(state.applied) + Offsets(replayed))
    {
      OffsetsOfNone();
      replayed := [];
      for i := 0 to |sorted|
        invariant replayed == NewOnes(old(state.applied), sorted[..i])
        invariant state.View() == old(state.View()).(applied := old(state.applied) + Offsets(replayed))
      {
        assert Front(sorted[..i + 1]) == sorted[..i];
        OffsetsOfMore(replayed, sorted[i]);
        var isApplied := state.IsApplied(sorted[i].offset);
        if isApplied {
          continue;
        }
        state.MarkApplied(sorted[i].offset);
        replayed := replayed + [sorted[i]];
      }
      assert sorted[..|sorted|] == sorted;
    }
  }

  lemma OffsetsOfNone()
    ensures Offsets([]) == {} && DistinctOffsets([])
  {
  }

  // ---------------------------------------------------------------------------------------
  // Runs
  // ---------------------------------------------------------------------------------------

  const EMPTY := TopologyState({}, [], false, [], {})

  ghost function Run(ops: seq<Op>): TopologyState {
    if ops == [] then EMPTY else Next(Run(Front(ops)), Last(ops))
  }

  ghost predicate Legal(ops: seq<Op>) {
    ops != [] ==> Legal(Front(ops)) && CanStep(Run(Front(ops)), Last(ops))
  }

  // Everything handed to the operator chain over a run.
  ghost function Log(ops: seq<Op>): seq<Event> {
    if ops == [] then [] else Log(Front(ops)) + Applies(Run(Front(ops)), Last(ops))
  }

  function Submitted(ops: seq<Op>): seq<Event> {
    if ops == [] then []
    else if Last(ops).Process? || Last(ops).ApplyNow? then Submitted(Front(ops)) + [Last(ops).ev]
    else Submitted(Front(ops))
  }

  ghost predicate DistinctOffsets(evs: seq<Event>) {
    forall i, j :: 0 <= i < j < |evs| ==> evs[i].offset != evs[j].offset
  }

  lemma {:induction false} NewOnesAreNew(applied: set<int>, evs: seq<Event>)
    ensures DistinctOffsets(NewOnes(applied, evs))
    ensures Offsets(NewOnes(applied, evs)) == Offsets(evs) - applied
    ensures forall ev :: ev in NewOnes(applied, evs) ==> ev in evs
    decreases |evs|
  {
    hide Offsets, DistinctOffsets;
    if evs != [] {
      NewOnesAreNew(applied, Front(evs));
      assert evs == Front(evs) + [Last(evs)];
      OneMoreNew(applied, Front(evs), NewOnes(applied, Front(evs)), Last(evs));
    } else {
      OffsetsOfNone();
    }
  }

  lemma OneMoreNew(applied: set<int>, evs: seq<Event>, before: seq<Event>, ev: Event)
    requires DistinctOffsets(before) && Offsets(before) == Offsets(evs) - applied
    requires forall e :: e in before ==> e in evs
    ensures
      var after := if ev.offset in applied + Offsets(before) then before else before + [ev];
      && DistinctOffsets(after)
      && Offsets(after) == Offsets(evs + [ev]) - applied
      && (forall e :: e in after ==> e in evs + [ev])
  {
    OffsetsOfMore(evs, ev);
    OffsetsOfMore(before, ev);
    hide Offsets;
    if ev.offset !in applied + Offsets(before) {
      DistinctOfMore(before, ev);
    }
  }

  lemma DistinctOfMore(evs: seq<Event>, ev: Event)
    requires DistinctOffsets(evs) && ev.offset !in Offsets(evs)
    ensures DistinctOffsets(evs + [ev])
  {
    assert forall i :: 0 <= i < |evs| ==> evs[i] in evs && evs[i].offset in Offsets(evs);
  }

  lemma JoinOffsets(a: seq<Event>, b: seq<Event>)
    ensures Offsets(a + b) == Offsets(a) + Offsets(b)
    ensures DistinctOffsets(a) && DistinctOffsets(b) && Offsets(a) !! Offsets(b) ==> DistinctOffsets(a + b)
  {
    assert forall e :: e in a + b <==> e in a || e in b;
    if DistinctOffsets(a) && DistinctOffsets(b) && Offsets(a) !! Offsets(b) {
      forall i, j | 0 <= i < j < |a + b|
        ensures (a + b)[i].offset != (a + b)[j].offset
      {
        if i < |a| <= j {
          assert a[i].offset in Offsets(a) && b[j - |a|].offset in Offsets(b);
        }
      }
    }
  }

  lemma AppliesAreNew(v: TopologyState, op: Op)
    ensures DistinctOffsets(Applies(v, op)) && Offsets(Applies(v, op)) !! v.applied
    ensures Next(v, op).applied == v.applied + Offsets(Applies(v, op))
  {
    OffsetsOfNone();
    match op
    case Process(ev) => NewOnesAreNew(v.applied, [ev]);
    case ApplyNow(ev) => NewOnesAreNew(v.applied, [ev]);
    case Resume(order) => NewOnesAreNew(v.applied, order);
    case _ =>
  }

  /** No offset ever reaches the operator chain twice, and the applied set is exactly what did. */
  lemma {:induction false} AppliedExactlyOnce(ops: seq<Op>)
    ensures DistinctOffsets(Log(ops))
    ensures Offsets(Log(ops)) == Run(ops).applied
    decreases |ops|
  {
    OffsetsOfNone();
    if ops != [] {
      AppliedExactlyOnce(Front(ops));
      AppliesAreNew(Run(Front(ops)), Last(ops));
      JoinOffsets(Log(Front(ops)), Applies(Run(Front(ops)), Last(ops)));
    }
  }

  // At each resume from a pause the graph is acyclic.
  ghost predicate ResumesAcyclic(ops: seq<Op>) {
    ops != [] ==>
      && ResumesAcyclic(Front(ops))
      && (Last(ops).Resume? && Run(Front(ops)).paused ==> !Cyclic(Run(Front(ops)).edges))
  }

  lemma BagOffsets(a: seq<Event>, b: seq<Event>)
    requires multiset(a) == multiset(b)
    ensures Offsets(a) == Offsets(b)
    ensures forall ev :: ev in a <==> ev in b
  {
    SameMembers(a, b);
  }

  // Each submitted offset is applied or still buffered; outside a pause nothing is buffered.
  ghost predicate Reconciled(v: TopologyState, log: seq<Event>, submitted: seq<Event>) {
    && Offsets(submitted) == v.applied + Offsets(v.buffer)
    && (!v.paused ==> v.buffer == [])
    && (forall ev :: ev in log || ev in v.buffer ==> ev in submitted)
  }

  lemma SubmitKeeps(v: TopologyState, log: seq<Event>, submitted: seq<Event>, op: Op)
    requires Reconciled(v, log, submitted) && (op.Process? || op.ApplyNow?)
    ensures Reconciled(Next(v, op), log + Applies(v, op), submitted + [op.ev])
  {
    OffsetsOfMore(submitted, op.ev);
    NewOneOf(v.applied, op.ev);
    OffsetsOfOne(op.ev);
    if op.Process? && v.paused {
      OffsetsOfMore(v.buffer, op.ev);
    }
  }

  lemma ResumeKeeps(v: TopologyState, log: seq<Event>, submitted: seq<Event>, order: seq<Event>)
    requires Reconciled(v, log, submitted) && CanStep(v, Op.Resume(order)) && v.paused && !Cyclic(v.edges)
    ensures Reconciled(Next(v, Op.Resume(order)), log + Applies(v, Op.Resume(order)), submitted)
  {
    OffsetsOfNone();
    BagOffsets(order, v.buffer);
    NewOnesAreNew(v.applied, order);
  }

  /**
    While every resume finds the graph acyclic, each submitted offset is applied or still buffered, and
    outside a pause nothing is buffered, so everything submitted has been applied.
   */
  lemma {:induction false} NothingIsSkipped(ops: seq<Op>)
    requires Legal(ops) && ResumesAcyclic(ops)
    ensures Reconciled(Run(ops), Log(ops), Submitted(ops))
    decreases |ops|
  {
    OffsetsOfNone();
    if ops != [] {
      NothingIsSkipped(Front(ops));
      var v, log, submitted := Run(Front(ops)), Log(Front(ops)), Submitted(Front(ops));
      match Last(ops)
      case Process(_) => SubmitKeeps(v, log, submitted, Last(ops));
      case ApplyNow(_) => SubmitKeeps(v, log, submitted, Last(ops));
      case Resume(order) => if v.paused { ResumeKeeps(v, log, submitted, order); }
      case _ =>
    }
  }

  // The same submissions without any pause.
  function PauseFree(ops: seq<Op>): seq<Op> {
    if ops == [] then []
    else if Last(ops).Pause? || Last(ops).Resume? then PauseFree(Front(ops))
    else PauseFree(Front(ops)) + [Last(ops)]
  }

  lemma {:induction false} PauseFreeRun(ops: seq<Op>)
    ensures Legal(PauseFree(ops)) && ResumesAcyclic(PauseFree(ops))
    ensures !Run(PauseFree(ops)).paused
    ensures Submitted(PauseFree(ops)) == Submitted(ops)
    decreases |ops|
  {
    if ops != [] {
      PauseFreeRun(Front(ops));
      if !Last(ops).Pause? && !Last(ops).Resume? {
        var rest := PauseFree(Front(ops));
        assert PauseFree(ops) == rest + [Last(ops)];
        assert Front(rest + [Last(ops)]) == rest && Last(rest + [Last(ops)]) == Last(ops);
        assert !Next(Run(rest), Last(ops)).paused;
      }
    }
  }

  lemma {:induction false} DistinctCounts(evs: seq<Event>, ev: Event)
    requires DistinctOffsets(evs)
    ensures multiset(evs)[ev] == if ev in evs then 1 else 0
    decreases |evs|
  {
    if evs != [] {
      var front, last := Front(evs), Last(evs);
      assert evs == front + [last];
      DistinctCounts(front, ev);
      assert forall i :: 0 <= i < |front| ==> evs[i].offset != evs[|evs| - 1].offset;
    }
  }

  ghost predicate OneEventPerOffset(evs: seq<Event>) {
    forall d, e :: d in evs && e in evs && d.offset == e.offset ==> d == e
  }

  lemma SameBag(a: seq<Event>, b: seq<Event>, all: seq<Event>)
    requires DistinctOffsets(a) && DistinctOffsets(b) && OneEventPerOffset(all)
    requires forall ev :: ev in a || ev in b ==> ev in all
    requires Offsets(a) == Offsets(b)
    ensures multiset(a) == multiset(b)
  {
    forall ev
      ensures multiset(a)[ev] == multiset(b)[ev]
    {
      DistinctCounts(a, ev);
      DistinctCounts(b, ev);
      if ev in a {
        assert ev.offset in Offsets(b);
      }
      if ev in b {
        assert ev.offset in Offsets(a);
      }
    }
  }

  /**
    With one event per offset, a run that ends outside a pause has applied a permutation of what the same
    submissions apply when nothing is ever paused.
   */
  lemma {:induction false} PauseChangesNothing(ops: seq<Op>)
    requires Legal(ops) && ResumesAcyclic(ops) && !Run(ops).paused
    requires OneEventPerOffset(Submitted(ops))
    ensures multiset(Log(ops)) == multiset(Log(PauseFree(ops)))
  {
    OffsetsOfNone();
    PauseFreeRun(ops);
    NothingIsSkipped(ops);
    NothingIsSkipped(PauseFree(ops));
    AppliedExactlyOnce(ops);
    AppliedExactlyOnce(PauseFree(ops));
    SameBag(Log(ops), Log(PauseFree(ops)), Submitted(ops));
  }

  ghost predicate Increasing(evs: seq<Event>) {
    forall i, j :: 0 <= i < j < |evs| ==> evs[i].offset < evs[j].offset
  }

  lemma IncreasingOfMore(evs: seq<Event>, ev: Event)
    requires Increasing(evs) && forall e :: e in evs ==> e.offset < ev.offset
    ensures Increasing(evs + [ev])
  {
    assert forall i :: 0 <= i < |evs| ==> evs[i] in evs;
  }

  /** Buffered events are replayed in strictly increasing offset order. */
  lemma {:induction false} ReplayIsOrdered(applied: set<int>, order: seq<Event>)
    requires SortedBy(order, Offset)
    ensures Increasing(NewOnes(applied, order))
    decreases |order|
  {
    if order != [] {
      hide Increasing, SortedBy, Offsets;
      var before := NewOnes(applied, Front(order));
      SortedFront(order);
      ReplayIsOrdered(applied, Front(order));
      NewOnesAreNew(applied, Front(order));
      if Last(order).offset !in applied + Offsets(before) {
        EarlierOffsets(before, Last(order));
        IncreasingOfMore(before, Last(order));
      }
    }
  }

  lemma EarlierOffsets(evs: seq<Event>, ev: Event)
    requires ev.offset !in Offsets(evs) && forall e :: e in evs ==> e.offset <= ev.offset
    ensures forall e :: e in evs ==> e.offset < ev.offset
  {
    assert forall e :: e in evs ==> e.offset in Offsets(evs);
  }

  lemma SortedFront(order: seq<Event>)
    requires SortedBy(order, Offset) && order != []
    ensures SortedBy(Front(order), Offset)
    ensures forall ev :: ev in Front(order) ==> ev.offset <= Last(order).offset
  {
    forall i, j | 0 <= i < j < |Front(order)|
      ensures Offset(Front(order)[i]) <= Offset(Front(order)[j])
    {
      assert Offset(order[i]) <= Offset(order[j]);
    }
    forall ev | ev in Front(order)
      ensures ev.offset <= Last(order).offset
    {
      var k :| 0 <= k < |Front(order)| && Front(order)[k] == ev;
      assert Offset(order[k]) <= Offset(order[|order| - 1]);
    }
  }

  /**
    Resuming delivers everything it took out of the buffer exactly when the graph is acyclic, or when the
    buffered offsets had all been applied on another path; otherwise the rest of the buffer is dropped.
   */
  lemma ResumeLosesOnCycle(v: TopologyState, order: seq<Event>)
    requires v.paused && CanStep(v, Op.Resume(order))
    ensures Offsets(v.buffer) <= Next(v, Op.Resume(order)).applied <==>
      !Cyclic(v.edges) || Offsets(v.buffer) <= v.applied
    ensures Next(v, Op.Resume(order)).buffer == []
  {
    OffsetsOfNone();
    if !Cyclic(v.edges) {
      BagOffsets(order, v.buffer);
      NewOnesAreNew(v.applied, order);
    }
  }

  lemma SelfLoopIsCycle(name: string)
    ensures Cyclic([Edge(name, name)])
  {
    assert IsCycle([Edge(name, name)], [name, name]);
  }

  /** Such a loss is reachable: a submitted event that a resume drops is neither applied nor buffered afterwards. */
  lemma CycleLosesEvent(name: string, ev: Event)
    ensures
      var ops := [Op.AddOperator(name), Op.Connect(name, name), Op.Pause, Op.Process(ev), Op.Resume([])];
      Legal(ops) && ev in Submitted(ops) && Log(ops) == [] && Run(ops).buffer == [] && !Run(ops).paused
  {
    var s1 := EMPTY.(operators := {name});
    var s2 := s1.(edges := [Edge(name, name)]);
    var s3 := s2.(paused := true);
    var s4 := s3.(buffer := [ev]);
    SelfLoopIsCycle(name);
    NothingReached();
    QuietNext(EMPTY, Op.AddOperator(name), s1);
    QuietNext(s1, Op.Connect(name, name), s2);
    QuietNext(s2, Op.Pause, s3);
    QuietNext(s3, Op.Process(ev), s4);
    QuietNext(s4, Op.Resume([]), s2);
    hide Next, Applies, CanStep, Cyclic, Reaches;
    var ops1 := [] + [Op.AddOperator(name)];
    var ops2 := ops1 + [Op.Connect(name, name)];
    var ops3 := ops2 + [Op.Pause];
    Extends([], EMPTY, [], [], Op.AddOperator(name), s1);
    Extends(ops1, s1, [], [], Op.Connect(name, name), s2);
    Extends(ops2, s2, [], [], Op.Pause, s3);
    Extends(ops3, s3, [], [], Op.Process(ev), s4);
    Extends(ops3 + [Op.Process(ev)], s4, [], [ev], Op.Resume([]), s2);
    ReachesMeans(ops3 + [Op.Process(ev)] + [Op.Resume([])], s2, [], [ev]);
    assert ops3 + [Op.Process(ev)] + [Op.Resume([])] ==
      [Op.AddOperator(name), Op.Connect(name, name), Op.Pause, Op.Process(ev), Op.Resume([])];
  }

  lemma NothingReached()
    ensures Reaches([], EMPTY, [], [])
  {
  }

  // A step that applies nothing.
  lemma QuietNext(v: TopologyState, op: Op, w: TopologyState)
    requires Applies(v, op) == [] && w == Next(v, op).(applied := v.applied)
    requires !op.Resume? || Cyclic(v.edges)
    ensures CanStep(v, op) && w == Next(v, op)
  {
    OffsetsOfNone();
  }

  lemma ReachesMeans(ops: seq<Op>, v: TopologyState, log: seq<Event>, submitted: seq<Event>)
    requires Reaches(ops, v, log, submitted)
    ensures Legal(ops) && Run(ops) == v && Log(ops) == log && Submitted(ops) == submitted
  {
  }

  // A legal run, with where it leads, what it applied and what was submitted to it.
  ghost predicate Reaches(ops: seq<Op>, v: TopologyState, log: seq<Event>, submitted: seq<Event>) {
    Legal(ops) && Run(ops) == v && Log(ops) == log && Submitted(ops) == submitted
  }

  lemma Extends(ops: seq<Op>, v: TopologyState, log: seq<Event>, submitted: seq<Event>, op: Op, w: TopologyState)
    requires Reaches(ops, v, log, submitted) && CanStep(v, op) && w == Next(v, op)
    ensures Reaches(ops + [op], w, log + Applies(v, op),
      if op.Process? || op.ApplyNow? then submitted + [op.ev] else submitted)
  {
    hide Next, Applies, CanStep;
    assert Front(ops + [op]) == ops;
  }

  /** A cycle, once connected, is never removed, so every later resume drops what it finds. */
  lemma {:induction false} CycleIsForever(ops: seq<Op>, more: seq<Op>)
    requires Cyclic(Run(ops).edges)
    ensures Cyclic(Run(ops + more).edges)
    decreases |more|
  {
    if more == [] {
      assert ops + more == ops;
    } else {
      assert Front(ops + more) == ops + Front(more);
      CycleIsForever(ops, Front(more));
      if Last(more).Connect? {
        CyclicStaysCyclic(Run(ops + Front(more)).edges, [Edge(Last(more).from, Last(more).to)]);
      }
    }
  }

  // ---------------------------------------------------------------------------------------
  // What the history of a run alone determines
  // ---------------------------------------------------------------------------------------

  // Some pause has no resume after it.
  ghost predicate PauseOpen(ops: seq<Op>) {
    exists i :: 0 <= i < |ops| && ops[i].Pause? && forall j :: i < j < |ops| ==> !ops[j].Resume?
  }

  // The events processed since that pause, in order.
  ghost function HeldBack(ops: seq<Op>): seq<Event> {
    if ops == [] || !PauseOpen(ops) then []
    else if Last(ops).Process? && PauseOpen(Front(ops)) then HeldBack(Front(ops)) + [Last(ops).ev]
    else HeldBack(Front(ops))
  }

  // The edges connected while both their ends were known operators, in order.
  function EdgesOf(ops: seq<Op>): seq<Edge> {
    if ops == [] then []
    else
      var before, op := EdgesOf(Front(ops)), Last(ops);
      if op.Connect? && Op.AddOperator(op.from) in Front(ops) && Op.AddOperator(op.to) in Front(ops) then
        before + [Edge(op.from, op.to)]
      else before
  }

  lemma PauseSnoc(ops: seq<Op>, op: Op)
    ensures PauseOpen(ops + [op]) <==> op.Pause? || (PauseOpen(ops) && !op.Resume?)
    ensures !PauseOpen([])
  {
    var more := ops + [op];
    assert more[|ops|] == op && forall i :: 0 <= i < |ops| ==> more[i] == ops[i];
    if op.Pause? {
      assert more[|ops|].Pause?;
    } else if PauseOpen(ops) && !op.Resume? {
      var i :| 0 <= i < |ops| && ops[i].Pause? && forall j :: i < j < |ops| ==> !ops[j].Resume?;
      assert more[i].Pause? && forall j :: i < j < |more| ==> !more[j].Resume?;
    }
  }

  /**
    The manager is paused exactly when some pause has no resume after it, and then its buffer holds what was
    processed since; its operators are the ones added, and its edges those connected between known ones.
   */
  lemma {:induction false} ManagerHistory(ops: seq<Op>)
    ensures Run(ops).paused <==> PauseOpen(ops)
    ensures Run(ops).buffer == HeldBack(ops)
    ensures forall name :: name in Run(ops).operators <==> Op.AddOperator(name) in ops
    ensures Run(ops).edges == EdgesOf(ops)
    decreases |ops|
  {
    if ops != [] {
      hide PauseOpen, Applies;
      var front, op := Front(ops), Last(ops);
      FrontThenLast(ops);
      ManagerHistory(front);
      PauseSnoc(front, op);
      forall name
        ensures name in Run(ops).operators <==> Op.AddOperator(name) in ops
      {
        OneMoreOperator(Run(front), op, name);
      }
      OneMoreEdge(Run(front), op);
      hide Next;
      OneMoreBuffered(Run(front), op);
    }
  }

  lemma OneMoreEdge(v: TopologyState, op: Op)
    ensures Next(v, op).edges ==
      if op.Connect? && op.from in v.operators && op.to in v.operators then v.edges + [Edge(op.from, op.to)]
      else v.edges
  {
    hide Applies;
  }

  lemma OneMoreOperator(v: TopologyState, op: Op, name: string)
    ensures name in Next(v, op).operators <==> name in v.operators || op == Op.AddOperator(name)
  {
    hide Applies;
  }

  lemma OneMoreBuffered(v: TopologyState, op: Op)
    ensures Next(v, op).paused <==> op.Pause? || (v.paused && !op.Resume?)
    ensures Next(v, op).buffer ==
      if op.Resume? && v.paused then [] else if op.Process? && v.paused then v.buffer + [op.ev] else v.buffer
  {
    hide Applies;
  }

  // None of the events has this offset.
  ghost predicate IsNew(evs: seq<Event>, offset: int) {
    forall ev :: ev in evs ==> ev.offset != offset
  }

  /**
    Which events one more operation lets through: a processed event at once, unless a pause is open or its
    offset has been let through before; an event applied out of band even then; and a resume what was held
    back since the pause and is new, in offset order, unless the graph has a cycle. Nothing else does.
   */
  lemma {:induction false} LetThrough(ops: seq<Op>, op: Op) returns (more: seq<Event>)
    requires Legal(ops + [op])
    ensures Log(ops + [op]) == Log(ops) + more
    ensures op.Process? ==> more == if !PauseOpen(ops) && IsNew(Log(ops), op.ev.offset) then [op.ev] else []
    ensures op.ApplyNow? ==> more == if IsNew(Log(ops), op.ev.offset) then [op.ev] else []
    ensures op.Resume? && PauseOpen(ops) && !Cyclic(Run(ops).edges) ==>
      && Increasing(more)
      && (forall ev :: ev in more ==> ev in HeldBack(ops))
      && Offsets(more) == Offsets(HeldBack(ops)) - Offsets(Log(ops))
    ensures op.Resume? && (!PauseOpen(ops) || Cyclic(Run(ops).edges)) ==> more == []
    ensures !op.Process? && !op.ApplyNow? && !op.Resume? ==> more == []
  {
    hide Increasing, Cyclic, PauseOpen, HeldBack, SortedBy;
    assert Front(ops + [op]) == ops;
    ManagerHistory(ops);
    AppliedExactlyOnce(ops);
    more := Applies(Run(ops), op);
    if op.Process? || op.ApplyNow? {
      NewOneOf(Run(ops).applied, op.ev);
      NewByOffset(Log(ops), op.ev.offset);
    } else if op.Resume? && Run(ops).paused && !Cyclic(Run(ops).edges) {
      ReplayIsOrdered(Run(ops).applied, op.order);
      NewOnesAreNew(Run(ops).applied, op.order);
      BagOffsets(op.order, Run(ops).buffer);
    }
  }

  lemma NewByOffset(evs: seq<Event>, offset: int)
    ensures IsNew(evs, offset) <==> offset !in Offsets(evs)
  {
  }
}
