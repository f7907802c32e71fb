/** Checkpoint coordination: consistent captures, commits, restores and the source position. */
module Checkpointing {
  import opened Model
  import opened StateBackend
  import OutputSink

  class OffsetTracker {
    var committed: int

    constructor (start: int)
      ensures committed == start
    {
      committed := start;
    }

    method Commit(offset: int)
      modifies this
      ensures committed == Max(old(committed), offset)
    {
      if offset > committed {
        committed := offset;
      }
    }
  }

  // ---------------------------------------------------------------------------------------
  // Captures under interference
  // ---------------------------------------------------------------------------------------

  // What other threads do to the store around one iteration of the capture loop: before its version
  // is read, and between that read and the capture. They may mutate it, and even restore it.
  datatype Gap = Gap(beforeVersion: seq<Op>, beforeCapture: seq<Op>)

  ghost predicate OnlyMutations(ops: seq<Op>) {
    forall op :: op in ops ==> op.Apply? || op.Record?
  }

  ghost predicate Interference(gaps: seq<Gap>) {
    forall gap :: gap in gaps ==> OnlyMutations(gap.beforeVersion) && OnlyMutations(gap.beforeCapture)
  }

  function GapAt(gaps: seq<Gap>, i: nat): Gap {
    if i < |gaps| then gaps[i] else Gap([], [])
  }

  // Everything that happens to the store up to the capture of iteration i.
  function UntilCapture(gaps: seq<Gap>, i: nat): seq<Op> {
    Attempts(gaps, i) + GapAt(gaps, i).beforeVersion + GapAt(gaps, i).beforeCapture
  }

  // The first `attempts` iterations in full; each capture resets the journal.
  function Attempts(gaps: seq<Gap>, attempts: nat): seq<Op> {
    if attempts == 0 then []
    else
      var gap := GapAt(gaps, attempts - 1);
      Attempts(gaps, attempts - 1) + gap.beforeVersion + gap.beforeCapture + [TakeSnapshot]
  }

  lemma {:induction false} MutationsCount(s: StateView, ops: seq<Op>)
    requires OnlyMutations(ops)
    ensures Run(s, ops).seqno == s.seqno + |ops|
    decreases |ops|
  {
    if ops != [] {
      MutationsCount(s, Front(ops));
    }
  }

  lemma {:induction false} AttemptsDoNotRestore(gaps: seq<Gap>, attempts: nat)
    requires Interference(gaps)
    ensures NoRestore(Attempts(gaps, attempts))
  {
    if attempts > 0 {
      AttemptsDoNotRestore(gaps, attempts - 1);
      var gap := GapAt(gaps, attempts - 1);
      assert OnlyMutations(gap.beforeVersion) && OnlyMutations(gap.beforeCapture);
    }
  }

  lemma AttemptExtends(s: StateView, gaps: seq<Gap>, i: nat)
    ensures
      var gap := GapAt(gaps, i);
      Run(s, UntilCapture(gaps, i)) == Run(Run(s, Attempts(gaps, i)), gap.beforeVersion + gap.beforeCapture)
    ensures Run(s, Attempts(gaps, i + 1)) == Run(s, UntilCapture(gaps, i)).JournalReset()
  {
    var gap := GapAt(gaps, i);
    assert UntilCapture(gaps, i) == Attempts(gaps, i) + (gap.beforeVersion + gap.beforeCapture);
    RunOfConcat(s, Attempts(gaps, i), gap.beforeVersion + gap.beforeCapture);
    assert Front(Attempts(gaps, i + 1)) == UntilCapture(gaps, i);
  }

  // The fence of iteration i: the capture shows the sequence number that was read before it.
  ghost predicate FencePasses(s: StateView, gaps: seq<Gap>, i: nat) {
    Run(s, UntilCapture(gaps, i)).seqno == Run(s, Attempts(gaps, i) + GapAt(gaps, i).beforeVersion).seqno
  }

  lemma FenceOfAttempt(s: StateView, gaps: seq<Gap>, i: nat)
    ensures
      var t, gap := Run(s, Attempts(gaps, i)), GapAt(gaps, i);
      FencePasses(s, gaps, i) <==>
        Run(t, gap.beforeVersion + gap.beforeCapture).seqno == Run(t, gap.beforeVersion).seqno
    ensures i >= |gaps| ==> FencePasses(s, gaps, i)
  {
    var gap := GapAt(gaps, i);
    AttemptExtends(s, gaps, i);
    RunOfConcat(s, Attempts(gaps, i), gap.beforeVersion);
    if i >= |gaps| {
      assert UntilCapture(gaps, i) == Attempts(gaps, i) + gap.beforeVersion;
    }
  }

  /** Under mutations alone the fence passes exactly when none came between the read and the capture. */
  lemma FenceOfMutations(s: StateView, gaps: seq<Gap>, i: nat)
    requires Interference(gaps)
    ensures FencePasses(s, gaps, i) <==> GapAt(gaps, i).beforeCapture == []
  {
    var t, gap := Run(s, Attempts(gaps, i)), GapAt(gaps, i);
    FenceOfAttempt(s, gaps, i);
    RunOfConcat(t, gap.beforeVersion, gap.beforeCapture);
    assert OnlyMutations(gap.beforeCapture);
    MutationsCount(Run(t, gap.beforeVersion), gap.beforeCapture);
  }

  datatype CoordinatorView = CoordinatorView(
    sink: OutputSink.SinkView, position: int, lastCommitted: int, attempts: int)
  {
    function Committed(offset: int): CoordinatorView {
      CoordinatorView(sink.Flushed(offset), Max(position, offset), offset, attempts)
    }

    function Restored(offset: int): CoordinatorView {
      this.(position := Max(position, offset), lastCommitted := offset)
    }
  }

  class Coordinator {
    const store: Store
    const sink: OutputSink.Sink
    const offsets: OffsetTracker
    var lastCommitted: int
    var attempts: int

    ghost predicate Valid()
      reads this, sink
    {
      sink.Valid()
    }

    ghost function View(): CoordinatorView
      reads this, sink, sink.pending, offsets
      requires Valid()
    {
      CoordinatorView(sink.View(), offsets.committed, lastCommitted, attempts)
    }

    constructor (store: Store, sink: OutputSink.Sink, offsets: OffsetTracker)
      requires sink.Valid()
      ensures Valid() && this.store == store && this.sink == sink && this.offsets == offsets
      ensures lastCommitted == 0 && attempts == 0
    {
      this.store, this.sink, this.offsets := store, sink, offsets;
      lastCommitted, attempts := 0, 0;
    }

    // Applies what another thread does to the store.
    method Interfere(ops: seq<Op>)
      modifies store
      ensures store.View() == Run(old(store.View()), ops)
    {
      for i := 0 to |ops|
        invariant store.View() == Run(old(store.View()), ops[..i])
      {
        assert Front(ops[..i + 1]) == ops[..i];
        match ops[i] {
          case Apply(deltas) => store.ApplyRound(deltas);
          case Record(key, value) => store.Record(key, value);
          case TakeSnapshot => var theirs := store.TakeSnapshot();
          case Restore(snap) => store.RestoreSnapshot(snap);
        }
      }
      assert ops[..|ops|] == ops;
    }

    // A version read, a capture and the test that compares their sequence numbers.
    method Attempt(gap: Gap) returns (snap: Snapshot, stable: bool)
      modifies store
      ensures snap == Run(old(store.View()), gap.beforeVersion + gap.beforeCapture).Captured()
      ensures store.View() == Run(old(store.View()), gap.beforeVersion + gap.beforeCapture).JournalReset()
      ensures stable <==> snap.seqno == Run(old(store.View()), gap.beforeVersion).seqno
    {
      Interfere(gap.beforeVersion);
      var before := store.Version();
      Interfere(gap.beforeCapture);
      RunOfConcat(old(store.View()), gap.beforeVersion, gap.beforeCapture);
      snap := store.TakeSnapshot();
      stable := snap.seqno == before;
    }

    // Iteration i of the capture loop, started on a store that was `s` before the first one.
    method Iterate(ghost s: StateView, gaps: seq<Gap>, i: nat) returns (snap: Snapshot, stable: bool)
      requires store.View() == Run(s, Attempts(gaps, i))
      modifies store
      ensures snap == Run(s, UntilCapture(gaps, i)).Captured()
      ensures store.View() == Run(s, Attempts(gaps, i + 1))
      ensures stable <==> FencePasses(s, gaps, i)
      ensures i >= |gaps| ==> stable
    {
      AttemptExtends(s, gaps, i);
      FenceOfAttempt(s, gaps, i);
      hide FencePasses, Run, Attempts, UntilCapture;
      snap, stable := Attempt(GapAt(gaps, i));
    }

    /**
      Captures until the fence passes. `gaps` is what other threads happen to do meanwhile; `last` is the
      iteration that returns.
     */
    method SnapshotState(gaps: seq<Gap>) returns (snap: Snapshot, ghost last: nat)
      modifies store
      ensures snap == Run(old(store.View()), UntilCapture(gaps, last)).Captured()
      ensures store.View() == Run(old(store.View()), Attempts(gaps, last + 1))
      ensures FencePasses(old(store.View()), gaps, last)
      ensures forall i :: 0 <= i < last ==> !FencePasses(old(store.View()), gaps, i)
    {
      ghost var s := store.View();
      assert Run(s, Attempts(gaps, 0)) == s;
      hide *;
      var i := 0;
      while true
        invariant store.View() == Run(s, Attempts(gaps, i))
        invariant forall j :: 0 <= j < i ==> !FencePasses(s, gaps, j)
        decreases |gaps| - i
      {
        var stable: bool;
        snap, stable := Iterate(s, gaps, i);
        if stable {
          return snap, i;
        }
        i := i + 1;
      }
    }

    /** The sink is flushed before the source position moves. */
    method Commit(offset: int)
      requires Valid()
      modifies this, sink, sink.pending, offsets
      ensures Valid() && sink.pending == old(sink.pending)
      ensures View() == old(View()).Committed(offset)
    {
      sink.CommitUpTo(offset);
      lastCommitted := offset;
      offsets.Commit(offset);
    }

    /** Returns the offset the caller's replay starts from, whatever offset the failed attempt had. */
    method Retry(failedAttemptOffset: int) returns (from: int)
      modifies this`attempts
      ensures from == lastCommitted
      ensures attempts == old(attempts) + 1
    {
      from := lastCommitted;
      attempts := attempts + 1;
    }

    method Restore(snap: Snapshot, offset: int)
      requires Valid()
      modifies this, store, offsets
      ensures Valid()
      ensures store.View() == old(store.View()).Restored(snap)
      ensures View() == old(View()).Restored(offset)
    {
      store.RestoreSnapshot(snap);
      lastCommitted := offset;
      offsets.Commit(offset);
    }
  }

  /**
    However many captures the loop threw away, each resetting the journal, the one it returns shows the
    store at the instant its version was read, contains every increment made until then, and restoring
    it after further increments loses none of them.
   */
  lemma CaptureLosesNothing(s: StateView, gaps: seq<Gap>, last: nat, more: seq<Op>)
    requires Interference(gaps) && FencePasses(s, gaps, last)
    requires NoCapture(more)
    ensures
      var snap := Run(s, UntilCapture(gaps, last)).Captured();
      var now := Run(Run(s, Attempts(gaps, last + 1)), more);
      && snap == Run(s, Attempts(gaps, last) + GapAt(gaps, last).beforeVersion).Captured()
      && snap.data == Merge(s.data, Increments(UntilCapture(gaps, last)))
      && now.Restored(snap).data == now.data
      && now.data == Merge(s.data, Increments(UntilCapture(gaps, last) + more))
  {
    var until := UntilCapture(gaps, last);
    FenceOfMutations(s, gaps, last);
    assert until == Attempts(gaps, last) + GapAt(gaps, last).beforeVersion;
    assert Front(Attempts(gaps, last + 1)) == until;
    AttemptsDoNotRestore(gaps, last);
    assert OnlyMutations(GapAt(gaps, last).beforeVersion);
    IncrementsAccumulate(s, until);
    RestoringLatestIsIdentity(Run(s, until), more);
    IncrementsAccumulate(Run(s, until).JournalReset(), more);
    IncrementsAccumulate(Run(s, until), more);
    RunOfConcat(s, until, more);
    IncrementsAccumulate(s, until + more);
  }

  function Mutations(ops: seq<Op>): nat {
    if ops == [] then 0 else Mutations(Front(ops)) + if Last(ops).Apply? || Last(ops).Record? then 1 else 0
  }

  lemma {:induction false} SequenceCounts(s: StateView, ops: seq<Op>)
    requires NoRestore(ops)
    ensures Run(s, ops).seqno == s.seqno + Mutations(ops)
    decreases |ops|
  {
    if ops != [] {
      SequenceCounts(s, Front(ops));
    }
  }

  // Interference that restores the store at all has a last restore.
  lemma {:induction false} LastRestore(ops: seq<Op>) returns (before: seq<Op>, snap: Snapshot, after: seq<Op>)
    requires !NoRestore(ops)
    ensures ops == before + [Restore(snap)] + after && NoRestore(after)
    decreases |ops|
  {
    if Last(ops).Restore? {
      before, snap, after := Front(ops), Last(ops).snap, [];
    } else {
      assert ops == Front(ops) + [Last(ops)];
      before, snap, after := LastRestore(Front(ops));
      after := after + [Last(ops)];
    }
  }

  /**
    The fence compares sequence numbers only, and a restore can set the sequence back. Whatever happens
    between the version read and the capture, if the last restore in it is to `snap`, the fence passes
    exactly when the snapshot's number, one, and the mutations after the restore add up to the version
    read. What is then returned as the state at that version is the snapshot with the journal at the
    restore and the increments after it.
   */
  lemma {:induction false} FenceMissesRestore(s: StateView, before: seq<Op>, snap: Snapshot, after: seq<Op>)
    requires NoRestore(after)
    ensures
      var captured := Run(s, before + [Restore(snap)] + after).Captured();
      && (captured.seqno == s.seqno <==> snap.seqno + 1 + Mutations(after) == s.seqno)
      && captured.data == Merge(Merge(snap.data, Run(s, before).pending), Increments(after))
  {
    assert Front(before + [Restore(snap)]) == before;
    RunOfConcat(s, before + [Restore(snap)], after);
    SequenceCounts(Run(s, before).Restored(snap), after);
    IncrementsAccumulate(Run(s, before).Restored(snap), after);
  }

  /** Without a restore in between, the fence passes exactly when nothing was mutated, and then nothing is amiss. */
  lemma FenceWithoutRestore(s: StateView, between: seq<Op>)
    requires NoRestore(between)
    ensures Run(s, between).Captured().seqno == s.seqno <==> Mutations(between) == 0
    ensures Mutations(between) == 0 ==> Run(s, between).Captured().data == s.data
  {
    SequenceCounts(s, between);
    UnmutatedData(s, between);
  }

  /**
    So, for any interference whatever in any iteration of the capture loop, exactly when the fence passes and what
    it lets through. Either nothing restored the store between the version read and the capture: then it passes
    if and only if nothing mutated it either, and the capture is the data of the version read. Or there was a last
    restore: then it passes if and only if the numbers happen to add up, and the capture is the data restored.
   */
  lemma FenceExactly(s: StateView, gaps: seq<Gap>, i: nat)
    returns (before: seq<Op>, snap: Snapshot, after: seq<Op>)
    ensures
      var read, between := Run(s, Attempts(gaps, i) + GapAt(gaps, i).beforeVersion), GapAt(gaps, i).beforeCapture;
      var captured := Run(s, UntilCapture(gaps, i)).Captured();
      if NoRestore(between) then
        && (FencePasses(s, gaps, i) <==> Mutations(between) == 0)
        && (FencePasses(s, gaps, i) ==> captured.data == read.data)
      else
        && between == before + [Restore(snap)] + after && NoRestore(after)
        && (FencePasses(s, gaps, i) <==> snap.seqno + 1 + Mutations(after) == read.seqno)
        && captured.data == Merge(Merge(snap.data, Run(read, before).pending), Increments(after))
  {
    hide Run, Merge, Mutations, Increments, Attempts;
    var read, between := Run(s, Attempts(gaps, i) + GapAt(gaps, i).beforeVersion), GapAt(gaps, i).beforeCapture;
    RunOfConcat(s, Attempts(gaps, i) + GapAt(gaps, i).beforeVersion, between);
    if NoRestore(between) {
      FenceWithoutRestore(read, between);
      before, snap, after := [], read.Captured(), [];
    } else {
      before, snap, after := LastRestore(between);
      FenceMissesRestore(read, before, snap, after);
    }
  }

  lemma {:induction false} UnmutatedData(s: StateView, ops: seq<Op>)
    requires NoRestore(ops)
    ensures Mutations(ops) == 0 ==> Run(s, ops).data == s.data
    decreases |ops|
  {
    if ops != [] {
      UnmutatedData(s, Front(ops));
    }
  }

  /**
    An unnoticed restore that loses data: a round, a capture the loop discards, a second round and the
    version read; then a restore to a snapshot from before all this and a third round. The fence passes,
    and the capture returned lacks the first round.
   */
  lemma UnnoticedRestore(s: StateView, first: Totals, second: Totals, third: Totals)
    ensures
      var read := Run(s.JournalReset(), [Apply(first), TakeSnapshot, Apply(second)]);
      var captured := Run(read, [Restore(s.Captured()), Apply(third)]).Captured();
      && captured.seqno == read.seqno
      && read.data == Merge(s.data, Merge(first, second))
      && captured.data == Merge(s.data, Merge(second, third))
  {
    var s0, snap := s.JournalReset(), s.Captured();
    var s1 := s0.Applied(first).JournalReset();
    var ops := [Apply(first), TakeSnapshot, Apply(second)];
    assert Front(ops) == [Apply(first), TakeSnapshot];
    assert Front(Front(ops)) == [Apply(first)] && Front([Apply(first)]) == [];
    assert Run(s0, [Apply(first)]) == Next(Run(s0, []), Apply(first)) == s0.Applied(first);
    assert Run(s0, Front(ops)) == s1;
    var read := s1.Applied(second);
    assert Run(s0, ops) == read;
    assert Front([Restore(snap), Apply(third)]) == [Restore(snap)] && Front([Restore(snap)]) == [];
    assert Run(read, [Restore(snap)]) == Next(Run(read, []), Restore(snap)) == read.Restored(snap);
    assert Run(read, [Restore(snap), Apply(third)]) == read.Restored(snap).Applied(third);
    MergeEmpty(second);
    MergeAssociates(s.data, first, second);
    MergeAssociates(s.data, second, third);
  }

  // ---------------------------------------------------------------------------------------
  // Runs of the coordinator
  // ---------------------------------------------------------------------------------------

  datatype CoordinatorOp =
    | Emitted(key: string, value: int)  // the pipeline writes a record to the sink
    | Commit(offset: int)
    | RestoreTo(offset: int)
    | Retry

  function NextView(v: CoordinatorView, op: CoordinatorOp): CoordinatorView {
    match op
    case Emitted(key, value) => v.(sink := v.sink.Written(key, value))
    case Commit(offset) => v.Committed(offset)
    case RestoreTo(offset) => v.Restored(offset)
    case Retry => v.(attempts := v.attempts + 1)
  }

  function RunView(start: int, ops: seq<CoordinatorOp>): CoordinatorView {
    if ops == [] then CoordinatorView(OutputSink.EMPTY, start, 0, 0)
    else NextView(RunView(start, Front(ops)), Last(ops))
  }

  predicate MovesTo(op: CoordinatorOp, offset: int) {
    (op.Commit? || op.RestoreTo?) && op.offset == offset
  }

  // The offset of the latest commit or restore; zero before the first.
  function LatestOffset(ops: seq<CoordinatorOp>): int {
    if ops == [] then 0
    else if Last(ops).Commit? || Last(ops).RestoreTo? then Last(ops).offset
    else LatestOffset(Front(ops))
  }

  function Retries(ops: seq<CoordinatorOp>): nat {
    if ops == [] then 0 else Retries(Front(ops)) + if Last(ops).Retry? then 1 else 0
  }

  // The coordinator's flushes and writes, as the sink sees them.
  function SinkOps(ops: seq<CoordinatorOp>): seq<OutputSink.Op> {
    if ops == [] then []
    else if Last(ops).Emitted? then SinkOps(Front(ops)) + [OutputSink.Write(Last(ops).key, Last(ops).value)]
    else if Last(ops).Commit? then SinkOps(Front(ops)) + [OutputSink.CommitUpTo(Last(ops).offset)]
    else SinkOps(Front(ops))
  }

  /**
    The source position is the greatest offset ever committed or restored to, so it never lags the last
    committed offset, although that one may move back; replays start from the latter, and are counted.
   */
  lemma {:induction false} PositionNeverLags(start: int, ops: seq<CoordinatorOp>)
    requires start >= 0
    ensures
      var v := RunView(start, ops);
      && v.lastCommitted == LatestOffset(ops) && v.attempts == Retries(ops)
      && v.lastCommitted <= v.position
      && start <= v.position
      && (v.position == start || exists op :: op in ops && MovesTo(op, v.position))
      && (forall op :: op in ops && (op.Commit? || op.RestoreTo?) ==> op.offset <= v.position)
    decreases |ops|
  {
    if ops != [] {
      PositionNeverLags(start, Front(ops));
      var op, before, after := Last(ops), RunView(start, Front(ops)), RunView(start, ops);
      assert ops == Front(ops) + [op];
      if after.position != before.position {
        assert op in ops && MovesTo(op, after.position);
      } else if before.position != start {
        var o :| o in Front(ops) && MovesTo(o, before.position);
        assert o in ops;
      }
    }
  }

  /** The sink holds what the coordinator's writes and commits, in that order, make of it. */
  lemma {:induction false} SinkSeesCommits(start: int, ops: seq<CoordinatorOp>)
    ensures RunView(start, ops).sink == OutputSink.Run(SinkOps(ops))
    decreases |ops|
  {
    if ops != [] {
      SinkSeesCommits(start, Front(ops));
      assert Last(ops).Emitted? || Last(ops).Commit? ==> Front(SinkOps(ops)) == SinkOps(Front(ops));
    }
  }
}
