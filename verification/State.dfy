/** The keyed state backend: committed values, the increment journal, snapshots and restores. */
module StateBackend {
  import opened Model

  // Pointwise sum; a key is present when it is present on either side.
  function Merge(a: Totals, b: Totals): Totals {
    map key | key in a.Keys + b.Keys :: At(a, key) + At(b, key)
  }

  lemma MergeAssociates(a: Totals, b: Totals, c: Totals)
    ensures Merge(Merge(a, b), c) == Merge(a, Merge(b, c))
  {
  }

  lemma MergeEmpty(a: Totals)
    ensures Merge(a, map[]) == a && Merge(map[], a) == a
  {
  }

  lemma MergePlus(a: Totals, b: Totals, key: string, value: int)
    ensures Plus(Merge(a, b), key, value) == Merge(a, Plus(b, key, value))
  {
  }

  // The entries a loop over the map has visited when `todo` is still to come.
  function Visited(m: Totals, todo: set<string>): Totals {
    map key | key in m && key !in todo :: m[key]
  }

  lemma VisitedEnds(m: Totals)
    ensures Visited(m, m.Keys) == map[] && Visited(m, {}) == m
  {
  }

  lemma VisitOne(m: Totals, todo: set<string>, key: string)
    requires key in todo && key in m
    ensures Visited(m, todo - {key}) == Plus(Visited(m, todo), key, m[key])
  {
  }

  datatype Snapshot = Snapshot(data: Totals, pending: Totals, seqno: int)

  datatype StateView = StateView(data: Totals, pending: Totals, latest: Totals, applied: set<int>, seqno: int) {
    function Applied(deltas: Totals): StateView {
      this.(data := Merge(data, deltas), pending := Merge(pending, deltas), seqno := seqno + 1)
    }

    function Recorded(key: string, value: int): StateView {
      this.(latest := latest[key := value], seqno := seqno + 1)
    }

    function Captured(): Snapshot {
      Snapshot(data, pending, seqno)
    }

    function JournalReset(): StateView {
      this.(pending := map[])
    }

    function Restored(snap: Snapshot): StateView {
      this.(data := Merge(snap.data, pending), pending := map[], seqno := snap.seqno + 1)
    }
  }

  const EMPTY := StateView(map[], map[], map[], {}, 0)

  class Store {
    var data: Totals
    var pending: Totals
    var latest: Totals
    var applied: set<int>
    var seqno: int

    function View(): StateView
      reads this
    {
      StateView(data, pending, latest, applied, seqno)
    }

    constructor ()
      ensures View() == EMPTY
    {
      data, pending, latest, applied, seqno := map[], map[], map[], {}, 0;
    }

    method Apply(key: string, delta: int)
      modifies this
      ensures View() == old(View()).Applied(map[key := delta])
    {
      data := data[key := At(data, key) + delta];
      pending := pending[key := At(pending, key) + delta];
      seqno := seqno + 1;
      assert data == Merge(old(data), map[key := delta]);
      assert pending == Merge(old(pending), map[key := delta]);
    }

    method ApplyRound(deltas: Totals)
      modifies this
      ensures View() == old(View()).Applied(deltas)
    {
      hide Merge, Visited;
      var todo := deltas.Keys;
      VisitedEnds(deltas);
      MergeEmpty(data);
      MergeEmpty(pending);
      while todo != {}
        invariant todo <= deltas.Keys
        invariant data == Merge(old(data), Visited(deltas, todo))
        invariant pending == Merge(old(pending), Visited(deltas, todo))
        invariant latest == old(latest) && applied == old(applied) && seqno == old(seqno)
        decreases |todo|
      {
        var key :| key in todo;
        VisitOne(deltas, todo, key);
        MergePlus(old(data), Visited(deltas, todo), key, deltas[key]);
        MergePlus(old(pending), Visited(deltas, todo), key, deltas[key]);
        data := data[key := At(data, key) + deltas[key]];
        pending := pending[key := At(pending, key) + deltas[key]];
        todo := todo - {key};
      }
      seqno := seqno + 1;
    }

    method Record(key: string, value: int)
      modifies this
      ensures View() == old(View()).Recorded(key, value)
    {
      latest := latest[key := value];
      seqno := seqno + 1;
    }

    method TakeSnapshot() returns (snap: Snapshot)
      modifies this
      ensures snap == old(View()).Captured()
      ensures View() == old(View()).JournalReset()
    {
      snap := Snapshot(data, pending, seqno);
      pending := map[];
    }

    method RestoreSnapshot(snap: Snapshot)
      modifies this
      ensures View() == old(View()).Restored(snap)
    {
      hide Merge, Visited;
      data := snap.data;
      var todo := pending.Keys;
      VisitedEnds(pending);
      MergeEmpty(data);
      while todo != {}
        invariant todo <= pending.Keys && pending == old(pending)
        invariant data == Merge(snap.data, Visited(pending, todo))
        invariant latest == old(latest) && applied == old(applied)
        decreases |todo|
      {
        var key :| key in todo;
        VisitOne(pending, todo, key);
        MergePlus(snap.data, Visited(pending, todo), key, pending[key]);
        data := data[key := At(data, key) + pending[key]];
        todo := todo - {key};
      }
      pending := map[];
      seqno := snap.seqno + 1;
    }

    method Version() returns (version: int)
      ensures version == View().seqno
    {
      version := seqno;
    }

    method MarkApplied(offset: int)
      modifies this
      ensures View() == old(View()).(applied := old(View()).applied + {offset})
    {
      applied := applied + {offset};
    }

    method IsApplied(offset: int) returns (isApplied: bool)
      ensures isApplied <==> offset in View().applied
    {
      isApplied := offset in applied;
    }
  }

  // ---------------------------------------------------------------------------------------
  // Runs
  // ---------------------------------------------------------------------------------------

  datatype Op =
    | Apply(deltas: Totals)   // one round; a single Apply is a round of one key
    | Record(key: string, value: int)
    | TakeSnapshot
    | Restore(snap: Snapshot)

  function Next(s: StateView, op: Op): StateView {
    match op
    case Apply(deltas) => s.Applied(deltas)
    case Record(key, value) => s.Recorded(key, value)
    case TakeSnapshot => s.JournalReset()
    case Restore(snap) => s.Restored(snap)
  }

  function Run(s: StateView, ops: seq<Op>): StateView {
    if ops == [] then s else Next(Run(s, Front(ops)), Last(ops))
  }

  // The data at the latest snapshot or restore.
  function Base(s: StateView, ops: seq<Op>): Totals {
    if ops == [] then s.data
    else if Last(ops).TakeSnapshot? || Last(ops).Restore? then Run(s, ops).data
    else Base(s, Front(ops))
  }

  // Everything the rounds of a history added.
  function Increments(ops: seq<Op>): Totals {
    if ops == [] then map[]
    else if Last(ops).Apply? then Merge(Increments(Front(ops)), Last(ops).deltas)
    else Increments(Front(ops))
  }

  /** The data always equals the data at the latest snapshot or restore plus the journal, key for key. */
  lemma {:induction false} JournalCoversBase(s: StateView, ops: seq<Op>)
    requires s.pending == map[]
    ensures Run(s, ops).data == Merge(Base(s, ops), Run(s, ops).pending)
    decreases |ops|
  {
    MergeEmpty(Run(s, ops).data);
    if ops != [] {
      JournalCoversBase(s, Front(ops));
      var before := Run(s, Front(ops));
      if Last(ops).Apply? {
        MergeAssociates(Base(s, Front(ops)), before.pending, Last(ops).deltas);
      }
    }
  }

  ghost predicate NoRestore(ops: seq<Op>) {
    forall op :: op in ops ==> !op.Restore?
  }

  ghost predicate NoCapture(ops: seq<Op>) {
    forall op :: op in ops ==> !op.Restore? && !op.TakeSnapshot?
  }

  lemma {:induction false} RunOfConcat(s: StateView, a: seq<Op>, b: seq<Op>)
    ensures Run(s, a + b) == Run(Run(s, a), b)
    decreases |b|
  {
    if b == [] {
      assert a + b == a;
    } else {
      assert Front(a + b) == a + Front(b);
      RunOfConcat(s, a, Front(b));
    }
  }

  lemma {:induction false} IncrementsAccumulate(s: StateView, ops: seq<Op>)
    requires NoRestore(ops)
    ensures Run(s, ops).data == Merge(s.data, Increments(ops))
    ensures NoCapture(ops) ==> Run(s, ops).pending == Merge(s.pending, Increments(ops))
    decreases |ops|
  {
    if ops == [] {
      MergeEmpty(s.data);
      MergeEmpty(s.pending);
    } else {
      IncrementsAccumulate(s, Front(ops));
      if Last(ops).Apply? {
        MergeAssociates(s.data, Increments(Front(ops)), Last(ops).deltas);
        MergeAssociates(s.pending, Increments(Front(ops)), Last(ops).deltas);
      }
    }
  }

  // The values recorded for a key, in order.
  function RecordedValues(ops: seq<Op>, key: string): seq<int> {
    if ops == [] then []
    else if Last(ops).Record? && Last(ops).key == key then RecordedValues(Front(ops), key) + [Last(ops).value]
    else RecordedValues(Front(ops), key)
  }

  /**
    The latest value of a key is the one recorded last, and neither it nor what is marked as applied is touched by
    rounds, snapshots or restores.
   */
  lemma {:induction false} LatestIsRecorded(s: StateView, ops: seq<Op>, key: string)
    ensures
      var latest, values := Run(s, ops).latest, RecordedValues(ops, key);
      && (key in latest <==> key in s.latest || values != [])
      && (key in latest ==> latest[key] == if values != [] then Last(values) else s.latest[key])
    ensures Run(s, ops).applied == s.applied
    decreases |ops|
  {
    if ops != [] {
      hide Merge;
      LatestIsRecorded(s, Front(ops), key);
    }
  }

  /** Restoring the latest snapshot, with nothing captured or restored since, changes no value. */
  lemma {:induction false} RestoringLatestIsIdentity(s: StateView, ops: seq<Op>)
    requires NoCapture(ops)
    ensures Run(s.JournalReset(), ops).Restored(s.Captured()).data == Run(s.JournalReset(), ops).data
  {
    IncrementsAccumulate(s.JournalReset(), ops);
    MergeEmpty(Increments(ops));
  }

  /**
    Restoring an older snapshot, when a newer one was taken in between, loses exactly the increments
    made between the two: those of `between`, whatever snapshots it contains, and none of `after`.
   */
  lemma {:induction false} RestoringOlderLosesBetween(s: StateView, between: seq<Op>, after: seq<Op>)
    requires NoRestore(between) && NoCapture(after)
    ensures
      var now := Run(s.JournalReset(), between + [TakeSnapshot] + after);
      && now.data == Merge(s.data, Merge(Increments(between), Increments(after)))
      && now.Restored(s.Captured()).data == Merge(s.data, Increments(after))
  {
    var s0 := s.JournalReset();
    var s1 := Run(s0, between);
    assert Front(between + [TakeSnapshot]) == between;
    RunOfConcat(s0, between + [TakeSnapshot], after);
    IncrementsAccumulate(s0, between);
    IncrementsAccumulate(s1.JournalReset(), after);
    MergeAssociates(s.data, Increments(between), Increments(after));
    MergeEmpty(Increments(after));
  }

  /**
    The journal a snapshot returns is already contained in the data it returns: replaying it on top of
    that data changes nothing exactly when every journalled increment is zero.
   */
  lemma CapturedJournalIsNotOwed(s: StateView, ops: seq<Op>)
    requires s.pending == map[]
    ensures Run(s, ops).Captured() == Snapshot(Run(s, ops).data, Run(s, ops).pending, Run(s, ops).seqno)
    ensures
      var snap := Run(s, ops).Captured();
      Merge(snap.data, snap.pending) == snap.data <==> forall key :: key in snap.pending ==> snap.pending[key] == 0
  {
    JournalCoversBase(s, ops);
    var snap := Run(s, ops).Captured();
    assert snap.pending.Keys <= snap.data.Keys;
    if Merge(snap.data, snap.pending) == snap.data {
      forall key | key in snap.pending
        ensures snap.pending[key] == 0
      {
        assert Merge(snap.data, snap.pending)[key] == snap.data[key];
      }
    }
  }
}
