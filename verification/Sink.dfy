/** The output sink: numbered records, flushed in order up to a sequence barrier. */
module OutputSink {
  import opened Model

  datatype OutputRecord = OutputRecord(key: string, value: int, seqno: int)

  datatype SinkView = SinkView(committed: seq<OutputRecord>, pending: seq<OutputRecord>, nextSeq: int) {
    function Written(key: string, value: int): SinkView {
      this.(pending := pending + [OutputRecord(key, value, nextSeq)], nextSeq := nextSeq + 1)
    }

    function Flushed(barrier: int): SinkView {
      this.(committed := committed + UpTo(pending, barrier), pending := Beyond(pending, barrier))
    }
  }

  const EMPTY := SinkView([], [], 1)

  function UpTo(records: seq<OutputRecord>, barrier: int): seq<OutputRecord> {
    if records == [] then []
    else if Last(records).seqno <= barrier then UpTo(Front(records), barrier) + [Last(records)]
    else UpTo(Front(records), barrier)
  }

  function Beyond(records: seq<OutputRecord>, barrier: int): seq<OutputRecord> {
    if records == [] then []
    else if Last(records).seqno <= barrier then Beyond(Front(records), barrier)
    else Beyond(Front(records), barrier) + [Last(records)]
  }

  class Sink {
    // The pending buffer is a slice: `count` records at the start of a backing array.
    var pending: array<OutputRecord>
    var count: nat
    var committed: seq<OutputRecord>
    var nextSeq: int

    ghost predicate Valid()
      reads this
    {
      count <= pending.Length
    }

    ghost function View(): SinkView
      reads this, pending
      requires Valid()
    {
      SinkView(committed, pending[..count], nextSeq)
    }

    constructor ()
      ensures Valid() && fresh(pending) && View() == EMPTY
    {
      pending := new OutputRecord[0];
      count, committed, nextSeq := 0, [], 1;
    }

    method Write(key: string, value: int) returns (rec: OutputRecord)
      requires Valid()
      modifies this, pending
      ensures Valid() && (pending == old(pending) || fresh(pending))
      ensures View() == old(View()).Written(key, value)
      ensures rec == OutputRecord(key, value, old(nextSeq))
    {
      rec := OutputRecord(key, value, nextSeq);
      nextSeq := nextSeq + 1;
      if count == pending.Length {
        var larger := new OutputRecord[2 * count + 1];
        forall i | 0 <= i < count {
          larger[i] := pending[i];
        }
        pending := larger;
      }
      pending[count] := rec;
      count := count + 1;
    }

    /**
      Filters the pending slice in place: records past the barrier are moved down over the ones already
      flushed, and never over one that has not been read yet.
     */
    method CommitUpTo(barrier: int)
      requires Valid()
      modifies this, pending
      ensures Valid() && pending == old(pending)
      ensures View() == old(View()).Flushed(barrier)
    {
      ghost var unread := pending[..count];
      var kept := 0;
      for i := 0 to count
        invariant 0 <= kept <= i && pending == old(pending) && count == old(count) && nextSeq == old(nextSeq)
        invariant forall j :: i <= j < count ==> pending[j] == unread[j]
        invariant pending[..kept] == Beyond(unread[..i], barrier)
        invariant committed == old(committed) + UpTo(unread[..i], barrier)
      {
        var rec := pending[i];
        assert Front(unread[..i + 1]) == unread[..i];
        if rec.seqno <= barrier {
          committed := committed + [rec];
        } else {
          pending[kept] := rec;
          kept := kept + 1;
        }
      }
      assert unread[..count] == unread;
      count := kept;
    }
  }

  // ---------------------------------------------------------------------------------------
  // Runs
  // ---------------------------------------------------------------------------------------

  datatype Op = Write(key: string, value: int) | CommitUpTo(barrier: int)

  function Next(s: SinkView, op: Op): SinkView {
    match op
    case Write(key, value) => s.Written(key, value)
    case CommitUpTo(barrier) => s.Flushed(barrier)
  }

  function Run(ops: seq<Op>): SinkView {
    if ops == [] then EMPTY else Next(Run(Front(ops)), Last(ops))
  }

  // The write history, numbered from one in arrival order.
  function History(ops: seq<Op>): seq<OutputRecord> {
    if ops == [] then []
    else if Last(ops).Write? then
      History(Front(ops)) + [OutputRecord(Last(ops).key, Last(ops).value, |History(Front(ops))| + 1)]
    else History(Front(ops))
  }

  function Min(a: int, b: int): int {
    if a < b then a else b
  }

  // How far a barrier reaches into n numbered records of which c are already committed.
  function Reach(c: nat, n: nat, barrier: int): int {
    Max(c, Min(barrier, n))
  }

  ghost predicate Numbered(s: SinkView) {
    var all := s.committed + s.pending;
    && s.nextSeq == |all| + 1
    && (forall i :: 0 <= i < |all| ==> all[i].seqno == i + 1)
  }

  // How many of the records numbered from `first` on lie within the barrier.
  function Cut(count: nat, first: int, barrier: int): nat {
    Max(0, Min(barrier - first + 1, count))
  }

  ghost predicate Consecutive(records: seq<OutputRecord>, first: int) {
    forall i :: 0 <= i < |records| ==> records[i].seqno == first + i
  }

  lemma {:induction false} FlushSplits(records: seq<OutputRecord>, first: int, barrier: int)
    requires Consecutive(records, first)
    ensures UpTo(records, barrier) == records[..Cut(|records|, first, barrier)]
    ensures Beyond(records, barrier) == records[Cut(|records|, first, barrier)..]
    decreases |records|
  {
    if records != [] {
      var front, last := Front(records), Last(records);
      assert last.seqno == first + |front|;
      FlushSplits(front, first, barrier);
      assert records == front + [last];
      SnocSlices(front, last, Cut(|front|, first, barrier));
      if last.seqno <= barrier {
        assert Cut(|front|, first, barrier) == |front| && Cut(|records|, first, barrier) == |records|;
      } else {
        assert Cut(|front|, first, barrier) == Cut(|records|, first, barrier);
      }
    }
  }

  lemma SnocSlices<T>(s: seq<T>, x: T, m: nat)
    requires m <= |s|
    ensures (s + [x])[..m] == s[..m]
    ensures (s + [x])[m..] == s[m..] + [x]
    ensures s[..|s|] + [x] == (s + [x])[..|s| + 1]
    ensures (s + [x])[|s| + 1..] == []
    ensures s[|s|..] == []
  {
  }

  lemma FlushKeepsNumbered(s: SinkView, barrier: int)
    requires Numbered(s)
    ensures s.Flushed(barrier).committed + s.Flushed(barrier).pending == s.committed + s.pending
    ensures |s.Flushed(barrier).committed| == Reach(|s.committed|, |s.committed + s.pending|, barrier)
    ensures Numbered(s.Flushed(barrier))
  {
    var all, c := s.committed + s.pending, |s.committed|;
    forall i | 0 <= i < |s.pending|
      ensures s.pending[i].seqno == c + 1 + i
    {
      assert s.pending[i] == all[c + i];
    }
    FlushSplits(s.pending, c + 1, barrier);
    SplitMoves(s.committed, s.pending, Cut(|s.pending|, c + 1, barrier));
  }

  lemma SplitMoves<T>(a: seq<T>, b: seq<T>, n: nat)
    requires n <= |b|
    ensures (a + b[..n]) + b[n..] == a + b
  {
  }

  lemma {:induction false} SinkIsNumbered(ops: seq<Op>)
    ensures Run(ops).committed + Run(ops).pending == History(ops)
    ensures Numbered(Run(ops))
    decreases |ops|
  {
    if ops != [] {
      SinkIsNumbered(Front(ops));
      var s := Run(Front(ops));
      match Last(ops)
      case Write(key, value) =>
        var rec := OutputRecord(key, value, s.nextSeq);
        assert s.committed + (s.pending + [rec]) == s.committed + s.pending + [rec];
      case CommitUpTo(barrier) =>
        FlushKeepsNumbered(s, barrier);
    }
  }

  /**
    Committed followed by pending is always the whole write history, numbered 1..n in arrival order, and
    a flush moves the boundary to the barrier, never backwards and never past the last record.
   */
  lemma SinkPrefixLaw(ops: seq<Op>, barrier: int)
    ensures Run(ops).committed + Run(ops).pending == History(ops)
    ensures forall i :: 0 <= i < |History(ops)| ==> History(ops)[i].seqno == i + 1
    ensures
      var after := Run(ops + [CommitUpTo(barrier)]);
      && after.committed == History(ops)[..Reach(|Run(ops).committed|, |History(ops)|, barrier)]
      && after.pending == History(ops)[Reach(|Run(ops).committed|, |History(ops)|, barrier)..]
  {
    SinkIsNumbered(ops);
    FlushKeepsNumbered(Run(ops), barrier);
    assert Front(ops + [CommitUpTo(barrier)]) == ops;
  }
}
