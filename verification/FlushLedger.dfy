/**
  The state backend inside the engine, told from the applied data events alone: which of them are flushed into
  the state, which are pending as deltas, and which the journal holds since the latest checkpoint.
 */
module FlushLedger {
  import opened Model
  import opened Engine
  import opened ChainRuns
  import B = StateBackend
  import Ledger
  import P = Partitioning
  import S = Sessions
  import W = Windows

  function KeysOf(evs: seq<Event>): set<string> {
    set ev | ev in evs :: ev.key
  }

  // The map has an entry for exactly the keys of the events, with the sum of their values.
  ghost predicate SumsOf(m: Totals, evs: seq<Event>) {
    && m.Keys == KeysOf(evs)
    && forall key :: key in m ==> m[key] == Sum(KeyedValues(evs, key))
  }

  lemma {:induction false} NoValues(evs: seq<Event>, key: string)
    ensures key !in KeysOf(evs) ==> KeyedValues(evs, key) == []
    decreases |evs|
  {
    if evs != [] {
      NoValues(Front(evs), key);
      FrontThenLast(evs);
    }
  }

  lemma SumsAt(m: Totals, evs: seq<Event>, key: string)
    requires SumsOf(m, evs)
    ensures At(m, key) == Sum(KeyedValues(evs, key))
  {
    NoValues(evs, key);
    assert Sum([]) == 0;
  }

  lemma SumsOfNone()
    ensures SumsOf(map[], [])
  {
  }

  lemma SumsSnoc(m: Totals, evs: seq<Event>, ev: Event)
    requires SumsOf(m, evs)
    ensures SumsOf(Plus(m, ev.key, ev.value), evs + [ev])
  {
    hide KeyedValues, Sum;
    assert forall e :: e in evs + [ev] <==> e in evs || e == ev;
    forall key
      ensures At(Plus(m, ev.key, ev.value), key) == Sum(KeyedValues(evs + [ev], key))
    {
      SumsAt(m, evs, key);
      DataSnoc(evs, ev, key);
      SumSnoc(KeyedValues(evs, key), ev.value);
    }
  }

  lemma {:induction false} KeyedConcat(a: seq<Event>, b: seq<Event>, key: string)
    ensures KeyedValues(a + b, key) == KeyedValues(a, key) + KeyedValues(b, key)
    decreases |b|
  {
    if b == [] {
      assert a + b == a;
    } else {
      assert Front(a + b) == a + Front(b) && Last(a + b) == Last(b);
      KeyedConcat(a, Front(b), key);
    }
  }

  lemma SumsMerge(m: Totals, n: Totals, a: seq<Event>, b: seq<Event>)
    requires SumsOf(m, a) && SumsOf(n, b)
    ensures SumsOf(B.Merge(m, n), a + b)
  {
    hide KeyedValues, Sum;
    assert forall e :: e in a + b <==> e in a || e in b;
    forall key
      ensures At(m, key) + At(n, key) == Sum(KeyedValues(a + b, key))
    {
      SumsAt(m, a, key);
      SumsAt(n, b, key);
      KeyedConcat(a, b, key);
      SumAppend(KeyedValues(a, key), KeyedValues(b, key));
    }
  }

  // The map has each key's latest value.
  ghost predicate LatestOf(m: Totals, evs: seq<Event>) {
    && m.Keys == KeysOf(evs)
    && forall key :: key in m ==> KeyedValues(evs, key) != [] && m[key] == Last(KeyedValues(evs, key))
  }

  lemma LatestSnoc(m: Totals, evs: seq<Event>, ev: Event)
    requires LatestOf(m, evs)
    ensures LatestOf(m[ev.key := ev.value], evs + [ev])
  {
    hide KeyedValues;
    assert forall e :: e in evs + [ev] <==> e in evs || e == ev;
    forall key
      ensures KeyedValues(evs + [ev], key) ==
        if key == ev.key then KeyedValues(evs, key) + [ev.value] else KeyedValues(evs, key)
    {
      DataSnoc(evs, ev, key);
    }
  }

  lemma SumsAreUnique(m: Totals, n: Totals, evs: seq<Event>)
    requires SumsOf(m, evs) && SumsOf(n, evs)
    ensures m == n
  {
  }

  // ---------------------------------------------------------------------------------------
  // Rounds of eight keys
  // ---------------------------------------------------------------------------------------

  // The data events since the latest one that brought together eight distinct keys.
  function Batch(data: seq<Event>): seq<Event> {
    if data == [] then []
    else
      var since := Batch(Front(data)) + [Last(data)];
      if |KeysOf(since)| < 8 then since else []
  }

  // The data events before those.
  function Flushed(data: seq<Event>): (flushed: seq<Event>)
    ensures flushed + Batch(data) == data
  {
    if data == [] then [] else if Batch(data) == [] then data else Flushed(Front(data))
  }

  // How many rounds they made.
  function Rounds(data: seq<Event>): nat {
    if data == [] then 0 else Rounds(Front(data)) + if Batch(data) == [] then 1 else 0
  }

  // How many of them there were at the latest capture.
  function CapturedCount(chain: seq<CoreOp>): nat {
    if chain == [] then 0
    else if Last(chain).Capture? then |Flushed(DataOf(Events(chain)))|
    else CapturedCount(Front(chain))
  }

  ghost predicate Accounts(c: Core, data: seq<Event>, captured: nat) {
    && |KeysOf(Batch(data))| < 8
    && SumsOf(c.deltas, Batch(data))
    && SumsOf(c.state.data, Flushed(data))
    && captured <= |Flushed(data)|
    && SumsOf(c.state.pending, Flushed(data)[captured..])
    && c.state.seqno == |data| + Rounds(data)
    && LatestOf(c.state.latest, data)
  }

  lemma BatchSnoc(data: seq<Event>, ev: Event)
    ensures
      var since := Batch(data) + [ev];
      && Batch(data + [ev]) == (if |KeysOf(since)| < 8 then since else [])
      && Flushed(data + [ev]) == (if |KeysOf(since)| < 8 then Flushed(data) else data + [ev])
      && Rounds(data + [ev]) == Rounds(data) + (if |KeysOf(since)| < 8 then 0 else 1)
      && Flushed(data) + since == data + [ev]
  {
    assert Front(data + [ev]) == data;
    Associate(Flushed(data), Batch(data), [ev]);
  }

  lemma DeltaAccounts(c: Core, data: seq<Event>, captured: nat, ev: Event)
    requires Accounts(c, data, captured)
    ensures
      var recorded := c.(state := c.state.Recorded(ev.key, ev.value));
      Accounts(DeltaAdded(recorded, ev.key, ev.value), data + [ev], captured)
  {
    hide Batch, Flushed, Rounds, SumsOf, LatestOf, KeysOf;
    LatestSnoc(c.state.latest, data, ev);
    var since, deltas := Batch(data) + [ev], Plus(c.deltas, ev.key, ev.value);
    BatchSnoc(data, ev);
    SumsSnoc(c.deltas, Batch(data), ev);
    SameKeys(deltas, since);
    if |KeysOf(since)| >= 8 {
      SumsMerge(c.state.data, deltas, Flushed(data), since);
      SumsMerge(c.state.pending, deltas, Flushed(data)[captured..], since);
      assert (data + [ev])[captured..] == Flushed(data)[captured..] + since;
      SumsOfNone();
    }
  }

  lemma SameKeys(m: Totals, evs: seq<Event>)
    requires SumsOf(m, evs)
    ensures |m| == |KeysOf(evs)|
  {
    assert |m| == |m.Keys|;
  }

  lemma SameAccount(c: Core, d: Core, data: seq<Event>, captured: nat)
    requires Accounts(c, data, captured) && c.deltas == d.deltas
    requires c.state.data == d.state.data && c.state.pending == d.state.pending
    requires c.state.seqno == d.state.seqno && c.state.latest == d.state.latest
    ensures Accounts(d, data, captured)
  {
  }

  lemma {:induction false} StepAccounts(cfg: Config, chain: seq<CoreOp>, op: CoreOp)
    requires cfg.Valid() && Accounts(CoreRun(cfg, chain), DataOf(Events(chain)), CapturedCount(chain))
    ensures Accounts(CoreRun(cfg, chain + [op]), DataOf(Events(chain + [op])), CapturedCount(chain + [op]))
  {
    hide W.Ingested, W.Triggered, S.Scanned, S.Touched, P.AfterResize, P.Next, Accounts, DeltaAdded, DataOf, CoreRun;
    assert Front(chain + [op]) == chain;
    var c, data, captured := CoreRun(cfg, chain), DataOf(Events(chain)), CapturedCount(chain);
    assert CoreRun(cfg, chain + [op]) == CoreNext(cfg, c, op) by {
      CoreRunSnoc(cfg, chain, op);
    }
    match op
    case Process(ev) =>
      DataSnoc(Events(chain), ev, "");
      if ev.kind == KindData {
        var fed := Core(
          W.Ingested(cfg.size, c.tumbling, ev),
          S.Touched(cfg.timeout, c.sessions, ev.key, ev.timestamp, ev.value, true),
          P.Next(cfg.hash, c.routing, P.RouteAdd(ev.key, ev.value)),
          c.state, c.deltas, c.sink.Written(ev.key, ev.value));
        SameAccount(c, fed, data, captured);
        DeltaAccounts(fed, data, captured, ev);
      } else {
        SameAccount(c, CoreNext(cfg, c, op), data, captured);
      }
    case Capture => CaptureAccounts(c, data, captured);
    case _ => SameAccount(c, CoreNext(cfg, c, op), data, captured);
  }

  lemma CoreRunSnoc(cfg: Config, chain: seq<CoreOp>, op: CoreOp)
    requires cfg.Valid()
    ensures CoreRun(cfg, chain + [op]) == CoreNext(cfg, CoreRun(cfg, chain), op)
  {
    hide CoreNext;
    assert Front(chain + [op]) == chain;
  }

  lemma CaptureAccounts(c: Core, data: seq<Event>, captured: nat)
    requires Accounts(c, data, captured)
    ensures Accounts(c.(state := c.state.JournalReset()), data, |Flushed(data)|)
  {
    SumsOfNone();
    assert Flushed(data)[|Flushed(data)|..] == [];
  }

  /**
    At every point of every run: the pending deltas are each key's sum over the data events since the latest one
    that brought together eight distinct keys, and there are fewer than eight; the state holds each key's sum over
    all events before those, and the journal over those of them flushed since the latest capture. The sequence
    number counts the data events and the rounds, and the latest value of a key is that of its last data event.
   */
  lemma {:induction false} FlushedByEights(cfg: Config, chain: seq<CoreOp>)
    requires cfg.Valid()
    ensures Accounts(CoreRun(cfg, chain), DataOf(Events(chain)), CapturedCount(chain))
    decreases |chain|
  {
    if chain == [] {
      NothingAccounted(cfg);
    } else {
      hide Accounts;
      FrontThenLast(chain);
      FlushedByEights(cfg, Front(chain));
      StepAccounts(cfg, Front(chain), Last(chain));
    }
  }

  lemma NothingAccounted(cfg: Config)
    requires cfg.Valid()
    ensures Accounts(CoreRun(cfg, []), DataOf(Events([])), CapturedCount([]))
  {
    SumsOfNone();
  }

  /**
    Seen from one data event: while it leaves fewer than eight keys pending, the state's data does not change;
    the event that brings the eighth key empties the deltas into it.
   */
  lemma {:induction false} EighthKeyFlushes(cfg: Config, chain: seq<CoreOp>, ev: Event)
    requires cfg.Valid() && ev.kind == KindData
    ensures
      var c, after := CoreRun(cfg, chain), CoreRun(cfg, chain + [Process(ev)]);
      var data := DataOf(Events(chain));
      if |KeysOf(Batch(data)) + {ev.key}| < 8 then
        && after.state.data == c.state.data
        && SumsOf(after.deltas, Batch(data) + [ev])
      else
        && after.deltas == map[]
        && SumsOf(after.state.data, data + [ev])
  {
    hide CoreRun, DataOf, SumsOf, KeyedValues, Flushed;
    var data := DataOf(Events(chain));
    assert Front(chain + [Process(ev)]) == chain;
    FlushedByEights(cfg, chain);
    FlushedByEights(cfg, chain + [Process(ev)]);
    DataSnoc(Events(chain), ev, "");
    BatchSnoc(data, ev);
    KeysSnoc(Batch(data), ev);
    if |KeysOf(Batch(data)) + {ev.key}| < 8 {
      SumsAreUnique(CoreRun(cfg, chain).state.data, CoreRun(cfg, chain + [Process(ev)]).state.data, Flushed(data));
    } else {
      SumsOfNone();
      SumsAreUnique(CoreRun(cfg, chain + [Process(ev)]).deltas, map[], []);
    }
  }

  lemma KeysSnoc(evs: seq<Event>, ev: Event)
    ensures KeysOf(evs + [ev]) == KeysOf(evs) + {ev.key}
  {
    assert forall e :: e in evs + [ev] <==> e in evs || e == ev;
  }

  // ---------------------------------------------------------------------------------------
  // The journal between checkpoints
  // ---------------------------------------------------------------------------------------

  lemma {:induction false} FlushedGrows(data: seq<Event>, n: nat)
    requires n <= |data|
    ensures Flushed(data[..n]) <= Flushed(data)
    decreases |data|
  {
    if n == |data| {
      assert data[..n] == data;
    } else {
      FrontThenLast(data);
      assert Front(data)[..n] == data[..n];
      FlushedGrows(Front(data), n);
      BatchSnoc(Front(data), Last(data));
      assert Flushed(Front(data)) <= Front(data) <= data;
    }
  }

  lemma {:induction false} DataGrows(chain: seq<CoreOp>, more: seq<CoreOp>)
    ensures DataOf(Events(chain)) <= DataOf(Events(chain + more))
    ensures (forall op :: op in more ==> !op.Capture?) ==> CapturedCount(chain + more) == CapturedCount(chain)
    decreases |more|
  {
    if more == [] {
      assert chain + more == chain;
    } else {
      assert Front(chain + more) == chain + Front(more) && Last(chain + more) == Last(more);
      FrontThenLast(more);
      DataGrows(chain, Front(more));
      if Last(more).Process? {
        DataSnoc(Events(chain + Front(more)), Last(more).ev, "");
      }
    }
  }

  lemma StepCaptures(cfg: Config, e: EngineState, op: Op)
    requires cfg.Valid() && !op.Checkpoint?
    ensures forall o :: o in StepOps(cfg, e, op) ==> !o.Capture?
  {
    hide HandOps, SubmitOps, Next;
    match op
    case Advance(_, order) => Ledger.HandOpsOnlyProcess(cfg, e, order);
    case Submit(step) => Ledger.SubmitOpsOnlyProcess(e, step);
    case _ =>
  }

  lemma {:induction false} SinceCheckpoint(cfg: Config, ops: seq<Op>, more: seq<Op>) returns (ran: seq<CoreOp>)
    requires cfg.Valid() && forall op :: op in more ==> !op.Checkpoint?
    ensures CoreOps(cfg, ops + more) == CoreOps(cfg, ops) + ran
    ensures forall op :: op in ran ==> !op.Capture?
    decreases |more|
  {
    if more == [] {
      ran := [];
      assert ops + more == ops;
      assert CoreOps(cfg, ops) + [] == CoreOps(cfg, ops);
    } else {
      hide Run, StepOps;
      assert Front(ops + more) == ops + Front(more) && Last(ops + more) == Last(more);
      FrontThenLast(more);
      var front := SinceCheckpoint(cfg, ops, Front(more));
      var step := StepOps(cfg, Run(cfg, ops + Front(more)), Last(more));
      StepCaptures(cfg, Run(cfg, ops + Front(more)), Last(more));
      Associate(CoreOps(cfg, ops), front, step);
      ran := front + step;
    }
  }

  // What a checkpoint captures: data, journal and sequence number of that instant.
  ghost function Taken(cfg: Config, ops: seq<Op>): B.Snapshot
    requires cfg.Valid()
  {
    var state := Run(cfg, ops).core.state;
    B.Snapshot(state.data, state.pending, state.seqno)
  }

  /**
    A checkpoint empties the journal and changes no value. From then on, until the next checkpoint, the journal
    holds exactly what has been flushed since, so that restoring the checkpoint's snapshot changes no value.
   */
  lemma {:induction false} RestoringCheckpoint(cfg: Config, ops: seq<Op>, offset: int, more: seq<Op>)
    requires cfg.Valid() && forall op :: op in more ==> !op.Checkpoint?
    ensures
      var start := ops + [Op.Checkpoint(offset)];
      var at, now := Run(cfg, start).core.state, Run(cfg, start + more).core.state;
      var was := Flushed(DataOf(Events(CoreOps(cfg, ops))));
      var data := Flushed(DataOf(Events(CoreOps(cfg, start + more))));
      && at.pending == map[] && at.data == Run(cfg, ops).core.state.data
      && was <= data && SumsOf(now.pending, data[|was|..])
      && now.Restored(Taken(cfg, ops)).data == now.data
  {
    hide Run, CoreOps, CoreRun, SumsOf, DataOf, Events, KeyedValues, Flushed, Batch, Rounds;
    var start := ops + [Op.Checkpoint(offset)];
    var was := Flushed(DataOf(Events(CoreOps(cfg, ops))));
    AtCheckpoint(cfg, ops, offset);
    var ran := SinceCheckpoint(cfg, start, more);
    var chain := CoreOps(cfg, start);
    CoreOpsEffect(cfg, ops);
    CoreOpsEffect(cfg, start);
    CoreOpsEffect(cfg, start + more);
    FlushedByEights(cfg, CoreOps(cfg, ops));
    FlushedByEights(cfg, chain);
    FlushedByEights(cfg, chain + ran);
    DataGrows(chain, ran);
    var before, after := DataOf(Events(chain)), DataOf(Events(chain + ran));
    assert after[..|before|] == before;
    FlushedGrows(after, |before|);
    SumsOfNone();
    assert was[|was|..] == [];
    SumsAreUnique(Run(cfg, start).core.state.pending, map[], []);
    SumsAreUnique(Run(cfg, start).core.state.data, Run(cfg, ops).core.state.data, was);
    SumsMerge(Taken(cfg, ops).data, Run(cfg, start + more).core.state.pending, was, Flushed(after)[|was|..]);
    assert was + Flushed(after)[|was|..] == Flushed(after);
    SumsAreUnique(B.Merge(Taken(cfg, ops).data, Run(cfg, start + more).core.state.pending),
      Run(cfg, start + more).core.state.data, Flushed(after));
  }

  lemma {:induction false} AtCheckpoint(cfg: Config, ops: seq<Op>, offset: int)
    requires cfg.Valid()
    ensures
      var chain, after := CoreOps(cfg, ops), CoreOps(cfg, ops + [Op.Checkpoint(offset)]);
      && Events(after) == Events(chain)
      && CapturedCount(after) == |Flushed(DataOf(Events(chain)))|
  {
    hide Run, Next, Flushed, DataOf, Events, CapturedCount;
    var chain := CoreOps(cfg, ops);
    assert Front(ops + [Op.Checkpoint(offset)]) == ops;
    assert chain + [Capture, FlushSink(offset)] == chain + [Capture] + [FlushSink(offset)];
    CaptureSnoc(chain, Capture);
    CaptureSnoc(chain + [Capture], FlushSink(offset));
  }

  lemma CaptureSnoc(chain: seq<CoreOp>, op: CoreOp)
    requires !op.Process?
    ensures Events(chain + [op]) == Events(chain)
    ensures CapturedCount(chain + [op]) ==
      if op.Capture? then |Flushed(DataOf(Events(chain)))| else CapturedCount(chain)
  {
    hide Flushed, DataOf;
    assert Front(chain + [op]) == chain;
  }
}
