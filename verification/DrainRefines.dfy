/**
  The step system of the drain handshake does, region by region, what the source and the tracker do on their own:
  its buffer is theirs with the events numbered.
 */
module DrainRefines {
  import opened Model
  import opened DrainProtocol
  import B = ReorderBuffer

  function Share(accepted: seq<Event>, buffer: set<nat>, k: nat): B.Bag
    requires k < |accepted|
  {
    if k in buffer then multiset{accepted[k]} else multiset{}
  }

  // The events of the buffer among the first n accepted.
  function BagUpTo(accepted: seq<Event>, buffer: set<nat>, n: nat): B.Bag
    requires n <= |accepted|
  {
    if n == 0 then multiset{} else BagUpTo(accepted, buffer, n - 1) + Share(accepted, buffer, n - 1)
  }

  // How often an event occurs among them.
  function CountUpTo(accepted: seq<Event>, buffer: set<nat>, n: nat, ev: Event): nat
    requires n <= |accepted|
  {
    if n == 0 then 0
    else CountUpTo(accepted, buffer, n - 1, ev) + if n - 1 in buffer && accepted[n - 1] == ev then 1 else 0
  }

  function Bag(s: Protocol): B.Bag {
    BagUpTo(s.accepted, s.buffer, |s.accepted|)
  }

  lemma {:induction false} BagCount(accepted: seq<Event>, buffer: set<nat>, n: nat, ev: Event)
    requires n <= |accepted|
    ensures BagUpTo(accepted, buffer, n)[ev] == CountUpTo(accepted, buffer, n, ev)
  {
    if n > 0 {
      BagCount(accepted, buffer, n - 1, ev);
    }
  }

  lemma {:induction false} CountIsPositive(accepted: seq<Event>, buffer: set<nat>, n: nat, ev: Event)
    requires n <= |accepted|
    ensures CountUpTo(accepted, buffer, n, ev) > 0 <==> exists k :: 0 <= k < n && k in buffer && accepted[k] == ev
  {
    if n > 0 {
      CountIsPositive(accepted, buffer, n - 1, ev);
      if k :| 0 <= k < n && k in buffer && accepted[k] == ev {
        assert k < n - 1 || (n - 1 in buffer && accepted[n - 1] == ev);
      }
    }
  }

  lemma BagMembers(accepted: seq<Event>, buffer: set<nat>, n: nat, ev: Event)
    requires n <= |accepted|
    ensures ev in BagUpTo(accepted, buffer, n) <==> exists k :: 0 <= k < n && k in buffer && accepted[k] == ev
  {
    hide BagUpTo, CountUpTo;
    BagCount(accepted, buffer, n, ev);
    CountIsPositive(accepted, buffer, n, ev);
  }

  lemma {:induction false} CountWithout(accepted: seq<Event>, buffer: set<nat>, n: nat, k: nat, ev: Event)
    requires n <= |accepted| && k in buffer
    ensures CountUpTo(accepted, buffer, n, ev) ==
      CountUpTo(accepted, buffer - {k}, n, ev) + if k < n && accepted[k] == ev then 1 else 0
  {
    if n > 0 {
      CountWithout(accepted, buffer, n - 1, k, ev);
    }
  }

  lemma {:induction false} CountOfMore(accepted: seq<Event>, buffer: set<nat>, last: Event, n: nat, ev: Event)
    requires n <= |accepted|
    ensures CountUpTo(accepted + [last], buffer + {|accepted|}, n, ev) == CountUpTo(accepted, buffer, n, ev)
  {
    if n > 0 {
      CountOfMore(accepted, buffer, last, n - 1, ev);
    }
  }

  lemma TakeFromBag(accepted: seq<Event>, buffer: set<nat>, k: nat)
    requires k in buffer && k < |accepted|
    ensures BagUpTo(accepted, buffer - {k}, |accepted|) == BagUpTo(accepted, buffer, |accepted|) - multiset{accepted[k]}
  {
    hide BagUpTo, CountUpTo;
    forall ev
      ensures BagUpTo(accepted, buffer, |accepted|)[ev] ==
        BagUpTo(accepted, buffer - {k}, |accepted|)[ev] + if accepted[k] == ev then 1 else 0
    {
      BagCount(accepted, buffer, |accepted|, ev);
      BagCount(accepted, buffer - {k}, |accepted|, ev);
      CountWithout(accepted, buffer, |accepted|, k, ev);
    }
  }

  lemma AddToBag(accepted: seq<Event>, buffer: set<nat>, last: Event)
    ensures BagUpTo(accepted + [last], buffer + {|accepted|}, |accepted| + 1) ==
      BagUpTo(accepted, buffer, |accepted|) + multiset{last}
  {
    hide BagUpTo;
    forall ev
      ensures BagUpTo(accepted + [last], buffer + {|accepted|}, |accepted| + 1)[ev] ==
        BagUpTo(accepted, buffer, |accepted|)[ev] + if ev == last then 1 else 0
    {
      BagCount(accepted + [last], buffer + {|accepted|}, |accepted| + 1, ev);
      BagCount(accepted, buffer, |accepted|, ev);
      CountOfMore(accepted, buffer, last, |accepted|, ev);
    }
  }

  function Among(buffer: set<nat>, n: nat): set<nat> {
    set k | 0 <= k < n && k in buffer
  }

  lemma OneMoreAmong(buffer: set<nat>, n: nat)
    ensures |Among(buffer, n + 1)| == |Among(buffer, n)| + if n in buffer then 1 else 0
  {
    assert Among(buffer, n + 1) == if n in buffer then Among(buffer, n) + {n} else Among(buffer, n);
  }

  lemma SumSize(a: B.Bag, b: B.Bag)
    ensures |a + b| == |a| + |b|
  {
  }

  lemma BagStep(accepted: seq<Event>, buffer: set<nat>, n: nat)
    requires n < |accepted|
    ensures |BagUpTo(accepted, buffer, n + 1)| == |BagUpTo(accepted, buffer, n)| + if n in buffer then 1 else 0
  {
    SumSize(BagUpTo(accepted, buffer, n), Share(accepted, buffer, n));
  }

  lemma {:induction false} BagSize(accepted: seq<Event>, buffer: set<nat>, n: nat)
    requires n <= |accepted|
    ensures |BagUpTo(accepted, buffer, n)| == |Among(buffer, n)|
  {
    hide Among, BagUpTo;
    if n > 0 {
      BagSize(accepted, buffer, n - 1);
      OneMoreAmong(buffer, n - 1);
      BagStep(accepted, buffer, n - 1);
    } else {
      NothingAmong(accepted, buffer);
    }
  }

  lemma NothingAmong(accepted: seq<Event>, buffer: set<nat>)
    ensures |BagUpTo(accepted, buffer, 0)| == |Among(buffer, 0)| == 0
  {
    assert Among(buffer, 0) == {};
  }

  lemma OldestIsMin(accepted: seq<Event>, buffer: set<nat>, k: nat)
    requires forall j :: j in buffer ==> j < |accepted|
    ensures IsOldest(accepted, buffer, k) <==>
      k in buffer && k < |accepted| && B.IsMinOf(accepted[k], BagUpTo(accepted, buffer, |accepted|))
  {
    if k in buffer {
      forall ev
        ensures ev in BagUpTo(accepted, buffer, |accepted|) <==>
          exists j :: 0 <= j < |accepted| && j in buffer && accepted[j] == ev
      {
        BagMembers(accepted, buffer, |accepted|, ev);
      }
    }
  }

  /**
    The test at the head of the drain loop pops a least buffered event exactly if one lies within the instant, and
    is over exactly if none does.
   */
  lemma LoopHeadTakesLeast(s: Protocol, ts: int, pick: Option<nat>)
    requires InRange(s)
    ensures LoopHead(s, ts, pick) <==>
      match pick
      case Some(k) =>
        k in s.buffer && k < |s.accepted| && B.IsMinOf(s.accepted[k], Bag(s)) && s.accepted[k].timestamp <= ts
      case None => forall ev :: ev in Bag(s) ==> ev.timestamp > ts
  {
    if pick.Some? {
      OldestIsMin(s.accepted, s.buffer, pick.value);
    } else {
      forall ev
        ensures ev in Bag(s) <==> exists j :: 0 <= j < |s.accepted| && j in s.buffer && s.accepted[j] == ev
      {
        BagMembers(s.accepted, s.buffer, |s.accepted|, ev);
      }
    }
  }

  lemma {:induction false} AllInRange(accepted: seq<Event>, buffer: set<nat>)
    requires forall j :: j in buffer ==> j < |accepted|
    ensures |BagUpTo(accepted, buffer, |accepted|)| == |buffer|
  {
    BagSize(accepted, buffer, |accepted|);
    assert buffer == Among(buffer, |accepted|);
  }

  // The event a victim's number stands for.
  function VictimEvent(accepted: seq<Event>, victim: Option<nat>): Option<Event> {
    if victim.Some? && victim.value < |accepted| then Some(accepted[victim.value]) else None
  }

  lemma EmitTakes(accepted: seq<Event>, buffer: set<nat>, ev: Event, victim: Option<nat>)
    requires victim.Some? ==> victim.value in buffer + {|accepted|} && victim.value < |accepted| + 1
    ensures
      var gone := if victim.Some? then {victim.value} else {};
      BagUpTo(accepted + [ev], buffer + {|accepted|} - gone, |accepted| + 1) ==
        B.Step(BagUpTo(accepted, buffer, |accepted|), B.Add(ev, VictimEvent(accepted + [ev], victim)))
  {
    hide BagUpTo;
    AddToBag(accepted, buffer, ev);
    var all, bag := accepted + [ev], BagUpTo(accepted, buffer, |accepted|) + multiset{ev};
    if victim.Some? {
      TakeFromBag(all, buffer + {|accepted|}, victim.value);
    } else {
      assert buffer + {|accepted|} - {} == buffer + {|accepted|};
      assert bag - multiset{} == bag;
    }
  }

  lemma {:induction false} EmitIsAddition(maxSize: int, accepted: seq<Event>, buffer: set<nat>, ev: Event,
                                          victim: Option<nat>)
    requires forall j :: j in buffer ==> j < |accepted|
    requires
      if |buffer| + 1 > maxSize then victim.Some? && IsOldest(accepted + [ev], buffer + {|accepted|}, victim.value)
      else victim.None?
    ensures B.CanStep(maxSize, BagUpTo(accepted, buffer, |accepted|), B.Add(ev, VictimEvent(accepted + [ev], victim)))
    ensures victim.Some? ==> victim.value in buffer + {|accepted|} && victim.value < |accepted| + 1
  {
    hide BagUpTo, IsOldest, B.IsMinOf;
    AddToBag(accepted, buffer, ev);
    AllInRange(accepted, buffer);
    if victim.Some? {
      OldestIsMin(accepted + [ev], buffer + {|accepted|}, victim.value);
    }
  }

  /** An accepted emission is an addition to the bounded buffer. */
  lemma EmitRefines(maxSize: int, s: Protocol, ev: Event, victim: Option<nat>)
    requires CanStep(maxSize, s, Emit(ev, victim)) && !s.stopped
    ensures
      var add, after := B.Add(ev, VictimEvent(s.accepted + [ev], victim)), Next(s, Emit(ev, victim));
      && B.CanStep(maxSize, Bag(s), add) && Bag(after) == B.Step(Bag(s), add)
      && after.accepted == s.accepted + [ev]
      && after.mark == s.mark && after.pending == s.pending && !after.stopped && after.threads == s.threads
  {
    hide BagUpTo, IsOldest, B.CanStep, B.Step;
    EmitIsAddition(maxSize, s.accepted, s.buffer, ev, victim);
    EmitTakes(s.accepted, s.buffer, ev, victim);
  }

  // A thread's turn in the drain loop.
  predicate IsTurn(step: Step) {
    step.Enter? || step.Reenter?
  }

  /**
    A turn of the drain loop takes a least event within the instant out of the buffer and counts it as pending, or
    finds none there; retaking the lock, it first gives back the handoff it comes from. Only then may it wait.
   */
  lemma TurnRefines(maxSize: int, s: Protocol, step: Step)
    requires CanStep(maxSize, s, step) && IsTurn(step)
    ensures
      var i, after, pc := step.thread, Next(s, step), s.threads[step.thread];
      var given := if step.Reenter? then s.pending - 1 else s.pending;
      && (pc.Called? || pc.Returning?)
      && after.accepted == s.accepted && after.mark == s.mark && after.stopped == s.stopped
      && |after.threads| == |s.threads|
      && match step.pick
         case Some(k) =>
           && k < |s.accepted| && B.IsMinOf(s.accepted[k], Bag(s)) && s.accepted[k].timestamp <= pc.ts
           && Bag(after) == Bag(s) - multiset{s.accepted[k]} && after.pending == given + 1
           && after.threads[i] == Handing(pc.ts, k)
         case None =>
           && (forall ev :: ev in Bag(s) ==> ev.timestamp > pc.ts)
           && Bag(after) == Bag(s) && after.pending == given
           && after.threads[i] == if given > 0 then Waiting(pc.ts, |s.accepted|) else Drained(pc.ts, |s.accepted|)
  {
    hide IsOldest, B.IsMinOf, BagUpTo;
    LoopHeadTakesLeast(s, s.threads[step.thread].ts, step.pick);
    if step.pick.Some? {
      TakeFromBag(s.accepted, s.buffer, step.pick.value);
    }
  }

  /** The other regions: the wait ends when nothing is pending, and then the watermark is raised and confirmed. */
  lemma RestRefines(maxSize: int, s: Protocol, step: Step)
    requires CanStep(maxSize, s, step) && !IsTurn(step) && !step.Emit?
    ensures
      var after := Next(s, step);
      && after.accepted == s.accepted && Bag(after) == Bag(s) && after.pending == s.pending
      && (after.stopped <==> s.stopped || step.Stop?)
      && after.mark == (match step
                        case Raise(i) => s.mark.Advanced(s.threads[i].ts)
                        case Publish(_) => s.mark.Published()
                        case _ => s.mark)
      && match step
         case Stop => after.threads == s.threads
         case Begin(i, ts) => after.threads == s.threads[i := Called(ts)]
         case IngestReturns(i) =>
           after.threads == s.threads[i := Returning(s.threads[i].ts)] && after.handed == s.handed + {s.threads[i].held}
         case Wake(i) =>
           var pc := s.threads[i];
           after.threads == s.threads[i := if s.pending > 0 then pc else Drained(pc.ts, pc.seen)]
         case Raise(i) => after.threads == s.threads[i := Raised(s.threads[i].ts, s.threads[i].seen)]
         case Publish(i) => after.threads == s.threads[i := Idle]
         case _ => true
  {
  }

  // ---------------------------------------------------------------------------------------
  // What the history of an interleaving alone determines
  // ---------------------------------------------------------------------------------------

  // The events emitted before any stop.
  ghost function EmittedBeforeStop(steps: seq<Step>): seq<Event> {
    if steps == [] then []
    else if Last(steps).Emit? && Step.Stop !in Front(steps) then EmittedBeforeStop(Front(steps)) + [Last(steps).ev]
    else EmittedBeforeStop(Front(steps))
  }

  /** The source accepts what is emitted until the first stop, and the buffer keeps to its capacity. */
  lemma {:induction false} AcceptsUntilStop(maxSize: int, threads: nat, epoch: int, steps: seq<Step>)
    requires Legal(maxSize, threads, epoch, steps)
    ensures
      var s := Run(threads, epoch, steps);
      && s.accepted == EmittedBeforeStop(steps)
      && (s.stopped <==> Step.Stop in steps)
      && |s.buffer| <= Max(0, maxSize)
    decreases |steps|
  {
    if steps != [] {
      FrontThenLast(steps);
      AcceptsUntilStop(maxSize, threads, epoch, Front(steps));
      var s, step := Run(threads, epoch, Front(steps)), Last(steps);
      assert Step.Stop in steps <==> Step.Stop in Front(steps) || step.Stop?;
      if step.Emit? && !s.stopped {
        EmitFits(maxSize, s, step.ev, step.victim);
      } else if !step.Emit? {
        OthersKeep(maxSize, s, step);
      }
    }
  }

  lemma EmitFits(maxSize: int, s: Protocol, ev: Event, victim: Option<nat>)
    requires CanStep(maxSize, s, Emit(ev, victim)) && !s.stopped && |s.buffer| <= Max(0, maxSize)
    ensures |Next(s, Emit(ev, victim)).buffer| <= Max(0, maxSize)
    ensures Next(s, Emit(ev, victim)).accepted == s.accepted + [ev] && !Next(s, Emit(ev, victim)).stopped
  {
    assert |s.buffer + {|s.accepted|}| == |s.buffer| + 1;
    if victim.Some? {
      assert |s.buffer + {|s.accepted|} - {victim.value}| == |s.buffer|;
    }
  }

  lemma OthersKeep(maxSize: int, s: Protocol, step: Step)
    requires CanStep(maxSize, s, step) && !step.Emit?
    ensures Next(s, step).accepted == s.accepted && Next(s, step).buffer <= s.buffer
    ensures |Next(s, step).buffer| <= |s.buffer|
    ensures Next(s, step).stopped <==> s.stopped || step.Stop?
  {
    assert Next(s, step).buffer <= s.buffer;
    SubsetSize(Next(s, step).buffer, s.buffer);
  }

  lemma SubsetSize(a: set<nat>, b: set<nat>)
    requires a <= b
    ensures |a| <= |b|
  {
    assert b == a + (b - a);
  }
}
