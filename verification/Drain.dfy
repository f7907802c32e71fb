/**
  The drain handshake between any number of concurrent AdvanceTo calls and Emit calls, as a step
  system: one step per region executed under the source lock or the tracker lock, with the lock
  released while ingest runs. Events are identified by their position in the acceptance order.
 */
module DrainProtocol {
  import opened Model
  import opened Watermarks

  // Where a thread stands inside AdvanceTo(ts). `seen` records, for the specification only, how
  // many events had been accepted when the call left its drain loop.
  datatype Pc =
    | Idle
    | Called(ts: int)
    | Handing(ts: int, held: nat)             // lock released, ingest of `held` in progress
    | Returning(ts: int)                      // ingest returned, lock not yet retaken
    | Waiting(ts: int, seen: nat)             // drain loop left, waiting for pending handoffs
    | Drained(ts: int, seen: nat)             // lock released, tracker not yet advanced
    | Raised(ts: int, seen: nat)              // tracker advanced, not yet confirmed

  datatype Call = Call(ts: int, seen: nat)

  datatype Protocol = Protocol(
    accepted: seq<Event>,
    buffer: set<nat>,
    overflowed: set<nat>,
    handed: set<nat>,      // ingest has returned for these
    pending: int,
    stopped: bool,
    mark: Watermark,
    threads: seq<Pc>,
    finished: set<Call>)   // calls past their drain and wait loops

  datatype Step =
    | Emit(ev: Event, victim: Option<nat>)
    | Stop
    | Begin(thread: nat, ts: int)
    | Enter(thread: nat, pick: Option<nat>)
    | IngestReturns(thread: nat)
    | Reenter(thread: nat, pick: Option<nat>)
    | Wake(thread: nat)
    | Raise(thread: nat)
    | Publish(thread: nat)

  function Init(threads: nat, epoch: int): Protocol {
    Protocol([], {}, {}, {}, 0, false, Watermark(epoch, epoch), seq(threads, i => Idle), {})
  }

  // ---------------------------------------------------------------------------------------
  // Steps
  // ---------------------------------------------------------------------------------------

  ghost predicate InRange(s: Protocol) {
    forall k :: k in s.buffer ==> k < |s.accepted|
  }

  // Entry 0 of the heap: some buffered event with the least timestamp.
  ghost predicate IsOldest(accepted: seq<Event>, buffer: set<nat>, k: nat) {
    && k in buffer
    && (forall j :: j in buffer ==> j < |accepted|)
    && (forall j :: j in buffer ==> accepted[k].timestamp <= accepted[j].timestamp)
  }

  // The test at the head of the drain loop, and the event it pops if the test succeeds.
  ghost predicate LoopHead(s: Protocol, ts: int, pick: Option<nat>)
    requires InRange(s)
  {
    match pick
    case Some(k) => IsOldest(s.accepted, s.buffer, k) && s.accepted[k].timestamp <= ts
    case None => forall j :: j in s.buffer ==> s.accepted[j].timestamp > ts
  }

  ghost predicate At(s: Protocol, step: Step)
    requires !step.Emit? && !step.Stop?
  {
    step.thread < |s.threads| &&
    var pc := s.threads[step.thread];
    match step
    case Begin(_, _) => pc.Idle?
    case Enter(_, _) => pc.Called?
    case IngestReturns(_) => pc.Handing?
    case Reenter(_, _) => pc.Returning?
    case Wake(_) => pc.Waiting?
    case Raise(_) => pc.Drained?
    case Publish(_) => pc.Raised?
  }

  ghost predicate CanStep(maxSize: int, s: Protocol, step: Step) {
    && InRange(s)
    && match step
       case Emit(ev, victim) =>
         if !s.stopped && |s.buffer| + 1 > maxSize
         then victim.Some? && IsOldest(s.accepted + [ev], s.buffer + {|s.accepted|}, victim.value)
         else victim.None?
       case Stop => true
       case Enter(i, pick) => At(s, step) && LoopHead(s, s.threads[i].ts, pick)
       case Reenter(i, pick) => At(s, step) && LoopHead(s, s.threads[i].ts, pick)
       case _ => At(s, step)
  }

  function Goto(s: Protocol, i: nat, pc: Pc): Protocol
    requires i < |s.threads|
  {
    s.(threads := s.threads[i := pc])
  }

  // The rest of the locked region, from the loop test to the next release of the lock.
  function FromLoopHead(s: Protocol, i: nat, ts: int, pick: Option<nat>): Protocol
    requires i < |s.threads|
  {
    match pick
    case Some(k) => Goto(s.(buffer := s.buffer - {k}, pending := s.pending + 1), i, Handing(ts, k))
    case None => FromWait(s, i, ts, |s.accepted|)
  }

  function FromWait(s: Protocol, i: nat, ts: int, seen: nat): Protocol
    requires i < |s.threads|
  {
    if s.pending > 0 then Goto(s, i, Waiting(ts, seen))
    else Goto(s.(finished := s.finished + {Call(ts, seen)}), i, Drained(ts, seen))
  }

  function Next(s: Protocol, step: Step): Protocol {
    if step.Emit? then
      if s.stopped then s
      else
        var gone := if step.victim.Some? then {step.victim.value} else {};
        s.(accepted := s.accepted + [step.ev],
           buffer := s.buffer + {|s.accepted|} - gone,
           overflowed := s.overflowed + gone)
    else if step.Stop? then
      s.(stopped := true)
    else if step.thread >= |s.threads| then
      s
    else
      var i, pc := step.thread, s.threads[step.thread];
      match step
      case Begin(_, ts) => Goto(s, i, Called(ts))
      case Enter(_, pick) =>
        if pc.Called? then FromLoopHead(s, i, pc.ts, pick) else s
      case IngestReturns(_) =>
        if pc.Handing? then Goto(s.(handed := s.handed + {pc.held}), i, Returning(pc.ts)) else s
      case Reenter(_, pick) =>
        if pc.Returning? then FromLoopHead(s.(pending := s.pending - 1), i, pc.ts, pick) else s
      case Wake(_) =>
        if pc.Waiting? then FromWait(s, i, pc.ts, pc.seen) else s
      case Raise(_) =>
        if pc.Drained? then Goto(s.(mark := s.mark.Advanced(pc.ts)), i, Raised(pc.ts, pc.seen)) else s
      case Publish(_) =>
        if pc.Raised? then Goto(s.(mark := s.mark.Published()), i, Idle) else s
  }

  function Run(threads: nat, epoch: int, steps: seq<Step>): Protocol {
    if steps == [] then Init(threads, epoch)
    else Next(Run(threads, epoch, Front(steps)), Last(steps))
  }

  ghost predicate Legal(maxSize: int, threads: nat, epoch: int, steps: seq<Step>) {
    steps != [] ==>
      && Legal(maxSize, threads, epoch, Front(steps))
      && CanStep(maxSize, Run(threads, epoch, Front(steps)), Last(steps))
  }

  // ---------------------------------------------------------------------------------------
  // The invariant
  // ---------------------------------------------------------------------------------------

  predicate Holds(pc: Pc, k: nat) {
    pc.Handing? && pc.held == k
  }

  ghost predicate InFlight(threads: seq<Pc>, k: nat) {
    exists i :: 0 <= i < |threads| && Holds(threads[i], k)
  }

  predicate Busy(pc: Pc) {
    pc.Handing? || pc.Returning?
  }

  function BusyCount(threads: seq<Pc>): nat {
    if threads == [] then 0 else BusyCount(Front(threads)) + (if Busy(Last(threads)) then 1 else 0)
  }

  lemma {:induction false} BusyCountUpdate(threads: seq<Pc>, i: nat, pc: Pc)
    requires i < |threads|
    ensures BusyCount(threads[i := pc]) ==
      BusyCount(threads) - (if Busy(threads[i]) then 1 else 0) + (if Busy(pc) then 1 else 0)
    decreases |threads|
  {
    if i == |threads| - 1 {
      assert Front(threads[i := pc]) == Front(threads);
    } else {
      assert Front(threads[i := pc]) == Front(threads)[i := pc];
      BusyCountUpdate(Front(threads), i, pc);
    }
  }

  lemma {:induction false} NoneBusy(threads: seq<Pc>)
    requires BusyCount(threads) == 0
    ensures forall i :: 0 <= i < |threads| ==> !Busy(threads[i])
    decreases |threads|
  {
    if threads != [] {
      NoneBusy(Front(threads));
      assert threads == Front(threads) + [Last(threads)];
    }
  }

  lemma {:induction false} IdleCount(n: nat)
    ensures BusyCount(seq(n, i => Idle)) == 0
  {
    if n > 0 {
      IdleCount(n - 1);
      assert Front(seq(n, i => Idle)) == seq(n - 1, i => Idle);
    }
  }

  // Every accepted event is buffered, overflowed, handed on, or held by exactly one thread.
  ghost predicate Placed(s: Protocol) {
    && (forall k: nat :: k in s.buffer || k in s.overflowed || k in s.handed || InFlight(s.threads, k) ==>
          k < |s.accepted|)
    && (forall k: nat :: k < |s.accepted| ==>
          k in s.buffer || k in s.overflowed || k in s.handed || InFlight(s.threads, k))
    && s.buffer !! s.overflowed !! s.handed
    && (forall k: nat :: InFlight(s.threads, k) ==> k !in s.buffer && k !in s.overflowed && k !in s.handed)
    && (forall i, j, k: nat :: 0 <= i < |s.threads| && 0 <= j < |s.threads| ==>
          Holds(s.threads[i], k) && Holds(s.threads[j], k) ==> i == j)
  }

  // Every event the call had to deliver has come back from ingest or was dropped on overflow.
  ghost predicate Delivered(s: Protocol, call: Call) {
    && call.seen <= |s.accepted|
    && (forall k :: 0 <= k < call.seen && s.accepted[k].timestamp <= call.ts ==> k in s.handed || k in s.overflowed)
  }

  ghost predicate LeftBuffer(s: Protocol, ts: int, seen: nat) {
    && seen <= |s.accepted|
    && (forall k :: 0 <= k < seen && s.accepted[k].timestamp <= ts ==> k !in s.buffer)
  }

  ghost predicate ThreadInv(s: Protocol, pc: Pc) {
    match pc
    case Waiting(ts, seen) => LeftBuffer(s, ts, seen)
    case Drained(ts, seen) => Call(ts, seen) in s.finished
    case Raised(ts, seen) => Call(ts, seen) in s.finished
    case _ => true
  }

  ghost predicate Backed(s: Protocol, epoch: int, instant: int) {
    instant > epoch ==> exists seen :: Call(instant, seen) in s.finished
  }

  ghost predicate Inv(epoch: int, s: Protocol) {
    && Placed(s)
    && s.pending == BusyCount(s.threads)
    && (forall i :: 0 <= i < |s.threads| ==> ThreadInv(s, s.threads[i]))
    && (forall call :: call in s.finished ==> Delivered(s, call))
    && Backed(s, epoch, s.mark.current)
    && Backed(s, epoch, s.mark.confirmed)
  }

  // ---------------------------------------------------------------------------------------
  // Every step keeps the invariant
  // ---------------------------------------------------------------------------------------

  // The invariant while thread i runs under the lock, its own handoff no longer counted.
  ghost predicate InvLocked(epoch: int, s: Protocol, i: nat) {
    && i < |s.threads| && !s.threads[i].Handing?
    && Placed(s)
    && s.pending == BusyCount(s.threads) - (if Busy(s.threads[i]) then 1 else 0)
    && (forall j :: 0 <= j < |s.threads| && j != i ==> ThreadInv(s, s.threads[j]))
    && (forall call :: call in s.finished ==> Delivered(s, call))
    && Backed(s, epoch, s.mark.current)
    && Backed(s, epoch, s.mark.confirmed)
  }

  lemma GotoKeepsHolding(threads: seq<Pc>, i: nat, pc: Pc)
    requires i < |threads| && !threads[i].Handing? && !pc.Handing?
    ensures forall k :: InFlight(threads[i := pc], k) <==> InFlight(threads, k)
  {
    forall k
      ensures InFlight(threads[i := pc], k) <==> InFlight(threads, k)
    {
      if InFlight(threads, k) {
        var j :| 0 <= j < |threads| && Holds(threads[j], k);
        assert Holds(threads[i := pc][j], k);
      }
    }
  }

  lemma PickKeeps(epoch: int, s: Protocol, i: nat, ts: int, k: nat)
    requires InvLocked(epoch, s, i) && k in s.buffer
    ensures Inv(epoch, FromLoopHead(s, i, ts, Some(k)))
  {
    var t := FromLoopHead(s, i, ts, Some(k));
    BusyCountUpdate(s.threads, i, Handing(ts, k));
    assert Holds(t.threads[i], k);
    assert !InFlight(s.threads, k);
    forall j | InFlight(s.threads, j)
      ensures InFlight(t.threads, j)
    {
      var h :| 0 <= h < |s.threads| && Holds(s.threads[h], j);
      assert Holds(t.threads[h], j);
    }
    forall j | InFlight(t.threads, j)
      ensures j == k || InFlight(s.threads, j)
    {
      var h :| 0 <= h < |t.threads| && Holds(t.threads[h], j);
      if h != i { assert Holds(s.threads[h], j); }
    }
    assert forall h :: 0 <= h < |s.threads| && h != i ==> !Holds(s.threads[h], k);
    assert forall h :: 0 <= h < |t.threads| && h != i ==> t.threads[h] == s.threads[h];
  }

  lemma WaitKeeps(epoch: int, s: Protocol, i: nat, ts: int, seen: nat)
    requires InvLocked(epoch, s, i) && LeftBuffer(s, ts, seen)
    ensures Inv(epoch, FromWait(s, i, ts, seen))
  {
    var t := FromWait(s, i, ts, seen);
    var pc := t.threads[i];
    assert t.threads == s.threads[i := pc];
    BusyCountUpdate(s.threads, i, pc);
    GotoKeepsHolding(s.threads, i, pc);
    assert forall h, k :: 0 <= h < |t.threads| && Holds(t.threads[h], k) ==> h != i && t.threads[h] == s.threads[h];
    if s.pending == 0 {
      NoneBusy(t.threads);
      assert forall k :: !InFlight(t.threads, k);
      assert Delivered(t, Call(ts, seen));
    }
  }

  lemma EmitKeepsPlaced(s: Protocol, maxSize: int, step: Step)
    requires Placed(s) && CanStep(maxSize, s, step) && step.Emit?
    ensures Placed(Next(s, step))
  {
    if !s.stopped {
      var t := Next(s, step);
      var n := |s.accepted|;
      assert n !in s.buffer && n !in s.overflowed && n !in s.handed && !InFlight(s.threads, n);
      forall k: nat | k < |t.accepted|
        ensures k in t.buffer || k in t.overflowed || k in t.handed || InFlight(t.threads, k)
      {
        assert k < n || k in s.buffer + {n};
      }
    }
  }

  lemma {:induction false} EmitKeeps(epoch: int, s: Protocol, maxSize: int, step: Step)
    requires Inv(epoch, s) && CanStep(maxSize, s, step) && step.Emit?
    ensures Inv(epoch, Next(s, step))
  {
    var t := Next(s, step);
    EmitKeepsPlaced(s, maxSize, step);
    forall call | call in s.finished
      ensures Delivered(t, call)
    {
      assert Delivered(s, call);
    }
    forall i | 0 <= i < |s.threads|
      ensures ThreadInv(t, s.threads[i])
    {
      assert ThreadInv(s, s.threads[i]);
    }
  }

  lemma IngestReturnsKeeps(epoch: int, s: Protocol, i: nat)
    requires Inv(epoch, s) && i < |s.threads| && s.threads[i].Handing?
    ensures Inv(epoch, Next(s, IngestReturns(i)))
  {
    var t := Next(s, IngestReturns(i));
    var k := s.threads[i].held;
    BusyCountUpdate(s.threads, i, t.threads[i]);
    assert Holds(s.threads[i], k);
    assert forall h :: 0 <= h < |t.threads| && h != i ==> t.threads[h] == s.threads[h];
    forall j | InFlight(s.threads, j) && j != k
      ensures InFlight(t.threads, j)
    {
      var h :| 0 <= h < |s.threads| && Holds(s.threads[h], j);
      assert Holds(t.threads[h], j);
    }
    forall j | InFlight(t.threads, j)
      ensures InFlight(s.threads, j) && j != k
    {
      var h :| 0 <= h < |t.threads| && Holds(t.threads[h], j);
      assert h != i && Holds(s.threads[h], j);
    }
    forall call | call in s.finished
      ensures Delivered(t, call)
    {
      assert Delivered(s, call);
    }
    assert ThreadInv(s, s.threads[i]);
    forall h | 0 <= h < |t.threads|
      ensures ThreadInv(t, t.threads[h])
    {
      if h != i { assert ThreadInv(s, s.threads[h]); }
    }
  }

  lemma GotoKeepsPlaced(s: Protocol, t: Protocol, i: nat)
    requires Placed(s) && i < |s.threads| && |t.threads| == |s.threads| && !s.threads[i].Handing?
    requires !t.threads[i].Handing?
    requires t == s.(threads := s.threads[i := t.threads[i]], mark := t.mark)
    ensures Placed(t)
  {
    GotoKeepsHolding(s.threads, i, t.threads[i]);
    assert forall h :: 0 <= h < |t.threads| && h != i ==> t.threads[h] == s.threads[h];
  }

  lemma TrackerStepKeeps(epoch: int, s: Protocol, step: Step)
    requires Inv(epoch, s) && (step.Begin? || step.Raise? || step.Publish?) && At(s, step)
    ensures Inv(epoch, Next(s, step))
  {
    var t := Next(s, step);
    var i := step.thread;
    assert t == s.(threads := s.threads[i := t.threads[i]], mark := t.mark);
    BusyCountUpdate(s.threads, i, t.threads[i]);
    GotoKeepsHolding(s.threads, i, t.threads[i]);
    assert ThreadInv(s, s.threads[i]);
    assert forall h :: 0 <= h < |t.threads| && h != i ==> t.threads[h] == s.threads[h];
    GotoKeepsPlaced(s, t, i);
    hide Placed, InFlight;
    forall h | 0 <= h < |t.threads|
      ensures ThreadInv(t, t.threads[h])
    {
      if h != i { assert ThreadInv(s, s.threads[h]); }
    }
    forall call | call in s.finished
      ensures Delivered(t, call)
    {
      assert Delivered(s, call);
    }
  }

  lemma LockedStepKeeps(epoch: int, s: Protocol, i: nat, ts: int, pick: Option<nat>)
    requires InvLocked(epoch, s, i) && InRange(s) && LoopHead(s, ts, pick)
    ensures Inv(epoch, FromLoopHead(s, i, ts, pick))
  {
    match pick
    case Some(k) => PickKeeps(epoch, s, i, ts, k);
    case None => WaitKeeps(epoch, s, i, ts, |s.accepted|);
  }

  lemma StepKeepsInv(epoch: int, maxSize: int, s: Protocol, step: Step)
    requires Inv(epoch, s) && CanStep(maxSize, s, step)
    ensures Inv(epoch, Next(s, step))
  {
    hide Placed, Delivered, Backed, BusyCount, IsOldest, LeftBuffer;
    match step
    case Emit(_, _) => EmitKeeps(epoch, s, maxSize, step);
    case Stop => StopKeeps(epoch, s);
    case Enter(i, pick) =>
      LockedStepKeeps(epoch, s, i, s.threads[i].ts, pick);
    case Reenter(i, pick) =>
      assert ThreadInv(s, s.threads[i]);
      UncountedKeeps(epoch, s, i);
      LockedStepKeeps(epoch, s.(pending := s.pending - 1), i, s.threads[i].ts, pick);
    case Wake(i) =>
      assert ThreadInv(s, s.threads[i]);
      WaitKeeps(epoch, s, i, s.threads[i].ts, s.threads[i].seen);
    case IngestReturns(i) => IngestReturnsKeeps(epoch, s, i);
    case _ => TrackerStepKeeps(epoch, s, step);
  }

  lemma StopKeeps(epoch: int, s: Protocol)
    requires Inv(epoch, s)
    ensures Inv(epoch, s.(stopped := true))
  {
    var t := s.(stopped := true);
    assert forall call :: call in s.finished ==> Delivered(s, call) ==> Delivered(t, call);
    assert forall i :: 0 <= i < |s.threads| ==> ThreadInv(s, s.threads[i]) ==> ThreadInv(t, s.threads[i]);
  }

  lemma UncountedKeeps(epoch: int, s: Protocol, i: nat)
    requires Inv(epoch, s) && i < |s.threads| && s.threads[i].Returning?
    ensures InvLocked(epoch, s.(pending := s.pending - 1), i)
  {
    var t := s.(pending := s.pending - 1);
    assert forall call :: call in s.finished ==> Delivered(s, call) ==> Delivered(t, call);
    assert forall j :: 0 <= j < |s.threads| ==> ThreadInv(s, s.threads[j]) ==> ThreadInv(t, s.threads[j]);
  }

  lemma {:induction false} RunKeepsInv(maxSize: int, threads: nat, epoch: int, steps: seq<Step>)
    requires Legal(maxSize, threads, epoch, steps)
    ensures Inv(epoch, Run(threads, epoch, steps))
    decreases |steps|
  {
    if steps == [] {
      IdleCount(threads);
    } else {
      RunKeepsInv(maxSize, threads, epoch, Front(steps));
      StepKeepsInv(epoch, maxSize, Run(threads, epoch, Front(steps)), Last(steps));
    }
  }

  // ---------------------------------------------------------------------------------------
  // Main results
  // ---------------------------------------------------------------------------------------

  /**
    Whenever the confirmed watermark stands above the epoch, some AdvanceTo call for exactly that
    instant is past its drain and its wait, and every event at or below it that was accepted before
    that call left its drain loop has come back from ingest or was dropped on overflow. The same
    holds of every other call that is past its wait.
   */
  lemma {:induction false} ConfirmedMeansDelivered(maxSize: int, threads: nat, epoch: int, steps: seq<Step>)
    returns (call: Call)
    requires Legal(maxSize, threads, epoch, steps)
    requires Run(threads, epoch, steps).mark.confirmed > epoch
    ensures call.ts == Run(threads, epoch, steps).mark.confirmed && call in Run(threads, epoch, steps).finished
    ensures forall c :: c in Run(threads, epoch, steps).finished ==> Delivered(Run(threads, epoch, steps), c)
  {
    RunKeepsInv(maxSize, threads, epoch, steps);
    var s := Run(threads, epoch, steps);
    var seen :| Call(s.mark.confirmed, seen) in s.finished;
    call := Call(s.mark.confirmed, seen);
  }

  /** No accepted event is lost, and none is handed to ingest twice or by two threads. */
  lemma AcceptedEventsAreConserved(maxSize: int, threads: nat, epoch: int, steps: seq<Step>)
    requires Legal(maxSize, threads, epoch, steps)
    ensures Placed(Run(threads, epoch, steps))
    ensures Run(threads, epoch, steps).pending == BusyCount(Run(threads, epoch, steps).threads)
  {
    RunKeepsInv(maxSize, threads, epoch, steps);
  }

  ghost predicate Reaches(maxSize: int, threads: nat, steps: seq<Step>, s: Protocol) {
    Legal(maxSize, threads, 0, steps) && Run(threads, 0, steps) == s
  }

  lemma Extend(maxSize: int, threads: nat, steps: seq<Step>, s: Protocol, step: Step, t: Protocol)
    requires Reaches(maxSize, threads, steps, s) && CanStep(maxSize, s, step) && t == Next(s, step)
    ensures Reaches(maxSize, threads, steps + [step], t)
  {
    assert Front(steps + [step]) == steps;
  }

  const LONE_CALL := Protocol([], {}, {}, {}, 0, false, Watermark(0, 0), [Drained(10, 0)], {Call(10, 0)})

  lemma LoneCallDrains() returns (steps: seq<Step>)
    ensures Reaches(8, 1, steps, LONE_CALL)
  {
    var s0 := Init(1, 0);
    var s1 := s0.(threads := [Called(10)]);
    Extend(8, 1, [], s0, Begin(0, 10), s1);
    Extend(8, 1, [] + [Begin(0, 10)], s1, Enter(0, None), LONE_CALL);
    steps := [] + [Begin(0, 10)] + [Enter(0, None)];
  }

  lemma LoneCallConfirms(steps: seq<Step>, s: Protocol) returns (more: seq<Step>)
    requires Reaches(8, 1, steps, s) && s.threads == [Drained(10, 0)] && s.mark == Watermark(0, 0) && InRange(s)
    ensures Reaches(8, 1, more, s.(mark := Watermark(10, 10), threads := [Idle]))
  {
    var t := s.(mark := Watermark(10, 0), threads := [Raised(10, 0)]);
    Extend(8, 1, steps, s, Raise(0), t);
    Extend(8, 1, steps + [Raise(0)], t, Publish(0), s.(mark := Watermark(10, 10), threads := [Idle]));
    more := steps + [Raise(0)] + [Publish(0)];
  }

  // Popped from the buffer, whether ingest has returned or not.
  ghost predicate Taken(s: Protocol, k: nat) {
    k in s.handed || InFlight(s.threads, k)
  }

  // A turn of the drain loop that finds an event to hand on.
  predicate Pops(step: Step) {
    (step.Enter? || step.Reenter?) && step.pick.Some?
  }

  lemma GotoTakes(s: Protocol, i: nat, pc: Pc)
    requires i < |s.threads| && !s.threads[i].Handing? && !pc.Handing?
    ensures forall k :: Taken(Goto(s, i, pc), k) <==> Taken(s, k)
  {
    GotoKeepsHolding(s.threads, i, pc);
  }

  lemma ReturnTakes(s: Protocol, i: nat)
    requires i < |s.threads| && s.threads[i].Handing?
    ensures
      var held, ts := s.threads[i].held, s.threads[i].ts;
      forall k :: Taken(Goto(s.(handed := s.handed + {held}), i, Returning(ts)), k) <==> Taken(s, k)
  {
    var held, after := s.threads[i].held, s.threads[i := Returning(s.threads[i].ts)];
    assert Holds(s.threads[i], held);
    forall k | k != held
      ensures InFlight(after, k) <==> InFlight(s.threads, k)
    {
      if InFlight(s.threads, k) {
        var j :| 0 <= j < |s.threads| && Holds(s.threads[j], k);
        assert Holds(after[j], k);
      }
      if InFlight(after, k) {
        var j :| 0 <= j < |after| && Holds(after[j], k);
        assert Holds(s.threads[j], k);
      }
    }
  }

  lemma StepTakesNothing(s: Protocol, maxSize: int, step: Step)
    requires CanStep(maxSize, s, step) && !Pops(step)
    ensures forall k :: Taken(Next(s, step), k) <==> Taken(s, k)
    ensures s.finished <= Next(s, step).finished
  {
    hide Taken, IsOldest;
    match step
    case Emit(_, _) => SameThreads(s, Next(s, step));
    case Stop => SameThreads(s, Next(s, step));
    case IngestReturns(i) => ReturnTakes(s, i);
    case Reenter(i, _) =>
      SameThreads(s, s.(pending := s.pending - 1));
      WaitTakes(s.(pending := s.pending - 1), i, s.threads[i].ts, |s.accepted|);
    case Enter(i, _) => WaitTakes(s, i, s.threads[i].ts, |s.accepted|);
    case Wake(i) => WaitTakes(s, i, s.threads[i].ts, s.threads[i].seen);
    case Begin(i, ts) => GotoTakes(s, i, Called(ts));
    case Raise(i) =>
      var t := s.(mark := s.mark.Advanced(s.threads[i].ts));
      SameThreads(s, t);
      GotoTakes(t, i, Raised(s.threads[i].ts, s.threads[i].seen));
    case Publish(i) =>
      SameThreads(s, s.(mark := s.mark.Published()));
      GotoTakes(s.(mark := s.mark.Published()), i, Idle);
  }

  lemma SameThreads(s: Protocol, t: Protocol)
    requires s.threads == t.threads && s.handed == t.handed
    ensures forall k :: Taken(t, k) <==> Taken(s, k)
  {
  }

  lemma WaitTakes(s: Protocol, i: nat, ts: int, seen: nat)
    requires i < |s.threads| && !s.threads[i].Handing?
    ensures forall k :: Taken(FromWait(s, i, ts, seen), k) <==> Taken(s, k)
    ensures s.finished <= FromWait(s, i, ts, seen).finished
  {
    if s.pending > 0 {
      GotoTakes(s, i, Waiting(ts, seen));
    } else {
      var t := s.(finished := s.finished + {Call(ts, seen)});
      SameThreads(s, t);
      GotoTakes(t, i, Drained(ts, seen));
    }
  }

  lemma {:induction false} NothingTaken(maxSize: int, threads: nat, epoch: int, steps: seq<Step>, more: seq<Step>)
    requires Legal(maxSize, threads, epoch, steps + more)
    requires forall step :: step in more ==> !Pops(step)
    ensures
      var before, after := Run(threads, epoch, steps), Run(threads, epoch, steps + more);
      (forall k :: Taken(after, k) <==> Taken(before, k)) && before.finished <= after.finished
    decreases |more|
  {
    if more == [] {
      assert steps + more == steps;
    } else {
      hide Taken, CanStep, Next, Pops;
      FrontThenLast(more);
      assert forall step :: step in Front(more) ==> step in more;
      assert Front(steps + more) == steps + Front(more) && Last(steps + more) == Last(more) && Last(more) in more;
      NothingTaken(maxSize, threads, epoch, steps, Front(more));
      StepTakesNothing(Run(threads, epoch, steps + Front(more)), maxSize, Last(more));
    }
  }

  /**
    The guarantee covers no more than that. After a call is past its drain and its wait, and until some call pops
    an event again, an accepted event within its instant is buffered exactly when it was accepted after the call
    left its drain loop, has not overflowed, and had not been popped by another call before.
   */
  lemma {:induction false} LaterEventsStayBuffered(maxSize: int, threads: nat, epoch: int, steps: seq<Step>,
                                                   more: seq<Step>, call: Call)
    requires Legal(maxSize, threads, epoch, steps + more)
    requires call in Run(threads, epoch, steps).finished
    requires forall step :: step in more ==> !Pops(step)
    ensures
      var before, s := Run(threads, epoch, steps), Run(threads, epoch, steps + more);
      forall k :: 0 <= k < |s.accepted| && s.accepted[k].timestamp <= call.ts ==>
        (k in s.buffer <==> call.seen <= k && k !in s.overflowed && !Taken(before, k))
  {
    hide CanStep, Next, Run, Legal, Pops;
    NothingTaken(maxSize, threads, epoch, steps, more);
    RunKeepsInv(maxSize, threads, epoch, steps + more);
    var s := Run(threads, epoch, steps + more);
    assert Delivered(s, call);
    forall k: nat | k < |s.accepted|
      ensures k in s.buffer <==> k !in s.overflowed && !Taken(s, k)
    {
    }
  }

  /** Such a moment is reachable: an event emitted between drain and confirm stays below the watermark. */
  lemma {:induction false} EmittedAfterDrainIsNotCovered(ev: Event) returns (steps: seq<Step>)
    requires ev.timestamp <= 10
    ensures Legal(8, 1, 0, steps)
    ensures
      var s := Run(1, 0, steps);
      && s.accepted == [ev] && s.buffer == {0}
      && s.mark.confirmed == 10
      && s.finished == {Call(10, 0)}
  {
    var drained := LoneCallDrains();
    var s := LONE_CALL.(accepted := [ev], buffer := {0});
    Extend(8, 1, drained, LONE_CALL, Emit(ev, None), s);
    steps := LoneCallConfirms(drained + [Emit(ev, None)], s);
  }
}
