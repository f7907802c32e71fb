/** The source: reorder buffer, in-flight counter and watermark handshake, one lock region at a time. */
module EventSource {
  import opened Model
  import opened ReorderBuffer
  import opened Watermarks

  datatype SourceView = SourceView(
    bag: Bag, pending: int, lastOffset: int, stopped: bool, drained: nat, mark: Watermark)
  {
    function Emitted(ev: Event, victim: Option<Event>): SourceView {
      if stopped then this
      else this.(bag := ReorderBuffer.Step(bag, Add(ev, victim)), lastOffset := ev.offset)
    }

    // The state a completed AdvanceTo(ts) leaves, having handed `order` downstream.
    function Advanced(ts: int, order: seq<Event>): SourceView {
      this.(bag := bag - multiset(order), mark := mark.Advanced(ts).Published(), drained := drained + 1)
    }
  }

  // The order in which a drain up to ts may pop: each event is a minimum of what is left.
  ghost predicate PopsFrom(bag: Bag, ts: int, order: seq<Event>) {
    order != [] ==>
      && PopsFrom(bag, ts, Front(order))
      && IsMinOf(Last(order), bag - multiset(Front(order)))
      && Last(order).timestamp <= ts
  }

  ghost predicate Drains(bag: Bag, ts: int, order: seq<Event>) {
    && PopsFrom(bag, ts, order)
    && forall ev :: ev in bag - multiset(order) ==> ev.timestamp > ts
  }

  function Timestamp(ev: Event): int {
    ev.timestamp
  }

  lemma SortedOfMore(order: seq<Event>, ev: Event)
    requires SortedBy(order, Timestamp) && forall e :: e in order ==> e.timestamp <= ev.timestamp
    ensures SortedBy(order + [ev], Timestamp)
  {
    forall i, j | 0 <= i < j < |order + [ev]|
      ensures Timestamp((order + [ev])[i]) <= Timestamp((order + [ev])[j])
    {
      if j == |order| {
        assert order[i] in order;
      } else {
        assert Timestamp(order[i]) <= Timestamp(order[j]);
      }
    }
  }

  lemma TakeOneMore(bag: Bag, front: seq<Event>, last: Event)
    requires multiset(front) <= bag && last in bag - multiset(front)
    ensures multiset(front + [last]) <= bag
    ensures bag - multiset(front + [last]) == bag - multiset(front) - multiset{last}
    ensures forall ev :: ev in bag - multiset(front + [last]) ==> ev in bag - multiset(front)
  {
    assert multiset(front + [last]) == multiset(front) + multiset{last};
  }

  /** What a drain hands downstream comes out of the buffer, lies within ts, and is the oldest there. */
  lemma {:induction false} DrainTakesOldest(bag: Bag, ts: int, order: seq<Event>)
    requires PopsFrom(bag, ts, order)
    ensures multiset(order) <= bag
    ensures forall ev :: ev in order ==> ev in bag && ev.timestamp <= ts
    ensures forall ev, later :: ev in order && later in bag - multiset(order) ==> ev.timestamp <= later.timestamp
    decreases |order|
  {
    if order != [] {
      DrainTakesOldest(bag, ts, Front(order));
      TakeOneMore(bag, Front(order), Last(order));
      FrontThenLast(order);
    }
  }

  lemma StillBufferedIsLater(bag: Bag, ts: int, front: seq<Event>, last: Event)
    requires PopsFrom(bag, ts, front) && IsMinOf(last, bag - multiset(front))
    ensures forall ev :: ev in front ==> ev.timestamp <= last.timestamp
  {
    DrainTakesOldest(bag, ts, front);
  }

  /** It is handed downstream in timestamp order. */
  lemma {:induction false} DrainIsOrdered(bag: Bag, ts: int, order: seq<Event>)
    requires PopsFrom(bag, ts, order)
    ensures SortedBy(order, Timestamp)
    decreases |order|
  {
    if order != [] {
      hide SortedBy, IsMinOf;
      DrainIsOrdered(bag, ts, Front(order));
      StillBufferedIsLater(bag, ts, Front(order), Last(order));
      SortedOfMore(Front(order), Last(order));
      FrontThenLast(order);
    }
  }

  class Source {
    const buffer: Buffer
    const tracker: Tracker
    var pending: int
    var lastOffset: int
    var stopped: bool
    var drained: nat

    ghost predicate Valid()
      reads this, buffer
    {
      buffer.Valid()
    }

    ghost function View(): SourceView
      reads this, buffer, tracker
    {
      SourceView(buffer.View(), pending, lastOffset, stopped, drained, tracker.View())
    }

    constructor (buffer: Buffer, tracker: Tracker)
      requires buffer.Valid()
      ensures Valid() && this.buffer == buffer && this.tracker == tracker
      ensures View() == SourceView(buffer.View(), 0, -1, false, 0, tracker.View())
    {
      this.buffer := buffer;
      this.tracker := tracker;
      pending, lastOffset, stopped, drained := 0, -1, false, 0;
    }

    method Emit(ev: Event) returns (victim: Option<Event>)
      requires Valid()
      modifies this, buffer
      ensures Valid() && View() == old(View()).Emitted(ev, victim)
      ensures !old(stopped) ==> CanStep(buffer.maxSize, old(buffer.View()), Add(ev, victim))
      ensures old(stopped) ==> victim.None?
    {
      if stopped {
        return None;
      }
      victim := buffer.Add(ev);
      lastOffset := ev.offset;
    }

    // The drain loop's test and pop; the lock is released afterwards if there is an event to hand on.
    method TakeReady(ts: int) returns (ready: Option<Event>)
      requires Valid()
      modifies this`pending, buffer
      ensures Valid()
      ensures ready.Some? ==> IsMinOf(ready.value, old(buffer.View())) && ready.value.timestamp <= ts
      ensures ready.Some? ==> buffer.View() == old(buffer.View()) - multiset{ready.value} && pending == old(pending) + 1
      ensures ready.None? ==> forall ev :: ev in buffer.View() ==> ev.timestamp > ts
      ensures ready.None? ==> buffer.View() == old(buffer.View()) && pending == old(pending)
    {
      var empty := buffer.Empty();
      if empty {
        return None;
      }
      var least := buffer.MinTimestamp();
      if least > ts {
        return None;
      }
      var ev := buffer.PopMin();
      pending := pending + 1;
      return Some(ev);
    }

    // The lock is retaken after ingest returned.
    method Acknowledge()
      modifies this`pending
      ensures pending == old(pending) - 1
    {
      pending := pending - 1;
    }

    // The lock is released for good, and the frontier raised and confirmed.
    method Confirm(ts: int)
      modifies this`drained, tracker
      ensures View() == old(View()).(mark := old(View()).mark.Advanced(ts).Published(), drained := old(drained) + 1)
    {
      tracker.Advance(ts);
      tracker.Confirm();
      drained := drained + 1;
    }

    method Stop()
      modifies this`stopped
      ensures View() == old(View()).(stopped := true)
    {
      stopped := true;
    }
  }
}
