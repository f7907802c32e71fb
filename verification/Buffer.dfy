/**
  The bounded reorder buffer: a binary min-heap on event time that drops its oldest event when
  it grows past its capacity.
 */
module ReorderBuffer {
  import opened Model

  // ---------------------------------------------------------------------------------------
  // The buffer as a bag of events; ties between equal timestamps are left open
  // ---------------------------------------------------------------------------------------

  type Bag = multiset<Event>

  ghost predicate IsMinOf(ev: Event, bag: Bag) {
    ev in bag && forall e :: e in bag ==> ev.timestamp <= e.timestamp
  }

  datatype BufferOp = Add(ev: Event, victim: Option<Event>) | PopMin(ev: Event)

  ghost predicate CanStep(maxSize: int, bag: Bag, op: BufferOp) {
    match op
    case Add(ev, victim) =>
      if |bag + multiset{ev}| > maxSize
      then victim.Some? && IsMinOf(victim.value, bag + multiset{ev})
      else victim.None?
    case PopMin(ev) => IsMinOf(ev, bag)
  }

  function Dropped(victim: Option<Event>): Bag {
    if victim.Some? then multiset{victim.value} else multiset{}
  }

  function Step(bag: Bag, op: BufferOp): Bag {
    match op
    case Add(ev, victim) => bag + multiset{ev} - Dropped(victim)
    case PopMin(ev) => bag - multiset{ev}
  }

  function Run(ops: seq<BufferOp>): Bag {
    if ops == [] then multiset{} else Step(Run(Front(ops)), Last(ops))
  }

  ghost predicate Legal(maxSize: int, ops: seq<BufferOp>) {
    ops != [] ==> Legal(maxSize, Front(ops)) && CanStep(maxSize, Run(Front(ops)), Last(ops))
  }

  // What one step lets in, hands out and drops.
  function In(op: BufferOp): Bag {
    if op.Add? then multiset{op.ev} else multiset{}
  }

  function Out(op: BufferOp): Bag {
    if op.PopMin? then multiset{op.ev} else multiset{}
  }

  function Lost(op: BufferOp): Bag {
    if op.Add? then Dropped(op.victim) else multiset{}
  }

  function Added(ops: seq<BufferOp>): Bag {
    if ops == [] then multiset{} else Added(Front(ops)) + In(Last(ops))
  }

  function Popped(ops: seq<BufferOp>): Bag {
    if ops == [] then multiset{} else Popped(Front(ops)) + Out(Last(ops))
  }

  function Overflowed(ops: seq<BufferOp>): Bag {
    if ops == [] then multiset{} else Overflowed(Front(ops)) + Lost(Last(ops))
  }

  lemma TakeAndPutBack(bag: Bag, part: Bag)
    requires part <= bag
    ensures bag - part + part == bag && |bag - part| == |bag| - |part|
  {
  }

  lemma {:induction false} StepSizes(maxSize: int, bag: Bag, op: BufferOp)
    requires CanStep(maxSize, bag, op) && |bag| <= Max(0, maxSize)
    ensures bag + In(op) == Step(bag, op) + Out(op) + Lost(op)
    ensures Lost(op) == multiset{} || |bag| + 1 > Max(0, maxSize)
    ensures op.Add? ==> |Step(bag, op)| == if |bag| + 1 <= Max(0, maxSize) then |bag| + 1 else Max(0, maxSize)
    ensures |Step(bag, op)| <= Max(0, maxSize)
  {
    match op
    case Add(ev, victim) =>
      assert |bag + multiset{ev}| == |bag| + 1;
      TakeAndPutBack(bag + multiset{ev}, Dropped(victim));
    case PopMin(ev) =>
      TakeAndPutBack(bag, multiset{ev});
  }

  lemma Regroup(before: Bag, after: Bag, popped: Bag, lost: Bag, op: BufferOp)
    requires before + In(op) == after + Out(op) + Lost(op)
    ensures before + popped + lost + In(op) == after + (popped + Out(op)) + (lost + Lost(op))
  {
    calc {
      before + popped + lost + In(op);
      (before + In(op)) + popped + lost;
      (after + Out(op) + Lost(op)) + popped + lost;
      after + (popped + Out(op)) + (lost + Lost(op));
    }
  }

  /** Nothing is lost or invented, and the capacity is respected. */
  lemma {:induction false} BufferConserves(maxSize: int, ops: seq<BufferOp>)
    requires Legal(maxSize, ops)
    ensures Added(ops) == Run(ops) + Popped(ops) + Overflowed(ops)
    ensures |Run(ops)| <= Max(0, maxSize)
    decreases |ops|
  {
    if ops != [] {
      BufferConserves(maxSize, Front(ops));
      var op, bag := Last(ops), Run(Front(ops));
      StepSizes(maxSize, bag, op);
      Regroup(bag, Step(bag, op), Popped(Front(ops)), Overflowed(Front(ops)), op);
    }
  }

  lemma {:induction false} AddsFillTheBuffer(maxSize: int, ops: seq<BufferOp>)
    requires Legal(maxSize, ops)
    requires forall op :: op in ops ==> op.Add?
    ensures Overflowed(ops) == multiset{} || |Run(ops)| >= maxSize
    ensures |Run(ops)| == if |ops| <= Max(0, maxSize) then |ops| else Max(0, maxSize)
    decreases |ops|
  {
    if ops != [] {
      hide CanStep, Step, Lost;
      assert Last(ops) in ops && forall op :: op in Front(ops) ==> op in ops;
      AddsFillTheBuffer(maxSize, Front(ops));
      StepSizes(maxSize, Run(Front(ops)), Last(ops));
    }
  }

  /** Fed only by Add, the buffer retains the newest events: overflow always takes the oldest. */
  lemma {:induction false} BufferKeepsNewest(maxSize: int, ops: seq<BufferOp>)
    requires Legal(maxSize, ops)
    requires forall op :: op in ops ==> op.Add?
    ensures NoneOlder(Overflowed(ops), Run(ops))
    ensures |Run(ops)| == if |ops| <= Max(0, maxSize) then |ops| else Max(0, maxSize)
    decreases |ops|
  {
    AddsFillTheBuffer(maxSize, ops);
    if ops != [] {
      BufferKeepsNewest(maxSize, Front(ops));
      AddsFillTheBuffer(maxSize, Front(ops));
      VictimSeparates(maxSize, Run(Front(ops)), Overflowed(Front(ops)), Last(ops));
    }
  }

  ghost predicate NoneOlder(gone: Bag, bag: Bag) {
    forall lost, kept :: lost in gone && kept in bag ==> lost.timestamp <= kept.timestamp
  }

  lemma VictimSeparates(maxSize: int, bag: Bag, gone: Bag, op: BufferOp)
    requires op.Add? && CanStep(maxSize, bag, op)
    requires NoneOlder(gone, bag)
    requires gone == multiset{} || maxSize <= |bag|
    ensures NoneOlder(gone + Lost(op), Step(bag, op))
  {
    forall lost, kept | lost in gone + Lost(op) && kept in Step(bag, op)
      ensures lost.timestamp <= kept.timestamp
    {
      assert kept in bag + multiset{op.ev};
      if lost in gone && kept !in bag {
        // The buffer was full and the new event stays, so the victim is an older survivor.
        assert op.victim.value in bag;
      }
    }
  }

  // ---------------------------------------------------------------------------------------
  // The heap
  // ---------------------------------------------------------------------------------------

  function Parent(k: int): int {
    (k - 1) / 2
  }

  ghost predicate Ordered(h: seq<Event>, k: int)
    requires 0 < k < |h|
  {
    h[Parent(k)].timestamp <= h[k].timestamp
  }

  ghost predicate IsHeap(h: seq<Event>) {
    forall k :: 0 < k < |h| ==> Ordered(h, k)
  }

  // Heap order everywhere but between j and its parent; j's children already clear that parent.
  ghost predicate HeapButUp(h: seq<Event>, j: int) {
    && (forall k :: 0 < k < |h| && k != j ==> Ordered(h, k))
    && (forall k :: 0 < k < |h| && Parent(k) == j && 0 < j < |h| ==> h[Parent(j)].timestamp <= h[k].timestamp)
  }

  // Heap order below n everywhere but between i and its children, which already clear i's parent.
  ghost predicate HeapButDown(h: seq<Event>, i: int, n: int)
    requires n <= |h|
  {
    && (forall k :: 0 < k < n && Parent(k) != i ==> Ordered(h, k))
    && (forall k :: 0 < k < n && Parent(k) == i && 0 < i ==> h[Parent(i)].timestamp <= h[k].timestamp)
  }

  lemma {:induction false} HeapRootIsMin(h: seq<Event>, k: nat)
    requires IsHeap(h) && k < |h|
    ensures h[0].timestamp <= h[k].timestamp
  {
    if k > 0 {
      assert Ordered(h, k);
      HeapRootIsMin(h, Parent(k));
    }
  }

  lemma HeapRootIsMinOfBag(h: seq<Event>)
    requires IsHeap(h) && h != []
    ensures IsMinOf(h[0], multiset(h))
  {
    forall e | e in multiset(h)
      ensures h[0].timestamp <= e.timestamp
    {
      var k :| 0 <= k < |h| && h[k] == e;
      HeapRootIsMin(h, k);
    }
  }

  function Swapped(h: seq<Event>, i: nat, j: nat): seq<Event>
    requires i < |h| && j < |h|
  {
    h[i := h[j]][j := h[i]]
  }

  lemma SwapKeepsBag(h: seq<Event>, i: nat, j: nat)
    requires i < |h| && j < |h|
    ensures multiset(Swapped(h, i, j)) == multiset(h)
  {
  }

  lemma SiftUpStep(h: seq<Event>, j: nat)
    requires 0 < j < |h| && HeapButUp(h, j)
    requires h[j].timestamp < h[Parent(j)].timestamp
    ensures HeapButUp(Swapped(h, Parent(j), j), Parent(j))
  {
    var i := Parent(j);
    var g := Swapped(h, i, j);
    forall k | 0 < k < |g| && k != i
      ensures Ordered(g, k)
    {
      if k != j { assert Ordered(h, k); }
    }
    forall k | 0 < k < |g| && Parent(k) == i && 0 < i
      ensures g[Parent(i)].timestamp <= g[k].timestamp
    {
      assert Ordered(h, i);
      if k != j { assert Ordered(h, k); }
    }
  }

  lemma SiftedUp(h: seq<Event>, j: nat)
    requires j < |h| && HeapButUp(h, j)
    requires j > 0 ==> Ordered(h, j)
    ensures IsHeap(h)
  {
  }

  lemma SiftDownStep(h: seq<Event>, i: nat, j: nat, n: nat)
    requires n <= |h| && 0 < j < n && Parent(j) == i && HeapButDown(h, i, n)
    requires forall k :: 0 < k < n && Parent(k) == i ==> h[j].timestamp <= h[k].timestamp
    requires h[j].timestamp < h[i].timestamp
    ensures HeapButDown(Swapped(h, i, j), j, n)
  {
    var g := Swapped(h, i, j);
    forall k | 0 < k < n && Parent(k) != j
      ensures Ordered(g, k)
    {
      if Parent(k) != i { assert Ordered(h, k); }
    }
    forall k | 0 < k < n && Parent(k) == j
      ensures g[Parent(j)].timestamp <= g[k].timestamp
    {
      assert Ordered(h, k);
    }
  }

  lemma SmallerChild(h: seq<Event>, i: nat, j: nat, n: nat)
    requires n <= |h| && j < n && (j == 2 * i + 1 || j == 2 * i + 2)
    requires 2 * i + 2 < n ==>
      h[j].timestamp <= h[2 * i + 1].timestamp && h[j].timestamp <= h[2 * i + 2].timestamp
    requires j == 2 * i + 2 ==> h[j].timestamp <= h[2 * i + 1].timestamp
    ensures Parent(j) == i
    ensures forall k :: 0 < k < n && Parent(k) == i ==> h[j].timestamp <= h[k].timestamp
  {
    forall k | 0 < k < n && Parent(k) == i
      ensures h[j].timestamp <= h[k].timestamp
    {
      assert k == 2 * i + 1 || k == 2 * i + 2;
    }
  }

  lemma NoChildIsSmaller(h: seq<Event>, i: nat, j: nat, n: nat)
    requires n <= |h| && i < n && j < n && HeapButDown(h, i, n)
    requires forall k :: 0 < k < n && Parent(k) == i ==> h[j].timestamp <= h[k].timestamp
    requires h[i].timestamp <= h[j].timestamp
    ensures IsHeap(h[..n])
  {
    forall k | 0 < k < n
      ensures Ordered(h[..n], k)
    {
      if Parent(k) != i { assert Ordered(h, k); }
    }
  }

  lemma NoChildAtAll(h: seq<Event>, i: nat, n: nat)
    requires n <= |h| && n <= 2 * i + 1 && HeapButDown(h, i, n)
    ensures IsHeap(h[..n])
  {
    forall k | 0 < k < n
      ensures Ordered(h[..n], k)
    {
      assert Parent(k) != i;
      assert Ordered(h, k);
    }
  }

  class Buffer {
    var entries: seq<Event>
    const maxSize: int

    ghost predicate Valid()
      reads this
    {
      IsHeap(entries)
    }

    ghost function View(): Bag
      reads this
    {
      multiset(entries)
    }

    constructor (maxSize: int)
      ensures Valid() && View() == multiset{} && this.maxSize == maxSize
    {
      entries := [];
      this.maxSize := maxSize;
    }

    method Swap(i: nat, j: nat)
      requires i < |entries| && j < |entries|
      modifies this`entries
      ensures entries == Swapped(old(entries), i, j) && View() == old(View())
    {
      SwapKeepsBag(entries, i, j);
      entries := entries[i := entries[j]][j := entries[i]];
    }

    method Up(start: nat)
      requires start < |entries| && HeapButUp(entries, start)
      modifies this`entries
      ensures Valid() && View() == old(View())
    {
      hide HeapButUp, IsHeap;
      var j := start;
      while j > 0 && entries[j].timestamp < entries[Parent(j)].timestamp
        invariant 0 <= j < |entries| && HeapButUp(entries, j)
        invariant View() == old(View())
      {
        SiftUpStep(entries, j);
        Swap(Parent(j), j);
        j := Parent(j);
      }
      SiftedUp(entries, j);
    }

    // Restores heap order among the first n entries after entry 0 was replaced.
    method Down(n: nat)
      requires n <= |entries| && HeapButDown(entries, 0, n)
      modifies this`entries
      ensures |entries| == old(|entries|) && View() == old(View())
      ensures forall k :: n <= k < |entries| ==> entries[k] == old(entries[k])
      ensures IsHeap(entries[..n])
    {
      hide HeapButDown, IsHeap;
      var i := 0;
      while 2 * i + 1 < n
        invariant 0 <= i && |entries| == old(|entries|)
        invariant HeapButDown(entries, i, n)
        invariant View() == old(View())
        invariant forall k :: n <= k < |entries| ==> entries[k] == old(entries[k])
        decreases n - i
      {
        var j := 2 * i + 1;
        if j + 1 < n && entries[j + 1].timestamp < entries[j].timestamp {
          j := j + 1;
        }
        SmallerChild(entries, i, j, n);
        if entries[i].timestamp <= entries[j].timestamp {
          NoChildIsSmaller(entries, i, j, n);
          return;
        }
        SiftDownStep(entries, i, j, n);
        Swap(i, j);
        i := j;
      }
      NoChildAtAll(entries, i, n);
    }

    method HeapPush(ev: Event)
      requires Valid()
      modifies this`entries
      ensures Valid() && View() == old(View()) + multiset{ev}
    {
      ghost var before := entries;
      entries := entries + [ev];
      forall k | 0 < k < |entries| && k != |entries| - 1
        ensures Ordered(entries, k)
      {
        assert Ordered(before, k);
      }
      Up(|entries| - 1);
    }

    method HeapPop() returns (ev: Event)
      requires Valid() && entries != []
      modifies this`entries
      ensures Valid() && IsMinOf(ev, old(View())) && View() == old(View()) - multiset{ev}
    {
      HeapRootIsMinOfBag(entries);
      ghost var before := entries;
      var n := |entries| - 1;
      Swap(0, n);
      forall k | 0 < k < n && Parent(k) != 0
        ensures Ordered(entries, k)
      {
        assert Ordered(before, k);
      }
      Down(n);
      ev := entries[n];
      assert ev == before[0];
      assert entries == entries[..n] + [ev];
      entries := entries[..n];
    }

    /** Inserts an event; `victim` is what the overflow callback receives, if it is called. */
    method Add(ev: Event) returns (victim: Option<Event>)
      requires Valid()
      modifies this`entries
      ensures Valid()
      ensures CanStep(maxSize, old(View()), BufferOp.Add(ev, victim))
      ensures View() == Step(old(View()), BufferOp.Add(ev, victim))
    {
      HeapPush(ev);
      victim := None;
      if |entries| > maxSize {
        var over := HeapPop();
        victim := Some(over);
      }
    }

    method PopMin() returns (ev: Event)
      requires Valid() && entries != []
      modifies this`entries
      ensures Valid()
      ensures CanStep(maxSize, old(View()), BufferOp.PopMin(ev))
      ensures View() == Step(old(View()), BufferOp.PopMin(ev))
    {
      ev := HeapPop();
    }

    /** The smallest buffered event time, or 2^62 when there is none. */
    method MinTimestamp() returns (ts: int)
      requires Valid()
      ensures entries == [] ==> ts == 0x4000_0000_0000_0000
      ensures entries != [] ==> exists ev :: IsMinOf(ev, View()) && ts == ev.timestamp
    {
      if |entries| == 0 {
        return 0x4000_0000_0000_0000;
      }
      HeapRootIsMinOfBag(entries);
      ts := entries[0].timestamp;
    }

    method Empty() returns (empty: bool)
      ensures empty <==> View() == multiset{}
    {
      empty := |entries| == 0;
      assert entries != [] ==> entries[0] in multiset(entries);
    }
  }
}
