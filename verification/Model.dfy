/**
  The values that flow through the engine: events, window identities and window results,
  together with the fold that every published aggregate is specified against.
 */
module Model {

  datatype Option<+T> = None | Some(value: T)

  datatype EventKind = KindData | KindSessionPing | KindControl

  datatype Event = Event(key: string, value: int, timestamp: int, offset: int, kind: EventKind)

  // Tumbling windows carry the empty key; session windows carry the session key.
  datatype WindowID = WindowID(start: int, end: int, key: string)

  datatype WindowState = WindowOpen | WindowTriggering | WindowClosing | WindowClosed {
    predicate CanClose() {
      WindowOpen? || WindowTriggering?
    }
  }

  function Max(a: int, b: int): int {
    if a < b then b else a
  }

  // ---------------------------------------------------------------------------------------
  // Sequences of values
  // ---------------------------------------------------------------------------------------

  function Last<T>(s: seq<T>): T
    requires s != []
  {
    s[|s| - 1]
  }

  function Front<T>(s: seq<T>): seq<T>
    requires s != []
  {
    s[..|s| - 1]
  }

  lemma Associate<X>(a: seq<X>, b: seq<X>, c: seq<X>)
    ensures a + b + c == a + (b + c)
  {
  }

  lemma FrontThenLast<T>(s: seq<T>)
    requires s != []
    ensures s == Front(s) + [Last(s)]
  {
  }

  lemma SameMembers<T>(a: seq<T>, b: seq<T>)
    requires multiset(a) == multiset(b)
    ensures |a| == |b| && forall x :: x in a <==> x in b
  {
    assert |a| == |multiset(a)| == |multiset(b)| == |b|;
    assert forall x :: x in a <==> x in multiset(a);
    assert forall x :: x in b <==> x in multiset(b);
  }

  ghost predicate Distinct<T(!new)>(s: seq<T>) {
    forall i, j :: 0 <= i < j < |s| ==> s[i] != s[j]
  }

  lemma {:induction false} MembersFit<T(!new)>(s: seq<T>)
    ensures |set x | x in s| <= |s|
    decreases |s|
  {
    if s != [] {
      MembersFit(Front(s));
      FrontThenLast(s);
      assert (set x | x in s) == (set x | x in Front(s)) + {Last(s)};
    }
  }

  // A list with as many entries as members has each of them once.
  lemma DistinctBySize<T(!new)>(s: seq<T>, members: set<T>)
    requires (forall x :: x in s <==> x in members) && |s| == |members|
    ensures Distinct(s)
  {
    forall i, j | 0 <= i < j < |s|
      ensures s[i] != s[j]
    {
      if s[i] == s[j] {
        var rest := s[..j] + s[j + 1..];
        forall x | x in s
          ensures x in rest
        {
          var k :| 0 <= k < |s| && s[k] == x;
          if k < j {
            assert rest[k] == x;
          } else if k == j {
            assert rest[i] == x;
          } else {
            assert rest[k - 1] == x;
          }
        }
        assert forall x :: x in rest ==> x in s;
        assert (set x | x in rest) == members;
        MembersFit(rest);
      }
    }
  }

  // Results for as many identities as there are results have each identity once.
  lemma DistinctByIdentity<T(!new), I(!new)>(rs: seq<T>, id: T -> I, members: set<I>)
    requires |rs| == |members|
    requires forall r :: r in rs ==> id(r) in members
    requires forall m :: m in members ==> exists r :: r in rs && id(r) == m
    ensures forall i, j :: 0 <= i < j < |rs| ==> id(rs[i]) != id(rs[j])
  {
    var ids := seq(|rs|, i requires 0 <= i < |rs| => id(rs[i]));
    forall m
      ensures m in ids <==> m in members
    {
      if m in members {
        var r :| r in rs && id(r) == m;
        var i :| 0 <= i < |rs| && rs[i] == r;
        assert ids[i] == m;
      }
    }
    DistinctBySize(ids, members);
    forall i, j | 0 <= i < j < |rs|
      ensures id(rs[i]) != id(rs[j])
    {
      assert ids[i] != ids[j];
    }
  }

  function Sum(vs: seq<int>): int {
    if vs == [] then 0 else Sum(Front(vs)) + Last(vs)
  }

  lemma SumSnoc(vs: seq<int>, v: int)
    ensures Sum(vs + [v]) == Sum(vs) + v
  {
    assert Front(vs + [v]) == vs;
  }

  lemma {:induction false} SumAppend(a: seq<int>, b: seq<int>)
    ensures Sum(a + b) == Sum(a) + Sum(b)
  {
    if b == [] {
      assert a + b == a;
    } else {
      SumAppend(a, Front(b));
      assert Front(a + b) == a + Front(b);
    }
  }

  lemma SplitAt<T>(s: seq<T>, i: nat)
    requires i < |s|
    ensures s == s[..i] + [s[i]] + s[i + 1..]
  {
  }

  function RemoveAt<T>(s: seq<T>, i: nat): seq<T>
    requires i < |s|
  {
    s[..i] + s[i + 1..]
  }

  lemma RemoveAtBag<T>(s: seq<T>, i: nat)
    requires i < |s|
    ensures multiset(RemoveAt(s, i)) == multiset(s) - multiset{s[i]}
  {
    SplitAt(s, i);
    assert multiset(s) == multiset(s[..i]) + multiset{s[i]} + multiset(s[i + 1..]);
  }

  lemma {:induction false} SumRemoveAt(s: seq<int>, i: nat)
    requires i < |s|
    ensures Sum(s) == Sum(RemoveAt(s, i)) + s[i]
  {
    var before, after := s[..i], s[i + 1..];
    SumAround(before, s[i], after);
    SumAppend(before, after);
    SplitAt(s, i);
  }

  lemma SumAround(before: seq<int>, x: int, after: seq<int>)
    ensures Sum(before + [x] + after) == Sum(before) + x + Sum(after)
  {
    SumAppend(before + [x], after);
    assert Front(before + [x]) == before;
  }

  lemma {:induction false} SumOfPermutation(a: seq<int>, b: seq<int>)
    requires multiset(a) == multiset(b)
    ensures Sum(a) == Sum(b)
    decreases |a|
  {
    if a == [] {
      assert |multiset(b)| == 0;
    } else {
      assert Last(a) in multiset(b);
      var i :| 0 <= i < |b| && b[i] == Last(a);
      assert a == Front(a) + [Last(a)];
      RemoveAtBag(b, i);
      SumOfPermutation(Front(a), RemoveAt(b, i));
      SumRemoveAt(b, i);
    }
  }

  // ---------------------------------------------------------------------------------------
  // Totals per key; a missing key counts as zero
  // ---------------------------------------------------------------------------------------

  type Totals = map<string, int>

  function At(m: Totals, key: string): int {
    if key in m then m[key] else 0
  }

  function Plus(m: Totals, key: string, value: int): Totals {
    m[key := At(m, key) + value]
  }

  // ---------------------------------------------------------------------------------------
  // Window results
  // ---------------------------------------------------------------------------------------

  datatype WindowResult = WindowResult(
    window: WindowID, count: int, sum: int, min: int, max: int,
    emitted: bool, lateCount: int, lateSum: int)
  {
    // The effect of folding one value in before publication.
    function Applied(value: int): WindowResult {
      this.(count := count + 1,
            sum := sum + value,
            min := if count + 1 == 1 || value < min then value else min,
            max := if value > max then value else max)
    }

    // The effect of folding one value in after the window closed.
    function AppliedLate(value: int): WindowResult {
      this.(lateCount := lateCount + 1, lateSum := lateSum + value)
    }

    function AppliedAll(values: seq<int>): WindowResult
      decreases |values|
    {
      if values == [] then this else AppliedAll(Front(values)).Applied(Last(values))
    }
  }

  function Fresh(w: WindowID): WindowResult {
    WindowResult(w, 0, 0, 0, 0, false, 0, 0)
  }

  // What a window that accepted `values` and nothing else aggregates to.
  function Fold(w: WindowID, values: seq<int>): WindowResult {
    Fresh(w).AppliedAll(values)
  }

  // The least value, or zero when there is none.
  ghost predicate IsMin(values: seq<int>, m: int) {
    if values == [] then m == 0 else m in values && forall v :: v in values ==> m <= v
  }

  // The greatest value, but never below zero: the accumulator has no first-value case.
  ghost predicate IsMaxOrZero(values: seq<int>, m: int) {
    && (m == 0 || m in values)
    && 0 <= m
    && (forall v :: v in values ==> v <= m)
  }

  /** The fold stated without reference to how it is computed. */
  ghost predicate Aggregates(r: WindowResult, w: WindowID, values: seq<int>) {
    && r.window == w
    && r.count == |values|
    && r.sum == Sum(values)
    && IsMin(values, r.min)
    && IsMaxOrZero(values, r.max)
  }

  lemma {:induction false} FoldAggregates(w: WindowID, values: seq<int>)
    ensures Aggregates(Fold(w, values), w, values)
    ensures !Fold(w, values).emitted && Fold(w, values).lateCount == Fold(w, values).lateSum == 0
    decreases |values|
  {
    if values != [] {
      FoldAggregates(w, Front(values));
      assert values == Front(values) + [Last(values)];
      assert forall v :: v in values <==> v in Front(values) || v == Last(values);
      assert Last(values) in values;
    }
  }

  /** Only the values matter to an aggregate, not their order. */
  lemma AggregatesCarryOver(r: WindowResult, w: WindowID, a: seq<int>, b: seq<int>)
    requires Aggregates(r, w, a) && multiset(a) == multiset(b)
    ensures Aggregates(r, w, b)
  {
    SumOfPermutation(a, b);
    SameMembers(a, b);
  }

  /** The aggregate determines every published field, whatever the order of the values. */
  lemma AggregatesOfPermutation(r: WindowResult, s: WindowResult, w: WindowID, a: seq<int>, b: seq<int>)
    requires Aggregates(r, w, a) && Aggregates(s, w, b)
    requires multiset(a) == multiset(b)
    ensures r.count == s.count && r.sum == s.sum && r.min == s.min && r.max == s.max
  {
    AggregatesCarryOver(r, w, a, b);
  }

  lemma FoldOfPermutation(w: WindowID, a: seq<int>, b: seq<int>)
    requires multiset(a) == multiset(b)
    ensures Fold(w, a) == Fold(w, b)
  {
    FoldAggregates(w, a);
    FoldAggregates(w, b);
    AggregatesOfPermutation(Fold(w, a), Fold(w, b), w, a, b);
  }

  /** A window result as the engine holds it: one mutable cell, updated in place. */
  class ResultCell {
    const window: WindowID
    var count: int
    var sum: int
    var min: int
    var max: int
    var emitted: bool
    var lateCount: int
    var lateSum: int

    constructor (window: WindowID)
      ensures View() == Fresh(window)
    {
      this.window := window;
      count, sum, min, max := 0, 0, 0, 0;
      emitted, lateCount, lateSum := false, 0, 0;
    }

    constructor Copy(r: WindowResult)
      ensures View() == r
    {
      window := r.window;
      count, sum, min, max := r.count, r.sum, r.min, r.max;
      emitted, lateCount, lateSum := r.emitted, r.lateCount, r.lateSum;
    }

    function View(): WindowResult
      reads this
    {
      WindowResult(window, count, sum, min, max, emitted, lateCount, lateSum)
    }

    method Apply(value: int)
      modifies this
      ensures View() == old(View()).Applied(value)
    {
      count := count + 1;
      sum := sum + value;
      if count == 1 || value < min {
        min := value;
      }
      if value > max {
        max := value;
      }
    }

    method ApplyAll(values: seq<int>)
      modifies this
      ensures View() == old(View()).AppliedAll(values)
    {
      for i := 0 to |values|
        invariant View() == old(View()).AppliedAll(values[..i])
      {
        Apply(values[i]);
        assert Front(values[..i + 1]) == values[..i];
      }
      assert values[..|values|] == values;
    }

    method ApplyLate(value: int)
      modifies this
      ensures View() == old(View()).AppliedLate(value)
    {
      lateCount := lateCount + 1;
      lateSum := lateSum + value;
    }

    method MarkEmitted()
      modifies this
      ensures View() == old(View()).(emitted := true)
    {
      emitted := true;
    }

    method Snapshot() returns (copy: WindowResult)
      ensures copy == View()
    {
      copy := View();
    }
  }

  // ---------------------------------------------------------------------------------------
  // Loops over the keys of a map: what is done once `w` leaves the keys to do
  // ---------------------------------------------------------------------------------------

  lemma OneLess<T>(due: set<T>, todo: set<T>, w: T)
    requires w in todo
    ensures due - (todo - {w}) == if w in due then due - todo + {w} else due - todo
  {
  }

  // ---------------------------------------------------------------------------------------
  // Sorting: the library contract, any sorted permutation
  // ---------------------------------------------------------------------------------------

  ghost predicate SortedBy<T>(s: seq<T>, rank: T -> int) {
    forall i, j :: 0 <= i < j < |s| ==> rank(s[i]) <= rank(s[j])
  }

  function Inserted<T>(r: seq<T>, i: nat, x: T): seq<T>
    requires i <= |r|
  {
    r[..i] + [x] + r[i..]
  }

  lemma InsertedBag<T>(r: seq<T>, i: nat, x: T)
    requires i <= |r|
    ensures multiset(Inserted(r, i, x)) == multiset(r) + multiset{x}
  {
    assert r == r[..i] + r[i..];
  }

  lemma SortedInsert<T>(r: seq<T>, i: nat, x: T, rank: T -> int)
    requires SortedBy(r, rank) && i <= |r|
    requires i > 0 ==> rank(r[i - 1]) <= rank(x)
    requires forall j :: i <= j < |r| ==> rank(x) <= rank(r[j])
    ensures SortedBy(Inserted(r, i, x), rank)
  {
    var s := Inserted(r, i, x);
    assert forall j :: 0 <= j < i ==> s[j] == r[j] && rank(r[j]) <= rank(x);
    assert forall j :: i < j < |s| ==> s[j] == r[j - 1];
    assert s[i] == x;
  }

  // One turn of the sort: the next element goes behind the last one that does not rank above it.
  method Insert<T(==)>(s: seq<T>, x: T, rank: T -> int) returns (r: seq<T>)
    requires SortedBy(s, rank)
    ensures multiset(r) == multiset(s) + multiset{x}
    ensures SortedBy(r, rank)
  {
    hide SortedBy;
    var i := |s|;
    while i > 0 && rank(x) < rank(s[i - 1])
      invariant 0 <= i <= |s|
      invariant forall j :: i <= j < |s| ==> rank(x) < rank(s[j])
    {
      i := i - 1;
    }
    SortedInsert(s, i, x, rank);
    InsertedBag(s, i, x);
    r := Inserted(s, i, x);
  }

  lemma SortedNothing<T>(rank: T -> int)
    ensures SortedBy([], rank)
  {
  }

  method SortBy<T(==)>(s: seq<T>, rank: T -> int) returns (r: seq<T>)
    ensures multiset(r) == multiset(s)
    ensures SortedBy(r, rank)
  {
    hide SortedBy;
    r := [];
    SortedNothing(rank);
    for n := 0 to |s|
      invariant multiset(r) == multiset(s[..n])
      invariant SortedBy(r, rank)
    {
      assert s[..n + 1] == s[..n] + [s[n]];
      r := Insert(r, s[n], rank);
    }
    assert s[..|s|] == s;
  }
}
