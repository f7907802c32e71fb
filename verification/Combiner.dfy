/** Merging partial results of the same window into one result per window. */
module Combiner {
  import opened Model

  // One merge step: `r` is folded into the accumulated `t` for the same window.
  function Merge(t: WindowResult, r: WindowResult): WindowResult {
    t.(count := t.count + r.count,
       sum := t.sum + r.sum,
       lateCount := t.lateCount + r.lateCount,
       lateSum := t.lateSum + r.lateSum,
       min := if r.min < t.min || t.count + r.count == r.count then r.min else t.min,
       max := if r.max > t.max then r.max else t.max,
       emitted := t.emitted || r.emitted)
  }

  // ---------------------------------------------------------------------------------------
  // What Combine returns
  // ---------------------------------------------------------------------------------------

  ghost predicate Occurs(results: seq<WindowResult>, w: WindowID) {
    exists i :: 0 <= i < |results| && results[i].window == w
  }

  function Order(results: seq<WindowResult>): seq<WindowID> {
    if results == [] then []
    else
      var before := Order(Front(results));
      if Last(results).window in before then before else before + [Last(results).window]
  }

  function Merged(results: seq<WindowResult>): map<WindowID, WindowResult> {
    if results == [] then map[]
    else
      var before, r := Merged(Front(results)), Last(results);
      before[r.window := if r.window in before then Merge(before[r.window], r) else r]
  }

  lemma {:induction false} OrderCoversMerged(results: seq<WindowResult>)
    ensures forall w :: w in Order(results) <==> w in Merged(results)
    ensures forall w :: w in Merged(results) <==> Occurs(results, w)
    decreases |results|
  {
    if results != [] {
      OrderCoversMerged(Front(results));
      assert results[|results| - 1] == Last(results);
      forall w
        ensures w in Merged(results) <==> Occurs(results, w)
      {
        if Occurs(Front(results), w) {
          var i :| 0 <= i < |Front(results)| && Front(results)[i].window == w;
          assert results[i].window == w;
        }
        if Occurs(results, w) && w != Last(results).window {
          var i :| 0 <= i < |results| && results[i].window == w;
          assert Front(results)[i].window == w;
        }
      }
    }
  }

  function FirstIndex(results: seq<WindowResult>, w: WindowID): nat {
    if results == [] then 0
    else if results[0].window == w then 0
    else 1 + FirstIndex(results[1..], w)
  }

  lemma {:induction false} FirstIndexOfExtension(results: seq<WindowResult>, r: WindowResult, w: WindowID)
    ensures FirstIndex(results, w) <= |results|
    ensures FirstIndex(results, w) < |results| <==> Occurs(results, w)
    ensures FirstIndex(results + [r], w) ==
      if Occurs(results, w) || r.window == w then FirstIndex(results, w) else |results| + 1
    decreases |results|
  {
    if results == [] {
      assert [r][1..] == [];
    } else {
      FirstIndexOfExtension(results[1..], r, w);
      assert (results + [r])[1..] == results[1..] + [r];
      if Occurs(results[1..], w) {
        var i :| 0 <= i < |results[1..]| && results[1..][i].window == w;
        assert results[i + 1].window == w;
      }
      if Occurs(results, w) && results[0].window != w {
        var i :| 0 <= i < |results| && results[i].window == w;
        assert results[1..][i - 1].window == w;
      }
    }
  }

  /** The windows come out once each, ordered by their first occurrence in the input. */
  lemma {:induction false} OrderIsFirstOccurrence(results: seq<WindowResult>)
    ensures forall w :: w in Order(results) <==> Occurs(results, w)
    ensures forall i, j :: 0 <= i < j < |Order(results)| ==>
      FirstIndex(results, Order(results)[i]) < FirstIndex(results, Order(results)[j])
    decreases |results|
  {
    OrderCoversMerged(results);
    if results != [] {
      var front, order := Front(results), Order(Front(results));
      OrderIsFirstOccurrence(front);
      assert results == front + [Last(results)];
      forall i, j | 0 <= i < j < |Order(results)|
        ensures FirstIndex(results, Order(results)[i]) < FirstIndex(results, Order(results)[j])
      {
        var v, w := Order(results)[i], Order(results)[j];
        FirstIndexOfExtension(front, Last(results), v);
        FirstIndexOfExtension(front, Last(results), w);
        assert v == order[i];
        assert v in order;
        if j < |order| {
          assert w == order[j];
          assert w in order;
        }
      }
    }
  }

  // The body of the merge loop, for a window seen before.
  method MergeInto(target: ResultCell, result: WindowResult)
    modifies target
    ensures target.View() == Merge(old(target.View()), result)
  {
    target.count := target.count + result.count;
    target.sum := target.sum + result.sum;
    target.lateCount := target.lateCount + result.lateCount;
    target.lateSum := target.lateSum + result.lateSum;
    if result.min < target.min || target.count == result.count {
      target.min := result.min;
    }
    if result.max > target.max {
      target.max := result.max;
    }
    target.emitted := target.emitted || result.emitted;
  }

  // Each window has its own cell, and the cells hold `views`.
  ghost predicate Holds(merged: map<WindowID, ResultCell>, cells: set<ResultCell>, views: map<WindowID, WindowResult>)
    reads cells
  {
    && merged.Keys == views.Keys
    && (forall w :: w in merged ==> merged[w] in cells && merged[w].View() == views[w])
    && (forall v, w :: v in merged && w in merged && merged[v] == merged[w] ==> v == w)
  }

  // One iteration of the merge loop; `done` is what earlier ones merged.
  method MergeOne(merged: map<WindowID, ResultCell>, ghost cells: set<ResultCell>, order: seq<WindowID>,
                  ghost done: seq<WindowResult>, result: WindowResult)
    returns (more: map<WindowID, ResultCell>, ghost moreCells: set<ResultCell>, moreOrder: seq<WindowID>)
    requires Holds(merged, cells, Merged(done)) && order == Order(done)
    modifies cells
    ensures Holds(more, moreCells, Merged(done + [result])) && moreOrder == Order(done + [result])
    ensures fresh(moreCells - cells)
  {
    OrderCoversMerged(done);
    assert Front(done + [result]) == done;
    if result.window !in merged {
      var copy := new ResultCell.Copy(result);
      return merged[result.window := copy], cells + {copy}, order + [result.window];
    }
    MergeInto(merged[result.window], result);
    return merged, cells, order;
  }

  method Combine(results: seq<WindowResult>) returns (out: seq<WindowResult>)
    ensures |out| == |Order(results)|
    ensures forall i :: 0 <= i < |out| ==> Order(results)[i] in Merged(results)
    ensures forall i :: 0 <= i < |out| ==> out[i] == Merged(results)[Order(results)[i]]
  {
    hide Merged, Order, Holds;
    var merged: map<WindowID, ResultCell> := map[];
    ghost var cells: set<ResultCell> := {};
    var order: seq<WindowID> := [];
    NothingMerged();
    for i := 0 to |results|
      invariant fresh(cells)
      invariant Holds(merged, cells, Merged(results[..i]))
      invariant order == Order(results[..i])
    {
      assert results[..i + 1] == results[..i] + [results[i]];
      merged, cells, order := MergeOne(merged, cells, order, results[..i], results[i]);
    }
    assert results[..|results|] == results;
    out := Collect(merged, cells, order, Merged(results), results);
  }

  lemma NothingMerged()
    ensures Merged([]) == map[] && Order([]) == []
    ensures Holds(map[], {}, Merged([]))
  {
  }

  // The loop that lists the merged results in order.
  method Collect(merged: map<WindowID, ResultCell>, ghost cells: set<ResultCell>, order: seq<WindowID>,
                 ghost views: map<WindowID, WindowResult>, ghost results: seq<WindowResult>)
    returns (out: seq<WindowResult>)
    requires Holds(merged, cells, views) && order == Order(results) && views == Merged(results)
    ensures |out| == |order|
    ensures forall i :: 0 <= i < |out| ==> order[i] in views && out[i] == views[order[i]]
  {
    hide Merged, Order;
    OrderCoversMerged(results);
    out := [];
    for i := 0 to |order|
      invariant |out| == i
      invariant forall j :: 0 <= j < i ==> order[j] in views && out[j] == views[order[j]]
    {
      assert order[i] in order;
      var snap := merged[order[i]].Snapshot();
      out := out + [snap];
    }
  }

  // ---------------------------------------------------------------------------------------
  // Combine is a homomorphism on folds
  // ---------------------------------------------------------------------------------------

  /**
    Merging the folds of two value lists gives the fold of their concatenation, except when an empty
    partial follows values that are all positive: its zero minimum then displaces the true one.
   */
  lemma MergeOfFolds(w: WindowID, a: seq<int>, b: seq<int>)
    ensures Merge(Fold(w, a), Fold(w, b)) == Fold(w, a + b) <==>
      (b != [] || a == [] || exists v :: v in a && v <= 0)
  {
    FoldAggregates(w, a);
    FoldAggregates(w, b);
    FoldAggregates(w, a + b);
    SumAppend(a, b);
    assert forall v :: v in a + b <==> v in a || v in b;
    var m := Merge(Fold(w, a), Fold(w, b));
    if b != [] || a == [] || exists v :: v in a && v <= 0 {
      assert Aggregates(m, w, a + b);
      AggregatesOfPermutation(m, Fold(w, a + b), w, a + b, a + b);
    } else {
      assert m.min == 0;
      assert Fold(w, a + b).min in a;
    }
  }

  // A partial result: the values one contributor folded, and its late-only fields.
  datatype Partial = Partial(window: WindowID, values: seq<int>, emitted: bool, lateCount: int, lateSum: int) {
    function Result(): WindowResult {
      Fold(window, values).(emitted := emitted, lateCount := lateCount, lateSum := lateSum)
    }

    function Join(p: Partial): Partial {
      Partial(window, values + p.values, emitted || p.emitted, lateCount + p.lateCount, lateSum + p.lateSum)
    }
  }

  function Results(parts: seq<Partial>): (rs: seq<WindowResult>)
    ensures |rs| == |parts|
    ensures forall i :: 0 <= i < |rs| ==> rs[i] == parts[i].Result()
  {
    seq(|parts|, i requires 0 <= i < |parts| => parts[i].Result())
  }

  // Everything the partials of one window hold together, in input order.
  function Joined(parts: seq<Partial>, w: WindowID): Partial {
    if parts == [] then Partial(w, [], false, 0, 0)
    else if Last(parts).window == w then Joined(Front(parts), w).Join(Last(parts))
    else Joined(Front(parts), w)
  }

  lemma {:induction false} JoinedOf(parts: seq<Partial>, w: WindowID)
    ensures Joined(parts, w).window == w
    ensures !Occurs(Results(parts), w) ==> Joined(parts, w) == Partial(w, [], false, 0, 0)
    decreases |parts|
  {
    if parts != [] {
      JoinedOf(Front(parts), w);
      assert Results(parts)[|parts| - 1] == Last(parts).Result();
      FoldAggregates(Last(parts).window, Last(parts).values);
      if Occurs(Results(Front(parts)), w) {
        var i :| 0 <= i < |parts| - 1 && Results(Front(parts))[i].window == w;
        assert Results(parts)[i] == Results(Front(parts))[i];
      }
    }
  }

  lemma MergedCovers(results: seq<WindowResult>, w: WindowID)
    requires results != []
    ensures
      var front, r := Front(results), Last(results);
      && (Occurs(results, w) <==> Occurs(front, w) || r.window == w)
      && (Occurs(front, w) ==> w in Merged(front))
      && (Occurs(results, w) ==> w in Merged(results))
      && (Occurs(front, w) && r.window != w ==> Merged(results)[w] == Merged(front)[w])
      && (Occurs(front, w) && r.window == w ==> Merged(results)[w] == Merge(Merged(front)[w], r))
      && (!Occurs(front, w) && r.window == w ==> Merged(results)[w] == r)
  {
    hide Merge;
    OrderCoversMerged(Front(results));
    OrderCoversMerged(results);
  }

  lemma OneMorePartial(parts: seq<Partial>)
    requires parts != []
    ensures Front(Results(parts)) == Results(Front(parts)) && Last(Results(parts)) == Last(parts).Result()
    ensures Last(parts).Result().window == Last(parts).window
  {
    FoldAggregates(Last(parts).window, Last(parts).values);
  }

  // An empty partial of the window came after one with values.
  predicate Displaced(parts: seq<Partial>, w: WindowID) {
    parts != [] &&
      (|| Displaced(Front(parts), w)
       || (Last(parts).window == w && Last(parts).values == [] && Joined(Front(parts), w).values != []))
  }

  // What that does to a result: its least value is no longer above zero.
  function Lowered(r: WindowResult, displaced: bool): WindowResult {
    if displaced && r.min > 0 then r.(min := 0) else r
  }

  predicate AllPositive(values: seq<int>) {
    forall v :: v in values ==> v > 0
  }

  lemma FoldOfConcat(w: WindowID, a: seq<int>, b: seq<int>)
    ensures
      var f, g, h := Fold(w, a), Fold(w, b), Fold(w, a + b);
      && h.count == f.count + g.count && h.sum == f.sum + g.sum && h.max == Max(f.max, g.max)
      && h.min == (if a == [] then g.min else if b == [] then f.min else if g.min < f.min then g.min else f.min)
      && f.count == |a| && g.count == |b| && h.max >= 0
      && (b == [] ==> g.min == 0)
  {
    FoldAggregates(w, a);
    FoldAggregates(w, b);
    FoldAggregates(w, a + b);
    SumAppend(a, b);
    assert forall v :: v in a + b <==> v in a || v in b;
    assert a == [] ==> a + b == b;
    assert b == [] ==> a + b == a;
  }

  lemma PlainFold(w: WindowID, values: seq<int>)
    ensures
      var r := Fold(w, values);
      r == WindowResult(w, r.count, r.sum, r.min, r.max, false, 0, 0)
  {
    FoldAggregates(w, values);
  }

  lemma MergeLowered(p: Partial, displaced: bool, q: Partial)
    requires p.window == q.window && (displaced ==> p.values != [])
    ensures Merge(Lowered(p.Result(), displaced), q.Result()) ==
      Lowered(p.Join(q).Result(), displaced || (q.values == [] && p.values != []))
  {
    hide Fold;
    FoldOfConcat(p.window, p.values, q.values);
    PlainFold(p.window, p.values);
    PlainFold(p.window, q.values);
    PlainFold(p.window, p.values + q.values);
  }

  lemma {:induction false} DisplacedHasValues(parts: seq<Partial>, w: WindowID)
    requires Displaced(parts, w)
    ensures Joined(parts, w).values != []
    decreases |parts|
  {
    if Displaced(Front(parts), w) {
      DisplacedHasValues(Front(parts), w);
    }
  }

  // What the combiner makes of any partial results, in any order.
  lemma {:induction false} CombineOfPartials(parts: seq<Partial>, w: WindowID)
    requires Occurs(Results(parts), w)
    ensures w in Merged(Results(parts))
    ensures Merged(Results(parts))[w] == Lowered(Joined(parts, w).Result(), Displaced(parts, w))
    decreases |parts|
  {
    assert parts != [];
    hide Merged, Results, Occurs, Merge, Fold, Lowered;
    var p, front := Last(parts), Front(parts);
    OneMorePartial(parts);
    MergedCovers(Results(parts), w);
    JoinedOf(front, w);
    if Displaced(front, w) {
      DisplacedHasValues(front, w);
    }
    if Occurs(Results(front), w) {
      CombineOfPartials(front, w);
      if p.window == w {
        MergeLowered(Joined(front, w), Displaced(front, w), p);
      }
    } else {
      assert [] + p.values == p.values;
      LoweredNot(p.Result());
    }
  }

  lemma LoweredNot(r: WindowResult)
    ensures Lowered(r, false) == r
  {
  }

  /**
    Combining partial results gives, for each window, the fold of all its values together, with the late fields
    summed, unless an empty partial came after one with values and all the values are positive. Then, and only
    then, it differs, and just in the minimum, which is zero.
   */
  lemma {:induction false} CombineIsHomomorphism(parts: seq<Partial>, w: WindowID)
    requires Occurs(Results(parts), w)
    ensures w in Merged(Results(parts))
    ensures
      var merged, joined := Merged(Results(parts))[w], Joined(parts, w);
      && (merged == joined.Result() <==> !Displaced(parts, w) || !AllPositive(joined.values))
      && merged == joined.Result().(min := merged.min)
      && (merged != joined.Result() ==> merged.min == 0 && joined.values != [])
  {
    hide Merged, Results, Occurs, Fold;
    var joined := Joined(parts, w);
    CombineOfPartials(parts, w);
    FoldAggregates(joined.window, joined.values);
    if Displaced(parts, w) {
      DisplacedHasValues(parts, w);
    }
  }

  predicate Displaces(parts: seq<Partial>, w: WindowID, i: nat, j: nat)
    requires i < j < |parts|
  {
    parts[i].window == parts[j].window == w && parts[i].values != [] && parts[j].values == []
  }

  /** The condition on the input list itself. */
  lemma {:induction false} DisplacedMeans(parts: seq<Partial>, w: WindowID)
    ensures Displaced(parts, w) <==> exists i, j :: 0 <= i < j < |parts| && Displaces(parts, w, i, j)
    decreases |parts|
  {
    if parts != [] {
      var front := Front(parts);
      assert forall i :: 0 <= i < |front| ==> front[i] == parts[i];
      assert parts[|parts| - 1] == Last(parts);
      DisplacedMeans(front, w);
      JoinedHasValues(front, w);
      if Displaced(front, w) {
        var i, j :| 0 <= i < j < |front| && Displaces(front, w, i, j);
        assert Displaces(parts, w, i, j);
      } else if Displaced(parts, w) {
        var i :| 0 <= i < |front| && front[i].window == w && front[i].values != [];
        assert Displaces(parts, w, i, |parts| - 1);
      }
      if i, j :| 0 <= i < j < |parts| && Displaces(parts, w, i, j) {
        if j < |front| {
          assert Displaces(front, w, i, j);
        } else {
          assert front[i] == parts[i];
        }
      }
    }
  }

  lemma {:induction false} JoinedHasValues(parts: seq<Partial>, w: WindowID)
    ensures Joined(parts, w).values != [] <==>
      exists i :: 0 <= i < |parts| && parts[i].window == w && parts[i].values != []
    decreases |parts|
  {
    if parts != [] {
      var front := Front(parts);
      assert forall i :: 0 <= i < |front| ==> front[i] == parts[i];
      assert parts[|parts| - 1] == Last(parts);
      JoinedHasValues(front, w);
      if i :| 0 <= i < |front| && front[i].window == w && front[i].values != [] {
        assert parts[i].window == w && parts[i].values != [];
      }
    }
  }

  lemma {:induction false} NewWindow(results: seq<WindowResult>, r: WindowResult)
    requires forall i :: 0 <= i < |results| ==> results[i].window != r.window
    ensures Order(results + [r]) == Order(results) + [r.window]
    ensures Merged(results + [r]) == Merged(results)[r.window := r]
  {
    hide Merge;
    assert Front(results + [r]) == results;
    OrderCoversMerged(results);
    assert !Occurs(results, r.window);
  }

  /** On results of pairwise distinct windows Combine is the identity. */
  lemma {:induction false} CombineOfDistinct(results: seq<WindowResult>)
    requires forall i, j :: 0 <= i < j < |results| ==> results[i].window != results[j].window
    ensures |Order(results)| == |results|
    ensures forall i :: 0 <= i < |results| ==>
      Order(results)[i] == results[i].window && results[i].window in Merged(results)
      && Merged(results)[results[i].window] == results[i]
    decreases |results|
  {
    if results != [] {
      hide Merged, Order;
      var front, r := Front(results), Last(results);
      FrontThenLast(results);
      CombineOfDistinct(front);
      NewWindow(front, r);
    }
  }
}
