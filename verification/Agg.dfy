/**
  The aggregation store: one result per window, immutable once published except for the
  late-only fields.
 */
module Aggregation {
  import opened Model

  type Results = map<WindowID, WindowResult>

  function Lookup(rs: Results, w: WindowID): WindowResult {
    if w in rs then rs[w] else Fresh(w)
  }

  datatype StoreOp =
    | Update(w: WindowID, value: int)
    | LateUpdate(w: WindowID, value: int)
    | EmitResult(w: WindowID, values: seq<int>)

  function Step(rs: Results, op: StoreOp): Results {
    var r := Lookup(rs, op.w);
    match op
    case Update(w, value) => rs[w := if r.emitted then r.AppliedLate(value) else r.Applied(value)]
    case LateUpdate(w, value) => rs[w := r.AppliedLate(value)]
    case EmitResult(w, values) => if r.emitted then rs else rs[w := r.AppliedAll(values).(emitted := true)]
  }

  function Run(rs: Results, ops: seq<StoreOp>): Results {
    if ops == [] then rs else Step(Run(rs, Front(ops)), Last(ops))
  }

  // The values that any update, of either kind, carried for one window.
  function ValuesFor(ops: seq<StoreOp>, w: WindowID): seq<int> {
    if ops == [] then []
    else
      var before := ValuesFor(Front(ops), w);
      if Last(ops).w == w && !Last(ops).EmitResult? then before + [Last(ops).value] else before
  }

  lemma {:induction false} AppliedAllKeeps(r: WindowResult, values: seq<int>)
    ensures r.AppliedAll(values).window == r.window
    ensures r.AppliedAll(values).lateCount == r.lateCount && r.AppliedAll(values).lateSum == r.lateSum
    ensures r.AppliedAll(values).emitted == r.emitted
    decreases |values|
  {
    if values != [] {
      AppliedAllKeeps(r, Front(values));
    }
  }

  /**
    Once published, a result is frozen under every later operation: the published fields keep their
    values and the late fields account for exactly the values that later updates carried.
   */
  lemma {:induction false} PublishedIsFrozen(rs: Results, ops: seq<StoreOp>, w: WindowID)
    requires w in rs && rs[w].emitted
    ensures w in Run(rs, ops)
    ensures Run(rs, ops)[w] == rs[w].(
      lateCount := rs[w].lateCount + |ValuesFor(ops, w)|,
      lateSum := rs[w].lateSum + Sum(ValuesFor(ops, w)))
    decreases |ops|
  {
    if ops != [] {
      PublishedIsFrozen(rs, Front(ops), w);
      if Last(ops).w == w && !Last(ops).EmitResult? {
        SumAppend(ValuesFor(Front(ops), w), [Last(ops).value]);
        assert Sum([Last(ops).value]) == Sum([]) + Last(ops).value by {
          assert Front([Last(ops).value]) == [];
        }
      }
    }
  }

  // How often a window's publication was accepted.
  function Publications(rs: Results, ops: seq<StoreOp>, w: WindowID): nat {
    if ops == [] then 0
    else
      Publications(rs, Front(ops), w)
      + if Last(ops).EmitResult? && Last(ops).w == w && !Lookup(Run(rs, Front(ops)), w).emitted then 1 else 0
  }

  /** Each window is published at most once, and exactly when its result is marked emitted. */
  lemma {:induction false} PublishedOnce(ops: seq<StoreOp>, w: WindowID)
    ensures Publications(map[], ops, w) == if Lookup(Run(map[], ops), w).emitted then 1 else 0
    decreases |ops|
  {
    if ops != [] {
      PublishedOnce(Front(ops), w);
      if Last(ops).EmitResult? {
        AppliedAllKeeps(Lookup(Run(map[], Front(ops)), Last(ops).w), Last(ops).values);
      }
    }
  }

  // The store has been asked to publish the window.
  ghost predicate WasPublished(ops: seq<StoreOp>, w: WindowID) {
    exists op :: op in ops && op.EmitResult? && op.w == w
  }

  // The values that count for the published result: those updated before, and those it was published with.
  ghost function Counted(ops: seq<StoreOp>, w: WindowID): seq<int> {
    if ops == [] then []
    else
      var before, op := Counted(Front(ops), w), Last(ops);
      if op.w != w || WasPublished(Front(ops), w) then before
      else match op
        case Update(_, value) => before + [value]
        case LateUpdate(_, _) => before
        case EmitResult(_, values) => before + values
  }

  // The values that came too late for it.
  ghost function CountedLate(ops: seq<StoreOp>, w: WindowID): seq<int> {
    if ops == [] then []
    else
      var before, op := CountedLate(Front(ops), w), Last(ops);
      if op.w == w && (op.LateUpdate? || (op.Update? && WasPublished(Front(ops), w))) then before + [op.value]
      else before
  }

  lemma PublishedSnoc(ops: seq<StoreOp>, w: WindowID)
    requires ops != []
    ensures WasPublished(ops, w) <==> WasPublished(Front(ops), w) || (Last(ops).EmitResult? && Last(ops).w == w)
  {
    FrontThenLast(ops);
    assert Last(ops) in ops && forall op :: op in ops <==> op in Front(ops) || op == Last(ops);
  }

  lemma {:induction false} FoldFurther(w: WindowID, a: seq<int>, b: seq<int>)
    ensures Fold(w, a).AppliedAll(b) == Fold(w, a + b)
    decreases |b|
  {
    if b == [] {
      assert a + b == a;
    } else {
      assert Front(a + b) == a + Front(b) && Last(a + b) == Last(b);
      FoldFurther(w, a, Front(b));
    }
  }

  lemma {:induction false} OtherFieldsStay(r: WindowResult, values: seq<int>, emitted: bool,
                                           lateCount: int, lateSum: int)
    ensures r.(emitted := emitted, lateCount := lateCount, lateSum := lateSum).AppliedAll(values) ==
      r.AppliedAll(values).(emitted := emitted, lateCount := lateCount, lateSum := lateSum)
    decreases |values|
  {
    if values != [] {
      OtherFieldsStay(r, Front(values), emitted, lateCount, lateSum);
    }
  }

  // A result with these counted and late values.
  function Held(w: WindowID, a: seq<int>, emitted: bool, late: seq<int>): WindowResult {
    Fold(w, a).(emitted := emitted, lateCount := |late|, lateSum := Sum(late))
  }

  ghost predicate HasHistory(rs: Results, ops: seq<StoreOp>, w: WindowID) {
    && (w in rs <==> exists op :: op in ops && op.w == w)
    && (w in rs ==> rs[w] == Held(w, Counted(ops, w), WasPublished(ops, w), CountedLate(ops, w)))
    && (w !in rs ==> Counted(ops, w) == CountedLate(ops, w) == [] && !WasPublished(ops, w))
  }

  // The counting of one more operation.
  lemma CountedSnoc(ops: seq<StoreOp>, w: WindowID)
    requires ops != []
    ensures
      var op, published := Last(ops), WasPublished(Front(ops), w);
      && (WasPublished(ops, w) <==> published || (op.EmitResult? && op.w == w))
      && Counted(ops, w) == Counted(Front(ops), w) +
           (if op.w != w || published || op.LateUpdate? then [] else if op.Update? then [op.value] else op.values)
      && CountedLate(ops, w) == CountedLate(Front(ops), w) +
           (if op.w == w && (op.LateUpdate? || (op.Update? && published)) then [op.value] else [])
      && ((exists o :: o in ops && o.w == w) <==> op.w == w || exists o :: o in Front(ops) && o.w == w)
  {
    hide WasPublished;
    FrontThenLast(ops);
    assert Last(ops) in ops && forall o :: o in ops <==> o in Front(ops) || o == Last(ops);
    PublishedSnoc(ops, w);
  }

  lemma HeldFurther(w: WindowID, a: seq<int>, emitted: bool, late: seq<int>, value: int, values: seq<int>)
    ensures Held(w, a, emitted, late).Applied(value) == Held(w, a + [value], emitted, late)
    ensures Held(w, a, emitted, late).AppliedLate(value) == Held(w, a, emitted, late + [value])
    ensures Held(w, a, emitted, late).AppliedAll(values) == Held(w, a + values, emitted, late)
    ensures Held(w, [], false, []) == Fresh(w)
  {
    hide Fold, Sum;
    SumSnoc(late, value);
    FoldSnoc(w, a, value);
    FoldFurther(w, a, values);
    OtherFieldsStay(Fold(w, a), values, emitted, |late|, Sum(late));
    NothingFolded(w);
  }

  lemma HistorySnoc(rs: Results, ops: seq<StoreOp>, w: WindowID)
    requires ops != [] && HasHistory(rs, Front(ops), w)
    ensures HasHistory(Step(rs, Last(ops)), ops, w)
  {
    hide Held, WasPublished, Counted, CountedLate;
    var op, a, late := Last(ops), Counted(Front(ops), w), CountedLate(Front(ops), w);
    CountedSnoc(ops, w);
    assert a + [] == a && late + [] == late;
    if op.w == w {
      var value, values := if op.EmitResult? then 0 else op.value, if op.EmitResult? then op.values else [];
      HeldFurther(w, a, WasPublished(Front(ops), w), late, value, values);
      HeldFurther(w, [], false, [], value, values);
      MarkedHeld(w, a, late);
      MarkedHeld(w, a + values, late);
    }
  }

  lemma MarkedHeld(w: WindowID, a: seq<int>, late: seq<int>)
    ensures Held(w, a, false, late).(emitted := true) == Held(w, a, true, late)
    ensures forall emitted :: Held(w, a, emitted, late).emitted == emitted
  {
  }

  lemma NothingFolded(w: WindowID)
    ensures Fresh(w) == Fold(w, []).(emitted := false, lateCount := 0, lateSum := Sum([]))
  {
  }

  lemma FoldSnoc(w: WindowID, a: seq<int>, value: int)
    ensures Fold(w, a).Applied(value) == Fold(w, a + [value])
  {
    assert Front(a + [value]) == a;
  }

  /**
    In every run from an empty store, a result exists once anything was done for its window; it is the fold of the
    values updated before its first publication and those published with, and the late fields account for every
    late update and every update after it.
   */
  lemma {:induction false} StoreHistory(ops: seq<StoreOp>, w: WindowID)
    ensures HasHistory(Run(map[], ops), ops, w)
    decreases |ops|
  {
    if ops != [] {
      hide HasHistory, Step;
      StoreHistory(Front(ops), w);
      HistorySnoc(Run(map[], Front(ops)), ops, w);
    }
  }

  class Store {
    var results: map<WindowID, ResultCell>
    ghost var cells: set<ResultCell>  // every cell the map refers to

    // No two windows share a cell, and a cell knows its window.
    ghost predicate Valid()
      reads this, cells
    {
      && (forall w :: w in results ==> results[w] in cells && results[w].window == w)
      && (forall v, w :: v in results && w in results && results[v] == results[w] ==> v == w)
    }

    ghost function View(): Results
      reads this, cells
    {
      map w | w in results && results[w] in cells :: results[w].View()
    }

    constructor ()
      ensures Valid() && View() == map[] && fresh(cells)
    {
      results, cells := map[], {};
    }

    // The cell of a window, created on first use.
    method CellFor(w: WindowID) returns (r: ResultCell)
      requires Valid()
      modifies this
      ensures Valid() && w in results && results[w] == r
      ensures fresh(cells - old(cells))
      ensures View() == old(View())[w := Lookup(old(View()), w)]
      ensures r.View() == Lookup(old(View()), w)
    {
      if w in results {
        r := results[w];
      } else {
        r := new ResultCell(w);
        results, cells := results[w := r], cells + {r};
      }
    }

    // What the three updates do to a cell leaves every other window's result alone.
    method ApplyTo(w: WindowID, value: int)
      requires Valid() && w in results
      modifies results[w]
      ensures Valid() && View() == old(View())[w := old(View())[w].Applied(value)]
    {
      results[w].Apply(value);
    }

    method ApplyLateTo(w: WindowID, value: int)
      requires Valid() && w in results
      modifies results[w]
      ensures Valid() && View() == old(View())[w := old(View())[w].AppliedLate(value)]
    {
      results[w].ApplyLate(value);
    }

    method PublishTo(w: WindowID, values: seq<int>) returns (snap: WindowResult)
      requires Valid() && w in results
      modifies results[w]
      ensures Valid() && snap == old(View())[w].AppliedAll(values).(emitted := true)
      ensures View() == old(View())[w := snap]
    {
      var r := results[w];
      snap := Publish(r, values);
    }

    static method Publish(r: ResultCell, values: seq<int>) returns (snap: WindowResult)
      modifies r
      ensures snap == r.View() == old(r.View()).AppliedAll(values).(emitted := true)
    {
      r.ApplyAll(values);
      r.MarkEmitted();
      snap := r.Snapshot();
    }

    method Update(w: WindowID, value: int)
      requires Valid()
      modifies this, cells
      ensures Valid() && fresh(cells - old(cells))
      ensures View() == Step(old(View()), StoreOp.Update(w, value))
    {
      var r := CellFor(w);
      assert View()[w] == r.View();
      hide View, Lookup;
      if r.emitted {
        ApplyLateTo(w, value);
        return;
      }
      ApplyTo(w, value);
    }

    method LateUpdate(w: WindowID, value: int)
      requires Valid()
      modifies this, cells
      ensures Valid() && fresh(cells - old(cells))
      ensures View() == Step(old(View()), StoreOp.LateUpdate(w, value))
    {
      var r := CellFor(w);
      hide View, Lookup;
      ApplyLateTo(w, value);
    }

    /** Publishes a window; the second result tells whether the publication was accepted. */
    method EmitResult(w: WindowID, values: seq<int>) returns (snap: WindowResult, ok: bool)
      requires Valid()
      modifies this, cells
      ensures Valid() && fresh(cells - old(cells))
      ensures View() == Step(old(View()), StoreOp.EmitResult(w, values))
      ensures ok <==> !Lookup(old(View()), w).emitted
      ensures ok ==> w in View() && snap == View()[w]
    {
      ghost var before := View();
      var r := CellFor(w);
      assert View()[w] == r.View();
      if r.emitted {
        assert before[w := Lookup(before, w)] == before;
        return Fresh(w), false;
      }
      hide View, Lookup;
      snap := PublishTo(w, values);
      ok := true;
    }
  }
}
