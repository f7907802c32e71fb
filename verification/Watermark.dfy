/** The two-phase watermark: a tentative frontier, and the part of it that has been confirmed. */
module Watermarks {
  import opened Model

  datatype Watermark = Watermark(current: int, confirmed: int) {
    ghost predicate Valid() {
      confirmed <= current
    }

    function Advanced(ts: int): Watermark {
      this.(current := Max(current, ts))
    }

    function Published(): Watermark {
      this.(confirmed := Max(confirmed, current))
    }
  }

  datatype TrackerOp = Advance(ts: int) | Confirm

  function Run(epoch: int, ops: seq<TrackerOp>): Watermark {
    if ops == [] then Watermark(epoch, epoch)
    else
      var before := Run(epoch, Front(ops));
      match Last(ops)
      case Advance(ts) => before.Advanced(ts)
      case Confirm => before.Published()
  }

  // Stated on the history alone: the greatest instant advanced to, starting from the epoch.
  ghost predicate IsFrontier(epoch: int, ops: seq<TrackerOp>, frontier: int) {
    && (frontier == epoch || Advance(frontier) in ops)
    && epoch <= frontier
    && (forall op :: op in ops && op.Advance? ==> op.ts <= frontier)
  }

  // How much of the history the latest Confirm has seen.
  function ConfirmedPrefix(ops: seq<TrackerOp>): nat {
    if ops == [] then 0
    else if Last(ops).Confirm? then |ops|
    else ConfirmedPrefix(Front(ops))
  }

  /** Advance never publishes, Confirm never raises, and neither value moves backwards. */
  lemma {:induction false} TrackerLags(epoch: int, ops: seq<TrackerOp>)
    ensures IsFrontier(epoch, ops, Run(epoch, ops).current)
    ensures ConfirmedPrefix(ops) <= |ops|
    ensures IsFrontier(epoch, ops[..ConfirmedPrefix(ops)], Run(epoch, ops).confirmed)
    ensures Run(epoch, ops).Valid()
    decreases |ops|
  {
    if ops != [] {
      TrackerLags(epoch, Front(ops));
      assert ops == Front(ops) + [Last(ops)];
      if Last(ops).Confirm? {
        assert ops[..|ops|] == ops;
      } else {
        assert Front(ops)[..ConfirmedPrefix(ops)] == ops[..ConfirmedPrefix(ops)];
      }
    }
  }

  class Tracker {
    var current: int
    var confirmed: int

    function View(): Watermark
      reads this
    {
      Watermark(current, confirmed)
    }

    constructor (epoch: int)
      ensures View() == Run(epoch, [])
    {
      current, confirmed := epoch, epoch;
    }

    method Advance(ts: int)
      modifies this
      ensures View() == old(View()).Advanced(ts)
    {
      if ts > current {
        current := ts;
      }
    }

    method Confirm()
      modifies this
      ensures View() == old(View()).Published()
    {
      if current > confirmed {
        confirmed := current;
      }
    }

    method Confirmed() returns (ts: int)
      ensures ts == View().confirmed
    {
      ts := confirmed;
    }
  }
}
