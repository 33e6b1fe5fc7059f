/** The position controller: a state machine over flat, long and short that
    sends at most one market order per estimation tick. */
module Positions {
  import opened Common

  datatype Side = Buy | Sell

  datatype Position = Flat | Long | Short

  /** The number of units held: +1 long, -1 short, 0 flat. */
  function Exposure(p: Position): int
  {
    match p
    case Flat => 0
    case Long => 1
    case Short => -1
  }

  /** The change in units an order makes. */
  function Delta(s: Side): int
  {
    if s == Buy then 1 else -1
  }

  /** The net units bought over a sequence of orders. */
  function Net(sides: seq<Side>): int
  {
    if sides == [] then 0 else Net(sides[..|sides| - 1]) + Delta(sides[|sides| - 1])
  }

  lemma {:induction false} NetConcat(a: seq<Side>, b: seq<Side>)
    ensures Net(a + b) == Net(a) + Net(b)
  {
    if b != [] {
      assert (a + b)[..|a + b| - 1] == a + b[..|b| - 1];
      NetConcat(a, b[..|b| - 1]);
    } else {
      assert a + b == a;
    }
  }

  /** The orders a decision sends: none or one. */
  function Orders(o: Option<Side>): (r: seq<Side>)
    ensures |r| <= 1
    ensures Net(r) == if o.Some? then Delta(o.value) else 0
  {
    if o.Some? then [o.value] else []
  }

  datatype Decision = Decision(next: Position, order: Option<Side>)

  /** One evaluation of the trading rules on the current signal `s` and the
      previous one `p`: from flat, enter long above `threshold` or short
      below `-threshold`; in a position, close it only when the signal
      changed sign (`s * p < 0`) towards the other side. */
  function Transition(pos: Position, s: real, p: real, threshold: real): (d: Decision)
    ensures d.order.None? <==> d.next == pos
    ensures Exposure(d.next) == Exposure(pos) + (if d.order.Some? then Delta(d.order.value) else 0)
    ensures pos != Flat ==> d.next == pos || d.next == Flat
    ensures pos != Flat && 0.0 <= s * p ==> d == Decision(pos, None)
    ensures pos == Long && d.next == Flat ==> s < 0.0 && s * p < 0.0
    ensures pos == Short && d.next == Flat ==> 0.0 < s && s * p < 0.0
    ensures pos == Flat && d.next == Long ==> threshold < s
    ensures pos == Flat && d.next == Short ==> s < -threshold
    ensures pos == Flat && threshold < s ==> d == Decision(Long, Some(Buy))
    ensures pos == Flat && s <= threshold && s < -threshold ==> d == Decision(Short, Some(Sell))
    ensures pos == Flat && -threshold <= s <= threshold ==> d == Decision(Flat, None)
    ensures pos == Long && s < 0.0 && s * p < 0.0 ==> d == Decision(Flat, Some(Sell))
    ensures pos == Short && 0.0 < s && s * p < 0.0 ==> d == Decision(Flat, Some(Buy))
  {
    match pos
    case Flat =>
      if s > threshold then Decision(Long, Some(Buy))
      else if s < -threshold then Decision(Short, Some(Sell))
      else Decision(Flat, None)
    case Long =>
      if s * p < 0.0 && s < 0.0 then Decision(Flat, Some(Sell)) else Decision(Long, None)
    case Short =>
      if s * p < 0.0 && s > 0.0 then Decision(Flat, Some(Buy)) else Decision(Short, None)
  }

  /** The controller's state: its position and the current and previous
      signal values. */
  datatype Controller = Controller(position: Position, current: real, previous: real)

  /** The controller at start-up: flat, both signal values zero. */
  const Initial := Controller(Flat, 0.0, 0.0)

  /** One estimation tick: when both estimates were defined (`update` holds
      the new signal) the previous value takes the current one and the
      current one takes the new value; then the rules run, whether or not
      the signal moved. */
  function Tick(c: Controller, update: Option<real>, threshold: real): (r: (Controller, Option<Side>))
    ensures update.None? ==> r.0.current == c.current && r.0.previous == c.previous
    ensures update.Some? ==> r.0.current == update.value && r.0.previous == c.current
    ensures Exposure(r.0.position) == Exposure(c.position) + Net(Orders(r.1))
    ensures var d := Transition(c.position, r.0.current, r.0.previous, threshold);
      r.0.position == d.next && r.1 == d.order
  {
    var shifted := if update.Some? then Controller(c.position, update.value, c.current) else c;
    var d := Transition(shifted.position, shifted.current, shifted.previous, threshold);
    (shifted.(position := d.next), d.order)
  }

  /** A sequence of estimation ticks: the final controller and every order
      sent, in order. */
  function Run(c: Controller, updates: seq<Option<real>>, threshold: real): (r: (Controller, seq<Side>))
    ensures |r.1| <= |updates|
    decreases |updates|
  {
    if updates == [] then (c, [])
    else
      var (next, o) := Tick(c, updates[0], threshold);
      var (last, rest) := Run(next, updates[1..], threshold);
      (last, Orders(o) + rest)
  }

  /** The orders of any run add up to the change of position: the
      controller's belief about its position never drifts from what it has
      bought and sold. */
  lemma {:induction false} RunNetMatchesPosition(c: Controller, updates: seq<Option<real>>, threshold: real)
    ensures Net(Run(c, updates, threshold).1) == Exposure(Run(c, updates, threshold).0.position) - Exposure(c.position)
    decreases |updates|
  {
    if updates != [] {
      var (next, o) := Tick(c, updates[0], threshold);
      RunNetMatchesPosition(next, updates[1..], threshold);
      NetConcat(Orders(o), Run(next, updates[1..], threshold).1);
    }
  }

  /** From start-up, the net of all orders ever sent is -1, 0 or 1. */
  lemma ColdStartExposureBounded(updates: seq<Option<real>>, threshold: real)
    ensures -1 <= Net(Run(Initial, updates, threshold).1) <= 1
  {
    RunNetMatchesPosition(Initial, updates, threshold);
  }

  /** Once long, further positive signals send no order at all, however far
      above the threshold they go: there is no second entry and no exit. */
  lemma {:induction false} LongHeldWhilePositive(c: Controller, updates: seq<Option<real>>, threshold: real)
    requires c.position == Long && 0.0 < c.current
    requires forall i :: 0 <= i < |updates| && updates[i].Some? ==> 0.0 < updates[i].value
    ensures Run(c, updates, threshold).0.position == Long
    ensures Run(c, updates, threshold).1 == []
    decreases |updates|
  {
    if updates != [] {
      var (next, o) := Tick(c, updates[0], threshold);
      assert o == None && next.position == Long && 0.0 < next.current;
      LongHeldWhilePositive(next, updates[1..], threshold);
    }
  }

  /** Once short, further negative signals send no order at all. */
  lemma {:induction false} ShortHeldWhileNegative(c: Controller, updates: seq<Option<real>>, threshold: real)
    requires c.position == Short && c.current < 0.0
    requires forall i :: 0 <= i < |updates| && updates[i].Some? ==> updates[i].value < 0.0
    ensures Run(c, updates, threshold).0.position == Short
    ensures Run(c, updates, threshold).1 == []
    decreases |updates|
  {
    if updates != [] {
      var (next, o) := Tick(c, updates[0], threshold);
      assert o == None && next.position == Short && next.current < 0.0;
      ShortHeldWhileNegative(next, updates[1..], threshold);
    }
  }

  /** A short held at a previous signal of twice the threshold is not closed
      by a current signal of a tenth of it: the sign did not change. */
  lemma ShortKeptWithoutCrossing(threshold: real)
    requires 0.0 < threshold
    ensures Transition(Short, 0.1 * threshold, 2.0 * threshold, threshold) == Decision(Short, None)
  {
    assert 0.0 < (0.1 * threshold) * (2.0 * threshold);
  }
}
