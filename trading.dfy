/** The trading `Trader` (trader.py): rolling depth buffers, the signal pair
    and the two position flags, updated on every depth message. */
module Trading {
  import opened Common
  import Depth
  import Estimator
  import Signal
  import Positions

  /** A market order as handed to the exchange gateway. */
  datatype Order = Order(side: Positions.Side, symbol: string, qty: real)

  function SidesOf(orders: seq<Order>): (r: seq<Positions.Side>)
    ensures |r| == |orders| && forall i :: 0 <= i < |orders| ==> r[i] == orders[i].side
  {
    seq(|orders|, i requires 0 <= i < |orders| => orders[i].side)
  }

  /** The order size the trader always uses. */
  const Qty: real := 0.001

  /** `execute_trades` as written: the trader never assigns its `symbol`
      attribute, so evaluating the arguments of any order call raises before
      the flag below it is set. Returns the position afterwards and whether
      the call raised. */
  function ExecuteAsWritten(pos: Positions.Position, s: real, p: real, threshold: real)
    : (r: (Positions.Position, bool))
    ensures r.0 == pos
    ensures pos == Positions.Flat ==> (r.1 <==> threshold < s || s < -threshold)
    ensures pos != Positions.Flat && 0.0 <= s * p ==> !r.1
  {
    var d := Positions.Transition(pos, s, p, threshold);
    (pos, d.order.Some?)
  }

  /** As written, a signal above the threshold from a flat start raises and
      leaves the trader flat. */
  lemma AsWrittenNeverEnters(s: real, p: real, threshold: real)
    requires threshold < s
    ensures ExecuteAsWritten(Positions.Flat, s, p, threshold) == (Positions.Flat, true)
  {
  }

  /** `message_handler` over a sequence of estimation ticks, as written: the
      signal pair shifts as in `Positions.Tick`, then the trade step runs and
      raises whenever it would send an order. Returns the final controller
      and the orders that completed: an order completes only when its call
      returns, which as written it never does. */
  function RunAsWritten(c: Positions.Controller, updates: seq<Option<real>>, threshold: real)
    : (r: (Positions.Controller, seq<Positions.Side>))
    decreases |updates|
  {
    if updates == [] then (c, [])
    else
      var u := updates[0];
      var shifted := if u.Some? then Positions.Controller(c.position, u.value, c.current) else c;
      var (next, raised) := ExecuteAsWritten(shifted.position, shifted.current, shifted.previous, threshold);
      var completed := if raised then [] else Positions.Orders(Positions.Transition(next, shifted.current, shifted.previous, threshold).order);
      var (last, rest) := RunAsWritten(shifted.(position := next), updates[1..], threshold);
      (last, completed + rest)
  }

  /** As written, a trader that starts flat stays flat over any sequence of
      ticks and no order ever completes. */
  lemma {:induction false} AsWrittenStaysFlat(c: Positions.Controller, updates: seq<Option<real>>, threshold: real)
    requires c.position == Positions.Flat
    ensures RunAsWritten(c, updates, threshold).0.position == Positions.Flat
    ensures RunAsWritten(c, updates, threshold).1 == []
    decreases |updates|
  {
    if updates != [] {
      var u := updates[0];
      var shifted := if u.Some? then Positions.Controller(c.position, u.value, c.current) else c;
      AsWrittenStaysFlat(shifted, updates[1..], threshold);
    }
  }

  /** From start-up, the trader as written never holds a position and never
      completes an order. */
  lemma AsWrittenNeverTrades(updates: seq<Option<real>>, threshold: real)
    ensures RunAsWritten(Positions.Initial, updates, threshold).0.position == Positions.Flat
    ensures RunAsWritten(Positions.Initial, updates, threshold).1 == []
  {
    AsWrittenStaysFlat(Positions.Initial, updates, threshold);
  }

  class Trader {
    const window: int
    const threshold: real
    const dt: real
    const theta: real
    const qty: real
    const symbol: string
    /** The natural logarithm, left abstract. */
    const ln: real -> real

    var zBid: seq<int>
    var zAsk: seq<int>
    var movement: real
    var prevMovement: real
    var inLong: bool
    var inShort: bool
    /** Every order sent so far, oldest first. */
    var orders: seq<Order>

    ghost predicate Valid()
      reads this
    {
      1 <= window && dt != 0.0 &&
      |zBid| == |zAsk| <= window &&
      Estimator.NonZero(zBid) && Estimator.NonZero(zAsk) &&
      !(inLong && inShort) &&
      (forall i :: 0 <= i < |orders| ==> orders[i].symbol == symbol && orders[i].qty == qty) &&
      Positions.Net(SidesOf(orders)) == Positions.Exposure(Position())
    }

    /** The position the two flags stand for. */
    function Position(): Positions.Position
      reads this
      requires !(inLong && inShort)
    {
      if inLong then Positions.Long else if inShort then Positions.Short else Positions.Flat
    }

    function Controller(): Positions.Controller
      reads this
      requires !(inLong && inShort)
    {
      Positions.Controller(Position(), movement, prevMovement)
    }

    /** The defaults are those of the Python constructor; `symbol` and `ln`
      come first because they have none. */
    constructor (symbol: string, ln: real -> real, window: int := 300, threshold: real := 0.5, dt: real := 0.1, theta: real := 0.01)
      requires 1 <= window && dt != 0.0
      ensures Valid()
      ensures this.window == window && this.threshold == threshold && this.dt == dt
      ensures this.theta == theta && this.qty == Qty && this.symbol == symbol && this.ln == ln
      ensures zBid == [] && zAsk == [] && orders == []
      ensures Controller() == Positions.Initial
    {
      this.window, this.threshold, this.dt, this.theta := window, threshold, dt, theta;
      this.qty, this.symbol, this.ln := Qty, symbol, ln;
      zBid, zAsk := [], [];
      movement, prevMovement := 0.0, 0.0;
      inLong, inShort := false, false;
      orders := [];
    }

    /** The orders a decision sends, as sent by this trader. */
    function OrdersFor(o: Option<Positions.Side>): seq<Order>
    {
      if o.Some? then [Order(o.value, symbol, qty)] else []
    }

    method Send(side: Positions.Side)
      modifies this`orders
      ensures orders == old(orders) + OrdersFor(Some(side))
    {
      orders := orders + [Order(side, symbol, qty)];
    }

    /** `execute_trades`: at most one order, chosen by the state machine on
      the position the flags stand for. */
    method ExecuteTrades()
      requires Valid()
      modifies this`inLong, this`inShort, this`orders
      ensures Valid()
      ensures var d := Positions.Transition(old(Position()), movement, prevMovement, threshold);
        Position() == d.next && orders == old(orders) + OrdersFor(d.order)
    {
      ghost var before := orders;
      ghost var d := Positions.Transition(Position(), movement, prevMovement, threshold);
      var inPosition := inLong || inShort;
      if movement > threshold && !inPosition {
        assert d == Positions.Decision(Positions.Long, Some(Positions.Buy));
        Send(Positions.Buy);
        inLong := true;
      } else if movement < -threshold && !inPosition {
        assert d == Positions.Decision(Positions.Short, Some(Positions.Sell));
        Send(Positions.Sell);
        inShort := true;
      } else if movement * prevMovement < 0.0 {
        if movement > 0.0 && inShort {
          assert d == Positions.Decision(Positions.Flat, Some(Positions.Buy));
          Send(Positions.Buy);
          inShort := false;
        }
        if movement < 0.0 && inLong {
          assert d == Positions.Decision(Positions.Flat, Some(Positions.Sell));
          Send(Positions.Sell);
          inLong := false;
        }
      } else {
        assert d.order == None;
      }
      assert Position() == d.next && orders == before + OrdersFor(d.order);
      LogStep(before, d.order, old(Position()), d.next);
    }

    /** Logging a decision's orders moves the net of the log by the order, so
      a log that matched the old position matches the new one. */
    lemma LogStep(before: seq<Order>, o: Option<Positions.Side>, pos: Positions.Position, next: Positions.Position)
      requires Positions.Net(SidesOf(before)) == Positions.Exposure(pos)
      requires Positions.Exposure(next) == Positions.Exposure(pos) + (if o.Some? then Positions.Delta(o.value) else 0)
      ensures Positions.Net(SidesOf(before + OrdersFor(o))) == Positions.Exposure(next)
    {
      assert SidesOf(before + OrdersFor(o)) == SidesOf(before) + Positions.Orders(o);
      Positions.NetConcat(SidesOf(before), Positions.Orders(o));
    }

    /** `message_handler`: append one sample per side; when the buffers reach
      `window + 1` samples, estimate both sides (dropping the oldest sample),
      update the signal pair if both rates are defined, and trade. */
    method MessageHandler(bids: seq<real>, asks: seq<real>) returns (outcome: Outcome)
      requires Valid()
      requires bids != [] && asks != [] ==> Depth.Sample(bids) != 0 && Depth.Sample(asks) != 0
      modifies this
      ensures Valid()
      ensures outcome == MalformedSnapshot <==> bids == [] || asks == []
      ensures outcome != UnboundSignal
      ensures outcome == MalformedSnapshot ==>
        zBid == old(zBid) && zAsk == old(zAsk) && Controller() == old(Controller()) && orders == old(orders)
      ensures outcome == Handled && |old(zAsk)| < window ==>
        zBid == old(zBid) + [Depth.Sample(bids)] && zAsk == old(zAsk) + [Depth.Sample(asks)] &&
        Controller() == old(Controller()) && orders == old(orders)
      ensures outcome == Handled && |old(zAsk)| == window ==>
        var bid := Estimator.EstimateParams(old(zBid) + [Depth.Sample(bids)], window, dt, ln);
        var ask := Estimator.EstimateParams(old(zAsk) + [Depth.Sample(asks)], window, dt, ln);
        var update := if bid.nu.Some? && ask.nu.Some?
          then Some(Signal.Movement(theta, bid.mu, bid.nu.value, Depth.Sample(bids), ask.mu, ask.nu.value, Depth.Sample(asks)))
          else None;
        var (next, o) := Positions.Tick(old(Controller()), update, threshold);
        zBid == bid.rest && zAsk == ask.rest &&
        Controller() == next && orders == old(orders) + OrdersFor(o)
    {
      var appended := Depth.AppendSamples(zBid, zAsk, bids, asks);
      if appended.None? {
        return MalformedSnapshot;
      }
      outcome := Handled;
      if |appended.value.1| == window + 1 {
        EstimateAndTrade(appended.value.0, appended.value.1);
      } else {
        zBid, zAsk := appended.value.0, appended.value.1;
      }
    }

    /** The part of `message_handler` that runs once the buffers hold
      `window + 1` samples (given here as `bidData` and `askData`): estimate
      both sides, dropping the oldest sample; shift the signal pair when both
      rates are defined; then trade. */
    method EstimateAndTrade(bidData: seq<int>, askData: seq<int>)
      requires Valid()
      requires |bidData| == |askData| == window + 1
      requires Estimator.NonZero(bidData) && Estimator.NonZero(askData)
      modifies this
      ensures Valid()
      ensures var bid := Estimator.EstimateParams(bidData, window, dt, ln);
        var ask := Estimator.EstimateParams(askData, window, dt, ln);
        var update := if bid.nu.Some? && ask.nu.Some?
          then Some(Signal.Movement(theta, bid.mu, bid.nu.value, bidData[window], ask.mu, ask.nu.value, askData[window]))
          else None;
        var (next, o) := Positions.Tick(old(Controller()), update, threshold);
        zBid == bid.rest && zAsk == ask.rest &&
        Controller() == next && orders == old(orders) + OrdersFor(o)
    {
      ghost var before := Controller();
      var bid := Estimator.EstimateParams(bidData, window, dt, ln);
      var ask := Estimator.EstimateParams(askData, window, dt, ln);
      zBid, zAsk := bid.rest, ask.rest;
      assert zBid == bidData[1..] && zAsk == askData[1..];
      ghost var update: Option<real> := None;
      if bid.nu.Some? && ask.nu.Some? {
        prevMovement := movement;
        movement := Signal.Movement(theta, bid.mu, bid.nu.value, zBid[|zBid| - 1], ask.mu, ask.nu.value, zAsk[|zAsk| - 1]);
        update := Some(movement);
      }
      ghost var tick := Positions.Tick(before, update, threshold);
      assert Controller().(position := tick.0.position) == tick.0;
      ExecuteTrades();
    }
  }
}
