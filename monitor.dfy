/** The monitoring `Trader` (main.py): the same rolling depth buffers and
    estimator, a normalised signal, and a record of the last time the signal
    reached the threshold (order sending is left out of this variant). */
module SignalMonitor {
  import opened Common
  import Depth
  import Estimator
  import Signal
  import Positions

  /** The monitor's test is inclusive while the trading entry is strict: a
      normalised signal exactly at the threshold is a hit here, yet opens no
      position in the trading controller. */
  lemma ThresholdInclusiveUnlikeEntry(threshold: real, previous: real)
    requires 0.0 <= threshold
    ensures Signal.Triggers(Signal.Finite(threshold), threshold)
    ensures Positions.Transition(Positions.Flat, threshold, previous, threshold).next == Positions.Flat
  {
  }

  class Trader {
    const window: int
    const threshold: real
    const dt: real
    const theta: real
    /** The natural logarithm, left abstract. */
    const ln: real -> real

    var zBid: seq<int>
    var zAsk: seq<int>
    /** The time of the last threshold hit; `None` while the attribute has
        never been set. */
    var lastTradeTime: Option<real>

    ghost predicate Valid()
      reads this
    {
      1 <= window && dt != 0.0 &&
      |zBid| == |zAsk| <= window &&
      Estimator.NonZero(zBid) && Estimator.NonZero(zAsk)
    }

    /** The defaults are those of the Python constructor; `ln` has none. */
    constructor (window: int, threshold: real, ln: real -> real, dt: real := 0.1, theta: real := 0.01)
      requires 1 <= window && dt != 0.0
      ensures Valid()
      ensures this.window == window && this.threshold == threshold && this.dt == dt
      ensures this.theta == theta && this.ln == ln
      ensures zBid == [] && zAsk == [] && lastTradeTime == None
    {
      this.window, this.threshold, this.dt, this.theta, this.ln := window, threshold, dt, theta, ln;
      zBid, zAsk := [], [];
      lastTradeTime := None;
    }

    /** `on_message`: append one sample per side; when the buffers reach
      `window + 1` samples, estimate both sides (dropping the oldest sample).
      With both rates defined the normalised signal is tested against the
      threshold and a hit records `now`; with either rate undefined the
      signal is never assigned and reading it raises. */
    method OnMessage(bids: seq<real>, asks: seq<real>, now: real) returns (outcome: Outcome)
      requires Valid()
      requires bids != [] && asks != [] ==> Depth.Sample(bids) != 0 && Depth.Sample(asks) != 0
      modifies this
      ensures Valid()
      ensures outcome == MalformedSnapshot <==> bids == [] || asks == []
      ensures outcome == MalformedSnapshot ==>
        zBid == old(zBid) && zAsk == old(zAsk) && lastTradeTime == old(lastTradeTime)
      ensures outcome != MalformedSnapshot && |old(zAsk)| < window ==>
        outcome == Handled &&
        zBid == old(zBid) + [Depth.Sample(bids)] && zAsk == old(zAsk) + [Depth.Sample(asks)] &&
        lastTradeTime == old(lastTradeTime)
      ensures outcome != MalformedSnapshot && |old(zAsk)| == window ==>
        var bid := Estimator.EstimateParams(old(zBid) + [Depth.Sample(bids)], window, dt, ln);
        var ask := Estimator.EstimateParams(old(zAsk) + [Depth.Sample(asks)], window, dt, ln);
        zBid == bid.rest && zAsk == ask.rest &&
        (outcome == UnboundSignal <==> bid.nu.None? || ask.nu.None?) &&
        (outcome == UnboundSignal ==> lastTradeTime == old(lastTradeTime)) &&
        (outcome == Handled ==>
          var q := Signal.Normalised(theta, bid.mu, bid.nu.value, Depth.Sample(bids), ask.mu, ask.nu.value, Depth.Sample(asks));
          lastTradeTime == if Signal.Triggers(q, threshold) then Some(now) else old(lastTradeTime))
    {
      var appended := Depth.AppendSamples(zBid, zAsk, bids, asks);
      if appended.None? {
        return MalformedSnapshot;
      }
      zBid, zAsk := appended.value.0, appended.value.1;
      outcome := Handled;
      if |zAsk| == window + 1 {
        var bid := Estimator.EstimateParams(zBid, window, dt, ln);
        var ask := Estimator.EstimateParams(zAsk, window, dt, ln);
        zBid, zAsk := bid.rest, ask.rest;
        if bid.nu.None? || ask.nu.None? {
          return UnboundSignal;
        }
        var movement := Signal.Normalised(theta, bid.mu, bid.nu.value, zBid[|zBid| - 1], ask.mu, ask.nu.value, zAsk[|zAsk| - 1]);
        if Signal.Triggers(movement, threshold) {
          lastTradeTime := Some(now);
        }
      }
    }
  }
}
