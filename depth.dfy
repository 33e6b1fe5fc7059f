/** Depth aggregation: one scaled integer liquidity sample per book side and
    the append of those samples to the two rolling buffers. */
module Depth {
  import opened Common

  /** Quantities are multiplied by 10^8 before being truncated to integers. */
  const Unit: real := 100000000.0

  /** Python's `int()` of a number: truncation toward zero. */
  function Trunc(r: real): (t: int)
    ensures 0.0 <= r ==> 0 <= t && t as real <= r < t as real + 1.0
    ensures r < 0.0 ==> t <= 0 && t as real - 1.0 < r <= t as real
  {
    if r >= 0.0 then r.Floor else -((-r).Floor)
  }

  /** One price level's quantity in units of 10^-8. */
  function Scaled(q: real): int
  {
    Trunc(q * Unit)
  }

  /** The liquidity sample of one side: each quantity is scaled and truncated
      first, then the integers are summed. */
  function Sample(qtys: seq<real>): (r: int)
    ensures (forall i :: 0 <= i < |qtys| ==> 0.0 <= qtys[i]) ==> 0 <= r
  {
    if qtys == [] then 0 else Scaled(qtys[0]) + Sample(qtys[1..])
  }

  /** The exact total quantity of one side (the reference the sample is
      compared against). */
  function Total(qtys: seq<real>): real
  {
    if qtys == [] then 0.0 else qtys[0] + Total(qtys[1..])
  }

  /** For non-negative quantities, truncating level by level loses less than
      one unit (10^-8) per level and never overshoots the exact total. */
  lemma {:induction false} SampleWithinLevelsOfTotal(qtys: seq<real>)
    requires forall i :: 0 <= i < |qtys| ==> 0.0 <= qtys[i]
    ensures 0 <= Sample(qtys)
    ensures Sample(qtys) as real <= Total(qtys) * Unit
    ensures Total(qtys) * Unit < Sample(qtys) as real + |qtys| as real || qtys == []
  {
    if qtys != [] {
      SampleWithinLevelsOfTotal(qtys[1..]);
      assert (qtys[0] + Total(qtys[1..])) * Unit == qtys[0] * Unit + Total(qtys[1..]) * Unit;
    }
  }

  /** The example of two levels 0.01 and 0.02: 1,000,000 + 2,000,000. */
  lemma TwoLevelExample()
    ensures Sample([0.01, 0.02]) == 3000000
  {
    assert [0.01, 0.02][1..] == [0.02];
  }

  /** Truncating before summing is not the same as summing then truncating:
      two levels of 0.5 units each give the sample 0, not 1. */
  lemma TruncateBeforeSumDiffers()
    ensures Sample([0.000000005, 0.000000005]) == 0
    ensures Trunc(Total([0.000000005, 0.000000005]) * Unit) == 1
  {
    assert [0.000000005, 0.000000005][1..] == [0.000000005];
  }

  /** Appending one snapshot's samples, as the handler's first lines should
      do it: a side without levels raises before either buffer is touched,
      otherwise each buffer gains exactly its side's sample at the end. */
  function AppendSamples(zBid: seq<int>, zAsk: seq<int>, bids: seq<real>, asks: seq<real>)
    : (r: Option<(seq<int>, seq<int>)>)
    ensures r.None? <==> bids == [] || asks == []
    ensures r.Some? ==> r.value.0 == zBid + [Sample(bids)] && r.value.1 == zAsk + [Sample(asks)]
    ensures r.Some? ==> |r.value.1| - |r.value.0| == |zAsk| - |zBid|
  {
    if bids == [] || asks == [] then None
    else Some((zBid + [Sample(bids)], zAsk + [Sample(asks)]))
  }

  /** The same lines as written: the bid sample is appended before the ask
      side is looked at, so an empty ask side raises with the bid buffer
      already grown. Returns both buffers and whether the handler raised. */
  function AppendAsWritten(zBid: seq<int>, zAsk: seq<int>, bids: seq<real>, asks: seq<real>)
    : (r: (seq<int>, seq<int>, bool))
    ensures r.2 <==> bids == [] || asks == []
    ensures |r.0| == |zBid| + (if bids == [] then 0 else 1)
    ensures |r.1| == |zAsk| + (if bids == [] || asks == [] then 0 else 1)
    ensures bids != [] ==> r.0 == zBid + [Sample(bids)]
    ensures bids == [] ==> r.0 == zBid
    ensures bids != [] && asks != [] ==> r.1 == zAsk + [Sample(asks)]
    ensures bids == [] || asks == [] ==> r.1 == zAsk
  {
    if bids == [] then (zBid, zAsk, true)
    else if asks == [] then (zBid + [Sample(bids)], zAsk, true)
    else (zBid + [Sample(bids)], zAsk + [Sample(asks)], false)
  }

  /** One snapshot with an empty ask side leaves the bid buffer one sample
      longer than the ask buffer. */
  lemma EmptyAsksDesynchronise()
    ensures var r := AppendAsWritten([], [], [1.0], []);
      r.2 && |r.0| == 1 && |r.1| == 0
  {
  }

  /** As written, nothing ever shrinks the gap again: every append keeps or
      widens the difference between the two buffer lengths. */
  lemma AsWrittenGapNeverCloses(zBid: seq<int>, zAsk: seq<int>, bids: seq<real>, asks: seq<real>)
    ensures var r := AppendAsWritten(zBid, zAsk, bids, asks);
      |r.0| - |r.1| >= |zBid| - |zAsk|
  {
  }
}
