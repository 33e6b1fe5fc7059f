# Order-book liquidity mean-reversion trader, modelled in Dafny

The system watches depth snapshots of one trading symbol. Each snapshot gives
one integer liquidity sample per book side: the quantities of all price levels,
each scaled by 10^8 and truncated. The samples go into two rolling buffers. When
a buffer holds `window + 1` samples, the system fits an Ornstein–Uhlenbeck
process to each side with a closed-form quasi-maximum-likelihood estimator. The
fit gives a long-run mean `mu` and, when defined, a mean-reversion rate `nu`.
The oldest sample is then dropped. The two fits combine into an expected
midprice movement.

There are two variants of the `Trader` class:

- `trader.py` keeps the current and previous movement. It drives a position
  controller with two flags (`in_long_position`, `in_short_position`). The
  controller sends at most one market order per estimation tick.
- `main.py` divides the movement by the average reversion rate. It only
  records the time at which the normalised signal reaches the threshold.

Modules:

- `Common` (common.dfy): `Option` and `Outcome`. An `Outcome` is a normal
  return, or one of the two exceptions the handlers can raise.
- `Depth` (depth.dfy): the scaled, truncated per-side sample and the append to
  both buffers.
- `Estimator` (estimator.dfy): `estimate_params`, shared by both files. The
  code at `main.py:83-94` is identical to `trader.py:69-80`.
- `Signal` (signal.dfy): the movement formula, the normalised variant with
  floating-point division by zero, and the inclusive threshold test.
- `Positions` (positions.dfy): the controller as a state machine over
  flat/long/short, and runs of estimation ticks.
- `Trading` (trading.dfy): the `trader.py` class. Its fields are updated in
  place by `MessageHandler` and `ExecuteTrades`.
- `SignalMonitor` (monitor.dfy): the `main.py` class and `OnMessage`.

The class `Trading.Trader` keeps the source's two booleans. Its invariant
`Valid()` proves three things:

- the two flags are never both set;
- the bid and ask buffers have the same length, at most `window`, between
  messages;
- the net of the order log (buys minus sells) equals the position the flags
  stand for.

`ExecuteTrades` is proved equal to the enumerated state machine
`Positions.Transition`.

Some behaviour of the code worth knowing in advance:

- A zero liquidity sample is not reported as an error. numpy division by it
  gives an infinity or not-a-number. The model requires nonzero samples (see
  Left out).
- The return values of the order calls are ignored, so a failed order is not
  noticed.
- A zero average rate in `main.py` gives an infinity or not-a-number and does
  not raise. `Signal.Divide` models this.
- Take `window = 2`, bid samples 10, 12, 11 and ask samples 10, 8, 9. `sum2`
  is negative on both sides, so both rates are undefined (see
  `Estimator.ThreeSampleBidUndefined` and `Estimator.ThreeSampleAskUndefined`).

## Model

| member | source | states |
|---|---|---|
| `Depth.Trunc` | trader.py:31 | `int()` of a scaled quantity truncates toward zero. The result is on the same side of zero as the input, and within one unit of it. |
| `Depth.Sample` | trader.py:31 | The sum of the scaled, truncated levels. It is non-negative when every quantity is non-negative. |
| `Depth.SampleWithinLevelsOfTotal` | trader.py:31 | For non-negative quantities, truncating level by level never goes above the exact scaled total. It is less than one unit below it per level. |
| `Depth.TwoLevelExample` | main.py:58 | Levels of 0.01 and 0.02 give the sample 1,000,000 + 2,000,000 = 3,000,000. |
| `Depth.TruncateBeforeSumDiffers` | trader.py:31 | Truncating before summing is not the same as summing before truncating. Two half-unit levels give 0, not 1. |
| `Depth.AppendSamples` | trader.py:30-36 | Corrected append. A snapshot with an empty side changes neither buffer. Otherwise each buffer gets exactly its side's sample at the end, and the length difference between the two buffers is kept. |
| `Depth.AppendAsWritten` | trader.py:30-36 | The append as written. It raises exactly when a side is empty. With bids, the bid buffer gains `Sample(bids)` whether or not there are asks. The ask buffer gains `Sample(asks)` only when both sides have levels. Otherwise each buffer is unchanged. |
| `Depth.EmptyAsksDesynchronise` | main.py:57-63 | As written, a snapshot with bids and no asks leaves the bid buffer one sample longer than the ask buffer. |
| `Depth.AsWrittenGapNeverCloses` | trader.py:32-39 | As written, no later append shrinks the gap between the bid and ask buffer lengths. |
| `Estimator.Term1` | trader.py:71 | Each `sum1` summand is non-negative. It is zero exactly when its sample equals `mu`. |
| `Estimator.Mean` | trader.py:70 | The mean has the sign of the total: it is zero exactly when the total is zero, and positive exactly when the total is positive. |
| `Estimator.Sum1` | trader.py:71 | `sum1` is never negative. |
| `Estimator.Sum1ZeroIff` | trader.py:71-75 | `sum1` is zero exactly when each of the oldest `window` samples equals `mu`. So the `sum1 <= 0` guard fires only for such a window. |
| `Estimator.Sum2` | trader.py:72-73 | `sum2` is zero when every sample it divides by equals `mu`. |
| `Estimator.Rate` | trader.py:75-78 | The rate is defined exactly when both sums are positive. Then `nu * dt = ln(sum1/sum2)`. |
| `Estimator.EstimateParams` | trader.py:69-80 | `mu` is the mean of `data[1:]`. The result is `data[1:]`: `window` samples, in order, newest last. `nu` is absent exactly when `sum2 <= 0` or the window sits on its mean. When `nu` is present, both sums are positive and `nu = ln(sum1/sum2)/dt`. |
| `Estimator.MeanBounds` | trader.py:70 | `mu` lies between the smallest and the largest of the newest `window` samples. |
| `Estimator.ConstantWindowUndefined` | main.py:84-90 | If all samples equal the same nonzero value: `mu` is that value, `sum1 = sum2 = 0`, and `nu` is absent. |
| `Estimator.ThreeSampleBidUndefined` | trader.py:69-78 | With window 2 and samples 10, 12, 11: `mu = 11.5` and `nu` is absent. |
| `Estimator.ThreeSampleAskUndefined` | trader.py:69-78 | With window 2 and samples 10, 8, 9: `mu = 8.5` and `nu` is absent. |
| `Estimator.MeanScaled` | trader.py:70 | Multiplying every sample by `k` multiplies `mu` by `k`. |
| `Estimator.EstimateUnitFree` | trader.py:69-80 | Multiplying every sample by a nonzero `k` does not change `nu`, and it scales the trimmed buffer. So the 10^8 unit does not affect the rate. |
| `Signal.Movement` | trader.py:45 | When both sides sit exactly at their means, the expected movement is zero. |
| `Signal.MovementUpward` | trader.py:45 | Take positive `theta` and rates. If bid depth is below its mean and ask depth is above its own, the expected movement is positive. |
| `Signal.MovementSideSymmetry` | trader.py:45 | Exchanging the bid and ask arguments negates the movement. |
| `Signal.MovementRatesScale` | trader.py:45 | Multiplying both rates by `c` multiplies the movement by `c`. |
| `Signal.Divide` | main.py:73 | numpy division of finite values. The result is finite exactly for a nonzero divisor, and then quotient times divisor is the dividend. Otherwise it is an infinity of the dividend's sign, or not-a-number when the dividend is zero. |
| `Signal.Normalised` | main.py:71-73 | The normalised movement is finite exactly when the two rates do not cancel. Then it times the average rate gives the movement. Rates that cancel with both sides at their means give not-a-number. |
| `Signal.DivideScaled` | main.py:73 | Scaling dividend and divisor by the same positive factor leaves the quotient unchanged, in every case. |
| `Signal.NormalisedIgnoresRateScale` | main.py:71-73 | The normalised movement does not change when both rates are scaled by the same positive factor. So it does not depend on `dt`. |
| `Signal.Triggers` | main.py:77-81 | The inclusive test `>= threshold` or `<= -threshold`. Not-a-number never hits and an infinity always hits. For a non-negative threshold, a finite value hits exactly when its magnitude reaches the threshold. |
| `Positions.Orders` | trader.py:52-67 | A decision sends at most one order. Its net equals the order's direction. |
| `Positions.Transition` | trader.py:49-67 | From flat: `s > threshold` buys and goes long; otherwise `s < -threshold` sells and goes short; otherwise nothing happens. A long closes with a sell exactly when `s < 0` and `s*p < 0`. A short closes with a buy exactly when `s > 0` and `s*p < 0`. With no sign change (`s*p >= 0`) a position is kept. An order is sent exactly when the position changes, and it moves the exposure to the new position. A position is only closed to flat, never reversed. |
| `Positions.Tick` | trader.py:43-47 | A defined estimate shifts `previous <- current` and sets `current` to the new value. An undefined one leaves both alone. Either way the new position and the order are those of `Transition` on the resulting pair. The exposure changes by the net of the orders sent. |
| `Positions.Run` | trader.py:39-47 | Over any sequence of estimation ticks, there are no more orders than ticks. |
| `Positions.RunNetMatchesPosition` | trader.py:50-67 | Over any run, the net of the orders sent equals the change in position. |
| `Positions.ColdStartExposureBounded` | trader.py:20-24 | From the initial flat state with both signals at zero, the net of all orders sent is always -1, 0 or 1. |
| `Positions.LongHeldWhilePositive` | trader.py:50-67 | Once long, a run of positive signals sends no order and stays long. There is no second buy. |
| `Positions.ShortHeldWhileNegative` | trader.py:50-67 | Once short, a run of negative signals sends no order and stays short. |
| `Positions.ShortKeptWithoutCrossing` | trader.py:60-63 | A short with previous signal `2*threshold` and current signal `0.1*threshold` is kept, since the sign did not change. |
| `Trading.ExecuteAsWritten` | trader.py:52-67 | As written, the position never changes. From flat, the step raises exactly when `s > threshold` or `s < -threshold`. In a position, it does not raise while the signal keeps its sign. |
| `Trading.AsWrittenNeverEnters` | trader.py:52-54 | As written, a signal above the threshold from flat raises and leaves the trader flat. |
| `Trading.AsWrittenStaysFlat` | trader.py:39-67 | As written, a flat trader stays flat over any sequence of estimation ticks, and no order completes. |
| `Trading.AsWrittenNeverTrades` | trader.py:9-24 | As written, from start-up the trader never holds a position and never completes an order. |
| `Trading.Trader.constructor` | trader.py:9-24 | Defaults `window = 300`, `threshold = 0.5`, `dt = 0.1`, `theta = 0.01`. Empty buffers, both signal values 0, both flags false, order size 0.001, and an empty order log. |
| `Trading.Trader.Send` | trader.py:53 | Each order call appends one order for the trader's symbol and size to the log. |
| `Trading.Trader.ExecuteTrades` | trader.py:49-67 | The new flags stand for `Transition` of the old position on (current, previous). The log grows by exactly that decision's order. The flags are never both set, and the log's net equals the position. |
| `Trading.Trader.MessageHandler` | trader.py:26-47 | An empty side changes nothing. Below `window` stored samples, each buffer only gains its sample. At `window`, both buffers are estimated and trimmed back to `window`. The signal pair and the flags then follow `Tick`, and the log gains its order. Between messages the buffers stay equal in length and at most `window`. |
| `Trading.Trader.EstimateAndTrade` | trader.py:39-47 | With `window + 1` samples per side, each buffer becomes its estimate's trimmed buffer (newest sample last). The signal pair shifts only when both rates are defined, using each side's newest sample. The flags and the log follow `Tick`. |
| `SignalMonitor.Trader.constructor` | main.py:20-34 | Defaults `dt = 0.1`, `theta = 0.01`. Empty buffers and no recorded trade time. |
| `SignalMonitor.Trader.OnMessage` | main.py:53-81 | Buffers as in `trader.py`. On estimation, an undefined rate on either side raises `UnboundSignal` after trimming and changes no time. Otherwise `last_trade_time` becomes `now` exactly when the normalised signal `Triggers`, and is unchanged if not. |
| `SignalMonitor.ThresholdInclusiveUnlikeEntry` | main.py:77-81 | For a non-negative threshold, a signal exactly at the threshold is a hit here but opens no position in the trading controller. |

## Findings

| source | as written | input that shows it | evidently intended | confidence | as-written member | corrected member |
|---|---|---|---|---|---|---|
| trader.py:30-36 | The bid sample is appended before the ask levels are read. An empty ask list raises after `z0_bid` has grown (the same at main.py:57-63). From then on the ask buffer can no longer reach `window + 1` while the bid buffer has the same length. For `window >= 2`, the next estimate fails on mismatched array shapes, and estimation never runs again. | Empty buffers, bids with one level of quantity 1, no asks | Drop the snapshot without touching either buffer | not executed; certain for this input, but whether the feed ever sends an empty side is unknown | `Depth.EmptyAsksDesynchronise` | `Depth.AppendSamples` |
| trader.py:53 | `self.symbol` is never assigned, so every order call raises before its flag is set. The trader can never open a position. | Flat, with a signal above the threshold | Send the order for the configured symbol and set the flag | not executed; medium, since code outside the file could assign the attribute | `Trading.AsWrittenNeverTrades` | `Trading.Trader.ExecuteTrades` |

## Left out

- Websocket setup, subscription, callbacks and the event loop (main.py:26-51, main.py:97-99). This is I/O plumbing.
- JSON decoding and parsing quantity strings to floats. A message is modelled as two sequences of real quantities, one per side.
- Floating-point rounding. Quantities and estimates are exact reals. `int(float(x)*1e8)` is exact truncation of `x * 10^8`, and numpy's summation order makes no difference.
- `math.log`. It is the abstract parameter `ln`, and nothing is proved about its values.
- The Binance client. The order calls are recorded in an order log. Their return values and failures are ignored by the source and are not modelled.
- `time.time()`. It becomes the parameter `now`.
- Logging and `print`.
- The unused `nu` field and the unused `symbol` parameter of `on_message`.
- Trading.Trader.constructor: requires `window >= 1` and `dt != 0`. A window of 0 takes the mean of an empty array (not-a-number), and `dt = 0` raises `ZeroDivisionError` on the first defined rate.
- SignalMonitor.Trader.constructor: the same two requirements, for the same reasons.
- Trading.Trader.MessageHandler: requires each new sample to be nonzero. A zero sample makes numpy produce infinities or not-a-number in the estimate and the signal, and real numbers cannot represent those.
- SignalMonitor.Trader.OnMessage: the same nonzero-sample requirement.
- Trading.Trader.MessageHandler: uses the corrected append (`Depth.AppendSamples`), not the as-written one. The as-written follow-on is not modelled step by step. For `window >= 2` it is a numpy shape error when the ask buffer reaches `window + 1` with a longer bid buffer. For `window = 1`, the one-element slice broadcasts, and estimation keeps running on misaligned data.
- SignalMonitor.Trader.OnMessage: uses the corrected append (`Depth.AppendSamples`) too. As written, main.py:57-63 appends the bid sample and then raises on an empty ask side, with the same follow-on.
- Trading.Trader.ExecuteTrades: sends to the symbol given to the constructor, where the source reads an attribute that is never set (see Findings).
- Estimator.EstimateUnitFree: states only that `nu` and the trimmed buffer are unchanged or scaled. The matching statement for `mu` is the separate lemma `Estimator.MeanScaled`.
