/** The closed-form quasi-maximum-likelihood estimate of an
    Ornstein-Uhlenbeck process's long-run mean `mu` and mean-reversion rate
    `nu` over one full buffer of `window + 1` liquidity samples. */
module Estimator {
  import opened Common

  /** Every sample is nonzero (the samples are divisors in the estimate). */
  predicate NonZero(s: seq<int>)
  {
    forall i :: 0 <= i < |s| ==> s[i] != 0
  }

  function Sum(s: seq<int>): int
  {
    if s == [] then 0 else s[0] + Sum(s[1..])
  }

  /** The average of the samples. It has the sign of their total; its
      bounds are `MeanBounds`. */
  function Mean(s: seq<int>): (r: real)
    requires s != []
    ensures r == 0.0 <==> Sum(s) == 0
    ensures 0.0 < r <==> 0 < Sum(s)
  {
    QuotientSign(Sum(s) as real, |s| as real);
    Sum(s) as real / |s| as real
  }

  /** Dividing by a positive number keeps the sign. */
  lemma QuotientSign(a: real, n: real)
    requires 0.0 < n
    ensures a / n == 0.0 <==> a == 0.0
    ensures 0.0 < a / n <==> 0.0 < a
  {
    var q := a / n;
    assert q * n == a;
    if 0.0 < a {
      assert 0.0 < q;
    }
    if 0.0 < q {
      assert 0.0 < q * n;
    }
  }

  lemma SquareNonNegative(t: real)
    ensures 0.0 <= t * t
  {
  }

  lemma SquarePositive(t: real)
    requires t != 0.0
    ensures 0.0 < t * t
  {
  }

  lemma QuotientZero(a: real, b: real)
    requires b != 0.0
    ensures a / b == 0.0 <==> a == 0.0
  {
  }

  /** `a / n` is at least `b` when `a` is at least `n * b`, for positive `n`. */
  lemma QuotientAtLeast(a: real, n: real, b: real)
    requires 0.0 < n && n * b <= a
    ensures b <= a / n
  {
    var q := a / n;
    assert q * n == a;
    if q < b {
      assert q * n < b * n;
    }
  }

  /** `a / n` is at most `b` when `a` is at most `n * b`, for positive `n`. */
  lemma QuotientAtMost(a: real, n: real, b: real)
    requires 0.0 < n && a <= n * b
    ensures a / n <= b
  {
    var q := a / n;
    assert q * n == a;
    if q > b {
      assert q * n > b * n;
    }
  }

  /** The `i`-th summand of `sum1`: the squared deviation of `x` from `mu`
      over `x` squared, written as the square of the relative deviation. */
  function Term1(x: int, mu: real): (t: real)
    requires x != 0
    ensures 0.0 <= t
    ensures t == 0.0 <==> x as real == mu
  {
    var t := (x as real - mu) / x as real;
    SquareNonNegative(t);
    QuotientZero(x as real - mu, x as real);
    if t != 0.0 then SquarePositive(t); t * t else t * t
  }

  /** The `i`-th summand of `sum2`: the deviation of `x` relative to `x`
      squared, times the deviation of the sample `y` that follows it. */
  function Term2(x: int, y: int, mu: real): real
    requires x != 0
  {
    ((x as real - mu) / (x as real * x as real)) * (y as real - mu)
  }

  lemma Term2AtMean(x: int, y: int, mu: real)
    requires x != 0
    ensures x as real == mu ==> Term2(x, y, mu) == 0.0
  {
  }

  /** `sum1` over the first `n` samples. */
  function Sum1(data: seq<int>, mu: real, n: nat): (r: real)
    requires n <= |data| && forall i :: 0 <= i < n ==> data[i] != 0
    ensures 0.0 <= r
  {
    if n == 0 then 0.0 else Sum1(data, mu, n - 1) + Term1(data[n - 1], mu)
  }

  /** `sum2` over the first `n` samples, each paired with its successor. */
  function Sum2(data: seq<int>, mu: real, n: nat): (r: real)
    requires n < |data| && forall i :: 0 <= i < n ==> data[i] != 0
    ensures (forall i :: 0 <= i < n ==> data[i] as real == mu) ==> r == 0.0
  {
    if n == 0 then 0.0
    else
      Term2AtMean(data[n - 1], data[n], mu);
      Sum2(data, mu, n - 1) + Term2(data[n - 1], data[n], mu)
  }

  /** `sum1` vanishes exactly when each of its samples equals `mu`, so the
      guard `sum1 <= 0` fires only on a window that sits on its mean. */
  lemma {:induction false} Sum1ZeroIff(data: seq<int>, mu: real, n: nat)
    requires n <= |data| && forall i :: 0 <= i < n ==> data[i] != 0
    ensures Sum1(data, mu, n) == 0.0 <==> forall i :: 0 <= i < n ==> data[i] as real == mu
  {
    if n > 0 {
      Sum1ZeroIff(data, mu, n - 1);
    }
  }

  datatype Estimate = Estimate(rest: seq<int>, mu: real, nu: Option<real>)

  /** `estimate_params`: `mu` is the mean of the newest `window` samples,
      `nu` is `ln(sum1 / sum2) / dt` when both sums are positive and absent
      otherwise, and the buffer comes back without its oldest sample. */
  function EstimateParams(data: seq<int>, window: int, dt: real, ln: real -> real): (e: Estimate)
    requires 1 <= window && |data| == window + 1 && dt != 0.0
    requires forall i :: 0 <= i < window ==> data[i] != 0
    ensures |e.rest| == window && e.rest == data[1..] && e.rest[window - 1] == data[window]
    ensures e.mu == Mean(data[1..])
    ensures e.nu.None? <==>
      Sum2(data, e.mu, window) <= 0.0 || forall i :: 0 <= i < window ==> data[i] as real == e.mu
    ensures e.nu.Some? ==>
      0.0 < Sum1(data, e.mu, window) && 0.0 < Sum2(data, e.mu, window) &&
      e.nu.value == ln(Sum1(data, e.mu, window) / Sum2(data, e.mu, window)) / dt
  {
    var mu := Mean(data[1..]);
    Sum1ZeroIff(data, mu, window);
    Estimate(data[1..], mu, Rate(Sum1(data, mu, window), Sum2(data, mu, window), dt, ln))
  }

  /** The reversion rate from the two sums: undefined unless both are
      positive. */
  function Rate(sum1: real, sum2: real, dt: real, ln: real -> real): (r: Option<real>)
    requires dt != 0.0
    ensures r.Some? <==> 0.0 < sum1 && 0.0 < sum2
    ensures r.Some? ==> r.value * dt == ln(sum1 / sum2)
  {
    if sum2 <= 0.0 || sum1 <= 0.0 then None else Some(ln(sum1 / sum2) / dt)
  }

  /** Bounds on a sum from bounds on its elements. */
  lemma {:induction false} SumBounds(s: seq<int>, lo: int, hi: int)
    requires forall i :: 0 <= i < |s| ==> lo <= s[i] <= hi
    ensures |s| * lo <= Sum(s) <= |s| * hi
  {
    if s != [] {
      SumBounds(s[1..], lo, hi);
      assert |s| * lo == lo + (|s| - 1) * lo;
      assert |s| * hi == hi + (|s| - 1) * hi;
    }
  }

  lemma ProductAsReal(a: int, b: int)
    ensures (a * b) as real == a as real * b as real
  {
  }

  /** The mean lies between the smallest and the largest sample. */
  lemma MeanBounds(s: seq<int>, lo: int, hi: int)
    requires s != []
    requires forall i :: 0 <= i < |s| ==> lo <= s[i] <= hi
    ensures lo as real <= Mean(s) <= hi as real
  {
    SumBounds(s, lo, hi);
    MeanAtLeast(s, lo);
    MeanAtMost(s, hi);
  }

  lemma MeanAtLeast(s: seq<int>, lo: int)
    requires s != [] && |s| * lo <= Sum(s)
    ensures lo as real <= Mean(s)
  {
    ProductAsReal(|s|, lo);
    QuotientAtLeast(Sum(s) as real, |s| as real, lo as real);
  }

  lemma MeanAtMost(s: seq<int>, hi: int)
    requires s != [] && Sum(s) <= |s| * hi
    ensures Mean(s) <= hi as real
  {
    ProductAsReal(|s|, hi);
    QuotientAtMost(Sum(s) as real, |s| as real, hi as real);
  }

  /** A window whose samples are all the same nonzero value `c`: `mu` is `c`,
      both sums are zero and the reversion rate is undefined. */
  lemma ConstantWindowUndefined(data: seq<int>, window: int, dt: real, ln: real -> real, c: int)
    requires 1 <= window && |data| == window + 1 && dt != 0.0 && c != 0
    requires forall i :: 0 <= i < |data| ==> data[i] == c
    ensures EstimateParams(data, window, dt, ln).mu == c as real
    ensures Sum1(data, c as real, window) == 0.0 && Sum2(data, c as real, window) == 0.0
    ensures EstimateParams(data, window, dt, ln).nu == None
  {
    MeanBounds(data[1..], c, c);
    Sum1ZeroIff(data, c as real, window);
  }

  /** Three samples 10, 12, 11 with a window of two: `sum2` is negative, so
      the rate is undefined. */
  lemma ThreeSampleBidUndefined(dt: real, ln: real -> real)
    requires dt != 0.0
    ensures EstimateParams([10, 12, 11], 2, dt, ln).mu == 11.5
    ensures EstimateParams([10, 12, 11], 2, dt, ln).nu == None
  {
    var data := [10, 12, 11];
    assert data[1..] == [12, 11];
    assert Sum([12, 11]) == 23 by {
      assert [12, 11][1..] == [11];
      assert [11][1..] == [];
    }
    assert Mean(data[1..]) == 11.5;
    assert Sum2(data, 11.5, 2) < 0.0;
  }

  /** Three samples 10, 8, 9 with a window of two: again `sum2` is negative. */
  lemma ThreeSampleAskUndefined(dt: real, ln: real -> real)
    requires dt != 0.0
    ensures EstimateParams([10, 8, 9], 2, dt, ln).mu == 8.5
    ensures EstimateParams([10, 8, 9], 2, dt, ln).nu == None
  {
    var data := [10, 8, 9];
    assert data[1..] == [8, 9];
    assert Sum([8, 9]) == 17 by {
      assert [8, 9][1..] == [9];
      assert [9][1..] == [];
    }
    assert Mean(data[1..]) == 8.5;
    assert Sum2(data, 8.5, 2) < 0.0;
  }

  /** Every sample multiplied by `k`. */
  function ScaleBy(s: seq<int>, k: int): (r: seq<int>)
    ensures |r| == |s| && forall i :: 0 <= i < |s| ==> r[i] == k * s[i]
  {
    seq(|s|, i requires 0 <= i < |s| => k * s[i])
  }

  lemma {:induction false} SumScaled(s: seq<int>, k: int)
    ensures Sum(ScaleBy(s, k)) == k * Sum(s)
  {
    if s != [] {
      assert ScaleBy(s, k)[1..] == ScaleBy(s[1..], k);
      SumScaled(s[1..], k);
    }
  }

  lemma MeanScaled(s: seq<int>, k: int, t: seq<int>)
    requires s != [] && t == ScaleBy(s, k)
    ensures Mean(t) == k as real * Mean(s)
  {
    SumScaled(s, k);
    var n, S, K := |s| as real, Sum(s) as real, k as real;
    assert (k * Sum(s)) as real == K * S;
    var q := S / n;
    assert q * n == S;
    assert (K * q) * n == K * S;
  }

  lemma CancelFactor(c: real, a: real, b: real)
    requires c != 0.0 && b != 0.0
    ensures (c * a) / (c * b) == a / b
  {
    var q := a / b;
    assert a == q * b;
    assert c * a == q * (c * b);
  }

  lemma Term1Scaled(x: int, mu: real, k: int)
    requires x != 0 && k != 0
    ensures Term1(k * x, k as real * mu) == Term1(x, mu)
  {
    var K, X := k as real, x as real;
    assert (k * x) as real == K * X;
    assert K * X - K * mu == K * (X - mu);
    CancelFactor(K, X - mu, X);
  }

  lemma Term2Scaled(x: int, y: int, mu: real, k: int)
    requires x != 0 && k != 0
    ensures Term2(k * x, k * y, k as real * mu) == Term2(x, y, mu)
  {
    var K, X, Y := k as real, x as real, y as real;
    ProductAsReal(k, x);
    ProductAsReal(k, y);
    SquareScaled(K, X);
    SquarePositive(X);
    assert K * X - K * mu == K * (X - mu);
    assert K * Y - K * mu == K * (Y - mu);
    CancelFactor(K, X - mu, K * (X * X));
    ShiftFactor(K, X - mu, X * X, Y - mu);
  }

  /** `(k * x) * (k * x) == k * (k * (x * x))` */
  lemma SquareScaled(k: real, x: real)
    ensures (k * x) * (k * x) == k * (k * (x * x))
  {
  }

  /** `(a / (k * s)) * (k * b) == (a / s) * b` */
  lemma ShiftFactor(k: real, a: real, s: real, b: real)
    requires k != 0.0 && s != 0.0
    ensures (a / (k * s)) * (k * b) == (a / s) * b
  {
    var q := a / (k * s);
    assert q * (k * s) == a;
    assert (q * k) * s == a;
    assert q * k == a / s;
    assert q * (k * b) == (q * k) * b;
  }

  lemma {:induction false} Sum1Scaled(data: seq<int>, mu: real, n: nat, k: int, kmu: real)
    requires n <= |data| && forall i :: 0 <= i < n ==> data[i] != 0
    requires k != 0 && kmu == k as real * mu
    ensures Sum1(ScaleBy(data, k), kmu, n) == Sum1(data, mu, n)
  {
    if n > 0 {
      Sum1Scaled(data, mu, n - 1, k, kmu);
      Term1Scaled(data[n - 1], mu, k);
    }
  }

  lemma {:induction false} Sum2Scaled(data: seq<int>, mu: real, n: nat, k: int, kmu: real)
    requires n < |data| && forall i :: 0 <= i < n ==> data[i] != 0
    requires k != 0 && kmu == k as real * mu
    ensures Sum2(ScaleBy(data, k), kmu, n) == Sum2(data, mu, n)
  {
    if n > 0 {
      Sum2Scaled(data, mu, n - 1, k, kmu);
      Term2Scaled(data[n - 1], data[n], mu, k);
    }
  }

  /** The reversion rate does not depend on the unit the samples are counted
      in: multiplying every sample by `k` leaves `nu` unchanged (so the 10^8
      scaling of the quantities is harmless; `MeanScaled` gives `k * mu`). */
  lemma EstimateUnitFree(data: seq<int>, window: int, dt: real, ln: real -> real, k: int)
    requires 1 <= window && |data| == window + 1 && dt != 0.0
    requires forall i :: 0 <= i < window ==> data[i] != 0
    requires k != 0
    ensures var e, f := EstimateParams(data, window, dt, ln), EstimateParams(ScaleBy(data, k), window, dt, ln);
      f.rest == ScaleBy(e.rest, k) && f.nu == e.nu
  {
    var scaled := ScaleBy(data, k);
    assert scaled[1..] == ScaleBy(data[1..], k);
    ScaledNonZero(data, k, window);
    MeanScaled(data[1..], k, scaled[1..]);
    var mu, kmu := Mean(data[1..]), Mean(scaled[1..]);
    Sum2Scaled(data, mu, window, k, kmu);
    Sum1Scaled(data, mu, window, k, kmu);
    EstimateParts(data, window, dt, ln);
    EstimateParts(scaled, window, dt, ln);
  }

  lemma ScaledNonZero(data: seq<int>, k: int, n: nat)
    requires n <= |data| && k != 0
    requires forall i :: 0 <= i < n ==> data[i] != 0
    ensures forall i :: 0 <= i < n ==> ScaleBy(data, k)[i] != 0
  {
    forall i | 0 <= i < n
      ensures ScaleBy(data, k)[i] != 0
    {
      ProductNonZero(k, data[i]);
    }
  }

  lemma ProductNonZero(a: int, b: int)
    requires a != 0 && b != 0
    ensures a * b != 0
  {
  }

  lemma EstimateParts(data: seq<int>, window: int, dt: real, ln: real -> real)
    requires 1 <= window && |data| == window + 1 && dt != 0.0
    requires forall i :: 0 <= i < window ==> data[i] != 0
    ensures var e, mu := EstimateParams(data, window, dt, ln), Mean(data[1..]);
      e.mu == mu && e.nu == Rate(Sum1(data, mu, window), Sum2(data, mu, window), dt, ln)
  {
  }
}
