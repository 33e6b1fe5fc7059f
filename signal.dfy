/** Signal composition: the expected midprice movement from the two sides'
    estimates, the normalised variant and its threshold test. */
module Signal {
  import Estimator

  function Abs(r: real): real
  {
    if r < 0.0 then -r else r
  }

  /** The expected midprice movement from the bid and ask estimates and the
      newest sample of each side. */
  function Movement(theta: real, muBid: real, nuBid: real, zBid: int, muAsk: real, nuAsk: real, zAsk: int): (m: real)
    requires zBid != 0 && zAsk != 0
    ensures zBid as real == muBid && zAsk as real == muAsk ==> m == 0.0
  {
    theta * (nuBid * (muBid / zBid as real - 1.0) - nuAsk * (muAsk / zAsk as real - 1.0)) / 2.0
  }

  lemma MulPositive(a: real, b: real)
    requires 0.0 < a && 0.0 < b
    ensures 0.0 < a * b
  {
  }

  /** `a / b - 1` is positive when `a` exceeds the positive `b`. */
  lemma RatioAboveOne(a: real, b: real)
    requires 0.0 < b < a
    ensures 0.0 < a / b - 1.0
  {
    var q := a / b;
    assert q * b == a;
  }

  /** `a / b - 1` is negative when `a` is below the positive `b`. */
  lemma RatioBelowOne(a: real, b: real)
    requires 0.0 < b && a < b
    ensures a / b - 1.0 < 0.0
  {
    var q := a / b;
    assert q * b == a;
  }

  /** With positive reversion rates and a positive `theta`, bid depth below
      its long-run mean and ask depth above its own predicts an upward move:
      the bid side is expected to refill and the ask side to thin out. */
  lemma MovementUpward(theta: real, muBid: real, nuBid: real, zBid: int, muAsk: real, nuAsk: real, zAsk: int)
    requires 0.0 < theta && 0.0 < nuBid && 0.0 < nuAsk && 0 < zBid && 0 < zAsk
    requires zBid as real < muBid && muAsk < zAsk as real
    ensures 0.0 < Movement(theta, muBid, nuBid, zBid, muAsk, nuAsk, zAsk)
  {
    var b := muBid / zBid as real - 1.0;
    var a := muAsk / zAsk as real - 1.0;
    RatioAboveOne(muBid, zBid as real);
    RatioBelowOne(muAsk, zAsk as real);
    MulPositive(nuBid, b);
    MulPositive(nuAsk, -a);
    assert nuAsk * a == -(nuAsk * -a);
    MulPositive(theta, nuBid * b - nuAsk * a);
  }

  /** The bid and ask sides enter the movement symmetrically: exchanging
      them negates the movement. */
  lemma MovementSideSymmetry(theta: real, muBid: real, nuBid: real, zBid: int, muAsk: real, nuAsk: real, zAsk: int)
    requires zBid != 0 && zAsk != 0
    ensures Movement(theta, muAsk, nuAsk, zAsk, muBid, nuBid, zBid)
         == -Movement(theta, muBid, nuBid, zBid, muAsk, nuAsk, zAsk)
  {
    var x := nuBid * (muBid / zBid as real - 1.0) - nuAsk * (muAsk / zAsk as real - 1.0);
    assert theta * (-x) == -(theta * x);
  }

  /** The movement is linear in the two reversion rates taken together. */
  lemma MovementRatesScale(theta: real, muBid: real, nuBid: real, zBid: int, muAsk: real, nuAsk: real, zAsk: int, c: real)
    requires zBid != 0 && zAsk != 0
    ensures Movement(theta, muBid, c * nuBid, zBid, muAsk, c * nuAsk, zAsk)
         == c * Movement(theta, muBid, nuBid, zBid, muAsk, nuAsk, zAsk)
  {
    var b := muBid / zBid as real - 1.0;
    var a := muAsk / zAsk as real - 1.0;
    var x := nuBid * b - nuAsk * a;
    assert (c * nuBid) * b - (c * nuAsk) * a == c * x;
    assert theta * (c * x) == c * (theta * x);
  }

  /** A quotient of two finite floating-point numbers: finite, an infinity
      of the dividend's sign, or not a number (zero over zero). */
  datatype Ratio = Finite(value: real) | PlusInfinity | MinusInfinity | NotANumber

  /** Floating-point division as numpy performs it: division by zero gives
      an infinity or not-a-number instead of raising. */
  function Divide(n: real, d: real): (q: Ratio)
    ensures q.Finite? <==> d != 0.0
    ensures q.Finite? ==> q.value * d == n
    ensures q.PlusInfinity? <==> d == 0.0 && 0.0 < n
    ensures q.MinusInfinity? <==> d == 0.0 && n < 0.0
  {
    if d != 0.0 then Finite(n / d)
    else if n > 0.0 then PlusInfinity
    else if n < 0.0 then MinusInfinity
    else NotANumber
  }

  /** The normalised movement: the movement divided by the average of the
      two reversion rates, which nothing keeps away from zero. */
  function Normalised(theta: real, muBid: real, nuBid: real, zBid: int, muAsk: real, nuAsk: real, zAsk: int): (q: Ratio)
    requires zBid != 0 && zAsk != 0
    ensures q.Finite? <==> nuBid + nuAsk != 0.0
    ensures q.Finite? ==> q.value * ((nuBid + nuAsk) / 2.0) == Movement(theta, muBid, nuBid, zBid, muAsk, nuAsk, zAsk)
    ensures nuBid + nuAsk == 0.0 && zBid as real == muBid && zAsk as real == muAsk ==> q.NotANumber?
  {
    Divide(Movement(theta, muBid, nuBid, zBid, muAsk, nuAsk, zAsk), (nuBid + nuAsk) / 2.0)
  }

  /** Scaling dividend and divisor by the same positive factor does not
      change the quotient, finite or not. */
  lemma DivideScaled(n: real, d: real, c: real)
    requires 0.0 < c
    ensures Divide(c * n, c * d) == Divide(n, d)
  {
    if d != 0.0 {
      assert c * d != 0.0;
      Estimator.CancelFactor(c, n, d);
    } else {
      assert c * d == 0.0;
      if n > 0.0 {
        MulPositive(c, n);
      } else if n < 0.0 {
        MulPositive(c, -n);
        assert c * n == -(c * -n);
      } else {
        assert c * n == 0.0;
      }
    }
  }

  /** Multiplying both reversion rates by the same positive factor leaves
      the normalised movement unchanged. Since each rate is a logarithm
      divided by `dt`, the normalised signal does not depend on `dt`. */
  lemma NormalisedIgnoresRateScale(theta: real, muBid: real, nuBid: real, zBid: int, muAsk: real, nuAsk: real, zAsk: int, c: real)
    requires zBid != 0 && zAsk != 0 && 0.0 < c
    ensures Normalised(theta, muBid, c * nuBid, zBid, muAsk, c * nuAsk, zAsk)
         == Normalised(theta, muBid, nuBid, zBid, muAsk, nuAsk, zAsk)
  {
    MovementRatesScale(theta, muBid, nuBid, zBid, muAsk, nuAsk, zAsk, c);
    assert (c * nuBid + c * nuAsk) / 2.0 == c * ((nuBid + nuAsk) / 2.0);
    DivideScaled(Movement(theta, muBid, nuBid, zBid, muAsk, nuAsk, zAsk), (nuBid + nuAsk) / 2.0, c);
  }

  /** The inclusive threshold test of the normalised signal. An infinity
      passes one of the two comparisons; not-a-number fails both. */
  function Triggers(q: Ratio, threshold: real): (hit: bool)
    ensures q.NotANumber? ==> !hit
    ensures q.PlusInfinity? || q.MinusInfinity? ==> hit
    ensures q.Finite? && 0.0 <= threshold ==> (hit <==> threshold <= Abs(q.value))
    ensures q.Finite? && threshold < 0.0 ==> hit
  {
    match q
    case Finite(v) => v >= threshold || v <= -threshold
    case PlusInfinity => true
    case MinusInfinity => true
    case NotANumber => false
  }
}
