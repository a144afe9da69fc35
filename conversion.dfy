/** Unit conversion of the lamp client: a generic linear rescale truncated
    toward zero, saturation, and the two maps between the device's
    "percent warm" scale (0 = coolest, 100 = warmest) and Kelvin. */
module Conversion {

  const KelvinMin: int := 3000
  const KelvinMax: int := 5000

  function Abs(x: int): nat {
    if x < 0 then -x else x
  }

  /** Division truncated toward zero, as `int(n / d)` computes it on exact
      rationals: the magnitude is the floor of |n| / |d| and the sign is
      the sign of the exact quotient. */
  function TruncDiv(n: int, d: int): (q: int)
    requires d != 0
    ensures Abs(q) * Abs(d) <= Abs(n) < (Abs(q) + 1) * Abs(d)
    ensures q == 0 || (q > 0 <==> (n > 0 <==> d > 0))
  {
    var m: int := Abs(n) / Abs(d);
    FloorDivBounds(n, d, m);
    if (n < 0) == (d < 0) then m else -m
  }

  /** The floor quotient of the magnitudes brackets |n| between multiples
      of |d|, and is positive only for a non-zero numerator. */
  lemma FloorDivBounds(n: int, d: int, m: int)
    requires d != 0 && m == Abs(n) / Abs(d)
    ensures m * Abs(d) <= Abs(n) < (m + 1) * Abs(d)
    ensures m >= 0 && (m > 0 ==> n != 0)
  {
    var a, b := Abs(n), Abs(d);
    var r := a % b;
    assert a == m * b + r && 0 <= r < b;
    assert (m + 1) * b == m * b + b;
    if m > 0 {
      MulMonotone(1, m, b);
    }
  }

  /** The rescale of `x` from [inMin, inMax] to [outMin, outMax]: the exact
      value (x - inMin) * (outMax - outMin) / (inMax - inMin) + outMin,
      written over the common denominator inMax - inMin, then truncated
      toward zero as a whole. */
  function MapVal(x: int, inMin: int, inMax: int, outMin: int, outMax: int): (r: int)
    requires inMin != inMax
    ensures x == inMin ==> r == outMin
    ensures x == inMax ==> r == outMax
  {
    var d := inMax - inMin;
    var n := (x - inMin) * (outMax - outMin) + outMin * d;
    if x == inMin then
      TruncDivExact(outMin, d); TruncDiv(n, d)
    else if x == inMax then
      assert n == outMax * d;
      TruncDivExact(outMax, d); TruncDiv(n, d)
    else
      TruncDiv(n, d)
  }

  /** An exact multiple divides without truncation. */
  lemma TruncDivExact(k: int, d: int)
    requires d != 0
    ensures TruncDiv(k * d, d) == k
  {
    var D := Abs(d);
    assert Abs(k * d) == Abs(k) * D by {
      if k < 0 && d < 0 { assert k * d == (-k) * (-d); }
      else if k < 0 { assert -(k * d) == (-k) * d; }
      else if d < 0 { assert -(k * d) == k * (-d); }
    }
    assert (Abs(k) + 1) * D == Abs(k) * D + D;
    if k != 0 {
      if k > 0 && d > 0 { MulMonotone(1, k, d); }
      else if k < 0 && d < 0 { MulMonotone(1, -k, -d); assert k * d == (-k) * (-d); }
      else if k > 0 { MulMonotone(1, k, -d); assert k * d == -(k * (-d)); }
      else { MulMonotone(1, -k, d); assert k * d == -((-k) * d); }
    }
    TruncDivUnique(k * d, d, k);
  }

  function Min(a: int, b: int): int {
    if a <= b then a else b
  }

  function Max(a: int, b: int): int {
    if a >= b then a else b
  }

  /** Saturation `max(lo, min(x, hi))`. When lo > hi the lower bound wins. */
  function Clip(x: int, lo: int, hi: int): (r: int)
    ensures lo <= hi ==> lo <= r <= hi
    ensures lo <= hi ==> (x < lo ==> r == lo) && (x > hi ==> r == hi) && (lo <= x <= hi ==> r == x)
    ensures lo > hi ==> r == lo
  {
    Max(lo, Min(x, hi))
  }

  /** Device warm-percent to Kelvin: 0 maps to 5000 K, 100 to 3000 K. */
  function PercentWarmToKelvin(percent: int): (kelvin: int)
    ensures KelvinMin <= kelvin <= KelvinMax
  {
    Clip(MapVal(percent, 0, 100, KelvinMax, KelvinMin), KelvinMin, KelvinMax)
  }

  /** Kelvin to device warm-percent: 3000 K maps to 100, 5000 K to 0. */
  function KelvinToPercentWarm(kelvin: int): (percent: int)
    ensures 0 <= percent <= 100
  {
    Clip(MapVal(kelvin, KelvinMin, KelvinMax, 100, 0), 0, 100)
  }

  /** TruncDiv is the only integer meeting its own contract. */
  lemma TruncDivUnique(n: int, d: int, q: int)
    requires d != 0
    requires Abs(q) * Abs(d) <= Abs(n) < (Abs(q) + 1) * Abs(d)
    requires q == 0 || (q > 0 <==> (n > 0 <==> d > 0))
    ensures TruncDiv(n, d) == q
  {
    var t := TruncDiv(n, d);
    var D := Abs(d);
    if Abs(t) < Abs(q) {
      assert (Abs(t) + 1) * D <= Abs(q) * D by { MulMonotone(Abs(t) + 1, Abs(q), D); }
    } else if Abs(q) < Abs(t) {
      assert (Abs(q) + 1) * D <= Abs(t) * D by { MulMonotone(Abs(q) + 1, Abs(t), D); }
    }
    assert Abs(t) == Abs(q);
  }

  lemma MulMonotone(a: int, b: int, c: nat)
    requires a <= b
    ensures a * c <= b * c
  {
    assert b * c - a * c == (b - a) * c;
  }

  /** Over the whole integer line the percent-to-Kelvin rescale is exact:
      -20 K per percent, with no rounding. */
  lemma PercentRescaleExact(percent: int)
    ensures MapVal(percent, 0, 100, KelvinMax, KelvinMin) == KelvinMax - 20 * percent
  {
    var n := (percent - 0) * (KelvinMin - KelvinMax) + KelvinMax * (100 - 0);
    assert n == 100 * (KelvinMax - 20 * percent);
    TruncDivUnique(n, 100, KelvinMax - 20 * percent);
  }

  /** The Kelvin-to-percent rescale truncates (5000 - kelvin) / 20 toward
      zero: inside the Kelvin range it is the floor of that quotient. */
  lemma KelvinRescaleBounds(kelvin: int)
    ensures var m := MapVal(kelvin, KelvinMin, KelvinMax, 100, 0);
            20 * Abs(m) <= Abs(KelvinMax - kelvin) < 20 * Abs(m) + 20 &&
            (m == 0 || (m > 0 <==> kelvin < KelvinMax))
  {
    var n := (kelvin - KelvinMin) * (0 - 100) + 100 * (KelvinMax - KelvinMin);
    assert n == 100 * (KelvinMax - kelvin);
    assert Abs(n) == 100 * Abs(KelvinMax - kelvin);
  }

  lemma PercentWarmToKelvinClosedForm(percent: int)
    ensures percent <= 0 ==> PercentWarmToKelvin(percent) == KelvinMax
    ensures percent >= 100 ==> PercentWarmToKelvin(percent) == KelvinMin
    ensures 0 <= percent <= 100 ==> PercentWarmToKelvin(percent) == KelvinMax - 20 * percent
  {
    PercentRescaleExact(percent);
  }

  /** Inside the Kelvin range, `KelvinToPercentWarm(k)` is the largest p
      with 20 * p <= 5000 - k; below the range it saturates at 100 and
      above it at 0. */
  lemma KelvinToPercentWarmClosedForm(kelvin: int)
    ensures var p := KelvinToPercentWarm(kelvin);
            (kelvin <= KelvinMin ==> p == 100) &&
            (kelvin >= KelvinMax ==> p == 0) &&
            (KelvinMin <= kelvin <= KelvinMax ==> 20 * p <= KelvinMax - kelvin < 20 * p + 20)
  {
    KelvinRescaleBounds(kelvin);
  }

  /** Inside the Kelvin range the rescale alone already lies in [0, 100],
      so the clip in KelvinToPercentWarm changes nothing. */
  lemma KelvinRescaleInRange(kelvin: int)
    requires KelvinMin <= kelvin <= KelvinMax
    ensures MapVal(kelvin, KelvinMin, KelvinMax, 100, 0) == KelvinToPercentWarm(kelvin)
    ensures 0 <= MapVal(kelvin, KelvinMin, KelvinMax, 100, 0) <= 100
  {
    KelvinRescaleBounds(kelvin);
  }

  lemma Endpoints()
    ensures PercentWarmToKelvin(0) == KelvinMax && PercentWarmToKelvin(100) == KelvinMin
    ensures KelvinToPercentWarm(KelvinMin) == 100 && KelvinToPercentWarm(KelvinMax) == 0
  {
    PercentWarmToKelvinClosedForm(0);
    PercentWarmToKelvinClosedForm(100);
    KelvinToPercentWarmClosedForm(KelvinMin);
    KelvinToPercentWarmClosedForm(KelvinMax);
  }

  /** The truncation applies to the whole expression: 3010 K is 99.5 percent
      warm and becomes 99, and 5010 K is -0.5 and becomes 0 (a floor would
      give 100 and -1). */
  lemma TruncationExamples()
    ensures KelvinToPercentWarm(3010) == 99
    ensures MapVal(5010, KelvinMin, KelvinMax, 100, 0) == 0
  {
    KelvinRescaleBounds(3010);
    KelvinRescaleBounds(5010);
  }

  /** A warmer Kelvin value (lower) never gives a lower warm-percent. */
  lemma KelvinToPercentWarmAntitone(k1: int, k2: int)
    requires k1 <= k2
    ensures KelvinToPercentWarm(k1) >= KelvinToPercentWarm(k2)
  {
    KelvinToPercentWarmClosedForm(k1);
    KelvinToPercentWarmClosedForm(k2);
  }

  /** A higher warm-percent never gives a higher Kelvin value. */
  lemma PercentWarmToKelvinAntitone(p1: int, p2: int)
    requires p1 <= p2
    ensures PercentWarmToKelvin(p1) >= PercentWarmToKelvin(p2)
  {
    PercentWarmToKelvinClosedForm(p1);
    PercentWarmToKelvinClosedForm(p2);
  }

  /** Every device warm-percent survives the trip to Kelvin and back. */
  lemma PercentRoundTrip(percent: int)
    requires 0 <= percent <= 100
    ensures KelvinToPercentWarm(PercentWarmToKelvin(percent)) == percent
  {
    PercentWarmToKelvinClosedForm(percent);
    KelvinToPercentWarmClosedForm(KelvinMax - 20 * percent);
  }

  /** The other trip rounds up to the next 20 K step: a Kelvin value in range
      comes back no lower than it went in and less than 20 K higher. */
  lemma KelvinRoundTrip(kelvin: int)
    requires KelvinMin <= kelvin <= KelvinMax
    ensures kelvin <= PercentWarmToKelvin(KelvinToPercentWarm(kelvin)) < kelvin + 20
  {
    var p := KelvinToPercentWarm(kelvin);
    KelvinToPercentWarmClosedForm(kelvin);
    PercentWarmToKelvinClosedForm(p);
  }
}
