/** The rounding that the trading machine applies to order quantities (`round_at_step`).
    Money is exact: every amount is a `real`. */
module Money {

  const UNITS: real := 1000000.0

  /** Rounds to the nearest integer, ties to the even one, as Python's `round` does. */
  function HalfEven(x: real): (r: int)
    ensures -0.5 <= x - r as real <= 0.5
  {
    var f := x.Floor;
    var d := x - f as real;
    if d < 0.5 then f
    else if d > 0.5 then f + 1
    else if f % 2 == 0 then f
    else f + 1
  }

  /** Rounds to six decimals. */
  function Round6(v: real): (r: real)
    ensures -0.5 / UNITS <= v - r <= 0.5 / UNITS
  {
    HalfEven(v * UNITS) as real / UNITS
  }

  /** The amounts that six decimals can express. */
  ghost predicate OnGrid(q: real) {
    exists k: int :: q == GridPoint(k)
  }

  function GridPoint(k: int): real {
    k as real / UNITS
  }

  function Abs(x: real): real {
    if x < 0.0 then -x else x
  }

  /** The code computes a rounding, corrects it downwards by `step`, and then throws the correction
      away by rounding the original value again. '%f' prints six decimals whatever the step is. */
  method RoundAtStep(val: real, step: real) returns (roundVal: real)
    ensures roundVal == Round6(val)
  {
    roundVal := Round6(val);
    if roundVal >= val {
      roundVal := roundVal - step;
    }
    roundVal := Round6(val);
  }

  lemma HalfEvenMonotone(x: real, y: real)
    requires x <= y
    ensures HalfEven(x) <= HalfEven(y)
  {
    var fx, fy := x.Floor, y.Floor;
    if fx < fy {
      assert HalfEven(x) <= fx + 1 <= fy <= HalfEven(y);
    }
  }

  lemma Round6Monotone(v: real, w: real)
    requires v <= w
    ensures Round6(v) <= Round6(w)
  {
    HalfEvenMonotone(v * UNITS, w * UNITS);
  }

  /** The result is a grid point, and no grid point is nearer. */
  lemma {:induction false} Round6Nearest(v: real, k: int)
    ensures OnGrid(Round6(v))
    ensures Abs(v - Round6(v)) <= Abs(v - GridPoint(k))
  {
    var n := HalfEven(v * UNITS);
    assert Round6(v) == GridPoint(n);
    if k < n {
      assert k as real <= n as real - 1.0;
    } else if k > n {
      assert k as real >= n as real + 1.0;
    }
  }

  lemma Round6OnGrid(q: real)
    requires OnGrid(q)
    ensures Round6(q) == q
  {
    var k: int :| q == GridPoint(k);
    assert q * UNITS == k as real;
  }

  /** The digits behind the sixth decimal are below one half of a unit, or are one half above an even count. */
  predicate RoundsDown(v: real) {
    var d := v * UNITS - (v * UNITS).Floor as real;
    d < 0.5 || (d == 0.5 && (v * UNITS).Floor % 2 == 0)
  }

  /** The step suggests rounding down; the code does so exactly for these digits. */
  lemma RoundsDownExactly(v: real)
    ensures Round6(v) <= v <==> RoundsDown(v)
  {
    var x := v * UNITS;
    assert Round6(v) <= v <==> HalfEven(x) as real <= x;
  }

  /** A quantity after `charge` has been taken from it. */
  function Charged(q: real, charge: real): (r: real)
    ensures -0.5 / UNITS <= r - (q - charge) <= 0.5 / UNITS
  {
    Round6(q - charge)
  }

  /** Taking any commission away never raises a quantity exactly when the quantity's own digits round
      down. */
  lemma NeverGrowsExactly(q: real)
    ensures (forall c: real :: c >= 0.0 ==> Charged(q, c) <= q) <==> RoundsDown(q)
  {
    RoundsDownExactly(q);
    if RoundsDown(q) {
      forall c: real | c >= 0.0 ensures Charged(q, c) <= q {
        Round6Monotone(q - c, q);
      }
    } else {
      assert Charged(q, 0.0) == Round6(q);
    }
  }

  /** The failing case: an amount that rounding raises, so that taking nothing away makes it larger. */
  lemma RoundingRaises()
    ensures !RoundsDown(0.0000015) && Charged(0.0000015, 0.0) > 0.0000015
  {
  }
}
