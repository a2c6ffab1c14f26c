/**
 * The SpO2 calibration table: 184 entries, entry `i` being the rounded value of
 * an empirical quadratic in the ratio-of-ratios percentage `i`.
 */
module Spo2Table {
  import opened RealMath

  const TableSize: nat := 184

  /** The calibration quadratic, written as the source writes it. */
  function Curve(x: real): real
  {
    -45.060 * (x * x) / 10000.0 + 30.354 * x / 100.0 + 94.845
  }

  /** One table entry: the curve at `i`, rounded. */
  function Entry(i: int): int
  {
    Round(Curve(i as real))
  }

  /** `SPO2_TABLE`, built once by mapping over 184 indices. */
  function Table(): seq<int>
  {
    seq(TableSize, i => Entry(i))
  }

  /** The first entry is 95 and the table has exactly 184 entries. */
  lemma TableShape()
    ensures |Table()| == 184
    ensures Table()[0] == 95
  {
  }

  /** Beyond index 33 the curve falls: between two points `i <= j` of that
      part, the drop is `(j - i) * (0.004506 * (i + j) - 0.30354)`. */
  lemma CurveFalls(i: int, j: int)
    requires 34 <= i <= j
    ensures Curve(j as real) <= Curve(i as real)
  {
    var x, y := i as real, j as real;
    assert Curve(x) - Curve(y) == (y - x) * (0.004506 * (x + y) - 0.30354);
    assert 0.004506 * (x + y) - 0.30354 >= 0.0;
  }

  /** From index 34 on, a larger ratio never gives a larger SpO2. */
  lemma {:induction false} TableDecreasing(i: int, j: int)
    requires 34 <= i <= j < TableSize
    ensures Table()[j] <= Table()[i]
  {
    CurveFalls(i, j);
    RoundMonotone(Curve(j as real), Curve(i as real));
  }

  /** Every entry up to 182 lies in [1, 100]; entry 183 is -1. */
  lemma {:induction false} TableRange(i: int)
    requires 0 <= i < TableSize
    ensures i < 183 ==> 1 <= Table()[i] <= 100
    ensures i == 183 ==> Table()[i] == -1
  {
    var x := i as real;
    // the curve peaks near 33.68 at about 99.96, below 100.5
    var y := x - 33.68;
    assert y * y >= 0.0;
    assert Curve(x) == -0.004506 * (y * y) + 0.00001584 * y + 99.9568803456;
    assert Curve(x) < 100.5;
    if i < 183 {
      // up to 182 the curve stays above its value at 182, which is about 0.83
      assert Curve(x) - Curve(182.0) == (182.0 - x) * (0.004506 * (x + 182.0) - 0.30354);
      var u, v := 182.0 - x, 0.004506 * (x + 182.0) - 0.30354;
      assert u >= 0.0 && v >= 0.0;
      MulNonNegative(u, v);
      assert Curve(x) >= 0.5;
    }
  }
}
