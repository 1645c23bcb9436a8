/**
 * Symmetric value-axis scaling: the axis runs from -b to b, where b is the
 * largest magnitude in the channel plus 10% padding, so zero sits in the
 * middle of the chart whatever the skew of the data.
 */
module AxisScale {

  /** The padding factor written `1.1` in the source (taken as an exact real). */
  const Padding: real := 11.0 / 10.0

  datatype Bounds = Bounds(min: real, max: real)

  function Abs(x: real): (a: real)
    ensures a >= 0.0 && (a == x || a == -x)
  {
    if x < 0.0 then -x else x
  }

  /** `Math.min(...values, 0)`. */
  function MinWithZero(values: seq<real>): (m: real)
    ensures m <= 0.0
    ensures forall v :: v in values ==> m <= v
    ensures m == 0.0 || m in values
  {
    if values == [] then 0.0
    else
      var rest := MinWithZero(values[1..]);
      assert values == [values[0]] + values[1..];
      if values[0] < rest then values[0] else rest
  }

  /** `Math.max(...values, 0)`. */
  function MaxWithZero(values: seq<real>): (m: real)
    ensures m >= 0.0
    ensures forall v :: v in values ==> v <= m
    ensures m == 0.0 || m in values
  {
    if values == [] then 0.0
    else
      var rest := MaxWithZero(values[1..]);
      assert values == [values[0]] + values[1..];
      if values[0] > rest then values[0] else rest
  }

  /**
   * `Math.max(Math.abs(min) * 1.1, max * 1.1)`: the padded largest magnitude.
   * It covers every value with 10% to spare, it is attained by some value,
   * and it is zero exactly when every value is zero.
   */
  function PaddedBound(values: seq<real>): (b: real)
    ensures b >= 0.0
    ensures forall v :: v in values ==> b >= Padding * Abs(v)
    ensures b != 0.0 ==> exists v :: v in values && b == Padding * Abs(v)
    ensures b == 0.0 <==> forall v :: v in values ==> v == 0.0
  {
    var neg := Abs(MinWithZero(values)) * Padding;
    var pos := MaxWithZero(values) * Padding;
    var b := if neg >= pos then neg else pos;
    assert forall v :: v in values ==> b >= Padding * Abs(v) by {
      forall v | v in values ensures b >= Padding * Abs(v) {
        if v < 0.0 { assert Abs(v) <= Abs(MinWithZero(values)); }
      }
    }
    b
  }

  /**
   * The current overlay's x-scale `range`: symmetric about zero, covering
   * every value with 10% padding, and `[-1, 1]` when the padded bound is 0
   * (all values zero, or no data at all).
   */
  function XRange(values: seq<real>): (r: Bounds)
    ensures r.min == -r.max
    ensures r.max > 0.0
    ensures forall v :: v in values ==> r.max >= Padding * Abs(v)
    ensures (forall v :: v in values ==> v == 0.0) ==> r == Bounds(-1.0, 1.0)
    ensures (exists v :: v in values && v != 0.0) ==> exists v :: v in values && r.max == Padding * Abs(v)
  {
    var b := PaddedBound(values);
    var m := if b == 0.0 then 1.0 else b;
    Bounds(-m, m)
  }

  /**
   * The older overlay's bounds for one channel: symmetric about zero and
   * covering every value with 10% padding, with no floor, so an all-zero or
   * empty channel gets the degenerate axis `[0, 0]`.
   */
  function OldAxisBounds(values: seq<real>): (r: Bounds)
    ensures r.min == -r.max
    ensures r.max >= 0.0
    ensures forall v :: v in values ==> r.max >= Padding * Abs(v)
    ensures r.max == 0.0 <==> forall v :: v in values ==> v == 0.0
    ensures r.max != 0.0 ==> exists v :: v in values && r.max == Padding * Abs(v)
  {
    var b := PaddedBound(values);
    Bounds(-b, b)
  }

  /** The two rules agree except that the current one lifts a zero bound to 1. */
  lemma XRangeLiftsOldBounds(values: seq<real>)
    ensures OldAxisBounds(values).max != 0.0 ==> XRange(values) == OldAxisBounds(values)
    ensures OldAxisBounds(values).max == 0.0 ==> XRange(values) == Bounds(-1.0, 1.0)
  {
  }

  /** The worked example: values [-3, 8] give the axis [-8.8, 8.8]. */
  lemma XRangeExample()
    ensures XRange([-3.0, 8.0]) == Bounds(-8.8, 8.8)
  {
    assert MinWithZero([-3.0, 8.0]) == -3.0 by { assert [-3.0, 8.0][1..] == [8.0]; }
    assert MaxWithZero([-3.0, 8.0]) == 8.0 by { assert [-3.0, 8.0][1..] == [8.0]; }
  }

  /** The padding floor applies only to a zero bound: small data gives an axis narrower than [-1, 1]. */
  lemma XRangeSmallData()
    ensures XRange([0.5]) == Bounds(-0.55, 0.55)
  {
    assert MinWithZero([0.5]) == 0.0 by { assert [0.5][1..] == []; }
    assert MaxWithZero([0.5]) == 0.5 by { assert [0.5][1..] == []; }
  }
}
