/**
 * Placing a reference-price line at a fractional row index: find the rows that
 * bracket the price and interpolate linearly between them. The current
 * overlay shows rows in descending price order, the older one in ascending
 * order; each has its own mirror-image variant.
 */
module Interpolation {
  import opened Wrappers
  import opened Levels

  /** A JavaScript number as far as interpolation needs it: a real, or NaN from `0 / 0`. */
  datatype Num = Finite(v: real) | NaN

  /** The "not applicable" answer both variants return. */
  const Sentinel: Num := Finite(-1.0)

  ghost predicate StrictlyDescending(labels: seq<real>) {
    forall i, j :: 0 <= i < j < |labels| ==> labels[i] > labels[j]
  }

  ghost predicate NonIncreasing(labels: seq<real>) {
    forall i, j :: 0 <= i < j < |labels| ==> labels[i] >= labels[j]
  }

  ghost predicate StrictlyAscending(labels: seq<real>) {
    forall i, j :: 0 <= i < j < |labels| ==> labels[i] < labels[j]
  }

  ghost predicate NonDecreasing(labels: seq<real>) {
    forall i, j :: 0 <= i < j < |labels| ==> labels[i] <= labels[j]
  }

  /** `price` occurs at two different rows. */
  ghost predicate Repeated(labels: seq<real>, price: real) {
    exists i, j :: 0 <= i < j < |labels| && labels[i] == price && labels[j] == price
  }

  /** How far `p` lies along the way from the price `from` to the price `to`. */
  function Fraction(p: real, from: real, to: real): real
    requires from != to
  {
    (p - from) / (to - from)
  }

  // ---- bracketing indices ----

  /** The last row priced at or above `p`, or -1. */
  function LastAtLeast(labels: seq<real>, p: real): (u: int)
    ensures -1 <= u < |labels|
    ensures u == -1 <==> forall k :: 0 <= k < |labels| ==> labels[k] < p
    ensures u >= 0 ==> labels[u] >= p && forall k :: u < k < |labels| ==> labels[k] < p
  {
    if labels == [] then -1
    else if labels[|labels| - 1] >= p then |labels| - 1
    else LastAtLeast(labels[..|labels| - 1], p)
  }

  /** The last row priced at or below `p`, or -1. */
  function LastAtMost(labels: seq<real>, p: real): (l: int)
    ensures -1 <= l < |labels|
    ensures l == -1 <==> forall k :: 0 <= k < |labels| ==> labels[k] > p
    ensures l >= 0 ==> labels[l] <= p && forall k :: l < k < |labels| ==> labels[k] > p
  {
    if labels == [] then -1
    else if labels[|labels| - 1] <= p then |labels| - 1
    else LastAtMost(labels[..|labels| - 1], p)
  }

  /** The first row priced at or below `p`, or -1. */
  function FirstAtMost(labels: seq<real>, p: real): (l: int)
    ensures -1 <= l < |labels|
    ensures l == -1 <==> forall k :: 0 <= k < |labels| ==> labels[k] > p
    ensures l >= 0 ==> labels[l] <= p && forall k :: 0 <= k < l ==> labels[k] > p
  {
    if labels == [] then -1
    else if labels[0] <= p then 0
    else
      var j := FirstAtMost(labels[1..], p);
      if j == -1 then -1 else j + 1
  }

  /** The first row priced at or above `p`, or -1. */
  function FirstAtLeast(labels: seq<real>, p: real): (u: int)
    ensures -1 <= u < |labels|
    ensures u == -1 <==> forall k :: 0 <= k < |labels| ==> labels[k] < p
    ensures u >= 0 ==> labels[u] >= p && forall k :: 0 <= k < u ==> labels[k] < p
  {
    if labels == [] then -1
    else if labels[0] >= p then 0
    else
      var j := FirstAtLeast(labels[1..], p);
      if j == -1 then -1 else j + 1
  }

  /** Any index with the characterisation of `LastAtLeast` is its result. */
  lemma IsLastAtLeast(labels: seq<real>, p: real, u: int)
    requires -1 <= u < |labels|
    requires u == -1 ==> forall k :: 0 <= k < |labels| ==> labels[k] < p
    requires u >= 0 ==> labels[u] >= p && forall k :: u < k < |labels| ==> labels[k] < p
    ensures u == LastAtLeast(labels, p)
  {
  }

  /** Any index with the characterisation of `LastAtMost` is its result. */
  lemma IsLastAtMost(labels: seq<real>, p: real, l: int)
    requires -1 <= l < |labels|
    requires l == -1 ==> forall k :: 0 <= k < |labels| ==> labels[k] > p
    requires l >= 0 ==> labels[l] <= p && forall k :: l < k < |labels| ==> labels[k] > p
    ensures l == LastAtMost(labels, p)
  {
  }

  /** Any index with the characterisation of `FirstAtMost` is its result. */
  lemma IsFirstAtMost(labels: seq<real>, p: real, l: int)
    requires -1 <= l < |labels|
    requires l == -1 ==> forall k :: 0 <= k < |labels| ==> labels[k] > p
    requires l >= 0 ==> labels[l] <= p && forall k :: 0 <= k < l ==> labels[k] > p
    ensures l == FirstAtMost(labels, p)
  {
  }

  /** Any index with the characterisation of `FirstAtLeast` is its result. */
  lemma IsFirstAtLeast(labels: seq<real>, p: real, u: int)
    requires -1 <= u < |labels|
    requires u == -1 ==> forall k :: 0 <= k < |labels| ==> labels[k] < p
    requires u >= 0 ==> labels[u] >= p && forall k :: 0 <= k < u ==> labels[k] < p
    ensures u == FirstAtLeast(labels, p)
  {
  }

  // ---- the descending variant (current overlay) ----

  /**
   * What `getInterpolatedYPos` computes: the sentinel for a falsy price or no
   * rows; otherwise, with `upper` the last row at or above the price and
   * `lower` the first row at or below it, the one that exists, or `upper`
   * when they coincide, or `upper` plus the price's fraction of the way to
   * `lower` — NaN when both rows carry the same price (`0 / 0`).
   */
  function YPos(price: Option<real>, labels: seq<real>): (r: Num)
    ensures !Truthy(price) || labels == [] ==> r == Sentinel
  {
    if !Truthy(price) || labels == [] then Sentinel
    else
      var p := price.value;
      var upper, lower := LastAtLeast(labels, p), FirstAtMost(labels, p);
      if upper == -1 && lower != -1 then Finite(lower as real)
      else if lower == -1 && upper != -1 then Finite(upper as real)
      else if upper == lower then Finite(upper as real)
      else if labels[lower] - labels[upper] == 0.0 then NaN
      else Finite(upper as real + Fraction(p, labels[upper], labels[lower]))
  }

  /** The loop of `getInterpolatedYPos`: one pass keeping the last row at or above `p` and the first at or below it. */
  method BracketDescending(p: real, labels: seq<real>) returns (upper: int, lower: int)
    ensures upper == LastAtLeast(labels, p) && lower == FirstAtMost(labels, p)
  {
    upper, lower := -1, -1;
    for i := 0 to |labels|
      invariant -1 <= upper < i && -1 <= lower < i
      invariant upper == -1 ==> forall k :: 0 <= k < i ==> labels[k] < p
      invariant upper >= 0 ==> labels[upper] >= p && forall k :: upper < k < i ==> labels[k] < p
      invariant lower == -1 ==> forall k :: 0 <= k < i ==> labels[k] > p
      invariant lower >= 0 ==> labels[lower] <= p && forall k :: 0 <= k < lower ==> labels[k] > p
    {
      if labels[i] >= p { upper := i; }
      if labels[i] <= p && lower == -1 { lower := i; }
    }
    IsLastAtLeast(labels, p, upper);
    IsFirstAtMost(labels, p, lower);
  }

  /** `getInterpolatedYPos`: bracket the price between two rows, then interpolate between them. */
  method GetInterpolatedYPos(price: Option<real>, labels: seq<real>) returns (r: Num)
    ensures r == YPos(price, labels)
  {
    if !Truthy(price) || |labels| == 0 {
      return Sentinel;
    }
    var p := price.value;
    var upper, lower := BracketDescending(p, labels);
    if upper == -1 && lower != -1 { return Finite(lower as real); }
    if lower == -1 && upper != -1 { return Finite(upper as real); }
    if upper == lower { return Finite(upper as real); }
    var upperPrice, lowerPrice := labels[upper], labels[lower];
    if lowerPrice - upperPrice == 0.0 {
      // JavaScript evaluates 0 / 0 to NaN, and NaN + index to NaN.
      return NaN;
    }
    var ratio := Fraction(p, upperPrice, lowerPrice);
    return Finite(upper as real + ratio);
  }

  /** On strictly descending rows, a price equal to row `i` lands exactly on `i`. */
  lemma YPosExactMatch(price: real, labels: seq<real>, i: nat)
    requires StrictlyDescending(labels)
    requires price != 0.0 && i < |labels| && labels[i] == price
    ensures YPos(Some(price), labels) == Finite(i as real)
  {
    assert LastAtLeast(labels, price) == i;
    assert FirstAtMost(labels, price) == i;
  }

  /** The interpolation fraction: a price strictly inside a gap lies strictly inside `(0, 1)` of it. */
  lemma GapFraction(near: real, far: real, p: real)
    requires near != far && (near < p < far || far < p < near)
    ensures Fraction(p, near, far) == (near - p) / (near - far)
    ensures 0.0 < Fraction(p, near, far) < 1.0
  {
    var x, d := p - near, far - near;
    var q := x / d;
    assert Fraction(p, near, far) == q;
    assert q * d == x;
    if d > 0.0 {
      assert 0.0 < x < d;
      assert q <= 0.0 ==> q * d <= 0.0;
      assert q >= 1.0 ==> q * d >= d;
    } else {
      assert d < x < 0.0;
      assert q <= 0.0 ==> q * d >= 0.0;
      assert q >= 1.0 ==> q * d <= d;
    }
  }

  /**
   * On strictly descending rows, a price strictly between rows `i` and `i + 1`
   * lands strictly between `i` and `i + 1`, at its fraction of the gap.
   */
  lemma YPosBetween(price: real, labels: seq<real>, i: nat)
    requires StrictlyDescending(labels)
    requires price != 0.0 && i + 1 < |labels| && labels[i] > price > labels[i + 1]
    ensures YPos(Some(price), labels) == Finite(i as real + (labels[i] - price) / (labels[i] - labels[i + 1]))
    ensures i as real < YPos(Some(price), labels).v < i as real + 1.0
  {
    var u, l := LastAtLeast(labels, price), FirstAtMost(labels, price);
    assert u == i;
    assert l == i + 1;
    var f := Fraction(price, labels[i], labels[i + 1]);
    GapFraction(labels[i], labels[i + 1], price);
    assert YPos(Some(price), labels) == Finite(i as real + f);
  }

  /** A price above every row goes to the top row; below every row, to the bottom row. */
  lemma YPosOutside(price: real, labels: seq<real>)
    requires price != 0.0 && labels != []
    ensures (forall k :: 0 <= k < |labels| ==> labels[k] < price) ==> YPos(Some(price), labels) == Finite(0.0)
    ensures (forall k :: 0 <= k < |labels| ==> labels[k] > price) ==>
              YPos(Some(price), labels) == Finite((|labels| - 1) as real)
  {
    if forall k :: 0 <= k < |labels| ==> labels[k] < price {
      assert labels[0] <= price;
    }
    if forall k :: 0 <= k < |labels| ==> labels[k] > price {
      assert labels[|labels| - 1] >= price;
    }
  }

  /** On non-increasing rows, a present price gives NaN exactly when it occurs at two rows. */
  lemma YPosNaNOnNonIncreasing(price: real, labels: seq<real>)
    requires NonIncreasing(labels)
    requires price != 0.0 && labels != []
    ensures YPos(Some(price), labels).NaN? <==> Repeated(labels, price)
  {
    var u, l := LastAtLeast(labels, price), FirstAtMost(labels, price);
    if Repeated(labels, price) {
      var i, j :| 0 <= i < j < |labels| && labels[i] == price && labels[j] == price;
      assert 0 <= l <= i && labels[l] >= labels[i];
      assert j <= u && labels[j] >= labels[u];
      assert labels[l] == labels[u] == price;
    }
    if YPos(Some(price), labels).NaN? {
      assert u != -1 && l != -1 && u != l && labels[l] == labels[u];
      assert labels[l] == price && labels[u] == price;
      assert l < u;
    }
  }

  /** On non-increasing rows, a present price that does not give NaN lands in `[0, n - 1]`. */
  lemma YPosRangeOnNonIncreasing(price: real, labels: seq<real>)
    requires NonIncreasing(labels)
    requires price != 0.0 && labels != []
    ensures YPos(Some(price), labels).Finite? ==> 0.0 <= YPos(Some(price), labels).v <= (|labels| - 1) as real
  {
    var u, l := LastAtLeast(labels, price), FirstAtMost(labels, price);
    if u != -1 && l != -1 && u != l && labels[l] != labels[u] {
      assert u < l;
      assert labels[l] <= price <= labels[u];
      var ratio := Fraction(price, labels[u], labels[l]);
      UnitFraction(labels[u], labels[l], price);
      assert YPos(Some(price), labels) == Finite(u as real + ratio);
    }
  }

  /** A price within a gap (ends included) is a fraction in `[0, 1]` of it. */
  lemma UnitFraction(near: real, far: real, p: real)
    requires near != far && (near <= p <= far || far <= p <= near)
    ensures 0.0 <= Fraction(p, near, far) <= 1.0
  {
    var x, d := p - near, far - near;
    var q := x / d;
    assert Fraction(p, near, far) == q;
    assert q * d == x;
    if d > 0.0 {
      assert 0.0 <= x <= d;
      assert q < 0.0 ==> q * d < 0.0;
      assert q > 1.0 ==> q * d > d;
    } else {
      assert d <= x <= 0.0;
      assert q < 0.0 ==> q * d > 0.0;
      assert q > 1.0 ==> q * d < d;
    }
  }

  /** Strictly descending rows never give NaN: every present price lands in `[0, n - 1]`. */
  lemma YPosInRange(price: real, labels: seq<real>)
    requires StrictlyDescending(labels)
    requires price != 0.0 && labels != []
    ensures YPos(Some(price), labels).Finite?
    ensures 0.0 <= YPos(Some(price), labels).v <= (|labels| - 1) as real
  {
    YPosNaNOnNonIncreasing(price, labels);
    YPosRangeOnNonIncreasing(price, labels);
    assert !Repeated(labels, price);
  }

  /**
   * Two rows at the same price as the level, as a payload with a repeated
   * strike produces, make the as-written lookup divide 0 by 0.
   */
  lemma YPosRepeatedStrikeIsNaN()
    ensures YPos(Some(5.0), [5.0, 5.0]) == NaN
  {
    assert LastAtLeast([5.0, 5.0], 5.0) == 1;
    assert FirstAtMost([5.0, 5.0], 5.0) == 0;
  }

  /** The lookup as evidently intended: rows carrying the same price collapse to the upper one. */
  function YPosGuarded(price: Option<real>, labels: seq<real>): (r: Num)
    ensures !Truthy(price) || labels == [] ==> r == Sentinel
    ensures YPos(price, labels).Finite? ==> r == YPos(price, labels)
  {
    match YPos(price, labels)
    case NaN => Finite(LastAtLeast(labels, price.value) as real)
    case Finite(v) => Finite(v)
  }

  /**
   * On the non-increasing rows the current overlay draws, the guarded lookup
   * always gives a position in `[0, n - 1]`, and a price that occurs among the
   * rows lands exactly on a row carrying it.
   */
  lemma YPosGuardedInRange(price: real, labels: seq<real>)
    requires NonIncreasing(labels)
    requires price != 0.0 && labels != []
    ensures YPosGuarded(Some(price), labels).Finite?
    ensures 0.0 <= YPosGuarded(Some(price), labels).v <= (|labels| - 1) as real
    ensures price in labels ==>
              exists i :: 0 <= i < |labels| && labels[i] == price && YPosGuarded(Some(price), labels) == Finite(i as real)
  {
    YPosNaNOnNonIncreasing(price, labels);
    YPosRangeOnNonIncreasing(price, labels);
    var u, l := LastAtLeast(labels, price), FirstAtMost(labels, price);
    if price in labels {
      var i :| 0 <= i < |labels| && labels[i] == price;
      assert l <= i <= u;
      assert labels[u] == price;
      assert YPosGuarded(Some(price), labels) == Finite(u as real) by {
        if l < u { assert labels[l] == labels[u]; }
      }
    }
  }

  // ---- the ascending variant (older overlay) ----

  /**
   * What `getInterpolatedPosition` computes: the sentinel for a falsy price or
   * no rows; otherwise, with `lower` the last row at or below the price and
   * `upper` the first row at or above it, the one that exists, or `lower`
   * when they coincide, or `lower` plus the price's fraction of the way to
   * `upper` — NaN when both rows carry the same price (`0 / 0`).
   */
  function Pos(price: Option<real>, labels: seq<real>): (r: Num)
    ensures !Truthy(price) || labels == [] ==> r == Sentinel
  {
    if !Truthy(price) || labels == [] then Sentinel
    else
      var p := price.value;
      var lower, upper := LastAtMost(labels, p), FirstAtLeast(labels, p);
      if lower == -1 && upper != -1 then Finite(upper as real)
      else if upper == -1 && lower != -1 then Finite(lower as real)
      else if lower == upper then Finite(lower as real)
      else if labels[upper] - labels[lower] == 0.0 then NaN
      else Finite(lower as real + Fraction(p, labels[lower], labels[upper]))
  }

  /** The loop of `getInterpolatedPosition`: one pass keeping the last row at or below `p` and the first at or above it. */
  method BracketAscending(p: real, labels: seq<real>) returns (lower: int, upper: int)
    ensures lower == LastAtMost(labels, p) && upper == FirstAtLeast(labels, p)
  {
    lower, upper := -1, -1;
    for i := 0 to |labels|
      invariant -1 <= lower < i && -1 <= upper < i
      invariant lower == -1 ==> forall k :: 0 <= k < i ==> labels[k] > p
      invariant lower >= 0 ==> labels[lower] <= p && forall k :: lower < k < i ==> labels[k] > p
      invariant upper == -1 ==> forall k :: 0 <= k < i ==> labels[k] < p
      invariant upper >= 0 ==> labels[upper] >= p && forall k :: 0 <= k < upper ==> labels[k] < p
    {
      if labels[i] <= p { lower := i; }
      if labels[i] >= p && upper == -1 { upper := i; }
    }
    IsLastAtMost(labels, p, lower);
    IsFirstAtLeast(labels, p, upper);
  }

  /** `getInterpolatedPosition`: bracket the price between two rows, then interpolate between them. */
  method GetInterpolatedPosition(price: Option<real>, labels: seq<real>) returns (r: Num)
    ensures r == Pos(price, labels)
  {
    if !Truthy(price) || |labels| == 0 {
      return Sentinel;
    }
    var p := price.value;
    var lower, upper := BracketAscending(p, labels);
    if lower == -1 && upper != -1 { return Finite(upper as real); }
    if upper == -1 && lower != -1 { return Finite(lower as real); }
    if lower == upper { return Finite(lower as real); }
    var lowerPrice, upperPrice := labels[lower], labels[upper];
    if upperPrice - lowerPrice == 0.0 {
      // JavaScript evaluates 0 / 0 to NaN, and index + NaN to NaN.
      return NaN;
    }
    var ratio := Fraction(p, lowerPrice, upperPrice);
    return Finite(lower as real + ratio);
  }

  /** On strictly ascending rows, a price equal to row `i` lands exactly on `i`. */
  lemma PosExactMatch(price: real, labels: seq<real>, i: nat)
    requires StrictlyAscending(labels)
    requires price != 0.0 && i < |labels| && labels[i] == price
    ensures Pos(Some(price), labels) == Finite(i as real)
  {
    assert LastAtMost(labels, price) == i;
    assert FirstAtLeast(labels, price) == i;
  }

  /**
   * On strictly ascending rows, a price strictly between rows `i` and `i + 1`
   * lands at `i + (price - labels[i]) / (labels[i + 1] - labels[i])`,
   * strictly between `i` and `i + 1`.
   */
  lemma PosBetween(price: real, labels: seq<real>, i: nat)
    requires StrictlyAscending(labels)
    requires price != 0.0 && i + 1 < |labels| && labels[i] < price < labels[i + 1]
    ensures Pos(Some(price), labels) == Finite(i as real + (price - labels[i]) / (labels[i + 1] - labels[i]))
    ensures i as real < Pos(Some(price), labels).v < i as real + 1.0
  {
    var l, u := LastAtMost(labels, price), FirstAtLeast(labels, price);
    assert l == i;
    assert u == i + 1;
    var f := Fraction(price, labels[i], labels[i + 1]);
    GapFraction(labels[i], labels[i + 1], price);
    assert Pos(Some(price), labels) == Finite(i as real + f);
  }

  /** A price below every row goes to the first row; above every row, to the last row. */
  lemma PosOutside(price: real, labels: seq<real>)
    requires price != 0.0 && labels != []
    ensures (forall k :: 0 <= k < |labels| ==> labels[k] > price) ==> Pos(Some(price), labels) == Finite(0.0)
    ensures (forall k :: 0 <= k < |labels| ==> labels[k] < price) ==>
              Pos(Some(price), labels) == Finite((|labels| - 1) as real)
  {
    if forall k :: 0 <= k < |labels| ==> labels[k] > price {
      assert labels[0] >= price;
    }
    if forall k :: 0 <= k < |labels| ==> labels[k] < price {
      assert labels[|labels| - 1] <= price;
    }
  }

  /** On non-decreasing rows, a present price gives NaN exactly when it occurs at two rows. */
  lemma PosNaNOnNonDecreasing(price: real, labels: seq<real>)
    requires NonDecreasing(labels)
    requires price != 0.0 && labels != []
    ensures Pos(Some(price), labels).NaN? <==> Repeated(labels, price)
  {
    var l, u := LastAtMost(labels, price), FirstAtLeast(labels, price);
    if Repeated(labels, price) {
      var i, j :| 0 <= i < j < |labels| && labels[i] == price && labels[j] == price;
      assert 0 <= u <= i && labels[u] <= labels[i];
      assert j <= l && labels[j] <= labels[l];
      assert labels[l] == labels[u] == price;
    }
    if Pos(Some(price), labels).NaN? {
      assert u != -1 && l != -1 && u != l && labels[l] == labels[u];
      assert labels[l] == price && labels[u] == price;
      assert u < l;
    }
  }

  /** On non-decreasing rows, a present price that does not give NaN lands in `[0, n - 1]`. */
  lemma PosRangeOnNonDecreasing(price: real, labels: seq<real>)
    requires NonDecreasing(labels)
    requires price != 0.0 && labels != []
    ensures Pos(Some(price), labels).Finite? ==> 0.0 <= Pos(Some(price), labels).v <= (|labels| - 1) as real
  {
    var l, u := LastAtMost(labels, price), FirstAtLeast(labels, price);
    if u != -1 && l != -1 && u != l && labels[l] != labels[u] {
      assert l < u;
      assert labels[l] <= price <= labels[u];
      var ratio := Fraction(price, labels[l], labels[u]);
      UnitFraction(labels[l], labels[u], price);
      assert Pos(Some(price), labels) == Finite(l as real + ratio);
    }
  }

  /** Strictly ascending rows never give NaN: every present price lands in `[0, n - 1]`. */
  lemma PosInRange(price: real, labels: seq<real>)
    requires StrictlyAscending(labels)
    requires price != 0.0 && labels != []
    ensures Pos(Some(price), labels).Finite?
    ensures 0.0 <= Pos(Some(price), labels).v <= (|labels| - 1) as real
  {
    PosNaNOnNonDecreasing(price, labels);
    PosRangeOnNonDecreasing(price, labels);
    assert !Repeated(labels, price);
  }

  /** The ascending lookup divides 0 by 0 on a repeated strike equal to the level, like its mirror. */
  lemma PosRepeatedStrikeIsNaN()
    ensures Pos(Some(5.0), [5.0, 5.0]) == NaN
  {
    assert LastAtMost([5.0, 5.0], 5.0) == 1;
    assert FirstAtLeast([5.0, 5.0], 5.0) == 0;
  }

  /** The ascending lookup as evidently intended: rows carrying the same price collapse to the lower one. */
  function PosGuarded(price: Option<real>, labels: seq<real>): (r: Num)
    ensures !Truthy(price) || labels == [] ==> r == Sentinel
    ensures Pos(price, labels).Finite? ==> r == Pos(price, labels)
  {
    match Pos(price, labels)
    case NaN => Finite(LastAtMost(labels, price.value) as real)
    case Finite(v) => Finite(v)
  }

  /**
   * On the non-decreasing rows the older overlay draws, the guarded lookup
   * always gives a position in `[0, n - 1]`, and a price that occurs among the
   * rows lands exactly on a row carrying it.
   */
  lemma PosGuardedInRange(price: real, labels: seq<real>)
    requires NonDecreasing(labels)
    requires price != 0.0 && labels != []
    ensures PosGuarded(Some(price), labels).Finite?
    ensures 0.0 <= PosGuarded(Some(price), labels).v <= (|labels| - 1) as real
    ensures price in labels ==>
              exists i :: 0 <= i < |labels| && labels[i] == price && PosGuarded(Some(price), labels) == Finite(i as real)
  {
    PosNaNOnNonDecreasing(price, labels);
    PosRangeOnNonDecreasing(price, labels);
    var l, u := LastAtMost(labels, price), FirstAtLeast(labels, price);
    if price in labels {
      var i :| 0 <= i < |labels| && labels[i] == price;
      assert u <= i <= l;
      assert labels[l] == price;
      assert PosGuarded(Some(price), labels) == Finite(l as real) by {
        if u < l { assert labels[l] == labels[u]; }
      }
    }
  }
}
