/**
 * Strike selection: which rows of the ascending-sorted strike list a chart
 * shows. Two rules exist: a window around the annotation range (the rule both
 * overlays use) and a split around spot (their unreachable fallback).
 */
module StrikeWindow {
  import opened Rows

  /** One strike row: its price and its gamma-exposure value. */
  type Strike = Row<real>

  /** `findIndex(s => s[0] >= bound)`: the first strike at or above `bound`, or -1. */
  function FirstAtLeast(s: seq<Strike>, bound: real): (i: int)
    ensures -1 <= i < |s|
    ensures i == -1 <==> forall k :: 0 <= k < |s| ==> s[k].price < bound
    ensures i >= 0 ==> s[i].price >= bound && forall k :: 0 <= k < i ==> s[k].price < bound
  {
    if s == [] then -1
    else if s[0].price >= bound then 0
    else
      var j := FirstAtLeast(s[1..], bound);
      if j == -1 then -1 else j + 1
  }

  /** `findIndex(s => s[0] > bound)`: the first strike strictly above `bound`, or -1. */
  function FirstAbove(s: seq<Strike>, bound: real): (i: int)
    ensures -1 <= i < |s|
    ensures i == -1 <==> forall k :: 0 <= k < |s| ==> s[k].price <= bound
    ensures i >= 0 ==> s[i].price > bound && forall k :: 0 <= k < i ==> s[k].price <= bound
  {
    if s == [] then -1
    else if s[0].price > bound then 0
    else
      var j := FirstAbove(s[1..], bound);
      if j == -1 then -1 else j + 1
  }

  /**
   * `startIndex = Math.max(0, minIndex - below)`: `below` strikes before the
   * first strike at or above `lo`, or the first strike when fewer exist.
   */
  function WindowStart(sorted: seq<Strike>, lo: real, below: nat): (a: nat)
    ensures a <= |sorted|
    ensures FirstAtLeast(sorted, lo) == -1 ==> a == 0
    ensures FirstAtLeast(sorted, lo) != -1 ==>
              a <= FirstAtLeast(sorted, lo) && FirstAtLeast(sorted, lo) - a <= below &&
              (a == 0 || FirstAtLeast(sorted, lo) - a == below)
  {
    var m := FirstAtLeast(sorted, lo);
    if m - below < 0 then 0 else m - below
  }

  /**
   * `endIndex`: the list's end when no strike lies above `hi`, otherwise
   * `above` strikes counted from the first one above `hi`, clamped to the end.
   */
  function WindowEnd(sorted: seq<Strike>, hi: real, above: nat): (b: nat)
    ensures b <= |sorted|
    ensures FirstAbove(sorted, hi) == -1 ==> b == |sorted|
    ensures FirstAbove(sorted, hi) != -1 ==>
              FirstAbove(sorted, hi) <= b && b - FirstAbove(sorted, hi) <= above &&
              (b == |sorted| || b - FirstAbove(sorted, hi) == above)
  {
    var m := FirstAbove(sorted, hi);
    if m == -1 then |sorted|
    else if |sorted| < m + above then |sorted| else m + above
  }

  /** `sortedStrikes.slice(startIndex, endIndex)`: empty when the start is past the end. */
  function AnnotationWindow(sorted: seq<Strike>, lo: real, hi: real, below: nat, above: nat): (r: seq<Strike>)
    ensures |r| <= |sorted|
  {
    var a, b := WindowStart(sorted, lo, below), WindowEnd(sorted, hi, above);
    if a <= b then sorted[a..b] else []
  }

  /** The window is the slice between its start and its end, which never cross. */
  lemma WindowIsSlice(sorted: seq<Strike>, lo: real, hi: real, below: nat, above: nat)
    requires Ascending(sorted) && lo <= hi
    ensures var a, b := WindowStart(sorted, lo, below), WindowEnd(sorted, hi, above);
            a <= b && AnnotationWindow(sorted, lo, hi, below, above) == sorted[a..b]
  {
    var m, n := FirstAtLeast(sorted, lo), FirstAbove(sorted, hi);
    if n != -1 {
      assert sorted[n].price >= lo;
      assert 0 <= m <= n;
    }
  }

  /** Every strike of a slice comes from the list it is cut from. */
  lemma SliceMembers(s: seq<Strike>, a: nat, b: nat)
    requires a <= b <= |s|
    ensures forall x :: x in s[a..b] ==> x in s
  {
    forall x | x in s[a..b] ensures x in s {
      var i :| 0 <= i < b - a && s[a..b][i] == x;
      assert s[a..b][i] == s[a + i];
    }
  }

  /** Every strike in the window comes from the sorted list. */
  lemma WindowMembers(sorted: seq<Strike>, lo: real, hi: real, below: nat, above: nat)
    requires Ascending(sorted) && lo <= hi
    ensures forall x :: x in AnnotationWindow(sorted, lo, hi, below, above) ==> x in sorted
  {
    WindowIsSlice(sorted, lo, hi, below, above);
    SliceMembers(sorted, WindowStart(sorted, lo, below), WindowEnd(sorted, hi, above));
  }

  /**
   * The window is one contiguous run of the sorted strikes, and it holds every
   * strike priced within the annotation range.
   */
  lemma WindowCoversRange(sorted: seq<Strike>, lo: real, hi: real, below: nat, above: nat)
    requires Ascending(sorted) && lo <= hi
    ensures var a, b := WindowStart(sorted, lo, below), WindowEnd(sorted, hi, above);
            a <= b && AnnotationWindow(sorted, lo, hi, below, above) == sorted[a..b]
    ensures var a, b := WindowStart(sorted, lo, below), WindowEnd(sorted, hi, above);
            forall i :: 0 <= i < |sorted| && lo <= sorted[i].price <= hi ==> a <= i < b
    ensures Ascending(AnnotationWindow(sorted, lo, hi, below, above))
  {
    WindowIsSlice(sorted, lo, hi, below, above);
    SliceAscending(sorted, WindowStart(sorted, lo, below), WindowEnd(sorted, hi, above));
    forall i | 0 <= i < |sorted| && lo <= sorted[i].price <= hi
      ensures WindowStart(sorted, lo, below) <= i < WindowEnd(sorted, hi, above)
    {
      InRangeInWindow(sorted, lo, hi, below, above, i);
    }
  }

  /** A slice of an ascending list ascends. */
  lemma SliceAscending(s: seq<Strike>, a: nat, b: nat)
    requires Ascending(s) && a <= b <= |s|
    ensures Ascending(s[a..b])
  {
    var r := s[a..b];
    forall i, j | 0 <= i < j < |r| ensures r[i].price <= r[j].price {
      assert r[i] == s[a + i] && r[j] == s[a + j];
    }
  }

  /** A strike priced within the range lies between the window's start and end. */
  lemma InRangeInWindow(sorted: seq<Strike>, lo: real, hi: real, below: nat, above: nat, i: nat)
    requires Ascending(sorted) && i < |sorted| && lo <= sorted[i].price <= hi
    ensures WindowStart(sorted, lo, below) <= i < WindowEnd(sorted, hi, above)
  {
    var m, n := FirstAtLeast(sorted, lo), FirstAbove(sorted, hi);
    assert m != -1 && m <= i;
    if n != -1 {
      assert sorted[i].price < sorted[n].price;
    }
  }



  /** Strikes of `sorted[a..b]` over `hi` lie within `above` of its end, `b` being the window's end. */
  lemma AboveMargin(sorted: seq<Strike>, hi: real, above: nat, a: nat, b: nat)
    requires a <= b == WindowEnd(sorted, hi, above)
    ensures forall j :: 0 <= j < b - a && sorted[a..b][j].price > hi ==> b - a - j <= above
  {
    var n := FirstAbove(sorted, hi);
    forall j | 0 <= j < b - a && sorted[a..b][j].price > hi ensures b - a - j <= above {
      assert sorted[a..b][j] == sorted[a + j];
      assert n != -1 && n <= a + j;
    }
  }

  /** On ascending strikes, those of `sorted[a..b]` under `lo` lie within `below` of its start `a`, the window's start. */
  lemma BelowMargin(sorted: seq<Strike>, lo: real, below: nat, a: nat, b: nat)
    requires Ascending(sorted) && FirstAtLeast(sorted, lo) != -1
    requires WindowStart(sorted, lo, below) == a <= b <= |sorted|
    ensures forall j :: 0 <= j < b - a && sorted[a..b][j].price < lo ==> j < below
  {
    var m := FirstAtLeast(sorted, lo);
    forall j | 0 <= j < b - a && sorted[a..b][j].price < lo ensures j < below {
      assert sorted[a..b][j] == sorted[a + j];
      assert sorted[m].price >= lo;
      assert a + j < m;
    }
  }

  /**
   * At most `below` shown strikes lie under the range (they lead the window),
   * and at most `above` lie over it (they close it) — provided some strike
   * reaches the range's bottom.
   */
  lemma WindowMargins(sorted: seq<Strike>, lo: real, hi: real, below: nat, above: nat)
    requires Ascending(sorted) && lo <= hi
    ensures var r := AnnotationWindow(sorted, lo, hi, below, above);
            FirstAtLeast(sorted, lo) != -1 ==> forall j :: 0 <= j < |r| && r[j].price < lo ==> j < below
    ensures var r := AnnotationWindow(sorted, lo, hi, below, above);
            forall j :: 0 <= j < |r| && r[j].price > hi ==> |r| - j <= above
  {
    WindowIsSlice(sorted, lo, hi, below, above);
    var a, b := WindowStart(sorted, lo, below), WindowEnd(sorted, hi, above);
    AboveMargin(sorted, hi, above, a, b);
    if FirstAtLeast(sorted, lo) != -1 {
      BelowMargin(sorted, lo, below, a, b);
    }
  }

  /** An element of a list at an index inside a slice belongs to that slice. */
  lemma InSlice(s: seq<Strike>, a: nat, b: nat, i: nat)
    requires a <= i < b <= |s|
    ensures s[i] in s[a..b]
  {
    assert s[a..b][i - a] == s[i];
  }

  /** The window holds every strike of the list priced within the range, and nothing else from outside the list. */
  lemma WindowCoversMembers(sorted: seq<Strike>, lo: real, hi: real, below: nat, above: nat)
    requires Ascending(sorted) && lo <= hi
    ensures var r := AnnotationWindow(sorted, lo, hi, below, above);
            forall x :: x in sorted && lo <= x.price <= hi ==> x in r
    ensures exists a, b :: 0 <= a <= b <= |sorted| && AnnotationWindow(sorted, lo, hi, below, above) == sorted[a..b]
  {
    WindowCoversRange(sorted, lo, hi, below, above);
    var a, b := WindowStart(sorted, lo, below), WindowEnd(sorted, hi, above);
    var r := AnnotationWindow(sorted, lo, hi, below, above);
    assert a <= b && r == sorted[a..b];
    forall x | x in sorted && lo <= x.price <= hi ensures x in r {
      var i :| 0 <= i < |sorted| && sorted[i] == x;
      InSlice(sorted, a, b, i);
    }
  }

  /**
   * The window's shape in terms of its members: a contiguous run holding every
   * strike within the range, at most `above` strikes over the range, and, when
   * some strike reaches the range's bottom, at most `below` under it.
   */
  lemma WindowShape(sorted: seq<Strike>, lo: real, hi: real, below: nat, above: nat)
    requires Ascending(sorted) && lo <= hi
    ensures var r := AnnotationWindow(sorted, lo, hi, below, above);
            && (exists a, b :: 0 <= a <= b <= |sorted| && r == sorted[a..b])
            && (forall x :: x in sorted && lo <= x.price <= hi ==> x in r)
            && (forall j :: 0 <= j < |r| && r[j].price > hi ==> |r| - j <= above)
            && ((exists x :: x in sorted && x.price >= lo) ==> forall j :: 0 <= j < |r| && r[j].price < lo ==> j < below)
  {
    WindowCoversMembers(sorted, lo, hi, below, above);
    WindowMargins(sorted, lo, hi, below, above);
    if exists x :: x in sorted && x.price >= lo {
      var x :| x in sorted && x.price >= lo;
      var i :| 0 <= i < |sorted| && sorted[i] == x;
      assert FirstAtLeast(sorted, lo) != -1;
    }
  }

  /** When no strike reaches the range's bottom, the whole sorted list is shown. */
  lemma WindowWhenNothingReachesRange(sorted: seq<Strike>, lo: real, hi: real, below: nat, above: nat)
    requires lo <= hi
    requires FirstAtLeast(sorted, lo) == -1
    ensures AnnotationWindow(sorted, lo, hi, below, above) == sorted
  {
    assert FirstAbove(sorted, hi) == -1 by {
      forall k | 0 <= k < |sorted| ensures sorted[k].price <= hi {
        assert sorted[k].price < lo;
      }
    }
  }

  // ---- the spot split fallback ----

  /** `filter(strike => strike[0] < spot)`. */
  function Below(s: seq<Strike>, spot: real): (r: seq<Strike>)
    ensures |r| <= |s|
    ensures forall i :: 0 <= i < |r| ==> r[i].price < spot
  {
    if s == [] then []
    else
      assert s == [s[0]] + s[1..];
      if s[0].price < spot then [s[0]] + Below(s[1..], spot) else Below(s[1..], spot)
  }

  /** `filter(strike => strike[0] >= spot)`. */
  function AtOrAbove(s: seq<Strike>, spot: real): (r: seq<Strike>)
    ensures |r| <= |s|
    ensures forall i :: 0 <= i < |r| ==> r[i].price >= spot
  {
    if s == [] then []
    else
      assert s == [s[0]] + s[1..];
      if s[0].price >= spot then [s[0]] + AtOrAbove(s[1..], spot) else AtOrAbove(s[1..], spot)
  }

  /** The two filters split the list: each strike lands in exactly the part its price selects. */
  lemma {:induction false} SplitMembers(s: seq<Strike>, spot: real)
    ensures forall x :: x in Below(s, spot) <==> x in s && x.price < spot
    ensures forall x :: x in AtOrAbove(s, spot) <==> x in s && x.price >= spot
  {
    if s != [] {
      assert s == [s[0]] + s[1..];
      SplitMembers(s[1..], spot);
    }
  }

  /**
   * `slice(-k)`: the last `k` elements, or all of them when fewer exist. For
   * `k == 0` JavaScript reads `-0` as `0` and returns the whole array.
   */
  function TakeLast<T>(s: seq<T>, k: nat): (r: seq<T>)
    ensures k == 0 || k >= |s| ==> r == s
    ensures 0 < k < |s| ==> |r| == k
    ensures r == s[|s| - |r|..]
  {
    if k == 0 || k >= |s| then s else s[|s| - k..]
  }

  /** `slice(0, k)`: the first `k` elements, or all of them when fewer exist. */
  function TakeFirst<T>(s: seq<T>, k: nat): (r: seq<T>)
    ensures |r| == if k < |s| then k else |s|
    ensures r == s[..|r|]
  {
    if k >= |s| then s else s[..k]
  }

  /** The fallback: the `k` highest strikes under spot, then the `k` lowest at or above it. */
  function SpotSplit(sorted: seq<Strike>, spot: real, k: nat): (r: seq<Strike>)
    ensures forall x :: x in r ==> x in sorted
  {
    SplitMembers(sorted, spot);
    TakeLast(Below(sorted, spot), k) + TakeFirst(AtOrAbove(sorted, spot), k)
  }

  /** On an ascending list, the strikes under spot are a prefix and the rest the matching suffix. */
  lemma {:induction false} BelowIsPrefix(s: seq<Strike>, spot: real)
    requires Ascending(s)
    ensures var j := |Below(s, spot)|;
            j <= |s| && Below(s, spot) == s[..j] && AtOrAbove(s, spot) == s[j..]
  {
    if s != [] {
      var t := s[1..];
      assert Ascending(t) by {
        forall i, k | 0 <= i < k < |t| ensures t[i].price <= t[k].price {
          assert t[i] == s[i + 1] && t[k] == s[k + 1];
        }
      }
      BelowIsPrefix(t, spot);
      var j' := |Below(t, spot)|;
      if s[0].price >= spot {
        assert forall i :: 0 <= i < |t| ==> t[i].price >= spot by {
          forall i | 0 <= i < |t| ensures t[i].price >= spot {
            assert t[i] == s[i + 1];
          }
        }
        NoneBelow(t, spot);
        assert Below(s, spot) == [];
        assert AtOrAbove(s, spot) == [s[0]] + t;
      } else {
        assert Below(s, spot) == [s[0]] + t[..j'];
        assert AtOrAbove(s, spot) == t[j'..];
        assert s[..j' + 1] == [s[0]] + t[..j'];
        assert s[j' + 1..] == t[j'..];
      }
    }
  }

  /** When every strike is at or above spot, none is below it. */
  lemma {:induction false} NoneBelow(s: seq<Strike>, spot: real)
    requires forall i :: 0 <= i < |s| ==> s[i].price >= spot
    ensures Below(s, spot) == []
  {
    if s != [] {
      NoneBelow(s[1..], spot);
    }
  }

  /** On an ascending list, exactly the strikes before index `|Below(s, spot)|` lie under spot. */
  lemma BelowIndex(s: seq<Strike>, spot: real)
    requires Ascending(s)
    ensures forall i :: 0 <= i < |s| ==> (s[i].price < spot <==> i < |Below(s, spot)|)
  {
    BelowIsPrefix(s, spot);
    var j := |Below(s, spot)|;
    forall i | 0 <= i < |s| ensures s[i].price < spot <==> i < j {
      if i < j {
        assert s[i] == Below(s, spot)[i];
      } else {
        assert s[i] == AtOrAbove(s, spot)[i - j];
      }
    }
  }

  /** Where the fallback starts: `k` places before index `j`, or 0 (always 0 when `k == 0`). */
  function LowStart(j: nat, k: nat): (a: nat)
    ensures a <= j
    ensures k > 0 ==> j - a <= k
  {
    if k == 0 || j < k then 0 else j - k
  }

  /** Where the fallback ends: `k` places after index `j`, clamped to `n`. */
  function HighEnd(n: nat, j: nat, k: nat): (b: nat)
    requires j <= n
    ensures j <= b <= n && b - j <= k
  {
    if n < j + k then n else j + k
  }

  /** `TakeLast` of a prefix is a slice ending where the prefix ends. */
  lemma TakeLastOfPrefix<T>(s: seq<T>, j: nat, k: nat)
    requires j <= |s|
    ensures TakeLast(s[..j], k) == s[LowStart(j, k)..j]
  {
  }

  /** `TakeFirst` of a suffix is a slice starting where the suffix starts. */
  lemma TakeFirstOfSuffix<T>(s: seq<T>, j: nat, k: nat)
    requires j <= |s|
    ensures TakeFirst(s[j..], k) == s[j..HighEnd(|s|, j, k)]
  {
  }

  /** Taking from both sides of a cut at `j` gives one slice around `j`. */
  lemma TakeAroundCut<T>(s: seq<T>, j: nat, k: nat)
    requires j <= |s|
    ensures TakeLast(s[..j], k) + TakeFirst(s[j..], k) == s[LowStart(j, k)..HighEnd(|s|, j, k)]
  {
    TakeLastOfPrefix(s, j, k);
    TakeFirstOfSuffix(s, j, k);
    var a, b := LowStart(j, k), HighEnd(|s|, j, k);
    assert s[a..b] == s[a..j] + s[j..b];
  }

  /**
   * On an ascending list the fallback is one contiguous run of the sorted
   * strikes: it reaches `k` places below the first strike at or above spot and
   * `k` places from it (fewer where the list ends; with `k == 0` the lower
   * part is every strike under spot).
   */
  lemma SpotSplitContiguous(sorted: seq<Strike>, spot: real, k: nat)
    requires Ascending(sorted)
    ensures var j := |Below(sorted, spot)|;
            j <= |sorted| &&
            |TakeLast(Below(sorted, spot), k)| == j - LowStart(j, k) &&
            SpotSplit(sorted, spot, k) == sorted[LowStart(j, k)..HighEnd(|sorted|, j, k)]
  {
    BelowIsPrefix(sorted, spot);
    var j := |Below(sorted, spot)|;
    TakeLastOfPrefix(sorted, j, k);
    TakeAroundCut(sorted, j, k);
  }

  /** The fallback lists the strikes under spot first and those at or above it after. */
  lemma SpotSplitOrder(sorted: seq<Strike>, spot: real, k: nat)
    requires Ascending(sorted)
    ensures var r := SpotSplit(sorted, spot, k);
            forall i :: 0 <= i < |r| ==> (r[i].price < spot <==> i < |TakeLast(Below(sorted, spot), k)|)
  {
    SpotSplitContiguous(sorted, spot, k);
    BelowIndex(sorted, spot);
    var j := |Below(sorted, spot)|;
    var a := LowStart(j, k);
    var r := SpotSplit(sorted, spot, k);
    forall i | 0 <= i < |r| ensures r[i].price < spot <==> i < j - a {
      assert r[i] == sorted[a + i];
    }
  }

  /** The fallback stays ascending and, for `k > 0`, holds at most `2k` strikes. */
  lemma SpotSplitShape(sorted: seq<Strike>, spot: real, k: nat)
    requires Ascending(sorted)
    ensures Ascending(SpotSplit(sorted, spot, k))
    ensures k > 0 ==> |SpotSplit(sorted, spot, k)| <= 2 * k
  {
    SpotSplitContiguous(sorted, spot, k);
  }

  // ---- what the chart draws from the shown strikes ----

  /** `map(strike => strike[0])`. */
  function Prices(s: seq<Strike>): (r: seq<real>)
    ensures |r| == |s| && forall i :: 0 <= i < |s| ==> r[i] == s[i].price
  {
    seq(|s|, i requires 0 <= i < |s| => s[i].price)
  }

  /** `map(strike => strike[1])`. */
  function Values(s: seq<Strike>): (r: seq<real>)
    ensures |r| == |s| && forall i :: 0 <= i < |s| ==> r[i] == s[i].value
  {
    seq(|s|, i requires 0 <= i < |s| => s[i].value)
  }
}
