/**
 * The current overlay's data preparation (`prepareChartData`): drop rows
 * missing a price or a value, sort by price, keep the window around the
 * annotation levels, and hand the chart the prices and values in descending
 * price order.
 */
module ChartData {
  import opened Wrappers
  import opened Rows
  import opened Levels
  import opened StrikeWindow
  import Interpolation

  /** A strike row as received: either field may be null (a null row has neither). */
  datatype RawStrike = RawStrike(price: Option<real>, value: Option<real>)

  /** The fields of a gamma-exposure payload that shape the chart. */
  datatype GexPayload = GexPayload(
    strikes: Option<seq<RawStrike>>,
    spot: Option<real>,
    zeroGamma: Option<real>,
    majorPosVol: Option<real>,
    majorNegVol: Option<real>)

  /** What the chart draws: row prices top to bottom and the matching values. */
  datatype ChartSeries = ChartSeries(labels: seq<real>, classic: seq<real>)

  /** Strikes kept below and above the annotation range (hard-coded; the per-chart settings are not read). */
  const AnnotationMargin: nat := 2

  function PayloadLevels(p: GexPayload): seq<Option<real>> {
    CurrentLevels(p.spot, p.zeroGamma, p.majorPosVol, p.majorNegVol)
  }

  /** `filter(strike => strike && strike[0] != null && strike[1] != null)`. */
  function Complete(rows: seq<RawStrike>): (r: seq<Strike>)
    ensures |r| <= |rows|
    ensures forall x :: x in r <==> RawStrike(Some(x.price), Some(x.value)) in rows
  {
    if rows == [] then []
    else
      assert rows == [rows[0]] + rows[1..];
      var rest := Complete(rows[1..]);
      if rows[0].price.Some? && rows[0].value.Some? then
        [Row(rows[0].price.value, rows[0].value.value)] + rest
      else rest
  }

  /** Each complete row is kept as often as it occurs in the input: nothing is lost or invented. */
  lemma {:induction false} CompleteCounts(rows: seq<RawStrike>)
    ensures forall x :: multiset(Complete(rows))[x] == multiset(rows)[RawStrike(Some(x.price), Some(x.value))]
  {
    if rows != [] {
      CompleteCounts(rows[1..]);
      assert rows == [rows[0]] + rows[1..];
      assert multiset(rows) == multiset{rows[0]} + multiset(rows[1..]);
      var h := rows[0];
      if h.price.Some? && h.value.Some? {
        assert multiset(Complete(rows)) == multiset{Row(h.price.value, h.value.value)} + multiset(Complete(rows[1..]));
      } else {
        assert Complete(rows) == Complete(rows[1..]);
      }
    }
  }

  /** The complete rows in ascending price order, each kept as often as it occurs. */
  function SortedStrikes(rows: seq<RawStrike>): (r: seq<Strike>)
    ensures Ascending(r)
    ensures multiset(r) == multiset(Complete(rows))
    ensures forall x :: x in r <==> RawStrike(Some(x.price), Some(x.value)) in rows
  {
    SortByPriceCorrect(Complete(rows));
    SortByPriceMembers(Complete(rows));
    SortByPrice(Complete(rows))
  }

  /**
   * The strikes shown, ascending: with a truthy spot, the window around the
   * annotation range (or, were there no range, the spot split); otherwise all
   * of them.
   */
  function ShownStrikes(p: GexPayload, rows: seq<RawStrike>, barLevels: nat): seq<Strike> {
    var sorted := SortedStrikes(rows);
    if Truthy(p.spot) then
      match AnnotationRange(PayloadLevels(p))
      case Some(range) => AnnotationWindow(sorted, range.min, range.max, AnnotationMargin, AnnotationMargin)
      case None => SpotSplit(sorted, p.spot.value, barLevels)
    else sorted
  }

  function Reverse<T>(s: seq<T>): (r: seq<T>)
    ensures |r| == |s|
    ensures forall i :: 0 <= i < |s| ==> r[i] == s[|s| - 1 - i]
  {
    if s == [] then [] else Reverse(s[1..]) + [s[0]]
  }

  /** `prepareChartData`: null without a non-empty strike list, else the shown strikes reversed. */
  function PrepareChartData(gex: Option<GexPayload>, barLevels: nat): (r: Option<ChartSeries>)
    ensures r.None? <==> gex.None? || gex.value.strikes.None? || gex.value.strikes.value == []
    ensures r.Some? ==> |r.value.labels| == |r.value.classic|
  {
    if gex.None? || gex.value.strikes.None? || |gex.value.strikes.value| == 0 then None
    else
      var shown := ShownStrikes(gex.value, gex.value.strikes.value, barLevels);
      Some(ChartSeries(Reverse(Prices(shown)), Reverse(Values(shown))))
  }

  /** The shown strikes are ascending and every one of them is a complete input row. */
  lemma ShownStrikesAscending(p: GexPayload, rows: seq<RawStrike>, barLevels: nat)
    ensures Ascending(ShownStrikes(p, rows, barLevels))
    ensures forall x :: x in ShownStrikes(p, rows, barLevels) ==> RawStrike(Some(x.price), Some(x.value)) in rows
  {
    var sorted := SortedStrikes(rows);
    if Truthy(p.spot) {
      SpotGivesRange(PayloadLevels(p));
      var range := AnnotationRange(PayloadLevels(p)).value;
      WindowCoversRange(sorted, range.min, range.max, AnnotationMargin, AnnotationMargin);
      WindowMembers(sorted, range.min, range.max, AnnotationMargin, AnnotationMargin);
    }
  }

  /** Reversing the prices of an ascending run gives non-increasing labels. */
  lemma ReversedPricesNonIncreasing(shown: seq<Strike>)
    requires Ascending(shown)
    ensures Interpolation.NonIncreasing(Reverse(Prices(shown)))
  {
    var labels := Reverse(Prices(shown));
    forall i, j | 0 <= i < j < |labels| ensures labels[i] >= labels[j] {
      assert labels[i] == shown[|shown| - 1 - i].price;
      assert labels[j] == shown[|shown| - 1 - j].price;
    }
  }

  /**
   * The labels run in descending (non-increasing) price order, and each label
   * sits beside the value of a complete input row with that price.
   */
  lemma PrepareChartDataDescending(gex: Option<GexPayload>, barLevels: nat)
    requires gex.Some? && gex.value.strikes.Some? && gex.value.strikes.value != []
    ensures Interpolation.NonIncreasing(PrepareChartData(gex, barLevels).value.labels)
    ensures var s := PrepareChartData(gex, barLevels).value;
            forall j :: 0 <= j < |s.labels| ==> RawStrike(Some(s.labels[j]), Some(s.classic[j])) in gex.value.strikes.value
  {
    var rows := gex.value.strikes.value;
    var shown := ShownStrikes(gex.value, rows, barLevels);
    ShownStrikesAscending(gex.value, rows, barLevels);
    ReversedPricesNonIncreasing(shown);
    ReversedPairsAreRows(shown, rows);
    assert PrepareChartData(gex, barLevels).value == ChartSeries(Reverse(Prices(shown)), Reverse(Values(shown)));
  }

  /** Reversing keeps each label beside its own value, so every pair is still an input row. */
  lemma ReversedPairsAreRows(shown: seq<Strike>, rows: seq<RawStrike>)
    requires forall x :: x in shown ==> RawStrike(Some(x.price), Some(x.value)) in rows
    ensures var labels, classic := Reverse(Prices(shown)), Reverse(Values(shown));
            forall j :: 0 <= j < |labels| ==> RawStrike(Some(labels[j]), Some(classic[j])) in rows
  {
    var labels, classic := Reverse(Prices(shown)), Reverse(Values(shown));
    forall j | 0 <= j < |labels|
      ensures RawStrike(Some(labels[j]), Some(classic[j])) in rows
    {
      var x := shown[|shown| - 1 - j];
      assert x in shown;
      assert labels[j] == x.price && classic[j] == x.value;
    }
  }

  /** With a truthy spot the range always exists, and the shown strikes are its window. */
  lemma ShownStrikesWithSpot(gex: GexPayload, rows: seq<RawStrike>, barLevels: nat)
    requires Truthy(gex.spot)
    ensures AnnotationRange(PayloadLevels(gex)).Some?
    ensures var range := AnnotationRange(PayloadLevels(gex)).value;
            range.min <= range.max &&
            ShownStrikes(gex, rows, barLevels) ==
              AnnotationWindow(SortedStrikes(rows), range.min, range.max, AnnotationMargin, AnnotationMargin)
  {
    SpotGivesRange(PayloadLevels(gex));
  }

  /**
   * With a truthy spot the spot-split fallback is never taken: the shown
   * strikes are one contiguous run of the sorted complete rows that holds
   * every row priced within the annotation range, with at most 2 rows over
   * the range closing it and, when some row reaches the range's bottom, at
   * most 2 rows under it leading it.
   */
  lemma PrepareChartDataWindow(gex: GexPayload, barLevels: nat)
    requires gex.strikes.Some? && Truthy(gex.spot)
    ensures AnnotationRange(PayloadLevels(gex)).Some?
    ensures var sorted := SortedStrikes(gex.strikes.value);
            var range := AnnotationRange(PayloadLevels(gex)).value;
            var shown := ShownStrikes(gex, gex.strikes.value, barLevels);
            && (exists a, b :: 0 <= a <= b <= |sorted| && shown == sorted[a..b])
            && (forall x :: x in sorted && range.min <= x.price <= range.max ==> x in shown)
            && (forall j :: 0 <= j < |shown| && shown[j].price > range.max ==> |shown| - j <= AnnotationMargin)
            && ((exists x :: x in sorted && x.price >= range.min) ==>
                  forall j :: 0 <= j < |shown| && shown[j].price < range.min ==> j < AnnotationMargin)
  {
    var rows := gex.strikes.value;
    ShownStrikesWithSpot(gex, rows, barLevels);
    var range := AnnotationRange(PayloadLevels(gex)).value;
    WindowShape(SortedStrikes(rows), range.min, range.max, AnnotationMargin, AnnotationMargin);
  }

  /** Without a spot every complete row is shown, in descending price order. */
  lemma PrepareChartDataNoSpot(gex: GexPayload, barLevels: nat)
    requires gex.strikes.Some? && gex.strikes.value != [] && !Truthy(gex.spot)
    ensures var sorted := SortedStrikes(gex.strikes.value);
            PrepareChartData(Some(gex), barLevels) == Some(ChartSeries(Reverse(Prices(sorted)), Reverse(Values(sorted))))
  {
  }
}
