/**
 * The older overlay's data step (`createChart` / `updateChartData`): sort the
 * strikes, keep a window of 5 strikes around the six annotation levels (or,
 * were there no level, 15 strikes each side of spot), and align the state
 * source's per-price values with the shown prices. Also the module state it
 * runs on: the last payloads received and the chart built from them.
 */
module OldChartData {
  import opened Wrappers
  import opened Rows
  import opened Levels
  import opened StrikeWindow
  import opened AxisScale
  import opened Interpolation

  /** A gamma-exposure payload of the older overlay; its strike rows are taken as they come. */
  datatype OldGexPayload = OldGexPayload(
    strikes: Option<seq<Strike>>,
    spot: Option<real>,
    zeroGamma: Option<real>,
    majorPosVol: Option<real>,
    majorNegVol: Option<real>)

  /** A state-source contract row: element 0 is its price, element 3 its value (possibly absent). */
  type MiniContract = Row<Option<real>>

  /** The fields of a state payload the chart reads. */
  datatype StatePayload = StatePayload(
    miniContracts: Option<seq<MiniContract>>,
    majorLongGamma: Option<real>,
    majorShortGamma: Option<real>)

  /** What the chart draws: prices bottom to top, their values, and the aligned state values. */
  datatype OldChartSeries = OldChartSeries(labels: seq<real>, classic: seq<real>, state: seq<real>)

  /** Strikes kept below and above the annotation range. */
  const OldAnnotationMargin: nat := 5
  /** Strikes kept on each side of spot in the fallback. */
  const FallbackLevels: nat := 15

  /** `gexData && gexData.strikes && gexData.strikes.length > 0`. */
  predicate HasStrikes(gex: Option<OldGexPayload>) {
    gex.Some? && gex.value.strikes.Some? && |gex.value.strikes.value| > 0
  }

  /** `stateData && stateData.mini_contracts && stateData.mini_contracts.length > 0`. */
  predicate HasContracts(state: Option<StatePayload>) {
    state.Some? && state.value.miniContracts.Some? && |state.value.miniContracts.value| > 0
  }

  /** The six levels: the payload's four, then `stateData?.major_long_gamma` and `stateData?.major_short_gamma`. */
  function OldPayloadLevels(gex: OldGexPayload, state: Option<StatePayload>): seq<Option<real>> {
    OldLevels(gex.spot, gex.zeroGamma, gex.majorPosVol, gex.majorNegVol,
              if state.Some? then state.value.majorLongGamma else None,
              if state.Some? then state.value.majorShortGamma else None)
  }

  // ---- the state map ----

  /** `stateMap` after `forEach(strike => stateMap.set(strike[0], strike[3]))`: later rows overwrite earlier ones. */
  function StateMapOf(contracts: seq<MiniContract>): map<real, Option<real>> {
    if contracts == [] then map[]
    else
      var last := contracts[|contracts| - 1];
      StateMapOf(contracts[..|contracts| - 1])[last.price := last.value]
  }

  /** Builds the map with one pass over the sorted contracts. */
  method BuildStateMap(contracts: seq<MiniContract>) returns (m: map<real, Option<real>>)
    ensures m == StateMapOf(contracts)
  {
    m := map[];
    for i := 0 to |contracts|
      invariant m == StateMapOf(contracts[..i])
    {
      assert contracts[..i + 1][..i] == contracts[..i];
      m := m[contracts[i].price := contracts[i].value];
    }
    assert contracts[..|contracts|] == contracts;
  }

  /** The last row priced `k`, or -1. */
  function LastPriced(contracts: seq<MiniContract>, k: real): (j: int)
    ensures -1 <= j < |contracts|
    ensures j == -1 <==> forall i :: 0 <= i < |contracts| ==> contracts[i].price != k
    ensures j >= 0 ==> contracts[j].price == k && forall i :: j < i < |contracts| ==> contracts[i].price != k
  {
    if contracts == [] then -1
    else if contracts[|contracts| - 1].price == k then |contracts| - 1
    else LastPriced(contracts[..|contracts| - 1], k)
  }

  /** A price is in the map exactly when some row carries it, and it maps to the last such row's value. */
  lemma {:induction false} StateMapLastWins(contracts: seq<MiniContract>, k: real)
    ensures k in StateMapOf(contracts) <==> LastPriced(contracts, k) != -1
    ensures LastPriced(contracts, k) != -1 ==> StateMapOf(contracts)[k] == contracts[LastPriced(contracts, k)].value
  {
    if contracts != [] {
      var init := contracts[..|contracts| - 1];
      StateMapLastWins(init, k);
      if contracts[|contracts| - 1].price != k {
        assert LastPriced(contracts, k) == LastPriced(init, k);
        if LastPriced(init, k) != -1 {
          assert contracts[LastPriced(init, k)] == init[LastPriced(init, k)];
        }
      }
    }
  }

  /** `stateMap.get(price) || 0`: the mapped value, or 0 when the price is unmapped or its value absent or zero. */
  function StateValue(m: map<real, Option<real>>, price: real): real {
    if price in m && m[price].Some? then m[price].value else 0.0
  }

  function Zeros(n: nat): (r: seq<real>)
    ensures |r| == n && forall i :: 0 <= i < n ==> r[i] == 0.0
  {
    seq(n, i => 0.0)
  }

  /** The state series: each shown price's value in the map of the sorted contracts, or zeros without contracts. */
  function StateSeries(labels: seq<real>, state: Option<StatePayload>): (r: seq<real>)
    ensures |r| == |labels|
  {
    if HasContracts(state) then
      var m := StateMapOf(SortByPrice(state.value.miniContracts.value));
      seq(|labels|, i requires 0 <= i < |labels| => StateValue(m, labels[i]))
    else Zeros(|labels|)
  }

  /**
   * Each state value belongs to the shown price beside it: it is the value of
   * the last contract with exactly that price in sorted order (0 when that
   * value is absent or zero), and 0 when no contract has that price.
   */
  lemma StateSeriesAligned(labels: seq<real>, state: Option<StatePayload>)
    requires HasContracts(state)
    ensures var sorted := SortByPrice(state.value.miniContracts.value);
            var r := StateSeries(labels, state);
            forall i :: 0 <= i < |labels| ==>
              var j := LastPriced(sorted, labels[i]);
              (j == -1 ==> r[i] == 0.0) &&
              (j != -1 ==> r[i] == if sorted[j].value.Some? then sorted[j].value.value else 0.0)
    ensures var r := StateSeries(labels, state);
            forall i :: 0 <= i < |labels| && r[i] != 0.0 ==>
              exists c :: c in state.value.miniContracts.value && c.price == labels[i] && c.value == Some(r[i])
  {
    var contracts := state.value.miniContracts.value;
    var sorted := SortByPrice(contracts);
    SortByPriceMembers(contracts);
    var r := StateSeries(labels, state);
    forall i | 0 <= i < |labels|
      ensures var j := LastPriced(sorted, labels[i]);
              (j == -1 ==> r[i] == 0.0) &&
              (j != -1 ==> r[i] == if sorted[j].value.Some? then sorted[j].value.value else 0.0)
      ensures r[i] != 0.0 ==> exists c :: c in contracts && c.price == labels[i] && c.value == Some(r[i])
    {
      StateMapLastWins(sorted, labels[i]);
      var j := LastPriced(sorted, labels[i]);
      if r[i] != 0.0 {
        assert j != -1;
        assert sorted[j] in contracts;
      }
    }
  }

  /** Without contracts, or where none has a shown price, the state value is 0. */
  lemma StateSeriesZeros(labels: seq<real>, state: Option<StatePayload>)
    ensures !HasContracts(state) ==> forall i :: 0 <= i < |labels| ==> StateSeries(labels, state)[i] == 0.0
    ensures HasContracts(state) ==>
              forall i :: 0 <= i < |labels| && (forall c :: c in state.value.miniContracts.value ==> c.price != labels[i]) ==>
                StateSeries(labels, state)[i] == 0.0
  {
    if HasContracts(state) {
      StateSeriesAligned(labels, state);
    }
  }

  // ---- the series ----

  /** The strikes shown, ascending: the window around the range (or the spot split) with a truthy spot, all otherwise. */
  function ShownOldStrikes(gex: OldGexPayload, state: Option<StatePayload>): seq<Strike>
    requires gex.strikes.Some?
  {
    var sorted := SortByPrice(gex.strikes.value);
    if Truthy(gex.spot) then
      match AnnotationRange(OldPayloadLevels(gex, state))
      case Some(range) => AnnotationWindow(sorted, range.min, range.max, OldAnnotationMargin, OldAnnotationMargin)
      case None => SpotSplit(sorted, gex.spot.value, FallbackLevels)
    else sorted
  }

  /**
   * The chart data `createChart` builds (and `updateChartData` rebuilds):
   * empty without strikes; otherwise the shown prices and values, and the
   * state values aligned to them (all zero without a spot).
   */
  function OldSeriesOf(gex: Option<OldGexPayload>, state: Option<StatePayload>): (s: OldChartSeries)
    ensures |s.labels| == |s.classic| == |s.state|
    ensures !HasStrikes(gex) ==> s == OldChartSeries([], [], [])
  {
    if HasStrikes(gex) then
      var shown := ShownOldStrikes(gex.value, state);
      var labels := Prices(shown);
      OldChartSeries(labels, Values(shown),
                     if Truthy(gex.value.spot) then StateSeries(labels, state) else Zeros(|labels|))
    else OldChartSeries([], [], [])
  }

  /** The shown strikes are ascending and each is a row of the payload. */
  lemma ShownOldStrikesAscending(gex: OldGexPayload, state: Option<StatePayload>)
    requires gex.strikes.Some?
    ensures Ascending(ShownOldStrikes(gex, state))
    ensures forall x :: x in ShownOldStrikes(gex, state) ==> x in gex.strikes.value
  {
    var sorted := SortByPrice(gex.strikes.value);
    SortByPriceMembers(gex.strikes.value);
    var shown := ShownOldStrikes(gex, state);
    if Truthy(gex.spot) {
      SpotGivesRange(OldPayloadLevels(gex, state));
      var range := AnnotationRange(OldPayloadLevels(gex, state)).value;
      assert shown == AnnotationWindow(sorted, range.min, range.max, OldAnnotationMargin, OldAnnotationMargin);
      WindowCoversRange(sorted, range.min, range.max, OldAnnotationMargin, OldAnnotationMargin);
      WindowMembers(sorted, range.min, range.max, OldAnnotationMargin, OldAnnotationMargin);
    } else {
      assert shown == sorted;
      forall x | x in shown ensures x in gex.strikes.value {
        var rows := gex.strikes.value;
        SortByPriceCorrect(rows);
        assert x in multiset(SortByPrice(rows));
      }
    }
  }

  /** The labels ascend, and each label sits beside the value of a payload row with that price. */
  lemma OldSeriesAscending(gex: Option<OldGexPayload>, state: Option<StatePayload>)
    requires HasStrikes(gex)
    ensures NonDecreasing(OldSeriesOf(gex, state).labels)
    ensures var s := OldSeriesOf(gex, state);
            forall i :: 0 <= i < |s.labels| ==> Row(s.labels[i], s.classic[i]) in gex.value.strikes.value
  {
    var shown := ShownOldStrikes(gex.value, state);
    ShownOldStrikesAscending(gex.value, state);
    var s := OldSeriesOf(gex, state);
    forall i | 0 <= i < |s.labels| ensures Row(s.labels[i], s.classic[i]) in gex.value.strikes.value {
      assert Row(s.labels[i], s.classic[i]) == shown[i];
    }
  }

  /**
   * With a truthy spot the fallback is never taken: the shown strikes are one
   * contiguous run of the sorted strikes holding every strike within the
   * six-level range, with at most 5 over the range and, when some strike
   * reaches the range's bottom, at most 5 under it; the state series is the
   * aligned one.
   */
  lemma OldSeriesWindow(gex: Option<OldGexPayload>, state: Option<StatePayload>)
    requires HasStrikes(gex) && Truthy(gex.value.spot)
    ensures AnnotationRange(OldPayloadLevels(gex.value, state)).Some?
    ensures var sorted := SortByPrice(gex.value.strikes.value);
            var range := AnnotationRange(OldPayloadLevels(gex.value, state)).value;
            var shown := ShownOldStrikes(gex.value, state);
            && (exists a, b :: 0 <= a <= b <= |sorted| && shown == sorted[a..b])
            && (forall x :: x in sorted && range.min <= x.price <= range.max ==> x in shown)
            && (forall j :: 0 <= j < |shown| && shown[j].price > range.max ==> |shown| - j <= OldAnnotationMargin)
            && ((exists x :: x in sorted && x.price >= range.min) ==>
                  forall j :: 0 <= j < |shown| && shown[j].price < range.min ==> j < OldAnnotationMargin)
    ensures OldSeriesOf(gex, state).labels == Prices(ShownOldStrikes(gex.value, state))
    ensures OldSeriesOf(gex, state).state == StateSeries(OldSeriesOf(gex, state).labels, state)
  {
    var g := gex.value;
    SpotGivesRange(OldPayloadLevels(g, state));
    var range := AnnotationRange(OldPayloadLevels(g, state)).value;
    SortByPriceMembers(g.strikes.value);
    WindowShape(SortByPrice(g.strikes.value), range.min, range.max, OldAnnotationMargin, OldAnnotationMargin);
  }

  /** Without a spot every strike is shown, sorted ascending, and the state series is all zeros. */
  lemma OldSeriesNoSpot(gex: Option<OldGexPayload>, state: Option<StatePayload>)
    requires HasStrikes(gex) && !Truthy(gex.value.spot)
    ensures var s := OldSeriesOf(gex, state);
            && s.labels == Prices(SortByPrice(gex.value.strikes.value))
            && |s.labels| == |gex.value.strikes.value|
            && multiset(SortByPrice(gex.value.strikes.value)) == multiset(gex.value.strikes.value)
            && forall i :: 0 <= i < |s.state| ==> s.state[i] == 0.0
  {
    SortByPriceCorrect(gex.value.strikes.value);
    SortByPriceMembers(gex.value.strikes.value);
  }

  // ---- level positions ----

  /**
   * The row positions of the six level lines (`getInterpolatedPosition` for
   * each, as written), -1 for a falsy level or no rows.
   */
  function LevelPositions(s: OldChartSeries, gex: OldGexPayload, state: Option<StatePayload>): (r: seq<Num>)
    ensures |r| == 6
    ensures forall i :: 0 <= i < 6 ==> (!Truthy(OldPayloadLevels(gex, state)[i]) || s.labels == [] ==> r[i] == Sentinel)
  {
    var levels := OldPayloadLevels(gex, state);
    seq(6, i requires 0 <= i < 6 => Pos(levels[i], s.labels))
  }

  /**
   * Every line is hidden (-1), or NaN exactly when its level is a strike that
   * occurs at two rows, or placed within the chart's rows.
   */
  lemma LevelPositionsInRange(gex: Option<OldGexPayload>, state: Option<StatePayload>)
    requires gex.Some?
    ensures var s := OldSeriesOf(gex, state);
            var levels := OldPayloadLevels(gex.value, state);
            forall i :: 0 <= i < 6 ==>
              var p := LevelPositions(s, gex.value, state)[i];
              && (p.NaN? <==> Truthy(levels[i]) && Repeated(s.labels, levels[i].value))
              && (p == Sentinel || p.NaN? || 0.0 <= p.v <= (|s.labels| - 1) as real)
  {
    var s := OldSeriesOf(gex, state);
    var levels := OldPayloadLevels(gex.value, state);
    if HasStrikes(gex) {
      OldSeriesAscending(gex, state);
    }
    forall i | 0 <= i < 6
      ensures var p := LevelPositions(s, gex.value, state)[i];
              && (p.NaN? <==> Truthy(levels[i]) && Repeated(s.labels, levels[i].value))
              && (p == Sentinel || p.NaN? || 0.0 <= p.v <= (|s.labels| - 1) as real)
    {
      if Truthy(levels[i]) && s.labels != [] {
        PosNaNOnNonDecreasing(levels[i].value, s.labels);
        PosRangeOnNonDecreasing(levels[i].value, s.labels);
      }
    }
  }

  /** The level positions through the corrected lookup: repeated strikes collapse to a row. */
  function LevelPositionsGuarded(s: OldChartSeries, gex: OldGexPayload, state: Option<StatePayload>): (r: seq<Num>)
    ensures |r| == 6
    ensures forall i :: 0 <= i < 6 ==>
              var asWritten := LevelPositions(s, gex, state)[i];
              asWritten.Finite? ==> r[i] == asWritten
  {
    var levels := OldPayloadLevels(gex, state);
    seq(6, i requires 0 <= i < 6 => PosGuarded(levels[i], s.labels))
  }

  /** Through the corrected lookup every line is either hidden (-1) or placed within the chart's rows. */
  lemma LevelPositionsGuardedInRange(gex: Option<OldGexPayload>, state: Option<StatePayload>)
    requires gex.Some?
    ensures var s := OldSeriesOf(gex, state);
            forall i :: 0 <= i < 6 ==>
              var p := LevelPositionsGuarded(s, gex.value, state)[i];
              p == Sentinel || (p.Finite? && 0.0 <= p.v <= (|s.labels| - 1) as real)
  {
    var s := OldSeriesOf(gex, state);
    var levels := OldPayloadLevels(gex.value, state);
    if HasStrikes(gex) {
      OldSeriesAscending(gex, state);
    }
    forall i | 0 <= i < 6
      ensures var p := LevelPositionsGuarded(s, gex.value, state)[i];
              p == Sentinel || (p.Finite? && 0.0 <= p.v <= (|s.labels| - 1) as real)
    {
      if Truthy(levels[i]) && s.labels != [] {
        PosGuardedInRange(levels[i].value, s.labels);
      }
    }
  }

  // ---- the overlay's state ----

  /** A built chart: its data and the two value axes fixed when it was built. */
  datatype OldChart = OldChart(series: OldChartSeries, classicAxis: Bounds, stateAxis: Bounds)

  /** `createChart`: the series, and each axis symmetric about zero covering its channel with 10% padding. */
  function NewChart(gex: Option<OldGexPayload>, state: Option<StatePayload>): (c: OldChart)
    ensures c.series == OldSeriesOf(gex, state)
    ensures c.classicAxis.min == -c.classicAxis.max && c.stateAxis.min == -c.stateAxis.max
    ensures forall v :: v in c.series.classic ==> c.classicAxis.max >= Padding * Abs(v)
    ensures forall v :: v in c.series.state ==> c.stateAxis.max >= Padding * Abs(v)
    ensures !HasStrikes(gex) ==> c.classicAxis == Bounds(0.0, 0.0) && c.stateAxis == Bounds(0.0, 0.0)
  {
    var s := OldSeriesOf(gex, state);
    OldChart(s, OldAxisBounds(s.classic), OldAxisBounds(s.state))
  }

  /** `updateChartData`: without strikes nothing changes; otherwise new data, same axes. */
  function Refresh(c: OldChart, gex: Option<OldGexPayload>, state: Option<StatePayload>): (r: OldChart)
    ensures r.classicAxis == c.classicAxis && r.stateAxis == c.stateAxis
    ensures HasStrikes(gex) ==> r.series == OldSeriesOf(gex, state)
    ensures !HasStrikes(gex) ==> r == c
  {
    if HasStrikes(gex) then c.(series := OldSeriesOf(gex, state)) else c
  }

  /** The chart after `updateChart`: rebuilt on the first data load, refreshed afterwards, absent while not built. */
  function AfterUpdate(chart: Option<OldChart>, firstLoad: bool, gex: Option<OldGexPayload>,
                       state: Option<StatePayload>): Option<OldChart> {
    if chart.None? then None
    else if firstLoad then Some(NewChart(gex, state))
    else Some(Refresh(chart.value, gex, state))
  }

  /** A reply from the background worker. */
  datatype Reply<T> = LastError | Unsuccessful | Success(data: T)

  /** The older overlay's module state. */
  class OldOverlay {
    var gexData: Option<OldGexPayload>
    var stateData: Option<StatePayload>
    var chart: Option<OldChart>
    var isFirstDataLoad: bool

    constructor()
      ensures gexData.None? && stateData.None? && chart.None? && isFirstDataLoad
    {
      gexData := None;
      stateData := None;
      chart := None;
      isFirstDataLoad := true;
    }

    /** `myChart = createChart()`. */
    method InitChart()
      modifies this
      ensures chart == Some(NewChart(gexData, stateData))
      ensures gexData == old(gexData) && stateData == old(stateData) && isFirstDataLoad == old(isFirstDataLoad)
    {
      chart := Some(NewChart(gexData, stateData));
    }

    /** `updateChartData`. */
    method UpdateChartData()
      modifies this
      ensures chart == if old(chart).None? then None else Some(Refresh(old(chart).value, gexData, stateData))
      ensures gexData == old(gexData) && stateData == old(stateData) && isFirstDataLoad == old(isFirstDataLoad)
    {
      if chart.None? || !HasStrikes(gexData) {
        return;
      }
      chart := Some(chart.value.(series := OldSeriesOf(gexData, stateData)));
    }

    /** `updateChart`: the first load redraws (rebuilds) the chart, later loads refresh it. */
    method UpdateChart()
      modifies this
      ensures chart == AfterUpdate(old(chart), old(isFirstDataLoad), gexData, stateData)
      ensures isFirstDataLoad == (old(isFirstDataLoad) && old(chart).None?)
      ensures gexData == old(gexData) && stateData == old(stateData)
    {
      if chart.Some? {
        if isFirstDataLoad {
          isFirstDataLoad := false;
          chart := Some(NewChart(gexData, stateData));
        } else {
          UpdateChartData();
        }
      }
    }

    /**
     * `fetchGexData` with the replies it receives: a successful gamma reply
     * replaces `gexData`; when a state URL exists its reply, if successful,
     * replaces `stateData` (a runtime error there stops before the chart is
     * touched); without a state URL `stateData` is cleared. Any other gamma
     * reply changes nothing.
     */
    method FetchGexData(classic: Reply<Option<OldGexPayload>>, hasStateUrl: bool, state: Reply<Option<StatePayload>>)
      modifies this
      ensures !classic.Success? ==>
                gexData == old(gexData) && stateData == old(stateData) &&
                chart == old(chart) && isFirstDataLoad == old(isFirstDataLoad)
      ensures classic.Success? ==> gexData == classic.data
      ensures classic.Success? && !hasStateUrl ==> stateData == None
      ensures classic.Success? && hasStateUrl ==> stateData == if state.Success? then state.data else old(stateData)
      ensures classic.Success? && hasStateUrl && state.LastError? ==>
                chart == old(chart) && isFirstDataLoad == old(isFirstDataLoad)
      ensures classic.Success? && !(hasStateUrl && state.LastError?) ==>
                chart == AfterUpdate(old(chart), old(isFirstDataLoad), gexData, stateData)
      ensures classic.Success? && !(hasStateUrl && state.LastError?) ==>
                isFirstDataLoad == (old(isFirstDataLoad) && old(chart).None?)
    {
      if !classic.Success? {
        return;
      }
      gexData := classic.data;
      if hasStateUrl {
        if state.LastError? {
          return;
        }
        if state.Success? {
          stateData := state.data;
        }
        UpdateChart();
      } else {
        stateData := None;
        UpdateChart();
      }
    }
  }
}
