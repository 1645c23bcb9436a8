/**
 * The state each chart of the current overlay keeps between polls — the last
 * accepted payload, the API-error flag with its indicator, and the time of
 * the last accepted payload — and the page-wide list of open charts.
 */
module ChartInstance {
  import opened Wrappers
  import opened ChartConfig
  import opened ChartData

  /**
   * The background worker's reply to one poll: the runtime reported an error,
   * the request failed, or it succeeded with a body. `strikesIsArray` says
   * whether the body's `strikes` field arrived as an array (when it is present
   * but not an array, the payload's own `strikes` is not read).
   */
  datatype FetchResponse =
    | RuntimeError
    | Failed
    | Succeeded(data: Option<GexPayload>, strikesIsArray: bool)

  /** What one poll does to a chart: nothing, raise the error flag, or accept a payload. */
  datatype FetchOutcome = Skipped | ApiError | Accepted(payload: GexPayload)

  /**
   * The decision in `fetchGexData`: no request without a key; a runtime
   * error, a failed request, or a body without an array of strikes raises the
   * error flag; anything else is accepted.
   */
  function Outcome(apiKey: string, response: FetchResponse): (o: FetchOutcome)
    ensures o.Skipped? <==> apiKey == ""
    ensures o.Accepted? <==>
              apiKey != "" && response.Succeeded? && response.data.Some? &&
              response.data.value.strikes.Some? && response.strikesIsArray
    ensures o.Accepted? ==> response.Succeeded? && o.payload == response.data.value
  {
    if apiKey == "" then Skipped
    else match response
      case RuntimeError => ApiError
      case Failed => ApiError
      case Succeeded(data, isArray) =>
        if data.None? || data.value.strikes.None? || !isArray then ApiError
        else Accepted(data.value)
  }

  /**
   * An accepted payload always carries a strike list, so the chart is drawn
   * from it exactly when that list is non-empty.
   */
  lemma AcceptedPayloadIsDrawable(apiKey: string, response: FetchResponse, barLevels: nat)
    requires Outcome(apiKey, response).Accepted?
    ensures var p := Outcome(apiKey, response).payload;
            p.strikes.Some? &&
            (PrepareChartData(Some(p), barLevels).Some? <==> p.strikes.value != [])
  {
  }

  /** One chart on the page. */
  class Chart {
    const config: Config
    var gexData: Option<GexPayload>
    var hasApiError: bool
    /** Whether the error indicator is displayed. */
    var errorShown: bool
    var lastUpdateTime: Option<int>

    /** The indicator is displayed exactly while the error flag is raised. */
    predicate Valid()
      reads this
    {
      errorShown == hasApiError
    }

    /** A fresh chart: no data, no error, never updated. */
    constructor(config: Config)
      ensures this.config == config
      ensures gexData.None? && !hasApiError && lastUpdateTime.None?
      ensures Valid()
    {
      this.config := config;
      gexData := None;
      hasApiError := false;
      errorShown := false;
      lastUpdateTime := None;
    }

    /** `showErrorMessage`: raise the flag and display the indicator. */
    method ShowErrorMessage()
      modifies this
      ensures hasApiError && errorShown
      ensures gexData == old(gexData) && lastUpdateTime == old(lastUpdateTime)
      ensures Valid()
    {
      hasApiError := true;
      errorShown := true;
    }

    /** `clearErrorMessage`: lower a raised flag and hide the indicator; otherwise change nothing. */
    method ClearErrorMessage()
      modifies this
      ensures !hasApiError
      ensures old(hasApiError) ==> !errorShown
      ensures !old(hasApiError) ==> errorShown == old(errorShown)
      ensures gexData == old(gexData) && lastUpdateTime == old(lastUpdateTime)
      ensures old(Valid()) ==> Valid()
    {
      if hasApiError {
        hasApiError := false;
        errorShown := false;
      }
    }

    /**
     * `fetchGexData` with the reply it receives and the clock reading at that
     * moment: skipped polls change nothing, errors keep the last payload and
     * raise the flag, accepted payloads replace it, lower the flag and stamp
     * the time.
     */
    method FetchGexData(apiKey: string, response: FetchResponse, now: int)
      requires Valid()
      modifies this
      ensures Valid()
      ensures Outcome(apiKey, response).Skipped? ==>
                gexData == old(gexData) && hasApiError == old(hasApiError) && lastUpdateTime == old(lastUpdateTime)
      ensures Outcome(apiKey, response).ApiError? ==>
                hasApiError && gexData == old(gexData) && lastUpdateTime == old(lastUpdateTime)
      ensures Outcome(apiKey, response).Accepted? ==>
                !hasApiError && gexData == Some(Outcome(apiKey, response).payload) && lastUpdateTime == Some(now)
    {
      if apiKey == "" {
        return;
      }
      match response {
        case RuntimeError =>
          ShowErrorMessage();
        case Failed =>
          ShowErrorMessage();
        case Succeeded(data, isArray) =>
          if data.None? || data.value.strikes.None? || !isArray {
            ShowErrorMessage();
            return;
          }
          ClearErrorMessage();
          gexData := data;
          lastUpdateTime := Some(now);
      }
    }
  }

  /** `findIndex`: the first position of `x` in `s`, or -1. */
  function IndexOf<T(==)>(s: seq<T>, x: T): (i: int)
    ensures -1 <= i < |s|
    ensures i == -1 <==> x !in s
    ensures i >= 0 ==> s[i] == x && x !in s[..i]
  {
    if s == [] then -1
    else if s[0] == x then 0
    else
      var j := IndexOf(s[1..], x);
      assert s[1..] == s[1..][..|s| - 1];
      if j == -1 then -1
      else
        assert s[..j + 1] == [s[0]] + s[1..][..j];
        j + 1
  }

  /** `splice(i, 1)`. */
  function RemoveAt<T>(s: seq<T>, i: nat): (r: seq<T>)
    requires i < |s|
    ensures |r| == |s| - 1
    ensures forall k :: 0 <= k < i ==> r[k] == s[k]
    ensures forall k :: i <= k < |r| ==> r[k] == s[k + 1]
  {
    s[..i] + s[i + 1..]
  }

  /** Without duplicates, removing the position of `x` removes `x` and keeps every other element. */
  lemma RemoveAtMembers<T>(s: seq<T>, i: nat)
    requires i < |s|
    requires forall a, b :: 0 <= a < b < |s| ==> s[a] != s[b]
    ensures forall y :: y in RemoveAt(s, i) <==> y in s && y != s[i]
    ensures forall a, b :: 0 <= a < b < |RemoveAt(s, i)| ==> RemoveAt(s, i)[a] != RemoveAt(s, i)[b]
  {
    var r := RemoveAt(s, i);
    forall y ensures y in r <==> y in s && y != s[i] {
      if y in r {
        var k :| 0 <= k < |r| && r[k] == y;
        if k < i { assert r[k] == s[k]; } else { assert r[k] == s[k + 1]; }
      }
      if y in s && y != s[i] {
        var k :| 0 <= k < |s| && s[k] == y;
        if k < i { assert r[k] == y; } else { assert r[k - 1] == y; }
      }
    }
    forall a, b | 0 <= a < b < |r| ensures r[a] != r[b] {
      var a', b' := if a < i then a else a + 1, if b < i then b else b + 1;
      assert r[a] == s[a'] && r[b] == s[b'];
    }
  }

  /** The page's open charts, in creation order (`chartInstances`). */
  class Registry {
    var charts: seq<Chart>

    /** No chart is listed twice. */
    ghost predicate Valid()
      reads this
    {
      forall a, b :: 0 <= a < b < |charts| ==> charts[a] != charts[b]
    }

    constructor()
      ensures charts == [] && Valid()
    {
      charts := [];
    }

    /** `chartInstances.push`: a newly created chart joins the end of the list. */
    method Register(c: Chart)
      requires Valid() && c !in charts
      modifies this
      ensures charts == old(charts) + [c]
      ensures Valid()
    {
      charts := charts + [c];
    }

    /** The close button: the chart leaves the list (if listed), the others keep their order. */
    method Close(c: Chart)
      requires Valid()
      modifies this
      ensures var i := IndexOf(old(charts), c);
              charts == if i == -1 then old(charts) else RemoveAt(old(charts), i)
      ensures c !in charts
      ensures forall d :: d in charts <==> d in old(charts) && d != c
      ensures Valid()
    {
      var i := IndexOf(charts, c);
      if i != -1 {
        RemoveAtMembers(charts, i);
        charts := RemoveAt(charts, i);
      }
    }

    /**
     * `initializeCharts` with the page's configurations: one fresh chart per
     * configuration joins the end of the list, in order.
     */
    method Initialize(configs: seq<Config>)
      requires Valid()
      modifies this
      ensures |charts| == |old(charts)| + |configs|
      ensures charts[..|old(charts)|] == old(charts)
      ensures forall i :: 0 <= i < |configs| ==> charts[|old(charts)| + i].config == configs[i]
      ensures forall i :: |old(charts)| <= i < |charts| ==>
                fresh(charts[i]) && charts[i].gexData.None? && !charts[i].hasApiError
      ensures forall i :: |old(charts)| <= i < |charts| ==> charts[i].Valid() && charts[i].lastUpdateTime.None?
      ensures Valid()
    {
      ghost var start := |charts|;
      for n := 0 to |configs|
        invariant |charts| == start + n
        invariant charts[..start] == old(charts)
        invariant forall i :: 0 <= i < n ==> charts[start + i].config == configs[i]
        invariant forall i :: start <= i < |charts| ==>
                    fresh(charts[i]) && charts[i].gexData.None? && !charts[i].hasApiError
        invariant forall i :: start <= i < |charts| ==> charts[i].Valid() && charts[i].lastUpdateTime.None?
        invariant Valid()
      {
        var c := new Chart(configs[n]);
        Register(c);
      }
    }

    /**
     * `reloadAllCharts` after a key change: the old charts are dropped and one
     * fresh chart is created per configuration of the page, in order.
     */
    method Reload(apiKey: string, url: string)
      modifies this
      ensures |charts| == |GetChartConfigs(apiKey, url)|
      ensures forall i :: 0 <= i < |charts| ==> charts[i].config == GetChartConfigs(apiKey, url)[i]
      ensures forall i :: 0 <= i < |charts| ==> fresh(charts[i]) && charts[i].gexData.None? && !charts[i].hasApiError
      ensures forall i :: 0 <= i < |charts| ==> charts[i].Valid() && charts[i].lastUpdateTime.None?
      ensures Valid()
    {
      var configs := GetChartConfigs(apiKey, url);
      charts := [];
      Initialize(configs);
    }
  }
}
