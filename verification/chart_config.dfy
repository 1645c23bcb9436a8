/**
 * Per-page chart configuration of the current overlay: which gamma-exposure
 * charts a chart page shows, where, and with which request URL.
 */
module ChartConfig {
  import opened Wrappers

  /** The two docking slots at the bottom of the page. */
  datatype Position = Left | Right

  /** One chart's settings. */
  datatype Config = Config(
    symbol: string,
    position: Position,
    classicApiUrl: string,
    classicGexbotUrl: Option<string>,
    barLevels: nat,
    levelsAboveAnnotation: nat,
    levelsBelowAnnotation: nat)

  /** Levels kept above and below the annotation range when the caller gives none. */
  const DefaultAnnotationLevels: nat := 5

  const ApiHost := "https://api.gexbot.com/"
  const ClassicEndpoint := "classic/zero"

  // The chart-page identifiers the overlay recognises in the page URL.
  const MesPage := "/chart/RwyW88xf/"
  const MnqPage := "/chart/WTxk3Mhm/"
  const M2kPage := "/chart/2quwgD8W/"
  const GldPage := "/chart/XxfKvVMV/"
  const MclPage := "/chart/kkaSjk8Y/"

  /** `String.prototype.includes`: `part` occurs in `s` starting at some index. */
  function Contains(s: string, part: string): bool {
    if part <= s then true
    else if s == [] then false
    else Contains(s[1..], part)
  }

  /** `part` occurs in `s` at index `i`. */
  predicate OccursAt(s: string, part: string, i: int) {
    0 <= i && i + |part| <= |s| && s[i..i + |part|] == part
  }

  /** `Contains` holds exactly when `part` occurs in `s` at some index. */
  lemma {:induction false} ContainsMeansOccurs(s: string, part: string)
    ensures Contains(s, part) <==> exists i :: OccursAt(s, part, i)
  {
    if part <= s {
      assert OccursAt(s, part, 0);
    } else if s == [] {
    } else {
      ContainsMeansOccurs(s[1..], part);
      if exists i :: OccursAt(s, part, i) {
        var i :| OccursAt(s, part, i);
        assert i != 0;
        assert s[1..][i - 1..i - 1 + |part|] == s[i..i + |part|];
        assert OccursAt(s[1..], part, i - 1);
      }
      if Contains(s[1..], part) {
        var i :| OccursAt(s[1..], part, i);
        assert s[i + 1..i + 1 + |part|] == s[1..][i..i + |part|];
        assert OccursAt(s, part, i + 1);
      }
    }
  }

  /** The request URL for one endpoint of one symbol, authenticated with `apiKey`. */
  function ApiUrl(apiKey: string, symbol: string, endpoint: string): string {
    ApiHost + symbol + "/" + endpoint + "?key=" + apiKey
  }

  /** The request URL starts at the API host and ends with the key. */
  lemma ApiUrlShape(apiKey: string, symbol: string, endpoint: string)
    ensures var u := ApiUrl(apiKey, symbol, endpoint);
            ApiHost <= u && u[|u| - |apiKey|..] == apiKey && u[|u| - |apiKey| - 5..|u| - |apiKey|] == "?key="
  {
    var u := ApiUrl(apiKey, symbol, endpoint);
    assert u == ApiHost + (symbol + "/" + endpoint + "?key=" + apiKey);
    assert u == (ApiHost + symbol + "/" + endpoint) + "?key=" + apiKey;
  }

  /** The gexbot page for a symbol: only the classic view has one. */
  function GexbotUrl(symbol: string, view: string): (r: Option<string>)
    ensures r.Some? <==> view == "classic"
  {
    if view == "classic" then Some("https://www.gexbot.com/classic#" + symbol + "#latest") else None
  }

  /** `createChartConfig`: the annotation level counts fall back to 5 only when absent. */
  function CreateChartConfig(apiKey: string, symbol: string, position: Position, barLevels: nat,
                             above: Option<nat>, below: Option<nat>): (c: Config)
    ensures c.symbol == symbol && c.position == position && c.barLevels == barLevels
    ensures c.classicApiUrl == ApiUrl(apiKey, symbol, ClassicEndpoint)
    ensures c.classicGexbotUrl.Some?
    ensures above.Some? ==> c.levelsAboveAnnotation == above.value
    ensures above.None? ==> c.levelsAboveAnnotation == DefaultAnnotationLevels
    ensures below.Some? ==> c.levelsBelowAnnotation == below.value
    ensures below.None? ==> c.levelsBelowAnnotation == DefaultAnnotationLevels
  {
    Config(symbol, position, ApiUrl(apiKey, symbol, ClassicEndpoint), GexbotUrl(symbol, "classic"), barLevels,
           if above.Some? then above.value else DefaultAnnotationLevels,
           if below.Some? then below.value else DefaultAnnotationLevels)
  }

  /** `getChartConfigs`: the charts of the first recognised page identifier in the URL, or none. */
  function GetChartConfigs(apiKey: string, url: string): (r: seq<Config>)
    ensures |r| <= 2
    ensures forall i :: 0 <= i < |r| ==> r[i].position == if i == 0 then Left else Right
  {
    if Contains(url, MesPage) then
      [CreateChartConfig(apiKey, "ES_SPX", Left, 15, Some(4), Some(4)),
       CreateChartConfig(apiKey, "SPY", Right, 15, Some(2), Some(2))]
    else if Contains(url, MnqPage) then
      [CreateChartConfig(apiKey, "NQ_NDX", Left, 25, Some(5), Some(5)),
       CreateChartConfig(apiKey, "QQQ", Right, 25, Some(2), Some(2))]
    else if Contains(url, M2kPage) then
      [CreateChartConfig(apiKey, "IWM", Left, 8, Some(3), Some(3)),
       CreateChartConfig(apiKey, "RUT", Right, 8, Some(2), Some(2))]
    else if Contains(url, GldPage) then
      [CreateChartConfig(apiKey, "GLD", Left, 10, Some(2), Some(2))]
    else if Contains(url, MclPage) then
      [CreateChartConfig(apiKey, "USO", Left, 10, Some(2), Some(2))]
    else []
  }

  function Symbols(configs: seq<Config>): (r: seq<string>)
    ensures |r| == |configs| && forall i :: 0 <= i < |r| ==> r[i] == configs[i].symbol
  {
    seq(|configs|, i requires 0 <= i < |configs| => configs[i].symbol)
  }

  /** A page shows charts exactly when its URL carries one of the five identifiers. */
  lemma GetChartConfigsEmpty(apiKey: string, url: string)
    ensures GetChartConfigs(apiKey, url) == [] <==>
              !Contains(url, MesPage) && !Contains(url, MnqPage) && !Contains(url, M2kPage) &&
              !Contains(url, GldPage) && !Contains(url, MclPage)
  {
  }

  /** The first identifier found, in the order MES, MNQ, M2K, GLD, MCL, decides the symbols. */
  lemma GetChartConfigsSymbols(apiKey: string, url: string)
    ensures var s := Symbols(GetChartConfigs(apiKey, url));
            && (Contains(url, MesPage) ==> s == ["ES_SPX", "SPY"])
            && (!Contains(url, MesPage) && Contains(url, MnqPage) ==> s == ["NQ_NDX", "QQQ"])
            && (!Contains(url, MesPage) && !Contains(url, MnqPage) && Contains(url, M2kPage) ==> s == ["IWM", "RUT"])
            && ((!Contains(url, MesPage) && !Contains(url, MnqPage) && !Contains(url, M2kPage) &&
                 Contains(url, GldPage)) ==> s == ["GLD"])
            && ((!Contains(url, MesPage) && !Contains(url, MnqPage) && !Contains(url, M2kPage) &&
                 !Contains(url, GldPage) && Contains(url, MclPage)) ==> s == ["USO"])
  {
  }

  /** A chart's own endpoint, key and link, equal annotation margins of 2 to 5, and one of the pages' bar counts. */
  ghost predicate WellFormedConfig(apiKey: string, c: Config) {
    && c.classicApiUrl == ApiUrl(apiKey, c.symbol, ClassicEndpoint)
    && c.classicGexbotUrl.Some?
    && 2 <= c.levelsAboveAnnotation <= 5 && c.levelsAboveAnnotation == c.levelsBelowAnnotation
    && c.barLevels in {8, 10, 15, 25}
  }

  /** A configuration created with explicit equal margins of 2 to 5 and a page's bar count is well formed. */
  lemma CreatedConfigWellFormed(apiKey: string, symbol: string, position: Position, barLevels: nat, n: nat)
    requires 2 <= n <= 5 && barLevels in {8, 10, 15, 25}
    ensures WellFormedConfig(apiKey, CreateChartConfig(apiKey, symbol, position, barLevels, Some(n), Some(n)))
  {
  }

  /**
   * Every configured chart: at most two per page, the first docked left and a
   * second one right, both sharing one bar count, each requesting its own
   * symbol's classic endpoint with the current key, with a gexbot link, and
   * with explicit (never defaulted) annotation level counts of at least 2.
   */
  lemma GetChartConfigsWellFormed(apiKey: string, url: string)
    ensures var cs := GetChartConfigs(apiKey, url);
            && |cs| <= 2
            && (|cs| > 0 ==> cs[0].position == Left)
            && (|cs| == 2 ==> cs[1].position == Right && cs[1].barLevels == cs[0].barLevels && cs[1].symbol != cs[0].symbol)
            && forall c :: c in cs ==> WellFormedConfig(apiKey, c)
  {
    if Contains(url, MesPage) {
      CreatedConfigWellFormed(apiKey, "ES_SPX", Left, 15, 4);
      CreatedConfigWellFormed(apiKey, "SPY", Right, 15, 2);
      assert "SPY"[0] != "ES_SPX"[0];
    } else if Contains(url, MnqPage) {
      CreatedConfigWellFormed(apiKey, "NQ_NDX", Left, 25, 5);
      CreatedConfigWellFormed(apiKey, "QQQ", Right, 25, 2);
      assert "QQQ"[0] != "NQ_NDX"[0];
    } else if Contains(url, M2kPage) {
      CreatedConfigWellFormed(apiKey, "IWM", Left, 8, 3);
      CreatedConfigWellFormed(apiKey, "RUT", Right, 8, 2);
      assert "RUT"[0] != "IWM"[0];
    } else if Contains(url, GldPage) {
      CreatedConfigWellFormed(apiKey, "GLD", Left, 10, 2);
    } else if Contains(url, MclPage) {
      CreatedConfigWellFormed(apiKey, "USO", Left, 10, 2);
    }
  }
}
