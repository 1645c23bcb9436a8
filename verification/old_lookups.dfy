/**
 * The older overlay's per-page lookups: the gexbot links, the request URLs
 * of the gamma and state sources, and the number of bars kept on each side
 * of spot. Unlike the current overlay, an unrecognised page falls back to the
 * ES_SPX entries instead of showing nothing.
 */
module OldLookups {
  import opened ChartConfig

  /** The two gexbot pages linked from the overlay. */
  datatype GexbotLinks = GexbotLinks(classic: string, state: string)

  /** One chart's request URLs. */
  datatype ApiEntry = ApiEntry(symbol: string, classic: string, state: string)

  function ClassicLink(symbol: string): string {
    "https://www.gexbot.com/classic#" + symbol + "#latest"
  }

  function StateLink(symbol: string): string {
    "https://www.gexbot.com/state#" + symbol + "#option#latest#greek:gamma"
  }

  /** `getGexbotUrls`: the links of the first recognised page, ES_SPX by default. */
  function GetGexbotUrls(url: string): GexbotLinks {
    var symbol :=
      if Contains(url, MesPage) then "ES_SPX"
      else if Contains(url, MnqPage) then "NQ_NDX"
      else if Contains(url, M2kPage) then "RUT"
      else if Contains(url, GldPage) then "GLD"
      else "ES_SPX";
    GexbotLinks(ClassicLink(symbol), StateLink(symbol))
  }

  /** The entry of a recognised page: the classic and gamma-state endpoints of `symbol`. */
  function PageEntry(apiKey: string, symbol: string): ApiEntry {
    ApiEntry(symbol, ApiUrl(apiKey, symbol, ClassicEndpoint), ApiUrl(apiKey, symbol, "state/gamma"))
  }

  /** The fallback entry: ES_SPX, whose state URL names the `state/zero` endpoint. */
  function DefaultEntry(apiKey: string): ApiEntry {
    ApiEntry("ES_SPX", ApiUrl(apiKey, "ES_SPX", ClassicEndpoint), ApiUrl(apiKey, "ES_SPX", "state/zero"))
  }

  /**
   * `getApiUrls`, with the key as a parameter: the entries of the first
   * recognised page, or the single ES_SPX fallback entry.
   */
  function GetApiUrls(apiKey: string, url: string): (r: seq<ApiEntry>)
    ensures 1 <= |r| <= 2
  {
    if Contains(url, MesPage) then [PageEntry(apiKey, "ES_SPX"), PageEntry(apiKey, "SPY")]
    else if Contains(url, MnqPage) then [PageEntry(apiKey, "NQ_NDX"), PageEntry(apiKey, "QQQ")]
    else if Contains(url, M2kPage) then [PageEntry(apiKey, "RUT"), PageEntry(apiKey, "IWM")]
    else if Contains(url, GldPage) then [PageEntry(apiKey, "GLD")]
    else [DefaultEntry(apiKey)]
  }

  /** `getBarLevels`: 25 for MNQ, 8 for M2K, 10 for GLD, 15 otherwise (MES included). */
  function GetBarLevels(url: string): (r: nat)
    ensures r in {8, 10, 15, 25}
  {
    if Contains(url, MnqPage) then 25
    else if Contains(url, M2kPage) then 8
    else if Contains(url, GldPage) then 10
    else 15
  }

  /**
   * Every page gets one or two entries, each requesting its own symbol's
   * classic endpoint with the given key; the state endpoint is the gamma one
   * on recognised pages and the zero one on the fallback.
   */
  lemma GetApiUrlsWellFormed(apiKey: string, url: string)
    ensures var es := GetApiUrls(apiKey, url);
            1 <= |es| <= 2 &&
            forall e :: e in es ==>
              e.classic == ApiUrl(apiKey, e.symbol, ClassicEndpoint) &&
              (e.state == ApiUrl(apiKey, e.symbol, "state/gamma") || e == DefaultEntry(apiKey))
  {
  }

  /** A page carrying none of the four identifiers falls back to ES_SPX everywhere. */
  lemma UnrecognisedPageDefaults(apiKey: string, url: string)
    requires !Contains(url, MesPage) && !Contains(url, MnqPage) && !Contains(url, M2kPage) && !Contains(url, GldPage)
    ensures GetApiUrls(apiKey, url) == [DefaultEntry(apiKey)]
    ensures GetGexbotUrls(url) == GexbotLinks(ClassicLink("ES_SPX"), StateLink("ES_SPX"))
    ensures GetBarLevels(url) == 15
  {
  }

  /** The gexbot links follow the first entry's symbol on every page. */
  lemma GexbotLinksMatchFirstEntry(apiKey: string, url: string)
    ensures GetGexbotUrls(url).classic == ClassicLink(GetApiUrls(apiKey, url)[0].symbol)
    ensures GetGexbotUrls(url).state == StateLink(GetApiUrls(apiKey, url)[0].symbol)
  {
  }
}
