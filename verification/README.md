# gexbot-in-tradingview — a Dafny model of the overlay's data shaping

The extension draws gamma-exposure (GEX) bar charts from the gexbot API over
TradingView chart pages. This project models, and proves properties of, the
logic that decides what those charts show:

- the **annotation range**: the lowest and highest reference level that is
  present (spot, zero gamma, major positive/negative volume and, in the older
  overlay, the state source's major long/short gamma);
- the **strike window**: drop incomplete strike rows, sort by price, and keep
  a contiguous run reaching a fixed number of strikes below and above the
  range, with a "k under spot, k at or above spot" split as a fallback;
- the **symmetric value axis**: ±(largest magnitude × 1.1), floored at 1 in
  the current overlay and not floored in the older one;
- the **row-position lookup** that places a level line at a fractional row
  index, over descending rows (current overlay) or ascending rows (older
  overlay), as a loop method proved against a specification function;
- the older overlay's **state alignment**: a price → value map filled from
  the sorted state contracts, read back at each shown price with default 0;
- the **per-page configuration** of both overlays, the current overlay's
  **per-chart state** (payload, API-error flag and indicator, last update
  time) and its list of open charts, and the older overlay's module state;
- the background worker's **tab choice**: an exact URL match, else the same
  URL up to the first `#`, else a new tab.

Modules (one file each): `Wrappers` (Option), `Rows` (price-keyed rows and
insertion sort), `Levels`, `StrikeWindow`, `AxisScale`, `Interpolation`,
`ChartData` (current `prepareChartData`), `ChartConfig`, `ChartInstance`,
`OldChartData`, `OldLookups`, `TabSwitch`.

Conventions: prices and values are `real`; an optional level is
`Option<real>` and is truthy when present and non-zero (`Levels.Truthy`); a
JavaScript `NaN` result is the `NaN` case of `Interpolation.Num`; the API
key, the page URL, the clock reading and the worker's replies are
parameters.

Where the documented behaviour and the code disagree, the model follows the
code:

- the current x-axis is floored at 1 only when the padded bound is exactly 0,
  so small data gives an axis narrower than [-1, 1] (`AxisScale.XRangeSmallData`);
- the row lookups can divide 0 by 0 (see Findings).

## Model

| member | source | states |
|---|---|---|
| Levels.PresentLevels | content.js:432-438 | a price is pushed exactly when its level is present and non-zero |
| Levels.AnnotationRange | content.js:431-444 | null exactly when no level is truthy; otherwise min ≤ max, both are truthy levels, and every truthy level lies within [min, max] |
| Levels.CurrentLevels | content.js:434-437 | the four levels in push order: spot, zero gamma, major positive volume, major negative volume |
| Levels.OldLevels | content_old.js:260-268 | the older overlay checks the current four levels in the same order, then the state source's major long gamma and major short gamma |
| Levels.SpotGivesRange | content.js:433 | a truthy spot is always pushed, so the range exists and contains spot; the "no annotations" fallback is unreachable |
| Rows.SortByPrice | content.js:461 | `sort((a, b) => a[0] - b[0])` as an insertion sort; what it promises is proved in `SortByPriceCorrect` and `SortByPriceMembers` |
| Rows.SortByPriceCorrect | content.js:458-460 | the sorted strikes are an ascending permutation of the input rows |
| Rows.SortByPriceMembers | content_old.js:292 | sorting keeps the length and exactly the input rows, in ascending order |
| Rows.InsertAscending | content.js:460 | inserting into an ascending list keeps it ascending |
| Rows.InsertPermutes | content.js:460 | inserting adds exactly the inserted row |
| StrikeWindow.FirstAtLeast | content.js:466-468 | `findIndex(s[0] >= min)`: -1 exactly when no price reaches the bound, else the first index that does |
| StrikeWindow.FirstAbove | content.js:469-471 | `findIndex(s[0] > max)`: -1 exactly when no price exceeds the bound, else the first index that does |
| StrikeWindow.WindowStart | content.js:472 | the start is clamped at 0 and lies at most `below` places before the first strike reaching the range |
| StrikeWindow.WindowEnd | content.js:473-476 | the end is the length when nothing exceeds the range, else at most `above` places after the first strike over it, clamped to the length |
| StrikeWindow.AnnotationWindow | content.js:472-477 | `sortedStrikes.slice(startIndex, endIndex)`: never more strikes than the sorted list |
| StrikeWindow.WindowIsSlice | content.js:472-477 | on ascending strikes with min ≤ max, start ≤ end and the window is exactly the slice [start, end) |
| StrikeWindow.WindowMembers | content.js:477 | every shown strike is one of the sorted strikes |
| StrikeWindow.WindowCoversRange | content.js:466-477 | the window is the slice [start, end) of the sorted strikes, contains every index priced within the range, and is ascending |
| StrikeWindow.WindowMargins | content_old.js:298-306 | at most `above` shown strikes lie over the range, and, when some strike reaches the range's bottom, at most `below` lie under it |
| StrikeWindow.WindowCoversMembers | content.js:466-477 | every sorted strike priced within the range is shown, and the window is some slice of the sorted list |
| StrikeWindow.WindowShape | content_old.js:576-584 | contiguity, coverage and both margins stated together |
| StrikeWindow.WindowWhenNothingReachesRange | content.js:472-476 | when no strike reaches the range's bottom the whole sorted list is shown |
| StrikeWindow.Below | content.js:480-482 | `filter(strike[0] < spot)`: no longer than the input, and every kept strike is under spot |
| StrikeWindow.AtOrAbove | content.js:483-485 | `filter(strike[0] >= spot)`: no longer than the input, and every kept strike is at or above spot |
| StrikeWindow.SpotSplit | content.js:478-488 | the fallback only holds strikes of the sorted list |
| StrikeWindow.SplitMembers | content.js:480-485 | the under-spot and at-or-above-spot filters keep exactly the strikes their prices select |
| StrikeWindow.TakeLast | content.js:486 | `slice(-k)` is a suffix of length k, or the whole list when k ≥ length or k = 0 (JavaScript reads -0 as 0) |
| StrikeWindow.TakeFirst | content.js:487 | `slice(0, k)` is the prefix of length min(k, length) |
| StrikeWindow.BelowIsPrefix | content_old.js:308-309 | on ascending strikes, the under-spot strikes are a prefix and the rest the matching suffix |
| StrikeWindow.BelowIndex | content_old.js:308-309 | on ascending strikes, an index is under spot exactly when it precedes the split point |
| StrikeWindow.NoneBelow | content_old.js:308 | when every price is at or above spot, nothing is under spot |
| StrikeWindow.SpotSplitContiguous | content.js:478-488 | the fallback is one contiguous slice: up to k strikes before the split point (all of them when k = 0) and up to k after it |
| StrikeWindow.SpotSplitOrder | content_old.js:308-313 | the fallback lists the under-spot strikes first and the at-or-above-spot strikes after |
| StrikeWindow.SpotSplitShape | content_old.js:586-593 | the fallback stays ascending and holds at most 2k strikes for k > 0 |
| StrikeWindow.Prices | content.js:491 | the labels are the shown strikes' prices, position by position |
| StrikeWindow.Values | content.js:492 | the bar values are the shown strikes' values, position by position |
| ChartData.Complete | content.js:458-459 | a row survives the filter exactly when both its price and value are present |
| ChartData.CompleteCounts | content.js:458-459 | the filter keeps each complete row exactly as many times as it occurs in the input |
| ChartData.SortedStrikes | content.js:457-460 | the complete rows in ascending price order, as a permutation: each complete row occurs as often as in the filtered input, nothing lost, duplicated or invented |
| ChartData.ShownStrikes | content.js:456-497 | the shown strikes: the window with a truthy spot (the spot split were there no range), every sorted complete row otherwise; its properties are proved in `ShownStrikesAscending` and `ShownStrikesWithSpot` |
| ChartData.Reverse | content.js:501-504 | `reverse()`: the same length, and position i holds the element from position n-1-i |
| ChartData.PrepareChartData | content.js:447-505 | null exactly when the payload or its strike list is missing or empty; labels and values have equal length |
| ChartData.ShownStrikesAscending | content.js:456-497 | the shown strikes ascend and each is a complete input row |
| ChartData.ReversedPricesNonIncreasing | content.js:501-504 | reversing an ascending run gives non-increasing labels |
| ChartData.ReversedPairsAreRows | content.js:491-504 | after labels and values are both reversed, the pair at each position is still a complete input row |
| ChartData.PrepareChartDataDescending | content.js:447-505 | the labels are in non-increasing order and each (label, value) pair is a complete input row |
| ChartData.ShownStrikesWithSpot | content.js:456-477 | with a truthy spot the shown strikes are always the annotation window |
| ChartData.PrepareChartDataWindow | content.js:463-477 | contiguity, coverage of the range, at most 2 strikes over it and, when some strike reaches it, at most 2 under it |
| ChartData.PrepareChartDataNoSpot | content.js:493-504 | without a spot every complete row is shown, reversed into descending order |
| AxisScale.MinWithZero | content.js:547 | `Math.min(...values, 0)`: at most 0, at most every value, and 0 or a value |
| AxisScale.MaxWithZero | content.js:548 | `Math.max(...values, 0)`: at least 0, at least every value, and 0 or a value |
| AxisScale.PaddedBound | content.js:549-551 | the bound covers 1.1·\|v\| for every value, is attained by a value when non-zero, and is zero exactly when all values are zero |
| AxisScale.XRange | content.js:544-553 | symmetric, positive, covering 1.1·\|v\| for every value, [-1, 1] when all values are zero, otherwise attained by a value |
| AxisScale.OldAxisBounds | content_old.js:642-667 | symmetric, covering 1.1·\|v\| for every value, and [0, 0] exactly when all values are zero |
| AxisScale.XRangeLiftsOldBounds | content.js:551 | the two rules agree except that the current one lifts a zero bound to 1 |
| AxisScale.XRangeExample | content.js:544-553 | values [-3, 8] give [-8.8, 8.8] |
| AxisScale.XRangeSmallData | content.js:551 | values [0.5] give [-0.55, 0.55]: only a zero bound is floored |
| Interpolation.LastAtLeast | content.js:640-641 | the last row at or above the price, or -1 |
| Interpolation.FirstAtMost | content.js:640-642 | the first row at or below the price, or -1 |
| Interpolation.LastAtMost | content_old.js:681-684 | the last row at or below the price, or -1 |
| Interpolation.FirstAtLeast | content_old.js:681-687 | the first row at or above the price, or -1 |
| Interpolation.BracketDescending | content.js:639-643 | the loop leaves the upper index at the last row at or above the price and the lower index at the first row at or below it |
| Interpolation.YPos | content.js:636-651 | the sentinel -1 for a falsy price or no rows |
| Interpolation.GetInterpolatedYPos | content.js:636-651 | the loop computes exactly the specified descending lookup |
| Interpolation.YPosExactMatch | content.js:646 | on strictly descending rows a price equal to row i lands on i |
| Interpolation.YPosBetween | content.js:647-650 | strictly between rows i and i+1 the result is i plus the proportional distance, strictly inside (i, i+1) |
| Interpolation.YPosOutside | content.js:644-645 | above every row gives 0; below every row gives n-1 |
| Interpolation.YPosNaNOnNonIncreasing | content.js:646-650 | on non-increasing rows the result is NaN exactly when the price occurs at two rows |
| Interpolation.YPosRangeOnNonIncreasing | content.js:647-650 | on non-increasing rows a non-NaN result lies in [0, n-1] |
| Interpolation.YPosInRange | content.js:636-651 | on strictly descending rows every present price lands in [0, n-1] |
| Interpolation.YPosRepeatedStrikeIsNaN | content.js:646-650 | a repeated strike equal to the price gives NaN (0 / 0) |
| Interpolation.YPosGuarded | content.js:636-651 | the corrected lookup agrees with the original wherever the original is finite |
| Interpolation.YPosGuardedInRange | content.js:636-651 | on non-increasing rows the corrected lookup always lands in [0, n-1], exactly on a row carrying the price when one does |
| Interpolation.BracketAscending | content_old.js:678-688 | the loop leaves the lower index at the last row at or below the price and the upper index at the first row at or above it |
| Interpolation.Pos | content_old.js:674-712 | the sentinel -1 for a falsy price or no rows |
| Interpolation.GetInterpolatedPosition | content_old.js:674-712 | the loop computes exactly the specified ascending lookup |
| Interpolation.PosExactMatch | content_old.js:700-703 | on strictly ascending rows a price equal to row i lands on i |
| Interpolation.PosBetween | content_old.js:705-711 | strictly between rows i and i+1 the result is i + (p − l[i]) / (l[i+1] − l[i]), strictly inside (i, i+1) |
| Interpolation.PosOutside | content_old.js:690-698 | below every row gives 0; above every row gives n-1 |
| Interpolation.PosNaNOnNonDecreasing | content_old.js:700-711 | on non-decreasing rows the result is NaN exactly when the price occurs at two rows |
| Interpolation.PosRangeOnNonDecreasing | content_old.js:705-711 | on non-decreasing rows a non-NaN result lies in [0, n-1] |
| Interpolation.PosInRange | content_old.js:371-404 | on strictly ascending rows every present price lands in [0, n-1] |
| Interpolation.PosRepeatedStrikeIsNaN | content_old.js:394-400 | a repeated strike equal to the price gives NaN (0 / 0) |
| Interpolation.PosGuarded | content_old.js:674-712 | the corrected lookup agrees with the original wherever the original is finite |
| Interpolation.PosGuardedInRange | content_old.js:674-712 | on non-decreasing rows the corrected lookup always lands in [0, n-1], exactly on a row carrying the price when one does |
| ChartConfig.ContainsMeansOccurs | content.js:91 | `includes` holds exactly when the identifier occurs at some index of the URL |
| ChartConfig.ApiUrl | content.js:58-60 | the request URL for one endpoint of one symbol; its shape is proved in `ApiUrlShape` |
| ChartConfig.ApiUrlShape | content.js:58-60 | the request URL starts at the API host and ends with `?key=` and the key |
| ChartConfig.GexbotUrl | content.js:62-66 | a link exists exactly for the classic view |
| ChartConfig.CreateChartConfig | content.js:68-78 | the level counts default to 5 only when absent, and pass through otherwise (0 included) |
| ChartConfig.GetChartConfigs | content.js:87-126 | at most two charts, the first docked left and the second right |
| ChartConfig.GetChartConfigsEmpty | content.js:87-126 | no charts exactly when the URL carries none of the five identifiers |
| ChartConfig.GetChartConfigsSymbols | content.js:90-122 | the first identifier found, in source order, decides the symbols |
| ChartConfig.GetChartConfigsWellFormed | content.js:87-126 | at most two charts, left then right, with distinct symbols and a shared bar count; each has its own symbol's endpoint with the key and a link, equal margins above and below between 2 and 5, and 8, 10, 15 or 25 bars |
| ChartInstance.Outcome | content.js:780-808 | no request without a key; accepted exactly when the reply succeeded with an array of strikes; every other reply is an error |
| ChartInstance.AcceptedPayloadIsDrawable | content.js:790-797 | an accepted payload always has a strike list, so it is drawn exactly when that list is non-empty |
| ChartInstance.Chart.constructor | content.js:268-272 | a new chart has no data, no error and no update time |
| ChartInstance.Chart.ShowErrorMessage | content.js:275-278 | the flag is raised and the indicator shown; nothing else changes |
| ChartInstance.Chart.ClearErrorMessage | content.js:281-286 | a raised flag is lowered and the indicator hidden; otherwise nothing changes |
| ChartInstance.Chart.FetchGexData | content.js:780-820 | skipped polls change nothing; errors keep the payload and raise the flag; accepted payloads replace it, lower the flag and stamp the time |
| ChartInstance.IndexOf | content.js:377 | `findIndex`: -1 exactly when absent, else the first position |
| ChartInstance.RemoveAt | content.js:380 | `splice(i, 1)`: one element shorter, the elements before i kept in place and those after it shifted down by one |
| ChartInstance.RemoveAtMembers | content.js:378-380 | without duplicates, splicing a position removes exactly that element and keeps the list duplicate-free |
| ChartInstance.Registry.Register | content.js:836 | a new chart joins the end of the list |
| ChartInstance.Registry.Close | content.js:374-382 | the closed chart leaves the list; the others stay, in order |
| ChartInstance.Registry.Initialize | content.js:36-43 | one fresh chart per configuration is appended, in order, each valid and with no data, no error and no update time; the earlier charts stay |
| ChartInstance.Registry.Reload | content.js:45-56 | the old charts are dropped and one fresh chart per page configuration is created, in order, each valid and with no data, no error and no update time |
| OldChartData.StateMapOf | content_old.js:331-334 | the map after the `forEach`, later rows overwriting earlier ones; characterised in `StateMapLastWins` |
| OldChartData.BuildStateMap | content_old.js:331-334 | the loop builds exactly the specified price map |
| OldChartData.LastPriced | content_old.js:332-334 | the last contract carrying a price, or -1 |
| OldChartData.StateMapLastWins | content_old.js:331-334 | a price is mapped exactly when some contract carries it, to the value of the last such contract |
| OldChartData.StateSeries | content_old.js:326-341 | one state value per shown price; what each value is, is proved in `StateSeriesAligned` and `StateSeriesZeros` |
| OldChartData.StateSeriesAligned | content_old.js:326-339 | each state value is the last sorted contract's value at that exact price (0 when absent or zero), and a non-zero value comes from a contract with that price |
| OldChartData.StateSeriesZeros | content_old.js:337-341 | without contracts, or where no contract has the price, the state value is 0 |
| OldChartData.OldSeriesOf | content_old.js:560-633 | the three series have equal length, and are empty without strikes |
| OldChartData.ShownOldStrikes | content_old.js:290-313 | the window around the six-level range with a truthy spot (the spot split were there no range), all sorted strikes otherwise; its properties are proved in `ShownOldStrikesAscending` and `OldSeriesWindow` |
| OldChartData.ShownOldStrikesAscending | content_old.js:570-594 | the shown strikes ascend and each is a payload row |
| OldChartData.OldSeriesAscending | content_old.js:596-597 | the labels ascend and each (label, value) pair is a payload row |
| OldChartData.OldSeriesWindow | content_old.js:290-306 | with a truthy spot: contiguity, coverage of the six-level range, at most 5 strikes over it and, when some strike reaches it, at most 5 under it |
| OldChartData.OldSeriesNoSpot | content_old.js:343-348 | without a spot every strike is shown, sorted, and the state series is all zeros |
| OldChartData.LevelPositions | content_old.js:714-796 | six positions from the lookup as written; a falsy level or an empty label list gives the sentinel -1 |
| OldChartData.LevelPositionsInRange | content_old.js:714-796 | each level line, placed with the lookup as written, is hidden (-1), NaN exactly when its price occurs at two rows, or placed within [0, n-1] |
| OldChartData.LevelPositionsGuarded | content_old.js:674-712 | the corrected positions: six of them, equal to the as-written ones wherever those are finite |
| OldChartData.LevelPositionsGuardedInRange | content_old.js:714-796 | with the corrected lookup every level line is hidden (-1) or placed within [0, n-1], never NaN |
| OldChartData.NewChart | content_old.js:642-667 | both axes are symmetric, cover their channel with 10% padding, and are [0, 0] without data |
| OldChartData.Refresh | content_old.js:277-349 | a refresh replaces the data when strikes exist and never changes the axes |
| OldChartData.OldOverlay.InitChart | content_old.js:1047-1055 | the chart is built from the current payloads |
| OldChartData.OldOverlay.UpdateChartData | content_old.js:277-287 | no chart or no strikes: nothing changes; otherwise the data is refreshed |
| OldChartData.OldOverlay.UpdateChart | content_old.js:1177-1185 | the first load rebuilds the chart, later loads refresh it |
| OldChartData.OldOverlay.FetchGexData | content_old.js:1138-1175 | which replies replace `gexData`/`stateData`, when the chart is updated, and that the first-load flag is cleared by the first completed load that finds a chart and stays set while there is none |
| OldLookups.GetGexbotUrls | content_old.js:72-106 | the links of the first recognised page; the ES_SPX fallback and the agreement with the request entries are proved in `UnrecognisedPageDefaults` and `GexbotLinksMatchFirstEntry` |
| OldLookups.GetApiUrls | content_old.js:1064-1118 | never empty: one or two entries on every page |
| OldLookups.GetBarLevels | content_old.js:1121-1134 | always 8, 10, 15 or 25 bars |
| OldLookups.GetApiUrlsWellFormed | content_old.js:1064-1118 | one or two entries, each requesting its own symbol with the given key; the gamma state endpoint except on the fallback |
| OldLookups.UnrecognisedPageDefaults | content_old.js:101-105 | an unrecognised page falls back to ES_SPX links, the ES_SPX entry and 15 bars |
| OldLookups.GexbotLinksMatchFirstEntry | content_old.js:72-106 | the links always name the first request entry's symbol |
| TabSwitch.BeforeHash | background.js:50 | `split('#')[0]` is a prefix without `#`, followed by `#` if shorter, and the whole string when there is no `#` |
| TabSwitch.FindExact | background.js:39 | the first tab showing exactly the URL, or -1 |
| TabSwitch.FindBase | background.js:53-60 | the first tab with a usable URL of the same base, or -1 |
| TabSwitch.OpenOrSwitchTab | background.js:39-75 | the reply says "switched" exactly when no tab is created |
| TabSwitch.ExactMatchFirst | background.js:39-47 | a tab showing the URL is always preferred; the first one is focused |
| TabSwitch.FallbackChoice | background.js:48-75 | otherwise the first same-base tab is focused and navigated; a new tab opens exactly when none exists |
| TabSwitch.KnownUrls | background.js:53-59 | no longer than the tab list, and every kept tab has a non-empty URL |
| TabSwitch.KnownUrlsMembers | background.js:53-59 | exactly the tabs with a non-empty URL are kept |
| TabSwitch.ExactIgnoresUnknownUrls | background.js:39 | the exact search finds the same tab whether or not the tabs without a usable URL are listed |
| TabSwitch.BaseIgnoresUnknownUrls | background.js:53-59 | the base search finds the same tab whether or not the tabs without a usable URL are listed |
| TabSwitch.MissingUrlsNeverMatch | background.js:53-59 | for a non-empty URL, tabs with a missing or empty URL never affect the choice |
| TabSwitch.NoHashBaseMatch | background.js:50-55 | for a URL without `#`, a base match shows that URL or that URL plus a fragment |

## Left out

- DOM construction, dragging, resizing, uPlot/Chart.js drawing and the wiring of computed positions into annotation objects: UI with pixel arithmetic, outside the data logic.
- `chrome.runtime`, `chrome.storage`, `chrome.tabs` messaging, `fetch` and the polling timers: browser I/O. The replies, the API key, the page URL and the clock reading are parameters instead.
- The stale-data check, which depends on the clock; `formatValue` and the label text formatting, which are float-to-string conversions; popup.js, which only stores the key and broadcasts it.
- Floating point: prices and values are reals, so NaN and Infinity propagation and rounding are not modelled. The only NaN captured is the 0 / 0 of the row lookups.
- Rows.SortByPrice: specified as an ascending permutation. It does not state that equal prices keep their input order (JavaScript's sort is stable), so the winner among equal-priced state contracts is stated relative to this sort's order.
- OldChartData.OldGexPayload: the older overlay does not filter strike rows, and the model takes its rows as complete (price, value) pairs. A row with a null field is not modelled.
- AxisScale.XRange: the `filter(v => v != null)` is not modelled, because the values it receives are already complete. The `|| 1` also turns NaN into 1, which reals cannot show.
- OldChartData.OldOverlay.FetchGexData: the older overlay reads `.classic` and `.state` off the array that `getApiUrls` returns, so in the code as written both URLs are undefined. The request URL is not modelled. Whether a state URL exists is the `hasStateUrl` parameter, which is always false for that array.
- ChartData.ShownStrikes: the per-chart `levelsAboveAnnotation`/`levelsBelowAnnotation` settings are not read. The window margin is the hard-coded 2 the code uses.
- ChartInstance.Registry.Close: instances are identified by object identity, which stands in for the container comparison. Removing the container from the page is UI.
- The y-axis scale and the sum display of the current overlay: drawing-only.

## Findings

| source | as written | input that shows it | evidently intended | confidence | as-written member | corrected member |
|---|---|---|---|---|---|---|
| content.js:636-651 | when two rows carry the same price as the level, the upper index passes the lower one and the ratio is (p − p) / (p − p) | price 5, labels [5, 5] gives NaN | a repeated strike equal to the level places the line on one of those rows | not executed | Interpolation.YPosRepeatedStrikeIsNaN | Interpolation.YPosGuardedInRange |
| content_old.js:674-712 | the same 0 / 0 in the ascending variant: the lower index passes the upper one | price 5, labels [5, 5] gives NaN | as above | not executed | Interpolation.PosRepeatedStrikeIsNaN | Interpolation.PosGuardedInRange |

The older overlay's level positions are modelled twice: `OldChartData.LevelPositions` uses the lookup as written, and `OldChartData.LevelPositionsInRange` states that a line can come out NaN. `OldChartData.LevelPositionsGuarded` uses the corrected lookup, and `OldChartData.LevelPositionsGuardedInRange` states that every line is then hidden or placed within the rows.
