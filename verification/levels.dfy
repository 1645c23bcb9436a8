/**
 * Reference price levels of a payload (spot, zero gamma, major positive and
 * negative volume, and in the older overlay the two state-source gamma
 * levels) and the annotation range derived from them.
 */
module Levels {
  import opened Wrappers

  /**
   * JavaScript truthiness of an optional price: null, undefined and 0 are
   * falsy. (NaN is also falsy in JavaScript; prices here are reals.)
   */
  predicate Truthy(level: Option<real>) {
    level.Some? && level.value != 0.0
  }

  /** The annotation range: the lowest and highest present level. */
  datatype Range = Range(min: real, max: real)

  /** The present levels, in order: the `prices` array the overlay pushes into. */
  function PresentLevels(levels: seq<Option<real>>): (prices: seq<real>)
    ensures |prices| <= |levels|
    ensures forall p :: p in prices <==> Some(p) in levels && p != 0.0
  {
    if levels == [] then []
    else
      var rest := PresentLevels(levels[1..]);
      assert levels == [levels[0]] + levels[1..];
      if Truthy(levels[0]) then [levels[0].value] + rest else rest
  }

  /** `Math.min(...prices)` for a non-empty `prices`. */
  function Min(prices: seq<real>): (m: real)
    requires prices != []
    ensures m in prices
    ensures forall p :: p in prices ==> m <= p
  {
    if |prices| == 1 then prices[0]
    else
      var rest := Min(prices[1..]);
      assert prices == [prices[0]] + prices[1..];
      if prices[0] <= rest then prices[0] else rest
  }

  /** `Math.max(...prices)` for a non-empty `prices`. */
  function Max(prices: seq<real>): (m: real)
    requires prices != []
    ensures m in prices
    ensures forall p :: p in prices ==> p <= m
  {
    if |prices| == 1 then prices[0]
    else
      var rest := Max(prices[1..]);
      assert prices == [prices[0]] + prices[1..];
      if prices[0] >= rest then prices[0] else rest
  }

  /**
   * `getAnnotationRange`: no range when no level is present, otherwise the
   * smallest and largest present level. Both overlays share this shape; the
   * current one passes four levels, the older one six.
   */
  function AnnotationRange(levels: seq<Option<real>>): (r: Option<Range>)
    ensures r.None? <==> forall l :: l in levels ==> !Truthy(l)
    ensures r.Some? ==> r.value.min <= r.value.max
    ensures r.Some? ==> Some(r.value.min) in levels && Some(r.value.max) in levels
    ensures r.Some? ==> r.value.min != 0.0 && r.value.max != 0.0
    ensures r.Some? ==> forall l :: l in levels && Truthy(l) ==> r.value.min <= l.value <= r.value.max
  {
    var prices := PresentLevels(levels);
    if prices == [] then
      None
    else
      Some(Range(Min(prices), Max(prices)))
  }

  /** The four levels of a current-overlay payload, in the order they are pushed. */
  function CurrentLevels(spot: Option<real>, zeroGamma: Option<real>,
                         majorPosVol: Option<real>, majorNegVol: Option<real>): (levels: seq<Option<real>>)
    ensures |levels| == 4 && levels[0] == spot
    ensures levels[1] == zeroGamma && levels[2] == majorPosVol && levels[3] == majorNegVol
  {
    [spot, zeroGamma, majorPosVol, majorNegVol]
  }

  /** The six levels of an older-overlay payload: the current four, then the state source's two. */
  function OldLevels(spot: Option<real>, zeroGamma: Option<real>,
                     majorPosVol: Option<real>, majorNegVol: Option<real>,
                     majorLongGamma: Option<real>, majorShortGamma: Option<real>): (levels: seq<Option<real>>)
    ensures |levels| == 6 && levels[0] == spot
    ensures levels[..4] == CurrentLevels(spot, zeroGamma, majorPosVol, majorNegVol)
    ensures levels[4] == majorLongGamma && levels[5] == majorShortGamma
  {
    CurrentLevels(spot, zeroGamma, majorPosVol, majorNegVol) + [majorLongGamma, majorShortGamma]
  }

  /**
   * A truthy spot is always one of the pushed levels, so the annotation range
   * is never null when spot is present: the overlays' "no annotations"
   * fallback cannot be reached.
   */
  lemma SpotGivesRange(levels: seq<Option<real>>)
    requires levels != [] && Truthy(levels[0])
    ensures AnnotationRange(levels).Some?
    ensures AnnotationRange(levels).value.min <= levels[0].value <= AnnotationRange(levels).value.max
  {
    assert levels[0] in levels;
  }
}
