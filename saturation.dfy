/** Saturation of buffer slots to the functor's bounds (`Clamp`, lines 268-277). */
module Saturation {

  /** One slot after `Clamp`: the upper bound is tested first, then the lower one. */
  function Saturate(x: real, lowest: real, highest: real): real {
    if x >= highest then highest
    else if x <= lowest then lowest
    else x
  }

  /** Every slot of `v` saturated, in place. */
  function ClampAll(v: seq<real>, lowest: real, highest: real): seq<real> {
    seq(|v|, m requires 0 <= m < |v| => Saturate(v[m], lowest, highest))
  }

  /** What `Clamp` promises of each slot when the bounds are ordered. */
  lemma ClampAllBounds(v: seq<real>, lowest: real, highest: real)
    requires lowest <= highest
    ensures |ClampAll(v, lowest, highest)| == |v|
    ensures forall m :: 0 <= m < |v| ==> lowest <= ClampAll(v, lowest, highest)[m] <= highest
    ensures forall m :: 0 <= m < |v| && lowest < v[m] < highest ==> ClampAll(v, lowest, highest)[m] == v[m]
    ensures forall m :: 0 <= m < |v| && v[m] >= highest ==> ClampAll(v, lowest, highest)[m] == highest
    ensures forall m :: 0 <= m < |v| && v[m] <= lowest ==> ClampAll(v, lowest, highest)[m] == lowest
  {
  }

  /** Clamping a clamped buffer changes nothing. */
  lemma ClampAllIdempotent(v: seq<real>, lowest: real, highest: real)
    requires lowest <= highest
    ensures ClampAll(ClampAll(v, lowest, highest), lowest, highest) == ClampAll(v, lowest, highest)
  {
  }

  /** With the bounds the wrong way round, idempotence fails: `Clamp` sends a slot below
      `highest` to `lowest`, and a second `Clamp` sends that to `highest`. */
  lemma ClampAllNotIdempotentWhenBoundsCross(lowest: real, highest: real)
    requires highest < lowest
    ensures ClampAll(ClampAll([highest - 1.0], lowest, highest), lowest, highest) != ClampAll([highest - 1.0], lowest, highest)
  {
    assert ClampAll([highest - 1.0], lowest, highest)[0] == lowest;
    assert ClampAll(ClampAll([highest - 1.0], lowest, highest), lowest, highest)[0] == highest;
  }

  /** A buffer already within the bounds is left as it is. */
  lemma ClampAllWithinBounds(v: seq<real>, lowest: real, highest: real)
    requires forall m :: 0 <= m < |v| ==> lowest <= v[m] <= highest
    ensures ClampAll(v, lowest, highest) == v
  {
  }
}
