/** The vertical offsets of newly spawned entries. The source draws a random
    number r in [0, 1); here r is a parameter. */
module Spawn {
  import opened Entities

  /** A fraction in [0, 1) of a positive span lies in [0, span). */
  lemma FractionOfSpan(r: real, span: int)
    requires 0.0 <= r < 1.0 && span > 0
    ensures 0.0 <= r * span as real < span as real
  {
  }

  /** floor(r * span), the integer offset a draw r picks in a band of the given
      span; for a draw in [0, 1) it is one of 0 .. span - 1. */
  function ScaledDraw(r: real, span: int): (k: int)
    ensures 0.0 <= r < 1.0 && span > 0 ==> 0 <= k < span
  {
    if 0.0 <= r < 1.0 && span > 0 then
      FractionOfSpan(r, span);
      (r * span as real).Floor
    else
      (r * span as real).Floor
  }

  /** Bottom of a new tube's upper part: floor(r * (h - 220)). */
  function TubeHeight(h: int, r: real): (top: int)
    ensures h > TubeGap && 0.0 <= r < 1.0 ==> 0 <= top < h - TubeGap
  {
    ScaledDraw(r, h - TubeGap)
  }

  /** Top of a new cloud: floor(r * (h - 100)). */
  function CloudPosition(h: int, r: real): (y: int)
    ensures h > CloudBand && 0.0 <= r < 1.0 ==> 0 <= y < h - CloudBand
  {
    ScaledDraw(r, h - CloudBand)
  }
}
