/** The bird-versus-tube test of the collision scan. The bird's box is
    [w/2 - 45, w/2 + 45] by [birdY, birdY + 40]; a tube is the column
    [x, x + 100] minus its gap [topHeight, topHeight + 220]. */
module Collision {
  import opened Entities

  function BirdLeft(w: int): real
  {
    Centre(w) - BirdHalfWidth as real
  }

  function BirdRight(w: int): real
  {
    Centre(w) + BirdHalfWidth as real
  }

  /** The bird's box and the tube's column overlap strictly in x. */
  predicate OverlapsColumn(w: int, t: Tube)
  {
    BirdRight(w) > t.x as real && BirdLeft(w) < (t.x + TubeWidth) as real
  }

  /** First test of the scan: the bird's top is above the bottom of the upper tube. */
  predicate HitsUpper(w: int, birdY: real, t: Tube)
  {
    OverlapsColumn(w, t) && birdY < t.topHeight as real
  }

  /** Second test of the scan: the bird's bottom is below the top of the lower tube. */
  predicate HitsLower(w: int, birdY: real, t: Tube)
  {
    OverlapsColumn(w, t) && birdY + BirdHeight as real > (t.topHeight + TubeGap) as real
  }

  predicate Hit(w: int, birdY: real, t: Tube)
  {
    HitsUpper(w, birdY, t) || HitsLower(w, birdY, t)
  }

  /** Some tube of the list is hit. */
  predicate AnyHit(w: int, birdY: real, ts: seq<Tube>)
  {
    exists i :: 0 <= i < |ts| && Hit(w, birdY, ts[i])
  }

  /** (px, py) lies strictly inside the bird's collision box. */
  predicate InBird(w: int, birdY: real, px: real, py: real)
  {
    BirdLeft(w) < px < BirdRight(w) && birdY < py < birdY + BirdHeight as real
  }

  /** (px, py) lies strictly inside the solid part of tube t. The column has no
      top or bottom: the scan never compares against the screen's edges. */
  predicate InTube(t: Tube, px: real, py: real)
  {
    t.x as real < px < (t.x + TubeWidth) as real &&
    (py < t.topHeight as real || py > (t.topHeight + TubeGap) as real)
  }

  /** The edge comparisons of the scan are exactly open-rectangle overlap:
      a tube is hit iff some point lies strictly inside both the bird's box
      and the tube's solid part. */
  lemma HitIffSharedPoint(w: int, birdY: real, t: Tube)
    ensures Hit(w, birdY, t) <==> exists px, py :: InBird(w, birdY, px, py) && InTube(t, px, py)
  {
    var lo := if BirdLeft(w) < t.x as real then t.x as real else BirdLeft(w);
    var hi := if BirdRight(w) < (t.x + TubeWidth) as real then BirdRight(w) else (t.x + TubeWidth) as real;
    var px := (lo + hi) / 2.0;
    if HitsUpper(w, birdY, t) {
      var top := if birdY + BirdHeight as real < t.topHeight as real then birdY + BirdHeight as real else t.topHeight as real;
      var py := (birdY + top) / 2.0;
      assert InBird(w, birdY, px, py) && InTube(t, px, py);
    } else if HitsLower(w, birdY, t) {
      var bottom := if birdY < (t.topHeight + TubeGap) as real then (t.topHeight + TubeGap) as real else birdY;
      var py := (bottom + birdY + BirdHeight as real) / 2.0;
      assert InBird(w, birdY, px, py) && InTube(t, px, py);
    }
    forall qx, qy | InBird(w, birdY, qx, qy) && InTube(t, qx, qy)
      ensures Hit(w, birdY, t)
    {
      assert OverlapsColumn(w, t);
    }
  }

  /** Touching is not hitting: a tube whose column only meets the box's edge,
      or whose gap contains the box, edges included, is not hit. */
  lemma EdgeContactIsNoHit(w: int, birdY: real, t: Tube)
    requires t.x as real == BirdRight(w) || (t.x + TubeWidth) as real == BirdLeft(w)
          || (t.topHeight as real <= birdY && birdY + BirdHeight as real <= (t.topHeight + TubeGap) as real)
    ensures !Hit(w, birdY, t)
  {
  }

  /** On an 800-high, 920-wide screen the bird at its start height 380 fits the
      gap of a tube whose upper part ends at 300, wherever the tube is. */
  lemma StartHeightClearsGap(x: int, passed: bool)
    ensures 800 as real / 2.0 - BirdHeight as real / 2.0 == 380.0
    ensures !Hit(920, 380.0, Tube(x, 300, passed))
  {
  }
}
