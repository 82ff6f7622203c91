/** The game's fixed sizes and speeds, and the two kinds of scrolling entries.
    Screen width and height are not constants here: every operation that needs
    them takes them as parameters (`w`, `h`). */
module Entities {

  /** Height of the bird's collision box. */
  const BirdHeight: int := 40
  /** The collision box spans from w/2 - 45 to w/2 + 45 horizontally. */
  const BirdHalfWidth: int := 45
  /** Velocity given by the first tap or space bar press that starts the game. */
  const InitialUpwardVelocity: int := -8
  /** Velocity given by every jump. */
  const JumpStrength: int := -8

  const TubeWidth: int := 100
  /** Vertical clearance between the upper and the lower tube. */
  const TubeGap: int := 220
  /** Leftward movement of a tube per tube tick. */
  const TubeSpeed: int := 5

  /** Leftward movement of a cloud per cloud tick. */
  const CloudSpeed: int := 4
  /** A cloud is dropped once its x is no longer greater than -CloudMargin. */
  const CloudMargin: int := 100
  /** A new cloud's vertical offset is drawn below h - CloudBand. */
  const CloudBand: int := 100

  /** The horizontal centre of a screen of width w (a half when w is odd). */
  function Centre(w: int): real
  {
    w as real / 2.0
  }

  /** An obstacle: its left edge, the bottom of its upper part, and whether it has scored. */
  datatype Tube = Tube(x: int, topHeight: int, passed: bool)

  /** A background decoration: its left edge and its top. */
  datatype Cloud = Cloud(x: int, y: int)
}
