/**
 * Where the sun, each planet candidate and each guide go on the canvas.
 *
 * Coordinates are cairo's: x grows to the right, y grows downwards, so a body
 * placed "above" another has the smaller y. Python's `width/2` is a true
 * division, so horizontal centres are reals; every other coordinate is an
 * integer (Python integers are unbounded, so no wrap-around is modelled).
 */
module Geometry {
  import opened Palette

  /** Vertical gap left between the top of one body and the bottom of the next. */
  const GAP := 20

  /** Line width set by make_orbit before stroking an orbit guide. */
  const ORBIT_LINE_WIDTH := 4

  /** cairo's initial line width, in force when only ruled-line guides are drawn. */
  const DEFAULT_LINE_WIDTH := 2

  /** The command-line parameters the drawing depends on (noise is not modelled). */
  datatype Config = Config(width: int, height: int, orbit: bool, line: bool, sunSize: int, borderSize: int)

  /** A filled disc: the sun or a planet. */
  datatype Body = Body(cx: real, cy: int, radius: int, colour: BodyColour)
  {
    /** The y coordinate of the disc's highest point. */
    function Top(): int { cy - radius }

    /** The y coordinate of the disc's lowest point. */
    function Bottom(): int { cy + radius }
  }

  /** The horizontal centre shared by every body and every orbit guide. */
  function MidX(cfg: Config): real { cfg.width as real / 2.0 }

  /** The sun's vertical centre. */
  function SunCenter(cfg: Config): int { cfg.height - cfg.borderSize }

  /**
   * The sun: centred horizontally, its centre one border width above the
   * bottom edge of the canvas, with the configured radius.
   */
  function Sun(cfg: Config, colour: BodyColour): (s: Body)
    ensures s.cx + s.cx == cfg.width as real
    ensures cfg.height - s.cy == cfg.borderSize
    ensures s.radius == cfg.sunSize && s.colour == colour
  {
    Body(MidX(cfg), SunCenter(cfg), cfg.sunSize, colour)
  }

  /**
   * The vertical centre of a candidate of radius `size` placed above the body
   * centred at `prevCenter` with radius `prevSize`: its lowest point lies
   * `size + GAP` above the previous body's highest point.
   */
  function CandidateCenter(prevCenter: int, prevSize: int, size: int): (c: int)
    ensures (prevCenter - prevSize) - (c + size) == size + GAP
  {
    prevCenter - prevSize - size * 2 - GAP
  }

  /**
   * A candidate is drawn unless its highest point crosses the top border line:
   * one whose highest point lies exactly on the line is still drawn.
   */
  predicate Accepts(center: int, size: int, borderSize: int): (ok: bool)
    ensures ok <==> borderSize <= center - size
  {
    !(center - size < borderSize)
  }

  /**
   * An optional guide drawn before a planet. Neither make_orbit nor the
   * ruled-line code sets a colour, so a guide is stroked in cairo's current
   * source colour: that of the body filled last.
   */
  datatype Guide =
    | NoGuide
    | Orbit(cx: real, cy: int, radius: int, lineWidth: int, stroke: BodyColour)
    | Rule(x0: int, x1: int, y: int, lineWidth: int, stroke: BodyColour)

  /**
   * The guide for an accepted planet centred at (MidX(cfg), center), drawn
   * while `stroke` is the current source colour. The orbit guide is a circle
   * about the sun's centre that passes through the planet's centre; the ruled
   * line runs at the planet's height with a margin of two border widths on
   * each side; orbit wins when both flags are set.
   */
  function GuideFor(cfg: Config, center: int, stroke: BodyColour): (g: Guide)
    ensures cfg.orbit ==>
      g.Orbit? && g.cx == MidX(cfg) && g.cy == SunCenter(cfg) && g.cy - center == g.radius
      && g.lineWidth == ORBIT_LINE_WIDTH
    ensures !cfg.orbit && cfg.line ==>
      g.Rule? && g.y == center && g.x0 == 2 * cfg.borderSize && cfg.width - g.x1 == g.x0
      && g.lineWidth == DEFAULT_LINE_WIDTH
    ensures !cfg.orbit && !cfg.line ==> g == NoGuide
    ensures g != NoGuide ==> g.stroke == stroke
  {
    if cfg.orbit then
      Orbit(MidX(cfg), SunCenter(cfg), cfg.height - center - cfg.borderSize, ORBIT_LINE_WIDTH, stroke)
    else if cfg.line then
      Rule(cfg.borderSize * 2, cfg.width - cfg.borderSize * 2, center, DEFAULT_LINE_WIDTH, stroke)
    else
      NoGuide
  }

  /**
   * A body placed by CandidateCenter above a body of non-negative radius lies
   * strictly above it and the two discs are disjoint: the distance between the
   * centres exceeds the sum of the radii by `size + GAP`.
   */
  lemma CandidateClearsPrevious(prev: Body, size: int)
    requires prev.radius >= 0 && size >= 0
    ensures var c := CandidateCenter(prev.cy, prev.radius, size);
      c < prev.cy && prev.cy - c == prev.radius + size + (size + GAP)
  {
  }
}
