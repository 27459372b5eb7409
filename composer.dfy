/**
 * main() as a whole, with argument parsing, rasterisation, the noise pass and
 * file output left out: the scene it draws, recorded as values in drawing order.
 */
module Composer {
  import opened Palette
  import opened Geometry
  import opened Border
  import opened Placement

  /** The background colour that fills the whole canvas first. */
  const BLACK := Rgb(0, 0, 0)

  /**
   * The scene: a `width` by `height` canvas filled with `background`, then the
   * sun, then per iteration an optional guide and planet, then the frame.
   */
  datatype Picture = Picture(
    width: int, height: int, background: Rgb,
    sun: Body, trace: seq<Outcome>,
    frame: seq<Rect>, frameColour: BorderColour)

  /**
   * Draw the scene for `cfg`. The sun takes colour draw 0 and the planets the
   * draws after it; `frameColour` is the random.choice over the border palette.
   * `cursors` are the placement cursors the loop went through.
   */
  method Compose(cfg: Config, sizeDraws: seq<nat>, colourDraw: nat -> BodyColour, frameColour: BorderColour)
    returns (pic: Picture, cursors: seq<Cursor>)
    requires |sizeDraws| == ITERATIONS
    requires NeverSettles(colourDraw)
    ensures pic.width == cfg.width && pic.height == cfg.height && pic.background == BLACK
    ensures pic.sun == Sun(cfg, colourDraw(0))
    ensures Run(cfg, pic.sun, sizeDraws, colourDraw, 1, pic.trace, cursors)
    ensures pic.frame == Frame(cfg.borderSize, cfg.width, cfg.height) && pic.frameColour == frameColour
  {
    var sun := Sun(cfg, colourDraw(0));
    var trace, next;
    trace, cursors, next := PlacePlanets(cfg, sun, sizeDraws, colourDraw, 1);
    pic := Picture(cfg.width, cfg.height, BLACK, sun, trace,
                   Frame(cfg.borderSize, cfg.width, cfg.height), frameColour);
  }
}
