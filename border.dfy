/**
 * The border frame: four filled rectangles along the four edges of the canvas.
 *
 * A pixel (px, py) is the unit square whose top-left corner is (px, py). cairo
 * accepts a negative width or height and then spans the rectangle backwards
 * from its origin; all four rectangles of the frame have the same orientation,
 * so under cairo's default non-zero winding rule the filled area is their union.
 */
module Border {

  datatype Rect = Rect(x: int, y: int, w: int, h: int)

  /** Whether the unit interval at `p` lies in the side from `origin` spanning `extent`. */
  predicate Spans(origin: int, extent: int, p: int)
  {
    if extent >= 0 then origin <= p < origin + extent else origin + extent <= p < origin
  }

  /** Whether rectangle `r` covers pixel (px, py). */
  predicate Covers(r: Rect, px: int, py: int)
  {
    Spans(r.x, r.w, px) && Spans(r.y, r.h, py)
  }

  /** Whether some rectangle of `rs` covers pixel (px, py). */
  function Filled(rs: seq<Rect>, px: int, py: int): (b: bool)
    ensures b <==> exists k :: 0 <= k < |rs| && Covers(rs[k], px, py)
  {
    if rs == [] then false
    else
      assert forall k :: 0 < k < |rs| ==> rs[k] == rs[1..][k - 1];
      Covers(rs[0], px, py) || Filled(rs[1..], px, py)
  }

  /** The frame of thickness `size`: left, top, bottom and right rectangles, in drawing order. */
  function Frame(size: int, width: int, height: int): (rs: seq<Rect>)
    ensures |rs| == 4
    ensures rs[0].x == 0 && rs[0].y == 0 && rs[0].w == size && rs[0].h == height
    ensures rs[1].x == 0 && rs[1].y == 0 && rs[1].w == width && rs[1].h == size
    ensures rs[2].x == 0 && rs[2].y + rs[2].h == height && rs[2].w == width && rs[2].h == size
    ensures rs[3].x + rs[3].w == width && rs[3].y == 0 && rs[3].w == size && rs[3].h == height
  {
    [Rect(0, 0, size, height), Rect(0, 0, width, size),
     Rect(0, height - size, width, size), Rect(width - size, 0, size, height)]
  }

  /** The outer ring of thickness `size` of a `width` by `height` canvas. */
  predicate InRing(size: int, width: int, height: int, px: int, py: int)
  {
    px < size || py < size || px >= width - size || py >= height - size
  }

  /**
   * Inside the canvas, the frame fills exactly the outer `size`-wide ring, for
   * every thickness: a negative one fills nothing, one above half the canvas
   * fills everything.
   */
  lemma {:induction false} FrameIsRing(size: int, width: int, height: int, px: int, py: int)
    requires 0 <= px < width && 0 <= py < height
    ensures Filled(Frame(size, width, height), px, py) <==> InRing(size, width, height, px, py)
  {
    var rs := Frame(size, width, height);
    if InRing(size, width, height, px, py) {
      if px < size {
        assert Covers(rs[0], px, py);
      } else if py < size {
        assert Covers(rs[1], px, py);
      } else if py >= height - size {
        assert Covers(rs[2], px, py);
      } else {
        assert Covers(rs[3], px, py);
      }
    }
  }
}
