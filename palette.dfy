/**
 * The two fixed colour palettes and the "different from the previous body"
 * colour pick.
 *
 * A body colour is an index into BODY_PALETTE. Python's random.choice hands
 * back the palette's own tuple objects, so the identity test `is` in the
 * retry loop compares palette entries, not channel values; because the
 * entries are pairwise different, "different index" and "different value"
 * coincide (BodyColoursDistinct).
 */
module Palette {

  /** An RGB triple of 8-bit channel values. */
  datatype Rgb = Rgb(r: int, g: int, b: int)

  /** The 14 colours used for the sun and the planets. */
  const BODY_PALETTE: seq<Rgb> := [
    Rgb(217, 48, 48), Rgb(255, 110, 25), Rgb(255, 185, 71), Rgb(255, 201, 25), Rgb(113, 156, 6),
    Rgb(67, 171, 2), Rgb(69, 196, 120), Rgb(45, 173, 131), Rgb(33, 191, 189), Rgb(34, 148, 214),
    Rgb(31, 79, 209), Rgb(108, 31, 209), Rgb(191, 34, 212), Rgb(212, 34, 141)
  ]

  /** The 5 pastel colours used for the border frame. */
  const BORDER_PALETTE: seq<Rgb> := [
    Rgb(234, 204, 255), Rgb(255, 255, 255), Rgb(255, 251, 171), Rgb(207, 207, 207), Rgb(173, 203, 255)
  ]

  /** A body colour, identified by its palette entry. */
  type BodyColour = i: nat | i < |BODY_PALETTE|

  /** A border colour, identified by its palette entry. */
  type BorderColour = i: nat | i < |BORDER_PALETTE|

  predicate IsChannel(v: int) { 0 <= v < 256 }

  /** Every palette entry is a valid 8-bit colour. */
  lemma PalettesAreColours()
    ensures |BODY_PALETTE| == 14 && |BORDER_PALETTE| == 5
    ensures forall c: BodyColour ::
      IsChannel(BODY_PALETTE[c].r) && IsChannel(BODY_PALETTE[c].g) && IsChannel(BODY_PALETTE[c].b)
    ensures forall c: BorderColour ::
      IsChannel(BORDER_PALETTE[c].r) && IsChannel(BORDER_PALETTE[c].g) && IsChannel(BORDER_PALETTE[c].b)
  {
  }

  /** Two body colours are different entries exactly when their RGB values differ. */
  lemma BodyColoursDistinct(c: BodyColour, d: BodyColour)
    ensures c != d <==> BODY_PALETTE[c] != BODY_PALETTE[d]
  {
  }

  /**
   * The stream of random.choice results over the body palette does not become
   * constant: after every draw some later draw is different. This is what makes
   * the retry loop of PickDistinct terminate.
   */
  ghost predicate NeverSettles(draw: nat -> BodyColour)
  {
    forall n: nat :: ChangesAfter(draw, n)
  }

  /** Some draw after position `n` differs from the draw at `n`. */
  ghost predicate ChangesAfter(draw: nat -> BodyColour, n: nat)
  {
    exists m: nat :: n < m && draw(m) != draw(n)
  }

  /**
   * The colour retry loop: draw once, then redraw while the drawn colour is the
   * previous body's colour. Draws are taken from `draw` starting at position
   * `start`; `next` is the first position not consumed.
   */
  method PickDistinct(prev: BodyColour, draw: nat -> BodyColour, start: nat) returns (c: BodyColour, next: nat)
    requires NeverSettles(draw)
    ensures start < next
    ensures c == draw(next - 1) && c != prev
    ensures forall k :: start <= k < next - 1 ==> draw(k) == prev
  {
    c, next := draw(start), start + 1;
    ghost var stop: nat := start;
    if c == prev {
      assert ChangesAfter(draw, start);
      stop :| start < stop && draw(stop) != draw(start);
    }
    while c == prev
      invariant start < next <= stop + 1
      invariant c == draw(next - 1)
      invariant draw(stop) != prev
      invariant forall k :: start <= k < next - 1 ==> draw(k) == prev
      decreases stop + 1 - next
    {
      c, next := draw(next), next + 1;
    }
  }
}
