/**
 * The planet-placement chain of main(): 19 candidate placements that each
 * either draw a planet above the last drawn body or are rejected because the
 * planet would cross the top border.
 *
 * Random draws are inputs. `sizeDraws[i - 1]` is the raw draw behind
 * random.randint(min_size, max_size) in iteration i; `colourDraw` is the
 * stream of random.choice results over the body palette (position 0 is the
 * sun's colour).
 */
module Placement {
  import opened Palette
  import opened Geometry

  /** Number of candidate placements: the loop runs over i in 1..19. */
  const ITERATIONS := 19

  /** The radius range before any planet is drawn. */
  const FIRST_MIN_SIZE := 5
  const FIRST_MAX_SIZE := 60

  /** How much min_size grows per drawn planet. */
  const MIN_SIZE_STEP := 5

  /**
   * The placement cursor: the last drawn body's centre, radius and colour and
   * the current radius range, as carried from one iteration to the next, and
   * the position of the first colour draw not yet consumed.
   */
  datatype Cursor = Cursor(center: int, size: int, colour: BodyColour, minSize: int, maxSize: int, pos: nat)

  /** What one iteration produced: a guide and a planet, or a rejected candidate and nothing drawn. */
  datatype Outcome =
    | Drawn(guide: Guide, body: Body)
    | Rejected(center: int, size: int)

  /**
   * The cursor before the first iteration: the sun is the previous body, the
   * radius range is the initial non-empty one, and colour draws are taken
   * from position `start` on.
   */
  function Start(sun: Body, start: nat): (c: Cursor)
    ensures c.center == sun.cy && c.size == sun.radius && c.colour == sun.colour
    ensures FIRST_MIN_SIZE == c.minSize <= c.maxSize == FIRST_MAX_SIZE
    ensures c.pos == start
  {
    Cursor(sun.cy, sun.radius, sun.colour, FIRST_MIN_SIZE, FIRST_MAX_SIZE, start)
  }

  /** random.randint(lo, hi) driven by the raw draw `draw`; the range must not be empty. */
  function RandInt(lo: int, hi: int, draw: nat): (r: int)
    requires lo <= hi
    ensures lo <= r <= hi
  {
    lo + draw % (hi - lo + 1)
  }

  /** Every value of the range is the result of some draw. */
  lemma RandIntOnto(lo: int, hi: int, v: int)
    requires lo <= v <= hi
    ensures RandInt(lo, hi, v - lo) == v
  {
  }

  /**
   * One iteration i of the loop, from cursor `before` to cursor `after`. The
   * radius range must not be empty. An accepted candidate records its guide
   * (stroked in the previous body's colour) and its planet, whose colour is the
   * first colour draw from `before.pos` on that differs from the previous
   * body's; the planet becomes the previous body and the range widens. A
   * rejected candidate draws nothing, consumes no colour draw and leaves the
   * cursor as it was. A step keeps the range non-empty and never moves back in
   * the colour draws.
   */
  predicate StepTaken(cfg: Config, colourDraw: nat -> BodyColour, i: int, draw: nat, before: Cursor, out: Outcome, after: Cursor): (ok: bool)
    ensures ok && 1 <= i ==> after.minSize <= after.maxSize && before.pos <= after.pos
  {
    before.minSize <= before.maxSize &&
    var size := RandInt(before.minSize, before.maxSize, draw);
    var center := CandidateCenter(before.center, before.size, size);
    if Accepts(center, size, cfg.borderSize) then
      && out.Drawn?
      && out.guide == GuideFor(cfg, center, before.colour)
      && before.pos < after.pos
      && out.body == Body(MidX(cfg), center, size, colourDraw(after.pos - 1))
      && out.body.colour != before.colour
      && (forall k :: before.pos <= k < after.pos - 1 ==> colourDraw(k) == before.colour)
      && after == Cursor(center, size, out.body.colour, before.minSize + MIN_SIZE_STEP, before.maxSize + 5 * i, after.pos)
    else
      out == Rejected(center, size) && after == before
  }

  /**
   * A complete run of the loop: one outcome per iteration and the cursor before
   * each iteration and after the last, starting from the sun with colour draws
   * from position `start` on.
   */
  predicate Run(cfg: Config, sun: Body, sizeDraws: seq<nat>, colourDraw: nat -> BodyColour, start: nat,
                trace: seq<Outcome>, cursors: seq<Cursor>)
  {
    && |sizeDraws| == ITERATIONS && |trace| == ITERATIONS && |cursors| == ITERATIONS + 1
    && cursors[0] == Start(sun, start)
    && forall i :: 0 <= i < ITERATIONS ==>
      StepTaken(cfg, colourDraw, i + 1, sizeDraws[i], cursors[i], trace[i], cursors[i + 1])
  }

  /**
   * One iteration has exactly one outcome: the radius, the acceptance, the
   * planet's colour and the colour draws consumed are all fixed by the cursor
   * and the draws.
   */
  lemma StepDeterministic(cfg: Config, colourDraw: nat -> BodyColour, i: int, draw: nat, before: Cursor,
                          out1: Outcome, after1: Cursor, out2: Outcome, after2: Cursor)
    requires StepTaken(cfg, colourDraw, i, draw, before, out1, after1)
    requires StepTaken(cfg, colourDraw, i, draw, before, out2, after2)
    ensures out1 == out2 && after1 == after2
  {
  }

  /** A run is fixed by its inputs: two runs from the same sun and draws agree. */
  lemma {:induction false} RunDeterministic(cfg: Config, sun: Body, sizeDraws: seq<nat>, colourDraw: nat -> BodyColour, start: nat,
                                            trace1: seq<Outcome>, cursors1: seq<Cursor>, trace2: seq<Outcome>, cursors2: seq<Cursor>, k: nat)
    requires Run(cfg, sun, sizeDraws, colourDraw, start, trace1, cursors1)
    requires Run(cfg, sun, sizeDraws, colourDraw, start, trace2, cursors2)
    requires k <= ITERATIONS
    ensures trace1[..k] == trace2[..k] && cursors1[..k + 1] == cursors2[..k + 1]
  {
    if k > 0 {
      RunDeterministic(cfg, sun, sizeDraws, colourDraw, start, trace1, cursors1, trace2, cursors2, k - 1);
      assert cursors1[k - 1] == cursors2[k - 1] by {
        assert cursors1[k - 1] == cursors1[..k][k - 1] && cursors2[k - 1] == cursors2[..k][k - 1];
      }
      assert StepTaken(cfg, colourDraw, k, sizeDraws[k - 1], cursors1[k - 1], trace1[k - 1], cursors1[k]);
      assert StepTaken(cfg, colourDraw, k, sizeDraws[k - 1], cursors2[k - 1], trace2[k - 1], cursors2[k]);
      StepDeterministic(cfg, colourDraw, k, sizeDraws[k - 1], cursors1[k - 1],
                        trace1[k - 1], cursors1[k], trace2[k - 1], cursors2[k]);
      assert trace1[..k] == trace1[..k - 1] + [trace1[k - 1]];
      assert trace2[..k] == trace2[..k - 1] + [trace2[k - 1]];
      assert cursors1[..k + 1] == cursors1[..k] + [cursors1[k]];
      assert cursors2[..k + 1] == cursors2[..k] + [cursors2[k]];
    }
  }

  /** The planets drawn by a trace, in drawing order. */
  function Planets(trace: seq<Outcome>): (ps: seq<Body>)
    ensures |ps| <= |trace|
    ensures (forall k :: 0 <= k < |trace| ==> trace[k].Rejected?) ==> ps == []
    ensures (forall k :: 0 <= k < |trace| ==> trace[k].Drawn?) ==> |ps| == |trace|
  {
    if trace == [] then []
    else
      var last := trace[|trace| - 1];
      Planets(trace[..|trace| - 1]) + if last.Drawn? then [last.body] else []
  }

  /**
   * The main loop of main(): runs the 19 iterations, consuming colour draws from
   * position `start` on; `next` is the first colour draw left unused.
   */
  method PlacePlanets(cfg: Config, sun: Body, sizeDraws: seq<nat>, colourDraw: nat -> BodyColour, start: nat)
    returns (trace: seq<Outcome>, cursors: seq<Cursor>, next: nat)
    requires |sizeDraws| == ITERATIONS
    requires NeverSettles(colourDraw)
    ensures Run(cfg, sun, sizeDraws, colourDraw, start, trace, cursors)
    ensures next == cursors[ITERATIONS].pos
  {
    var centerPrev, sizePrev, colourPrev := sun.cy, sun.radius, sun.colour;
    var minSize, maxSize := FIRST_MIN_SIZE, FIRST_MAX_SIZE;
    trace, cursors, next := [], [Start(sun, start)], start;
    for i := 1 to ITERATIONS + 1
      invariant |trace| == i - 1 && |cursors| == i
      invariant cursors[0] == Start(sun, start)
      invariant cursors[i - 1] == Cursor(centerPrev, sizePrev, colourPrev, minSize, maxSize, next)
      invariant minSize <= maxSize
      invariant forall k :: 0 <= k < i - 1 ==>
        StepTaken(cfg, colourDraw, k + 1, sizeDraws[k], cursors[k], trace[k], cursors[k + 1])
    {
      var nextSize := RandInt(minSize, maxSize, sizeDraws[i - 1]);
      var nextCenter := CandidateCenter(centerPrev, sizePrev, nextSize);
      if Accepts(nextCenter, nextSize, cfg.borderSize) {
        var guide := GuideFor(cfg, nextCenter, colourPrev);
        var colour;
        colour, next := PickDistinct(colourPrev, colourDraw, next);
        trace := trace + [Drawn(guide, Body(MidX(cfg), nextCenter, nextSize, colour))];
        colourPrev := colour;
        centerPrev, sizePrev := nextCenter, nextSize;
        minSize, maxSize := minSize + MIN_SIZE_STEP, maxSize + 5 * i;
      } else {
        trace := trace + [Rejected(nextCenter, nextSize)];
      }
      cursors := cursors + [Cursor(centerPrev, sizePrev, colourPrev, minSize, maxSize, next)];
    }
  }

  /**
   * A rejected iteration changes no part of the cursor, consumes no colour
   * draw and adds no planet.
   */
  lemma RejectionChangesNothing(cfg: Config, sun: Body, sizeDraws: seq<nat>, colourDraw: nat -> BodyColour, start: nat, trace: seq<Outcome>, cursors: seq<Cursor>, i: nat)
    requires Run(cfg, sun, sizeDraws, colourDraw, start, trace, cursors)
    requires i < ITERATIONS && trace[i].Rejected?
    ensures cursors[i + 1] == cursors[i] && cursors[i + 1].pos == cursors[i].pos
    ensures Planets(trace[..i + 1]) == Planets(trace[..i])
  {
    assert trace[..i + 1][..i] == trace[..i];
  }

  /**
   * The cursor describes the last body of `chain` and min_size counts the
   * planets in it.
   */
  predicate Describes(c: Cursor, chain: seq<Body>)
  {
    && chain != []
    && var last := chain[|chain| - 1];
    && c.center == last.cy && c.size == last.radius && c.colour == last.colour
    && c.minSize == FIRST_MIN_SIZE + MIN_SIZE_STEP * (|chain| - 1)
  }

  /** One iteration keeps the cursor describing the chain and the range non-empty. */
  lemma StepKeepsCursor(cfg: Config, colourDraw: nat -> BodyColour, chain: seq<Body>, i: int, draw: nat, before: Cursor, out: Outcome, after: Cursor)
    requires Describes(before, chain) && 1 <= i
    requires StepTaken(cfg, colourDraw, i, draw, before, out, after)
    ensures Describes(after, chain + if out.Drawn? then [out.body] else [])
    ensures after.minSize <= after.maxSize && before.pos <= after.pos
  {
  }

  /** Extending a trace by one outcome extends its planets by that outcome's planet, if any. */
  lemma PlanetsOfPrefix(trace: seq<Outcome>, k: nat)
    requires 0 < k <= |trace|
    ensures Planets(trace[..k]) == Planets(trace[..k - 1]) + if trace[k - 1].Drawn? then [trace[k - 1].body] else []
  {
    assert trace[..k][..k - 1] == trace[..k - 1];
  }

  /**
   * Before iteration k + 1 the cursor describes the last drawn body (the sun if
   * none yet), min_size is 5 more per planet drawn so far, the radius range is
   * not empty and no colour draw before `start` has been used.
   */
  lemma {:induction false} CursorInvariant(cfg: Config, sun: Body, sizeDraws: seq<nat>, colourDraw: nat -> BodyColour, start: nat, trace: seq<Outcome>, cursors: seq<Cursor>, k: nat)
    requires Run(cfg, sun, sizeDraws, colourDraw, start, trace, cursors)
    requires k <= ITERATIONS
    ensures Describes(cursors[k], [sun] + Planets(trace[..k]))
    ensures cursors[k].minSize <= cursors[k].maxSize
    ensures start <= cursors[k].pos
  {
    if k > 0 {
      CursorInvariant(cfg, sun, sizeDraws, colourDraw, start, trace, cursors, k - 1);
      PlanetsOfPrefix(trace, k);
      var before := [sun] + Planets(trace[..k - 1]);
      assert StepTaken(cfg, colourDraw, k, sizeDraws[k - 1], cursors[k - 1], trace[k - 1], cursors[k]);
      StepKeepsCursor(cfg, colourDraw, before, k, sizeDraws[k - 1], cursors[k - 1], trace[k - 1], cursors[k]);
      assert [sun] + Planets(trace[..k]) == before + if trace[k - 1].Drawn? then [trace[k - 1].body] else [];
    }
  }

  /**
   * The shape of the drawn bodies, the sun first: every planet is centred
   * horizontally, placed by CandidateCenter above the body drawn before it,
   * coloured differently from it, clear of the top border, and of radius at
   * least 5 times its position in the chain.
   */
  predicate WellPlaced(cfg: Config, chain: seq<Body>)
  {
    forall j :: 1 <= j < |chain| ==>
      && chain[j].cx == MidX(cfg)
      && chain[j].cy == CandidateCenter(chain[j - 1].cy, chain[j - 1].radius, chain[j].radius)
      && chain[j].colour != chain[j - 1].colour
      && chain[j].Top() >= cfg.borderSize
      && chain[j].radius >= 5 * j
  }

  /** One iteration keeps the chain well placed, given a cursor that describes its last body. */
  lemma StepKeepsWellPlaced(cfg: Config, colourDraw: nat -> BodyColour, chain: seq<Body>, i: int, draw: nat, before: Cursor, out: Outcome, after: Cursor)
    requires WellPlaced(cfg, chain) && Describes(before, chain)
    requires StepTaken(cfg, colourDraw, i, draw, before, out, after)
    ensures WellPlaced(cfg, chain + if out.Drawn? then [out.body] else [])
  {
  }

  /**
   * After k iterations the drawn bodies, the sun first, are well placed and at
   * most k planets have been drawn.
   */
  lemma {:induction false} ChainShape(cfg: Config, sun: Body, sizeDraws: seq<nat>, colourDraw: nat -> BodyColour, start: nat, trace: seq<Outcome>, cursors: seq<Cursor>, k: nat)
    requires Run(cfg, sun, sizeDraws, colourDraw, start, trace, cursors)
    requires k <= ITERATIONS
    ensures |Planets(trace[..k])| <= k
    ensures WellPlaced(cfg, [sun] + Planets(trace[..k]))
  {
    if k > 0 {
      ChainShape(cfg, sun, sizeDraws, colourDraw, start, trace, cursors, k - 1);
      CursorInvariant(cfg, sun, sizeDraws, colourDraw, start, trace, cursors, k - 1);
      assert StepTaken(cfg, colourDraw, k, sizeDraws[k - 1], cursors[k - 1], trace[k - 1], cursors[k]);
      ChainGrows(cfg, colourDraw, sun, trace, k, sizeDraws[k - 1], cursors[k - 1], cursors[k]);
    }
  }

  /** Iteration k keeps the drawn bodies of the trace well placed. */
  lemma ChainGrows(cfg: Config, colourDraw: nat -> BodyColour, sun: Body, trace: seq<Outcome>, k: nat, draw: nat, before: Cursor, after: Cursor)
    requires 0 < k <= |trace|
    requires WellPlaced(cfg, [sun] + Planets(trace[..k - 1])) && Describes(before, [sun] + Planets(trace[..k - 1]))
    requires StepTaken(cfg, colourDraw, k, draw, before, trace[k - 1], after)
    ensures WellPlaced(cfg, [sun] + Planets(trace[..k]))
  {
    PlanetsOfPrefix(trace, k);
    var chain := [sun] + Planets(trace[..k - 1]);
    StepKeepsWellPlaced(cfg, colourDraw, chain, k, draw, before, trace[k - 1], after);
    assert [sun] + Planets(trace[..k]) == chain + if trace[k - 1].Drawn? then [trace[k - 1].body] else [];
  }

  /**
   * Bodies stacked by CandidateCenter with non-negative radii never overlap:
   * every body lies wholly above every body drawn before it.
   */
  lemma {:induction false} StackedBodiesApart(chain: seq<Body>)
    requires forall j :: 0 <= j < |chain| ==> chain[j].radius >= 0
    requires forall j :: 1 <= j < |chain| ==>
      chain[j].cy == CandidateCenter(chain[j - 1].cy, chain[j - 1].radius, chain[j].radius)
    ensures forall j, l :: 0 <= j < l < |chain| ==> chain[l].Bottom() < chain[j].Top()
  {
    if |chain| > 1 {
      var n := |chain| - 1;
      StackedBodiesApart(chain[..n]);
      assert forall j :: 0 <= j < n ==> chain[..n][j] == chain[j];
      CandidateClearsPrevious(chain[n - 1], chain[n].radius);
    }
  }

  /**
   * With a non-negative sun radius, the drawn bodies of a run never overlap and
   * their centres strictly decrease (each lies higher on the canvas).
   */
  lemma ChainNeverOverlaps(cfg: Config, sun: Body, sizeDraws: seq<nat>, colourDraw: nat -> BodyColour, start: nat, trace: seq<Outcome>, cursors: seq<Cursor>)
    requires Run(cfg, sun, sizeDraws, colourDraw, start, trace, cursors)
    requires sun.radius >= 0
    ensures var chain := [sun] + Planets(trace);
      forall j, l :: 0 <= j < l < |chain| ==> chain[l].Bottom() < chain[j].Top() && chain[l].cy < chain[j].cy
  {
    ChainShape(cfg, sun, sizeDraws, colourDraw, start, trace, cursors, ITERATIONS);
    assert trace[..ITERATIONS] == trace;
    var chain := [sun] + Planets(trace);
    assert forall j :: 1 <= j < |chain| ==> chain[j].radius >= 5 * j;
    StackedBodiesApart(chain);
  }
}
