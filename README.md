# Solar-system generative art: the planet-placement chain

This project models, in Dafny, how the generator `Solar-System-Generative-Art.py` lays out its scene. The generator fills a black canvas and draws a sun near the bottom edge. It then makes 19 attempts to stack a planet above the last body drawn. An attempt is rejected when the planet would cross the top border. Before each accepted planet it may draw an orbit circle or a ruled line as a guide. Last, it frames the canvas with a border.

The random draws are inputs to the model:

- `sizeDraws`: one raw draw per iteration behind `random.randint(min_size, max_size)`.
- `colourDraw`: the stream of `random.choice` results over the body palette. Draw 0 is the sun's colour.
- `frameColour`: the border colour.

What would be drawn is recorded as values: a `Picture` holding the sun, one `Outcome` per iteration (`Drawn(guide, body)` or `Rejected(center, size)`), and the frame rectangles.

Modules:

- `Palette` (`palette.dfy`): the two palettes and the colour retry loop.
- `Geometry` (`geometry.dfy`): the sun, the candidate-centre formula, the acceptance test and the guides.
- `Border` (`border.dfy`): the four frame rectangles and which pixels they fill.
- `Placement` (`placement.dfy`): the 19-iteration loop. `StepTaken` states what one iteration does, and `Run` chains 19 of them from `Start`. A cursor carries the previous body, the size range and the position in the colour stream. The lemmas derive the chain's properties from `Run`.
- `Composer` (`composer.dfy`): `main` as a whole.

Points where a reading of the code's names or arguments suggests one thing and the code does another; the model follows the code:

- A rejected iteration changes nothing. The statements that widen `min_size`/`max_size` (lines 103-104) are indented under the `if` on line 82, together with lines 100-101. So the bounds do not grow on a rejection, and a later iteration draws from the same range again.
- Guides are not grey. Line 84 passes the grey `.6, .6, .6` to `make_orbit`, but `make_orbit` (lines 14-17) never calls `set_source_rgb` with them, and the ruled-line code (lines 86-88) sets no colour either. A guide is therefore stroked in cairo's current source colour, which is the colour of the body filled last (`Guide.stroke`).
- A ruled line keeps cairo's initial line width of 2. Only `make_orbit` sets a width (4), and it runs only when orbit mode is on.
- `width/2` is Python's true division, so horizontal centres are `real`.
- Palette entries are pairwise distinct constants. The identity test `rand_color is color_prev` is therefore modelled as "different palette index". `BodyColoursDistinct` shows that this is the same as different RGB values.

## Model

| member | source | states |
|---|---|---|
| `Palette.PalettesAreColours` | Solar-System-Generative-Art.py:6-10 | The body palette has 14 entries and the border palette 5. Every channel of every entry is an 8-bit value. |
| `Palette.BodyColoursDistinct` | Solar-System-Generative-Art.py:6-8 | Two body colours are different palette entries exactly when their RGB values differ. So the identity test on line 91 is a value test. |
| `Palette.PickDistinct` | Solar-System-Generative-Art.py:90-94 | The retry loop returns the first draw from `start` on that differs from the previous body's colour. Every draw it skipped was that previous colour. `next` is the first draw not consumed. |
| `Geometry.Sun` | Solar-System-Generative-Art.py:54-69 | The sun is centred horizontally: its x is equally far from both side edges. Its centre lies one border width above the bottom edge. Its radius is the configured sun size. |
| `Geometry.CandidateCenter` | Solar-System-Generative-Art.py:80 | A candidate's lowest point lies exactly `size + 20` above the previous body's highest point. |
| `Geometry.Accepts` | Solar-System-Generative-Art.py:82 | A candidate is accepted exactly when its highest point (`center - size`) is not above the top border line `y = border_size`. A candidate whose highest point lies on the line is accepted. |
| `Geometry.GuideFor` | Solar-System-Generative-Art.py:83-88 | Orbit mode gives a circle about the sun's centre (`width/2`, `height - border_size`) whose radius reaches the planet's centre, with the line width 4 that `make_orbit` (lines 14-17) sets. Otherwise line mode gives a line at the planet's height with a margin of two border widths on each side. Otherwise there is no guide. Orbit wins over line. A guide is stroked in the colour current when it is drawn. |
| `Geometry.CandidateClearsPrevious` | Solar-System-Generative-Art.py:80 | With non-negative radii, a candidate lies strictly above the previous body. The gap between the two centres exceeds the sum of the radii by `size + 20`. |
| `Border.Filled` | Solar-System-Generative-Art.py:25-31 | A filled list of rectangles covers a pixel exactly when one of its rectangles covers it. This union holds for rectangles of one orientation, such as the frame's, under cairo's default winding rule. |
| `Border.Frame` | Solar-System-Generative-Art.py:27-30 | The frame is four rectangles in drawing order: left, top, bottom, right. Each is flush with its own edge of the canvas, spans the full length of that edge, and is `size` thick. |
| `Border.FrameIsRing` | Solar-System-Generative-Art.py:25-31 | Inside the canvas, the four frame rectangles fill exactly the pixels with `x < size`, `y < size`, `x >= width - size` or `y >= height - size`. This holds for every thickness, negative or oversized included. |
| `Placement.RandInt` | Solar-System-Generative-Art.py:79 | A radius drawn from a non-empty range `[lo, hi]` lies in that range. |
| `Placement.RandIntOnto` | Solar-System-Generative-Art.py:79 | Every value of the range is drawn by some raw draw. |
| `Placement.Start` | Solar-System-Generative-Art.py:71-76 | Before the first iteration the previous body is the sun (centre, radius and colour), the size range is `[5, 60]`, and the next colour draw is the given position. |
| `Placement.StepTaken` | Solar-System-Generative-Art.py:78-104 | Every iteration i >= 1 that `StepTaken` admits leaves a non-empty size range and does not move backwards in the colour stream. Its body states the iteration: radius from the current range, centre from `CandidateCenter`, test `Accepts`. An accepted candidate gets its guide, and its planet takes the first colour draw from the cursor's position that differs from the previous body's colour. The skipped draws were that colour. The cursor then holds the planet, the range grows by 5 and by `5*i`, and the position moves past the draws used. A rejection records the candidate and leaves the cursor, position included, unchanged. |
| `Placement.StepDeterministic` | Solar-System-Generative-Art.py:78-104 | An iteration has exactly one outcome: the same cursor and draws admit a single outcome and a single next cursor. So the colour of a planet and the draws it uses are fixed by the colour stream. |
| `Placement.RunDeterministic` | Solar-System-Generative-Art.py:70-104 | A run (`Run`: `Start`, then 19 `StepTaken` iterations) is fixed by its inputs: two runs from the same sun and draws have the same trace and cursors. |
| `Placement.Planets` | Solar-System-Generative-Art.py:98 | The planets drawn are at most as many as the iterations. None are drawn if every candidate is rejected, and one per iteration if none is. |
| `Placement.PlacePlanets` | Solar-System-Generative-Art.py:70-104 | The loop produces a trace and cursors satisfying `Run` from `Start(sun, start)`: each iteration is a `StepTaken` step. Planet colours are the first draws from the stream that differ from the previous body's colour, and a rejected iteration consumes no colour draw. `next` is the position in the colour stream after the last draw used. |
| `Placement.RejectionChangesNothing` | Solar-System-Generative-Art.py:82-104 | A rejected iteration leaves centre, radius, colour, `min_size` and `max_size` unchanged, consumes no colour draw and adds no planet. |
| `Placement.StepKeepsCursor` | Solar-System-Generative-Art.py:79-104 | If the cursor holds the last body of the chain, it still does after one iteration, with the drawn planet appended. `min_size` stays `5 + 5k` for k planets, the range stays non-empty, and the colour position does not move backwards. |
| `Placement.PlanetsOfPrefix` | Solar-System-Generative-Art.py:78-104 | One more iteration adds its planet, if any, to the end of the planets drawn so far. |
| `Placement.CursorInvariant` | Solar-System-Generative-Art.py:71-104 | Before each iteration the cursor holds the last drawn body (the sun if none yet). `min_size` equals `5 + 5k` after k drawn planets, `min_size <= max_size`, and the colour position is at or past the first one. |
| `Placement.StepKeepsWellPlaced` | Solar-System-Generative-Art.py:79-104 | One iteration keeps the drawn chain well placed: centred, stacked by the centre formula, adjacent colours distinct, clear of the top border, j-th planet's radius at least `5j`. |
| `Placement.ChainGrows` | Solar-System-Generative-Art.py:78-104 | Iteration k keeps the sun followed by the planets drawn so far well placed. |
| `Placement.ChainShape` | Solar-System-Generative-Art.py:78-104 | After k iterations at most k planets are drawn (so at most 19 in all). The sun followed by the planets is well placed, as above. |
| `Placement.StackedBodiesApart` | Solar-System-Generative-Art.py:80 | In bodies stacked by the centre formula with non-negative radii, every body lies wholly above every earlier one. |
| `Placement.ChainNeverOverlaps` | Solar-System-Generative-Art.py:78-104 | With a non-negative sun radius, no two drawn bodies overlap, and the centres strictly decrease in drawing order. |
| `Composer.Compose` | Solar-System-Generative-Art.py:54-108 | The scene has the configured size and a black background. The sun comes from `Sun` with colour draw 0. The planets and guides come from a `Run` of the loop that takes its colour draws from position 1 on. The frame is the four border rectangles in the chosen border colour. |

## Left out

- Argument parsing (lines 39-51): the width, height, orbit and line flags, sun size and border size are the fields of `Config`. The random default for the sun size is just another value of that field.
- Randomness: `random.randint` and `random.choice` share one generator in the program. Here the size draws, the body-colour draws and the border colour are separate inputs.
- `Palette.PickDistinct` requires that the colour stream never becomes constant (`NeverSettles`). The program's loop only fails to end when the stream stays at the previous colour forever, so this requirement is slightly stronger than the program's.
- The surface's error path: `cairo.ImageSurface` (line 60) raises an error for a negative or oversized width or height, and the program then stops. `Composer.Compose` returns a `Picture` for every `Config`.
- The cairo calls themselves (surface set-up, `arc`, `fill`, `stroke`, `move_to`/`line_to`): what they would draw is recorded as values. Anti-aliasing and the rasterisation of discs are not modelled. Pixel coverage is modelled for the axis-aligned frame rectangles only.
- The float colour normalisation `/255.0` and the `2*math.pi` arc angles: these are floating point. Colours stay palette entries, and circles are given by centre and radius.
- The grey `(.6, .6, .6)` passed to `make_orbit` is ignored by the program, so it is not part of the model.
- The noise pass (lines 112-121): a floating-point multiplication by `random.uniform`, with unclamped integer truncation of each channel.
- Writing and re-reading the PNG file (lines 111-112, 121): this is file I/O.
