# Koch snowflake geometry, modelled in Dafny

This project models the geometry engine of a Koch-snowflake generator. The
engine exists twice in the repository: once in the web application
(`app.py`) and once in a utility library (`utils/koch.py`). Both copies:

- start from a closed equilateral triangle of four points, (0,0), (s,0),
  (s/2, h) and (0,0) again;
- replace every segment p0 -> p1 of a closed polyline by the four points
  p0, the one-third point, a peak, and the two-third point, then append the
  last input point once;
- repeat that step `n` times and optionally keep a "half" of the points.

Coordinates are exact reals. cos 60° is 1/2 and sin 60° is a parameter `r`
with `r > 0` and `r * r == 3/4` (`Geometry.IsSin60`), so the triangle's
height is `r * side`. The step is written once (`Koch.Step`, computed by the
loop `Koch.Subdivide`) with the direction of the 60-degree turn as a
parameter:

- the web application turns by -60° (`Clockwise`);
- the utility library turns by +60° (`CounterClockwise`).

The base triangle is wound counter-clockwise, so the -60° copy raises its
peaks outside the triangle and the area grows to 4/3 of the triangle's at
depth 1. The +60° copy raises them inside, and the area shrinks to 2/3. This
holds although the comment at utils/koch.py:35 and the docstring at
utils/koch.py:21 say the peaks point outward (see "## Findings").
`KochProperties.FirstPeakPlacement` and `KochProperties.Depth1Area` state
both outcomes.

The modules are:

- `Geometry` (geometry.dfy): points, the cross and dot products, and the
  exact 60-degree rotation matrix.
- `Koch` (koch_step.dfy): the base triangle, the step, its loop and the
  iterated snowflake.
- `KochProperties` (koch_properties.dfy): what the step does to shape, area,
  segment lengths and scale.
- `HalfFilter` (half_filter.dfy): the order-preserving threshold filter and
  the largest coordinate.
- `App` (app.dfy): the web application's step, generator, half types,
  parameter validation and metrics.
- `KochUtils` (koch_utils.dfy): the utility library's step, the list of all
  levels and the filter with tolerance and fallback.

Where the code and the documentation disagree, the model follows the code:

- The web application's half filters have no tolerance and no fallback. A
  filter that kept nothing would return an empty list. On a real snowflake
  that cannot happen (`App.SnowflakeHalvesNonEmpty`).
- The scale error message says the scale must lie between 0.1 and 10. The
  check only rejects `scale <= 0` and `scale > 10`, and `App.Validate` follows
  the check.
- Selecting a half twice is not the same as selecting it once
  (`App.RefilterNotIdempotent`): the threshold comes from the points that
  remain.
- `get_precise_half` defaults to axis "x" and side "left". Axis "x" only
  recognises "inferior" as a lower side, so the defaults select the upper y
  half (`KochUtils.DefaultMaskIsUpper`).

## Model

| member | source | states |
|---|---|---|
| Geometry.RotationMatrix | utils/koch.py:4-7 | the matrix is [[c, -s], [s, c]] with c = cos 60° = 1/2 and s = sin(±60°) |
| Geometry.RotationIsometry | utils/koch.py:4-7 | a 60-degree rotation keeps squared length and makes an angle with cosine 1/2 with the vector it turns |
| Geometry.RotationTurn | app.py:61-68 | the rotated vector lies left of the original for +60° and right of it for -60°: cross product sin(±60°) times the squared length of v |
| Geometry.RotationInverse | utils/koch.py:4-7 | turning by +60° and then by -60° (or the other way round) gives the vector back |
| Koch.BaseTriangle | utils/koch.py:9-16 | the closed base triangle (0,0), (side,0), (side/2, r·side), (0,0); it also models the step-0 branch at app.py:37-47; its properties are in `KochProperties.BaseTriangleEquilateral` |
| Koch.OneThird | utils/koch.py:28-29 | the point p0 + (p1 - p0)/3 |
| Koch.TwoThird | utils/koch.py:28-30 | the point p0 + 2(p1 - p0)/3 |
| Koch.Peak | utils/koch.py:32-37 | the middle-third vector turned by 60° in the given sense, added to the one-third point; its position is in `KochProperties.PeakSide` and `KochProperties.PeakEquilateral` |
| Koch.Quad | utils/koch.py:40-43 | the four points one segment contributes: p0, one third, peak, two thirds |
| Koch.Segments | utils/koch.py:25-43 | the four-point groups of all segments, in order; their layout is in `Koch.SegmentsAt` |
| Koch.Step | utils/koch.py:23-47 | one step: the four-point groups of every segment followed by the last input point; its shape is in `Koch.StepShape` |
| Koch.SegmentsLength | utils/koch.py:25-43 | the per-segment points number four per segment of the input |
| Koch.SegmentsAt | utils/koch.py:25-43 | segment i's four points sit at positions 4i..4i+3, in the order p0, one third, peak, two thirds |
| Koch.StepShape | utils/koch.py:23-47 | one step has 4(N-1)+1 points; out[4i] is input point i; out[4i+1] and out[4i+3] are the 1/3 and 2/3 points; out[4i+2] is the peak; the last point is kept; closed input gives closed output |
| Koch.Subdivide | app.py:49-76 | the segment loop with its extend and final append computes exactly one step; loop invariant: the output so far is the four-point groups of the first i segments (`Segments` of the first i+1 points), without the closing point |
| Koch.Depth | app.py:96 | a loop `for i in range(1, n + 1)` runs n steps, and none when n < 0 |
| Koch.Snowflake | app.py:91-100 | the base triangle stepped `depth` times is never empty (its meaning is in the lemmas below) |
| Koch.SnowflakeLength | app.py:91-100 | the base triangle stepped `depth` times has 3·4^depth + 1 points |
| Koch.StepCount | utils/koch.py:23-47 | helper of `Koch.SnowflakeLength`: one step turns a polyline of 3·4^(n-1) segments into one of 3·4^n segments |
| Koch.SnowflakeClosed | utils/koch.py:49-60 | every level is closed and starts and ends at the origin |
| Koch.SnowflakeNext | app.py:96-98 | level d+1 is one step applied to level d |
| KochProperties.BaseTriangleEquilateral | utils/koch.py:9-16 | the base triangle is (0,0), (side,0), (side/2, h), (0,0) with h² = 3/4·side²; its three sides each have squared length side²; it is wound counter-clockwise |
| KochProperties.PeakSide | app.py:65-70 | the peak lies on the side of the segment given by the turn; cross product sin(±60°) times the squared length of p1-p0, over 3 |
| KochProperties.PeakEquilateral | utils/koch.py:32-37 | each bump, made of the one-third point, the peak and the two-third point, is an equilateral triangle with side one third of the segment |
| KochProperties.FirstPeak | app.py:62-70 | at depth 1 the first peak is (side/2, sin(±60°)·side/3): y = -r·side/3 for the web copy and +r·side/3 for the utility copy |
| KochProperties.BasePeak | app.py:62-70 | the peak raised on the base edge (0,0)->(side,0) is (side/2, sin(±60°)·side/3) |
| KochProperties.FirstPeakPlacement | utils/koch.py:35-37 | the -60° first peak lies below the base and outside the triangle; the +60° first peak lies strictly inside it |
| KochProperties.BumpAreasSum | app.py:52-73 | helper of `KochProperties.StepArea`: summing each bump's signed area gives sin(±60°)/9 times the sum of the squared segment lengths |
| KochProperties.StepArea | app.py:52-75 | one step changes twice the signed area by -sin(±60°)/9 times the sum of the squared segment lengths |
| KochProperties.BaseShoelace | utils/koch.py:9-16 | twice the base triangle's signed area is r·side² |
| KochProperties.BaseSquaredLengths | utils/koch.py:9-16 | the base triangle's squared sides sum to 3·side² |
| KochProperties.Depth1Area | app.py:61-63 | at depth 1 the -60° shape encloses 4/3 of the triangle's area and the +60° shape 2/3 of it |
| KochProperties.SnowflakeScale | app.py:37-47 | the snowflake of side k·side is the snowflake of side `side` with every point multiplied by k |
| KochProperties.StepScale | utils/koch.py:23-47 | a step commutes with multiplying every point by k |
| KochProperties.BaseTriangleScale | utils/koch.py:9-16 | the triangle of side k·side is the scaled triangle of side `side` |
| KochProperties.QuadLengths | app.py:56-70 | the four pieces of a segment each have one ninth of its squared length |
| KochProperties.StepUniform | utils/koch.py:25-47 | if all segments share one squared length L, after a step all share L/9 |
| KochProperties.SegmentLength2Step | app.py:322 | helper of `KochProperties.SnowflakeSegmentLength`: the squared length (side/3^n)² shrinks by a factor of nine per level |
| KochProperties.BaseUniform | utils/koch.py:9-16 | all three sides of the base triangle have squared length side² |
| KochProperties.SnowflakeSegmentLength | app.py:91-100 | every segment at depth n has squared length (side/3^n)² |
| HalfFilter.Passes | app.py:105-120 | the test one point must pass: its chosen coordinate is <= the limit, or >= it |
| HalfFilter.IsHalf | app.py:108 | the reference meaning of a half: an order-preserving subsequence holding every passing point as often as the input and no failing point |
| HalfFilter.MaxCoord | app.py:107 | the result is attained by some point and bounds every point's coordinate |
| HalfFilter.Keep | app.py:108 | the filter never returns more points than it is given |
| HalfFilter.KeepIsHalf | app.py:108 | the kept points are an order-preserving subsequence holding each passing point as often as the input and no failing point; the result is empty exactly when no point passes |
| HalfFilter.KeepOrdered | app.py:108 | the kept points are an order-preserving subsequence of the input |
| HalfFilter.KeepCounts | app.py:108 | each passing point is kept as often as it occurs; a failing point is never kept |
| HalfFilter.KeepEmpty | app.py:108 | nothing is kept exactly when no point passes |
| HalfFilter.KeepContains | app.py:108 | every passing point of the input is kept |
| HalfFilter.KeepShrinks | app.py:108 | the kept points hold each point at most as often as the input |
| HalfFilter.KeepMonotone | utils/koch.py:75-83 | a looser test keeps a superset, counting repeated points |
| HalfFilter.SubsequenceCounts | app.py:108 | a subsequence holds no point more often than the sequence |
| HalfFilter.HalfIsUnique | app.py:108 | the order-preserving subsequence with exactly the passing points is unique, so it is `Keep`'s result |
| HalfFilter.SelfSubsequence | app.py:104 | returning the points unchanged is a subsequence of them |
| App.ExternalStep | app.py:25-76 | step 0 returns the base triangle of side 1.0·scale_factor, which is closed; any other step returns one -60° step of the points, with 4(N-1)+1 points and the last point kept |
| App.IsFilter | app.py:105-120 | the four names that filter: inferior, superior, izquierda, derecha |
| App.FilterOf | app.py:103-122 | exactly the four names inferior, superior, izquierda and derecha select a filter; "complete" and every other string select none |
| App.Threshold | app.py:107-120 | the test's limit is half the largest coordinate; the test keeps ">=" for the upper halves and "<=" for the lower ones |
| App.SelectHalf | app.py:102-122 | the result has at most as many points as the input; with no filter it is all of them |
| App.HalfTypeTests | app.py:105-120 | inferior keeps y <= max y / 2, superior keeps y >= max y / 2, izquierda keeps x <= max x / 2 and derecha keeps x >= max x / 2 |
| App.SelectHalfIsHalf | app.py:102-122 | the result is a subsequence of the points; a filter keeps exactly the passing points, in order, with no tolerance and no fallback, and is empty exactly when no point passes |
| App.GenerateKochSnowflake | app.py:78-122 | the iteration loop returns the half of the snowflake of depth max(iterations, 0); without a filter the result has 3·4^n + 1 points, is closed and starts at the origin |
| App.CompleteIsSnowflake | app.py:103-104 | "complete" and unknown half types return the whole closed snowflake with 3·4^n + 1 points |
| App.HalvesCover | app.py:105-120 | every point is in the lower or the upper half of each axis |
| App.HalvesNonEmpty | app.py:105-120 | a point list holding the origin keeps the origin in its lower half and some point in its upper half |
| App.SnowflakeHalvesNonEmpty | app.py:105-120 | no half of a snowflake is empty; the lower halves contain the origin |
| App.RefilterNotIdempotent | app.py:105-108 | selecting the inferior half of [(0,4), (0,2), (0,0)] gives [(0,2), (0,0)]; selecting it again gives [(0,0)] |
| App.Validate | app.py:309-314 | the first failing check is reported: iterations outside 0..8, then scale <= 0 or > 10, then a half type outside the five allowed; none is reported exactly when all pass |
| App.ErrorMessage | app.py:309-314 | the three 400 messages, one per failed check, verbatim |
| App.EstimatedLength | app.py:322 | the number of segments times scale/3^iterations; its meaning is in `App.CompleteLengthIsPerimeter` |
| App.GenerateKochApi | app.py:308-322 | invalid parameters give status 400 with the first check's message; valid ones generate the half, and the metadata echo the parameters with total_points = point count, total_segments = total_points - 1 and estimated_length = total_segments · scale / 3^iterations |
| App.CompleteLengthIsPerimeter | app.py:320-322 | for the complete snowflake every segment has length scale/3^n > 0, so the estimated length 3·4^n · scale/3^n is its exact perimeter |
| App.LengthOfSegments | app.py:320-322 | helper of `App.CompleteLengthIsPerimeter`: for 3·4^n segments the estimated length is 3·4^n times scale/3^n |
| App.DefaultMetrics | app.py:295-322 | with the defaults (4 iterations, scale 2.0, complete) the endpoint reports 769 points, 768 segments and length 512/27 |
| KochUtils.KochExternalStep | utils/koch.py:18-47 | one +60° step: 4(N-1)+1 points, the last point kept, and a closed input gives a closed output |
| KochUtils.LevelsExtend | utils/koch.py:57-59 | appending one step of the last level to a list of levels 0..k gives levels 0..k+1 |
| KochUtils.KochIterations | utils/koch.py:49-60 | returns max(order, 0) + 1 levels: level 0 is the base triangle of side 1.0·scale, each level is one step of the one before, and level i is the snowflake of depth i |
| KochUtils.LevelsClosed | utils/koch.py:49-53 | every returned level is closed and level i has 3·4^i + 1 points |
| KochUtils.Mask | utils/koch.py:71-83 | axis "x" compares y and any other axis compares x; "inferior" (axis "x") or "left"/"izquierda" (other axes) keep coordinate <= max/2 + 1e-12; any other side keeps >= max/2 - 1e-12 |
| KochUtils.DefaultMaskIsUpper | utils/koch.py:62-77 | the default arguments, axis "x" and side "left", keep y >= max y / 2 - 1e-12, the upper half |
| KochUtils.GetPreciseHalf | utils/koch.py:62-90 | never empty; when no point passes the mask, the whole input |
| KochUtils.PreciseHalfIsHalf | utils/koch.py:62-90 | a subsequence of the input; when some point passes the mask, exactly the passing points in order |
| KochUtils.ExactMask | utils/koch.py:71-83 | the same axis and direction as the precise mask, with the exact threshold max/2 |
| KochUtils.ToleranceWidens | utils/koch.py:75-83 | the tolerance only adds points: the exact half is contained in the precise half |
| KochUtils.WidenedHalf | utils/koch.py:85-90 | a looser test with the whole-input fallback keeps every point a stricter test keeps |
| KochUtils.ToleranceMatters | utils/koch.py:74-75 | with highest y 2, the point at y = 1 + 1e-13 is dropped by the exact test but kept by the precise inferior half |

## Left out

- HTTP plumbing is not modelled: the Flask routes, request parsing, `render_template`, `jsonify`, `redirect` and CORS (app.py:198-253, 285-306, 351-410). `App.GenerateKochApi` starts from parameters that are already parsed.
- Any exception becomes a 500 response in the source (app.py:347-349). It can arise in parsing, such as a failed `int()`/`float()` conversion, and in rendering, such as a `color` that matplotlib rejects in `create_koch_image`. That path is not modelled: `App.GenerateKochApi` starts from parsed parameters and assumes rendering succeeds, so it returns `Generated` for every valid input.
- The HTML form route repeats the iteration and scale checks (app.py:217-221). It is not modelled separately.
- Image rendering is not modelled: matplotlib plotting, base64 encoding and `savefig` (`create_koch_image`, app.py:124-196). It is a foreign library with global state.
- The `return_image` flag and the `image_base64` field are not modelled, for the same reason.
- File listing, deletion and serving, and the timestamped file names (app.py:227-229, 255-283, 374-389), are not modelled. They are file-system I/O.
- `generated_at` (wall clock) and `fractal_dimension` (logarithms) are not modelled.
- App.GenerateKochApi: the estimated length is exact. It is not rounded to four decimals, because `round` works on binary floating point.
- Floating point is not modelled: `np.sqrt(3)/2`, `np.cos` and `np.sin` are exact values (cos 60° = 1/2, sin 60° = `r` with r² = 3/4). The tolerance 1e-12 is an exact real, so float rounding and the cases where the tolerance absorbs rounding are not captured.
- The point arrays are modelled as sequences of points. NumPy array shapes and the `np.array(points)` conversion in `get_precise_half` are not modelled.
- `step == 0` in `koch_snowflake_external_step` ignores `points`; in the source that argument is `None`. The model passes any list there.
- App.ExternalStep and KochUtils.KochExternalStep require at least one point when they subdivide, because the source indexes `points[-1]` and fails on an empty list.
- App.SelectHalf, KochUtils.Mask and KochUtils.GetPreciseHalf require a non-empty list when a threshold is computed, because `np.max` fails on an empty array.
- The `rotation_matrix` angle is limited to ±60°, the only angles the source passes.

## Findings

| source | as written | input that shows it | evidently intended | confidence | as-written member | corrected member |
|---|---|---|---|---|---|---|
| utils/koch.py:35-37 | the +60° turn on the counter-clockwise base triangle raises each peak inside the triangle, although the comment says outward | side 1: the first peak at depth 1 is (1/2, r/3), strictly inside the triangle (`KochProperties.FirstPeakPlacement`); the area shrinks to 2/3 (`KochProperties.Depth1Area`) | outward peaks, which the -60° turn of the web copy gives: the first peak lies below the base and the area grows to 4/3 (`KochProperties.FirstPeakPlacement`, `KochProperties.Depth1Area`) | not executed | KochUtils.KochExternalStep | App.ExternalStep |
