/** The web application's copy of the geometry engine (app.py): one step with
    outward (-60°) peaks, the iteration with its half selection, and the
    validation and metrics of the generation endpoint. */
module App {
  import opened Geometry
  import opened Koch
  import opened KochProperties
  import opened HalfFilter

  /** app.py turns every peak by -60°. */
  const AppSense: Sense := Clockwise

  /** One call of the step function: `step == 0` ignores `points` and builds
      the base triangle of side `1.0 * scaleFactor`; any other `step`
      subdivides `points` once. */
  method ExternalStep(points: seq<Point>, step: int, scaleFactor: real, r: real)
    returns (out: seq<Point>)
    requires step != 0 ==> |points| > 0
    ensures step == 0 ==> out == BaseTriangle(1.0 * scaleFactor, r) && Closed(out)
    ensures step != 0 ==> out == Step(points, AppSense, r)
    ensures step != 0 ==> |out| == 4 * (|points| - 1) + 1 && Last(out) == Last(points)
  {
    if step == 0 {
      var sideLength := 1.0 * scaleFactor;
      var height := r * sideLength;
      var p1, p2, p3 := Point(0.0, 0.0), Point(sideLength, 0.0), Point(sideLength / 2.0, height);
      out := [p1, p2, p3, p1];
      var t := BaseTriangle(sideLength, r);
      assert |t| == 4 && t[0] == out[0] && t[1] == out[1] && t[2] == out[2] && t[3] == out[3];
      return;
    }
    out := Subdivide(points, AppSense, r);
  }

  /** The half types the generation endpoint accepts. */
  const HalfTypes: seq<string> := ["complete", "inferior", "superior", "izquierda", "derecha"]

  /** The half types that filter the points. */
  predicate IsFilter(halfType: string) {
    halfType == "inferior" || halfType == "superior" || halfType == "izquierda" || halfType == "derecha"
  }

  /** A half filter: the coordinate it compares and whether it keeps the
      upper side (>=) or the lower side (<=) of the threshold. */
  datatype Filter = Filter(axis: Axis, upper: bool)

  /** The filter a half type names: inferior is y from below, superior y
      from above, izquierda x from below, derecha x from above; "complete"
      and every other string name none. */
  function FilterOf(halfType: string): (f: Option<Filter>)
    ensures f.Some? <==> IsFilter(halfType)
  {
    if halfType == "inferior" then Some(Filter(Y, false))
    else if halfType == "superior" then Some(Filter(Y, true))
    else if halfType == "izquierda" then Some(Filter(X, false))
    else if halfType == "derecha" then Some(Filter(X, true))
    else None
  }

  /** The filter's test: half the largest coordinate of `pts`, with no
      tolerance. */
  function Threshold(pts: seq<Point>, f: Filter): (b: Bound)
    requires |pts| > 0
    ensures b.limit == MaxCoord(pts, f.axis) / 2.0
    ensures b.AtLeast? <==> f.upper
  {
    var mid := MaxCoord(pts, f.axis) / 2.0;
    if f.upper then AtLeast(mid) else AtMost(mid)
  }

  /** The points of a complete snowflake kept for `halfType`: the filter's
      passing points (see `SelectHalfIsHalf`), or all of them when the name
      selects no filter. */
  function SelectHalf(pts: seq<Point>, halfType: string): (out: seq<Point>)
    requires IsFilter(halfType) ==> |pts| > 0
    ensures |out| <= |pts|
    ensures !IsFilter(halfType) ==> out == pts
  {
    match FilterOf(halfType)
    case None => pts
    case Some(f) => Keep(pts, f.axis, Threshold(pts, f))
  }

  /** A half is an order-preserving subsequence of the points; for a filter
      it holds exactly the points passing the filter's test, with no
      tolerance, and nothing else (no fallback when none passes). */
  lemma SelectHalfIsHalf(pts: seq<Point>, halfType: string)
    requires IsFilter(halfType) ==> |pts| > 0
    ensures IsSubsequence(SelectHalf(pts, halfType), pts)
    ensures IsFilter(halfType) ==>
      var f := FilterOf(halfType).value;
      IsHalf(SelectHalf(pts, halfType), pts, f.axis, Threshold(pts, f))
    ensures IsFilter(halfType) ==>
      var f := FilterOf(halfType).value;
      SelectHalf(pts, halfType) == [] <==>
        forall i :: 0 <= i < |pts| ==> !Passes(pts[i], f.axis, Threshold(pts, f))
  {
    if IsFilter(halfType) {
      var f := FilterOf(halfType).value;
      KeepIsHalf(pts, f.axis, Threshold(pts, f));
    } else {
      SelfSubsequence(pts);
    }
  }

  /** The four filters one by one: inferior keeps y <= max y / 2, superior
      y >= max y / 2, izquierda x <= max x / 2 and derecha x >= max x / 2. */
  lemma HalfTypeTests(pts: seq<Point>)
    requires |pts| > 0
    ensures SelectHalf(pts, "inferior") == Keep(pts, Y, AtMost(MaxCoord(pts, Y) / 2.0))
    ensures SelectHalf(pts, "superior") == Keep(pts, Y, AtLeast(MaxCoord(pts, Y) / 2.0))
    ensures SelectHalf(pts, "izquierda") == Keep(pts, X, AtMost(MaxCoord(pts, X) / 2.0))
    ensures SelectHalf(pts, "derecha") == Keep(pts, X, AtLeast(MaxCoord(pts, X) / 2.0))
  {
    InferiorFilter(pts);
    SuperiorFilter(pts);
    IzquierdaFilter(pts);
    DerechaFilter(pts);
    FilterThresholds(pts);
  }

  /** The four tests written out. */
  lemma FilterThresholds(pts: seq<Point>)
    requires |pts| > 0
    ensures Threshold(pts, Filter(Y, false)) == AtMost(MaxCoord(pts, Y) / 2.0)
    ensures Threshold(pts, Filter(Y, true)) == AtLeast(MaxCoord(pts, Y) / 2.0)
    ensures Threshold(pts, Filter(X, false)) == AtMost(MaxCoord(pts, X) / 2.0)
    ensures Threshold(pts, Filter(X, true)) == AtLeast(MaxCoord(pts, X) / 2.0)
  {
  }

  lemma InferiorFilter(pts: seq<Point>)
    requires |pts| > 0
    ensures SelectHalf(pts, "inferior") == Keep(pts, Y, Threshold(pts, Filter(Y, false)))
  {
  }

  lemma SuperiorFilter(pts: seq<Point>)
    requires |pts| > 0
    ensures SelectHalf(pts, "superior") == Keep(pts, Y, Threshold(pts, Filter(Y, true)))
  {
  }

  lemma IzquierdaFilter(pts: seq<Point>)
    requires |pts| > 0
    ensures SelectHalf(pts, "izquierda") == Keep(pts, X, Threshold(pts, Filter(X, false)))
  {
  }

  lemma DerechaFilter(pts: seq<Point>)
    requires |pts| > 0
    ensures SelectHalf(pts, "derecha") == Keep(pts, X, Threshold(pts, Filter(X, true)))
  {
  }

  /** The snowflake generator: the base triangle, `iterations` steps kept in
      a list of all levels, and the half selected from the last level. */
  method GenerateKochSnowflake(iterations: int, scale: real, halfType: string, r: real)
    returns (points: seq<Point>)
    ensures points == SelectHalf(Snowflake(Depth(iterations), scale, AppSense, r), halfType)
    ensures !IsFilter(halfType) ==>
      |points| == 3 * Pow(4, Depth(iterations)) + 1 && Closed(points) && points[0] == Origin
  {
    var steps: seq<seq<Point>> := [];
    var currentPoints := ExternalStep([], 0, scale, r);
    steps := steps + [currentPoints];
    var i := 1;
    while i <= iterations
      invariant 1 <= i <= Depth(iterations) + 1
      invariant |steps| == i
      invariant steps[i - 1] == Snowflake(i - 1, scale, AppSense, r)
    {
      currentPoints := ExternalStep(steps[|steps| - 1], i, scale, r);
      SnowflakeNext(i - 1, scale, AppSense, r);
      steps := steps + [currentPoints];
      i := i + 1;
    }
    var pointsComplete := steps[|steps| - 1];
    points := SelectHalf(pointsComplete, halfType);
    CompleteIsSnowflake(Depth(iterations), scale, halfType, r);
  }

  /** Without a filter the generator returns the whole closed snowflake. */
  lemma CompleteIsSnowflake(depth: nat, scale: real, halfType: string, r: real)
    ensures var s := Snowflake(depth, scale, AppSense, r);
      !IsFilter(halfType) ==>
        SelectHalf(s, halfType) == s && |s| == 3 * Pow(4, depth) + 1 && Closed(s) && s[0] == Origin
  {
    SnowflakeClosed(depth, scale, AppSense, r);
    SnowflakeLength(depth, scale, AppSense, r);
  }

  /** Every point is kept by the lower or the upper filter of each axis:
      inferior and superior together, and izquierda and derecha together,
      miss no point. */
  lemma HalvesCover(pts: seq<Point>, p: Point, axis: Axis)
    requires p in pts
    ensures p in Keep(pts, axis, Threshold(pts, Filter(axis, false))) ||
            p in Keep(pts, axis, Threshold(pts, Filter(axis, true)))
  {
    var lower, upper := Threshold(pts, Filter(axis, false)), Threshold(pts, Filter(axis, true));
    if Passes(p, axis, lower) {
      KeepContains(pts, p, axis, lower);
    } else {
      KeepContains(pts, p, axis, upper);
    }
  }

  /** On a snowflake no half is empty, although the filters have no
      fallback: the maxima are never negative because the origin is a
      vertex, so the origin is in every lower half and a maximal point in
      every upper half. */
  lemma SnowflakeHalvesNonEmpty(depth: nat, scale: real, halfType: string, r: real)
    ensures var s := Snowflake(depth, scale, AppSense, r);
      SelectHalf(s, halfType) != [] &&
      (IsFilter(halfType) && !FilterOf(halfType).value.upper ==> Origin in SelectHalf(s, halfType))
  {
    var s := Snowflake(depth, scale, AppSense, r);
    SnowflakeClosed(depth, scale, AppSense, r);
    assert s[0] == Origin;
    if IsFilter(halfType) {
      HalvesNonEmpty(s, FilterOf(halfType).value.axis);
    }
  }

  /** A list holding the origin keeps the origin in its lower half and a
      maximal point in its upper half, along either axis. */
  lemma HalvesNonEmpty(pts: seq<Point>, axis: Axis)
    requires Origin in pts
    ensures Origin in Keep(pts, axis, Threshold(pts, Filter(axis, false)))
    ensures Keep(pts, axis, Threshold(pts, Filter(axis, true))) != []
  {
    var m := MaxCoord(pts, axis);
    var k :| 0 <= k < |pts| && pts[k] == Origin;
    assert Coord(pts[k], axis) <= m;
    KeepContains(pts, Origin, axis, AtMost(m / 2.0));
    var i :| 0 <= i < |pts| && Coord(pts[i], axis) == m;
    KeepContains(pts, pts[i], axis, AtLeast(m / 2.0));
  }

  /** Selecting a half twice is not selecting it once: the threshold is
      recomputed from the points already kept. */
  lemma RefilterNotIdempotent()
    ensures var pts := [Point(0.0, 4.0), Point(0.0, 2.0), Origin];
      SelectHalf(pts, "inferior") == [Point(0.0, 2.0), Origin] &&
      SelectHalf(SelectHalf(pts, "inferior"), "inferior") == [Origin]
  {
    var pts := [Point(0.0, 4.0), Point(0.0, 2.0), Origin];
    var once := [Point(0.0, 2.0), Origin];
    var lower := Filter(Y, false);
    assert FilterOf("inferior") == Some(lower);
    assert pts[1..] == once && once[1..] == [Origin] && [Origin][1..] == [];
    assert MaxCoord(pts, Y) == 4.0;
    assert Keep(once, Y, AtMost(2.0)) == once;
    assert SelectHalf(pts, "inferior") == Keep(pts, Y, AtMost(2.0)) == once;
    assert MaxCoord(once, Y) == 2.0;
    assert Keep([Origin], Y, AtMost(1.0)) == [Origin];
    assert SelectHalf(once, "inferior") == Keep(once, Y, AtMost(1.0)) == [Origin];
  }

  /** The validation failures of the generation endpoint, in the order they
      are checked. */
  datatype ApiError = IterationsOutOfRange | ScaleOutOfRange | UnknownHalfType

  datatype Option<T> = None | Some(value: T)

  /** The first failing check: iterations in 0..8, then scale in (0, 10],
      then a known half type. */
  function Validate(iterations: int, scale: real, halfType: string): (e: Option<ApiError>)
    ensures e == Some(IterationsOutOfRange) <==> iterations < 0 || iterations > 8
    ensures e == Some(ScaleOutOfRange) <==>
      0 <= iterations <= 8 && (scale <= 0.0 || scale > 10.0)
    ensures e == Some(UnknownHalfType) <==>
      0 <= iterations <= 8 && 0.0 < scale <= 10.0 && halfType !in HalfTypes
    ensures e == None <==> 0 <= iterations <= 8 && 0.0 < scale <= 10.0 && halfType in HalfTypes
  {
    if iterations < 0 || iterations > 8 then Some(IterationsOutOfRange)
    else if scale <= 0.0 || scale > 10.0 then Some(ScaleOutOfRange)
    else if halfType !in HalfTypes then Some(UnknownHalfType)
    else None
  }

  /** The error text sent back with status 400. */
  function ErrorMessage(e: ApiError): string {
    match e
    case IterationsOutOfRange => "Iteraciones deben estar entre 0 y 8"
    case ScaleOutOfRange => "Escala debe estar entre 0.1 y 10"
    case UnknownHalfType => "Tipo debe ser: complete, inferior, superior, izquierda, derecha"
  }

  /** The reported length: the number of segments times the length of one
      depth-`iterations` segment, scale / 3^iterations. */
  function EstimatedLength(totalSegments: int, scale: real, iterations: nat): real {
    totalSegments as real * (scale / Pow(3, iterations) as real)
  }

  datatype Metadata = Metadata(
    iterations: int, scale: real, color: string, halfType: string,
    totalPoints: int, totalSegments: int, estimatedLength: real)

  /** The endpoint's answer: a 400 with a message, or the metadata. */
  datatype Response =
    | Rejected(status: int, message: string)
    | Generated(metadata: Metadata, points: seq<Point>)

  /** The generation endpoint after its parameters are parsed: reject with
      the first failing check, otherwise generate and report the point count,
      the segment count and the estimated length of what was generated. */
  method GenerateKochApi(iterations: int, scale: real, color: string, halfType: string, r: real)
    returns (resp: Response)
    ensures resp.Rejected? <==> Validate(iterations, scale, halfType).Some?
    ensures resp.Rejected? ==>
      resp.status == 400 && resp.message == ErrorMessage(Validate(iterations, scale, halfType).value)
    ensures resp.Generated? ==>
      0 <= iterations <= 8 &&
      resp.points == SelectHalf(Snowflake(iterations, scale, AppSense, r), halfType) &&
      resp.metadata == Metadata(iterations, scale, color, halfType,
        |resp.points|, |resp.points| - 1, EstimatedLength(|resp.points| - 1, scale, iterations))
  {
    var err := Validate(iterations, scale, halfType);
    if err.Some? {
      return Rejected(400, ErrorMessage(err.value));
    }
    var points := GenerateKochSnowflake(iterations, scale, halfType, r);
    var totalPoints := |points|;
    var totalSegments := totalPoints - 1;
    var estimatedLength := EstimatedLength(totalSegments, scale, iterations);
    resp := Generated(Metadata(iterations, scale, color, halfType,
      totalPoints, totalSegments, estimatedLength), points);
  }

  /** For the complete snowflake the estimated length is its exact
      perimeter: 3 * 4^n segments, each of length scale / 3^n. */
  lemma CompleteLengthIsPerimeter(iterations: nat, scale: real, r: real)
    requires IsSin60(r) && scale > 0.0
    ensures var s := Snowflake(iterations, scale, AppSense, r);
      var len := scale / Pow(3, iterations) as real;
      len > 0.0 && len * len == SegmentLength2(scale, iterations) &&
      UniformSegments(s, SegmentLength2(scale, iterations)) &&
      EstimatedLength(|s| - 1, scale, iterations) == (3 * Pow(4, iterations)) as real * len
  {
    PositiveRatio(scale, Pow(3, iterations) as real);
    SnowflakeSegmentLength(iterations, scale, AppSense, r);
    SnowflakeLength(iterations, scale, AppSense, r);
    LengthOfSegments(Snowflake(iterations, scale, AppSense, r), iterations, scale);
  }

  /** The estimate for a polyline with 3 * 4^n segments. */
  lemma LengthOfSegments(s: seq<Point>, n: nat, scale: real)
    requires |s| == 3 * Pow(4, n) + 1
    ensures EstimatedLength(|s| - 1, scale, n) == (3 * Pow(4, n)) as real * (scale / Pow(3, n) as real)
  {
  }

  lemma PositiveRatio(a: real, b: real)
    requires a > 0.0 && b > 0.0
    ensures a / b > 0.0
  {
  }

  /** The endpoint's defaults, 4 iterations at scale 2.0, complete: 769
      points, 768 segments and an estimated length of 512/27. */
  lemma DefaultMetrics(r: real)
    ensures var s := SelectHalf(Snowflake(4, 2.0, AppSense, r), "complete");
      |s| == 769 && EstimatedLength(|s| - 1, 2.0, 4) == 512.0 / 27.0
  {
    SnowflakeLength(4, 2.0, AppSense, r);
    assert Pow(4, 4) == 256 && Pow(3, 4) == 81;
  }
}
