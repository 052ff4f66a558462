/** The utility library's copy of the geometry engine (utils/koch.py): the
    step with +60° peaks, the list of all levels, and the half filter with
    a tolerance and a whole-shape fallback. */
module KochUtils {
  import opened Geometry
  import opened Koch
  import opened HalfFilter

  /** utils/koch.py turns every peak by +60°. */
  const UtilsSense: Sense := CounterClockwise

  /** One step on a polyline: every segment replaced by its four points, the
      last point appended; a closed polyline stays closed. */
  method KochExternalStep(points: seq<Point>, r: real) returns (out: seq<Point>)
    requires |points| > 0
    ensures out == Step(points, UtilsSense, r)
    ensures |out| == 4 * (|points| - 1) + 1 && Last(out) == Last(points)
    ensures Closed(points) ==> Closed(out)
  {
    out := Subdivide(points, UtilsSense, r);
    StepShape(points, UtilsSense, r);
  }

  /** `levels[j]` is the snowflake of depth j, for every j. */
  ghost predicate AllLevels(levels: seq<seq<Point>>, scale: real, r: real) {
    forall j :: 0 <= j < |levels| ==> levels[j] == Snowflake(j, scale, UtilsSense, r)
  }

  /** Level i is one step of level i - 1. */
  predicate StepAt(levels: seq<seq<Point>>, i: int, r: real)
    requires 0 < i < |levels|
  {
    |levels[i - 1]| > 0 && levels[i] == Step(levels[i - 1], UtilsSense, r)
  }

  lemma LevelsExtend(levels: seq<seq<Point>>, next: seq<Point>, scale: real, r: real)
    requires |levels| > 0 && AllLevels(levels, scale, r)
    requires next == Step(levels[|levels| - 1], UtilsSense, r)
    ensures AllLevels(levels + [next], scale, r)
  {
    var longer := levels + [next];
    forall j | 0 <= j < |longer|
      ensures longer[j] == Snowflake(j, scale, UtilsSense, r)
    {
      if j < |levels| {
        assert longer[j] == levels[j];
      } else {
        SnowflakeNext(j - 1, scale, UtilsSense, r);
      }
    }
  }

  /** Every level from 0 to `order`: level 0 is the base triangle of side
      `1.0 * scale`, each further level is one step of the one before, and
      so is the snowflake of that depth. */
  method KochIterations(order: int, scale: real, r: real) returns (steps: seq<seq<Point>>)
    ensures |steps| == Depth(order) + 1
    ensures steps[0] == BaseTriangle(1.0 * scale, r)
    ensures forall i :: 0 < i < |steps| ==> StepAt(steps, i, r)
    ensures AllLevels(steps, scale, r)
  {
    var pts := BaseTriangle(1.0 * scale, r);
    steps := [pts];
    var i := 1;
    while i < order + 1
      invariant 1 <= i <= Depth(order) + 1
      invariant |steps| == i && pts == steps[i - 1]
      invariant steps[0] == BaseTriangle(1.0 * scale, r)
      invariant forall k :: 0 < k < |steps| ==> StepAt(steps, k, r)
      invariant AllLevels(steps, scale, r)
    {
      LevelsExtend(steps, Step(pts, UtilsSense, r), scale, r);
      pts := KochExternalStep(pts, r);
      steps := steps + [pts];
      i := i + 1;
    }
  }

  /** Every level is closed and level i has 3 * 4^i + 1 points. */
  lemma LevelsClosed(levels: seq<seq<Point>>, scale: real, r: real)
    requires AllLevels(levels, scale, r)
    ensures forall i :: 0 <= i < |levels| ==>
      Closed(levels[i]) && |levels[i]| == 3 * Pow(4, i) + 1
  {
    forall i | 0 <= i < |levels|
      ensures Closed(levels[i]) && |levels[i]| == 3 * Pow(4, i) + 1
    {
      SnowflakeClosed(i, scale, UtilsSense, r);
      SnowflakeLength(i, scale, UtilsSense, r);
    }
  }

  /** The slack added to the threshold, 1e-12. */
  const Tolerance: real := 0.000000000001

  /** The test `get_precise_half` builds: axis "x" compares y, any other
      axis compares x; side "inferior" (for "x") or "left"/"izquierda" (for
      the other axis) keeps coordinate <= max/2 + 1e-12, any other side
      keeps coordinate >= max/2 - 1e-12. */
  function Mask(pts: seq<Point>, axis: string, side: string): (m: (Axis, Bound))
    requires |pts| > 0
    ensures m.0 == (if axis == "x" then Y else X)
    ensures m.1.AtMost? <==>
      (if axis == "x" then side == "inferior" else side == "left" || side == "izquierda")
    ensures m.1.AtMost? ==> m.1.limit == MaxCoord(pts, m.0) / 2.0 + Tolerance
    ensures m.1.AtLeast? ==> m.1.limit == MaxCoord(pts, m.0) / 2.0 - Tolerance
  {
    if axis == "x" then
      var mid := MaxCoord(pts, Y) / 2.0;
      if side == "inferior" then (Y, AtMost(mid + Tolerance)) else (Y, AtLeast(mid - Tolerance))
    else
      var mid := MaxCoord(pts, X) / 2.0;
      if side == "left" || side == "izquierda" then (X, AtMost(mid + Tolerance))
      else (X, AtLeast(mid - Tolerance))
  }

  /** The default arguments, axis "x" and side "left", select the upper y
      half: axis "x" only recognises "inferior" as a lower side. */
  lemma DefaultMaskIsUpper(pts: seq<Point>)
    requires |pts| > 0
    ensures Mask(pts, "x", "left") == (Y, AtLeast(MaxCoord(pts, Y) / 2.0 - Tolerance))
  {
  }

  /** The points passing the mask, in order; the whole input when none
      passes. Never empty. */
  function GetPreciseHalf(points: seq<Point>, axis: string, side: string): (out: seq<Point>)
    requires |points| > 0
    ensures out != []
    ensures var m := Mask(points, axis, side);
      (forall i :: 0 <= i < |points| ==> !Passes(points[i], m.0, m.1)) ==> out == points
  {
    var m := Mask(points, axis, side);
    var filtered := Keep(points, m.0, m.1);
    KeepIsHalf(points, m.0, m.1);
    if |filtered| == 0 then points else filtered
  }

  /** The precise half is an order-preserving subsequence of the input and,
      when some point passes the mask, holds exactly the passing points. */
  lemma PreciseHalfIsHalf(points: seq<Point>, axis: string, side: string)
    requires |points| > 0
    ensures IsSubsequence(GetPreciseHalf(points, axis, side), points)
    ensures var m := Mask(points, axis, side);
      (exists i :: 0 <= i < |points| && Passes(points[i], m.0, m.1)) ==>
        IsHalf(GetPreciseHalf(points, axis, side), points, m.0, m.1)
  {
    var m := Mask(points, axis, side);
    KeepIsHalf(points, m.0, m.1);
    SelfSubsequence(points);
  }

  /** The same test as `Mask` without the tolerance: the web
      application's threshold max/2. */
  function ExactMask(pts: seq<Point>, axis: string, side: string): (m: (Axis, Bound))
    requires |pts| > 0
    ensures m.0 == Mask(pts, axis, side).0
    ensures m.1.AtMost? <==> Mask(pts, axis, side).1.AtMost?
    ensures m.1.limit == MaxCoord(pts, m.0) / 2.0
  {
    var t := Mask(pts, axis, side);
    var mid := MaxCoord(pts, t.0) / 2.0;
    (t.0, if t.1.AtMost? then AtMost(mid) else AtLeast(mid))
  }

  /** The tolerance only adds points: the exact half of the same axis and
      side is contained in the precise half. */
  lemma ToleranceWidens(points: seq<Point>, axis: string, side: string)
    requires |points| > 0
    ensures var e := ExactMask(points, axis, side);
      multiset(Keep(points, e.0, e.1)) <= multiset(GetPreciseHalf(points, axis, side))
  {
    var m, e := Mask(points, axis, side), ExactMask(points, axis, side);
    assert forall p :: Passes(p, m.0, e.1) ==> Passes(p, m.0, m.1);
    var loose := Keep(points, m.0, m.1);
    assert GetPreciseHalf(points, axis, side) == if loose == [] then points else loose;
    WidenedHalf(points, m.0, e.1, m.1);
  }

  /** A looser test with the whole-input fallback still keeps every point
      the stricter test keeps. */
  lemma WidenedHalf(points: seq<Point>, axis: Axis, strict: Bound, loose: Bound)
    requires forall p :: Passes(p, axis, strict) ==> Passes(p, axis, loose)
    ensures var kept := Keep(points, axis, loose);
      multiset(Keep(points, axis, strict)) <= multiset(if kept == [] then points else kept)
  {
    if Keep(points, axis, loose) == [] {
      KeepShrinks(points, axis, strict);
    } else {
      KeepMonotone(points, axis, strict, loose);
    }
  }

  /** The tolerance changes the answer: with the highest y at 2, a point at
      y = 1 + 1e-13 fails the exact test y <= 1 but is in the precise
      inferior half. */
  lemma ToleranceMatters()
    ensures var near := Point(0.0, 1.0000000000001);
      var pts := [Point(0.0, 2.0), near, Origin];
      Keep(pts, Y, AtMost(MaxCoord(pts, Y) / 2.0)) == [Origin] &&
      GetPreciseHalf(pts, "x", "inferior") == [near, Origin]
  {
    var near := Point(0.0, 1.0000000000001);
    var pts := [Point(0.0, 2.0), near, Origin];
    var tail := [near, Origin];
    assert pts[1..] == tail && tail[1..] == [Origin] && [Origin][1..] == [];
    assert MaxCoord(pts, Y) == 2.0;
    var exact, precise := AtMost(1.0), AtMost(1.0 + Tolerance);
    assert Keep([Origin], Y, exact) == [Origin] == Keep([Origin], Y, precise);
    assert Keep(tail, Y, exact) == [Origin];
    assert Keep(pts, Y, exact) == [Origin];
    assert Keep(tail, Y, precise) == tail;
    assert Keep(pts, Y, precise) == tail;
    assert Mask(pts, "x", "inferior") == (Y, precise);
  }
}
