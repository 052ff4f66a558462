/** Geometric facts about the Koch construction of module `Koch`: the base
    triangle is equilateral and counter-clockwise, each bump is an
    equilateral triangle raised on the side of the segment given by the
    sense of the turn, the signed area changes accordingly, and the whole
    construction commutes with scaling. */
module KochProperties {
  import opened Geometry
  import opened Koch

  /** The base triangle has three sides of length `side`, apex height h
      with h^2 = 3/4 side^2, and is wound counter-clockwise. */
  lemma BaseTriangleEquilateral(side: real, r: real)
    requires IsSin60(r)
    ensures var t := BaseTriangle(side, r);
      |t| == 4 && Closed(t) &&
      t[0] == Origin && t[1] == Point(side, 0.0) && t[2].x == side / 2.0 &&
      t[2].y * t[2].y == 3.0 / 4.0 * side * side &&
      Norm2(t[1].Minus(t[0])) == side * side &&
      Norm2(t[2].Minus(t[1])) == side * side &&
      Norm2(t[0].Minus(t[2])) == side * side &&
      (side != 0.0 ==> Cross(t[1].Minus(t[0]), t[2].Minus(t[0])) > 0.0)
  {
    var t := BaseTriangle(side, r);
    assert (r * side) * (r * side) == (r * r) * (side * side);
    assert Norm2(t[2].Minus(t[1])) == side * side / 4.0 + (r * side) * (r * side);
    assert Norm2(t[0].Minus(t[2])) == side * side / 4.0 + (r * side) * (r * side);
    assert Cross(t[1].Minus(t[0]), t[2].Minus(t[0])) == r * (side * side);
  }

  /** The peak of segment p0->p1 lies to the left of the directed segment
      (cross product positive) for a +60° turn and to the right for -60°:
      Cross(p1 - p0, peak - p0) = sin(±60°) |p1 - p0|^2 / 3. */
  lemma PeakSide(p0: Point, p1: Point, sense: Sense, r: real)
    ensures Cross(p1.Minus(p0), Peak(p0, p1, sense, r).Minus(p0)) ==
            SinOf(sense, r) * Norm2(p1.Minus(p0)) / 3.0
  {
    var d := p1.Minus(p0);
    var a, b := OneThird(p0, p1), TwoThird(p0, p1);
    var v := b.Minus(a);
    assert v == d.Over(3.0);
    assert d == v.Times(3.0);
    var w := Rotate(v, sense, r);
    assert Peak(p0, p1, sense, r).Minus(p0) == v.Plus(w);
    CrossAddRight(d, v, w);
    CrossScaleLeft(v, v, 3.0);
    CrossSelf(v);
    CrossScaleLeft(v, w, 3.0);
    RotationTurn(v, sense, r);
    assert Norm2(d) == 9.0 * Norm2(v);
  }

  /** Each bump is equilateral: the peak is as far from the one-third and
      two-third points as they are from each other, one third of the
      segment. */
  lemma PeakEquilateral(p0: Point, p1: Point, sense: Sense, r: real)
    requires IsSin60(r)
    ensures var a, b, c := OneThird(p0, p1), TwoThird(p0, p1), Peak(p0, p1, sense, r);
      Norm2(b.Minus(a)) == Norm2(p1.Minus(p0)) / 9.0 &&
      Norm2(c.Minus(a)) == Norm2(b.Minus(a)) &&
      Norm2(c.Minus(b)) == Norm2(b.Minus(a))
  {
    var a, b, c := OneThird(p0, p1), TwoThird(p0, p1), Peak(p0, p1, sense, r);
    var v := b.Minus(a);
    var w := Rotate(v, sense, r);
    assert v == p1.Minus(p0).Over(3.0);
    assert c.Minus(a) == w;
    assert c.Minus(b) == w.Minus(v);
    RotationIsometry(v, sense, r);
    Norm2Difference(w, v);
    assert Dot(w, v) == Dot(v, w);
  }

  /** At depth 1 the first segment (0,0)->(side,0) gets its peak at
      (side/2, sin(±60°) side/3). */
  lemma FirstPeak(side: real, sense: Sense, r: real)
    ensures |Snowflake(1, side, sense, r)| == 13
    ensures Snowflake(1, side, sense, r)[2] == Point(side / 2.0, SinOf(sense, r) * side / 3.0)
  {
    var t := BaseTriangle(side, r);
    var s := Step(t, sense, r);
    SegmentsAt(t, 0, sense, r);
    assert s[0..4] == Segments(t, sense, r)[0..4];
    assert s[2] == Peak(Origin, Point(side, 0.0), sense, r);
    BasePeak(side, sense, r);
  }

  /** The peak raised on the base edge (0,0)->(side,0). */
  lemma BasePeak(side: real, sense: Sense, r: real)
    ensures Peak(Origin, Point(side, 0.0), sense, r) == Point(side / 2.0, SinOf(sense, r) * side / 3.0)
  {
    var a, b := OneThird(Origin, Point(side, 0.0)), TwoThird(Origin, Point(side, 0.0));
    assert a == Point(side / 3.0, 0.0);
    assert b == Point(2.0 * side / 3.0, 0.0);
    var v := b.Minus(a);
    assert v == Point(side / 3.0, 0.0);
    RotateCoordinates(v, sense, r);
    assert SinOf(sense, r) * (side / 3.0) == SinOf(sense, r) * side / 3.0;
  }

  /** `p` lies strictly inside the counter-clockwise triangle t[0], t[1],
      t[2]: strictly to the left of each of its three edges. */
  predicate StrictlyInside(t: seq<Point>, p: Point)
    requires |t| >= 3
  {
    Cross(t[1].Minus(t[0]), p.Minus(t[0])) > 0.0 &&
    Cross(t[2].Minus(t[1]), p.Minus(t[1])) > 0.0 &&
    Cross(t[0].Minus(t[2]), p.Minus(t[2])) > 0.0
  }

  /** The -60° first peak lies outside the base triangle (below its base)
      and the +60° first peak strictly inside it. */
  lemma FirstPeakPlacement(side: real, r: real)
    requires side > 0.0 && r > 0.0
    ensures |Snowflake(1, side, Clockwise, r)| == |Snowflake(1, side, CounterClockwise, r)| == 13
    ensures Snowflake(1, side, Clockwise, r)[2].y < 0.0
    ensures !StrictlyInside(BaseTriangle(side, r), Snowflake(1, side, Clockwise, r)[2])
    ensures Snowflake(1, side, CounterClockwise, r)[2].y > 0.0
    ensures StrictlyInside(BaseTriangle(side, r), Snowflake(1, side, CounterClockwise, r)[2])
  {
    FirstPeak(side, Clockwise, r);
    FirstPeak(side, CounterClockwise, r);
    var t := BaseTriangle(side, r);
    var p := Point(side / 2.0, r * side / 3.0);
    assert r * side > 0.0;
    assert Cross(t[1].Minus(t[0]), p.Minus(t[0])) == side * (r * side / 3.0);
    assert Cross(t[2].Minus(t[1]), p.Minus(t[1])) == (r * side) * side / 3.0;
    assert Cross(t[0].Minus(t[2]), p.Minus(t[2])) == (r * side) * side / 3.0;
    var q := Point(side / 2.0, -r * side / 3.0);
    assert Cross(t[1].Minus(t[0]), q.Minus(t[0])) == -(side * (r * side / 3.0));
  }

  /** Twice the signed area enclosed by the polyline (shoelace sum):
      positive for a counter-clockwise closed polygon. */
  function Shoelace(pts: seq<Point>): real
    decreases |pts|
  {
    if |pts| < 2 then 0.0
    else Shoelace(pts[..|pts| - 1]) + Cross(pts[|pts| - 2], pts[|pts| - 1])
  }

  /** The sum of the squared lengths of the segments. */
  function SquaredLengths(pts: seq<Point>): real
    decreases |pts|
  {
    if |pts| < 2 then 0.0
    else SquaredLengths(pts[..|pts| - 1]) + Norm2(pts[|pts| - 1].Minus(pts[|pts| - 2]))
  }

  lemma ShoelaceAppend(pts: seq<Point>, q: Point, p: Point)
    requires |pts| > 0 && Last(pts) == q
    ensures Shoelace(pts + [p]) == Shoelace(pts) + Cross(q, p)
    ensures Last(pts + [p]) == p
  {
    assert (pts + [p])[..|pts|] == pts;
  }

  /** The shoelace terms of one bump: walking p0, a, peak, b, p1 instead of
      p0, p1 changes twice the signed area by -sin(±60°) |p1 - p0|^2 / 9. */
  lemma BumpShoelace(p0: Point, p1: Point, sense: Sense, r: real)
    ensures var a, c, b := OneThird(p0, p1), Peak(p0, p1, sense, r), TwoThird(p0, p1);
      Cross(p0, a) + Cross(a, c) + Cross(c, b) + Cross(b, p1) ==
      Cross(p0, p1) - SinOf(sense, r) * Norm2(p1.Minus(p0)) / 9.0
  {
    var a, c, b := OneThird(p0, p1), Peak(p0, p1, sense, r), TwoThird(p0, p1);
    var d := p1.Minus(p0);
    var v := b.Minus(a);
    var w := Rotate(v, sense, r);
    assert a == p0.Plus(v) && b == p0.Plus(v.Times(2.0)) && p1 == p0.Plus(v.Times(3.0));
    assert c == a.Plus(w);
    assert d == v.Times(3.0);
    // Cross(p0, a) = Cross(p0, v)
    CrossAddRight(p0, p0, v); CrossSelf(p0);
    // Cross(a, c) = Cross(a, w)
    CrossAddRight(a, a, w); CrossSelf(a);
    // Cross(c, b) = Cross(a, v) - Cross(a, w) - Cross(v, w)
    CrossAddLeft(a, w, b);
    assert b == a.Plus(v);
    CrossAddRight(a, a, v);
    CrossAddRight(w, a, v);
    CrossAntisymmetric(a, w);
    CrossAntisymmetric(v, w);
    // Cross(a, v) = Cross(p0, v)
    CrossAddLeft(p0, v, v); CrossSelf(v);
    // Cross(b, p1) = Cross(p0, v)
    CrossAddLeft(p0, v.Times(2.0), p1);
    CrossAddRight(p0, p0, v.Times(3.0));
    CrossScaleRight(p0, v, 3.0);
    CrossAddRight(v.Times(2.0), p0, v.Times(3.0));
    CrossScaleLeft(v, p0, 2.0);
    CrossAntisymmetric(p0, v);
    CrossScaleLeft(v, v.Times(3.0), 2.0);
    CrossScaleRight(v, v, 3.0);
    // Cross(p0, p1) = 3 Cross(p0, v)
    RotationTurn(v, sense, r);
    assert Norm2(d) == 9.0 * Norm2(v);
  }

  /** The area each bump takes away (twice the signed area), summed over
      the segments: sin(±60°) |p1 - p0|^2 / 9 per segment. */
  function BumpAreas(pts: seq<Point>, sense: Sense, r: real): real
    decreases |pts|
  {
    if |pts| < 2 then 0.0
    else BumpAreas(pts[..|pts| - 1], sense, r) +
         SinOf(sense, r) * Norm2(pts[|pts| - 1].Minus(pts[|pts| - 2])) / 9.0
  }

  lemma {:induction false} BumpAreasSum(pts: seq<Point>, sense: Sense, r: real)
    ensures BumpAreas(pts, sense, r) == SinOf(sense, r) * SquaredLengths(pts) / 9.0
    decreases |pts|
  {
    if |pts| >= 2 {
      var front := pts[..|pts| - 1];
      BumpAreasSum(front, sense, r);
      var sn, lf, nd := SinOf(sense, r), SquaredLengths(front), Norm2(pts[|pts| - 1].Minus(pts[|pts| - 2]));
      assert sn * (lf + nd) == sn * lf + sn * nd;
    }
  }

  /** `Step` extended by one segment: four more points. */
  lemma StepSnoc(pts: seq<Point>, sense: Sense, r: real)
    requires |pts| > 1
    ensures var p0, p1 := pts[|pts| - 2], pts[|pts| - 1];
      Step(pts, sense, r) ==
        Step(pts[..|pts| - 1], sense, r) + [OneThird(p0, p1), Peak(p0, p1, sense, r), TwoThird(p0, p1), p1]
    ensures Last(Step(pts[..|pts| - 1], sense, r)) == pts[|pts| - 2]
  {
    StepShape(pts[..|pts| - 1], sense, r);
  }

  lemma ShoelaceAppend4(t: seq<Point>, s: seq<Point>, p0: Point, a: Point, c: Point, b: Point, p1: Point)
    requires |s| > 0 && Last(s) == p0 && t == s + [a, c, b, p1]
    ensures Shoelace(t) == Shoelace(s) + (Cross(p0, a) + Cross(a, c) + Cross(c, b) + Cross(b, p1))
  {
    assert t == s + [a] + [c] + [b] + [p1];
    ShoelaceAppend(s, p0, a);
    ShoelaceAppend(s + [a], a, c);
    ShoelaceAppend(s + [a] + [c], c, b);
    ShoelaceAppend(s + [a] + [c] + [b], b, p1);
  }

  /** The last segment's share of `StepArea`. */
  lemma StepAreaLast(pts: seq<Point>, sense: Sense, r: real)
    requires |pts| > 1
    ensures Shoelace(Step(pts, sense, r)) ==
      Shoelace(Step(pts[..|pts| - 1], sense, r)) + Cross(pts[|pts| - 2], pts[|pts| - 1]) -
      SinOf(sense, r) * Norm2(pts[|pts| - 1].Minus(pts[|pts| - 2])) / 9.0
  {
    var p0, p1 := pts[|pts| - 2], pts[|pts| - 1];
    StepSnoc(pts, sense, r);
    ShoelaceAppend4(Step(pts, sense, r), Step(pts[..|pts| - 1], sense, r), p0, OneThird(p0, p1), Peak(p0, p1, sense, r), TwoThird(p0, p1), p1);
    BumpShoelace(p0, p1, sense, r);
  }

  /** One Koch step changes twice the signed area by
      -sin(±60°) / 9 times the sum of the squared segment lengths: a -60°
      step adds area to a counter-clockwise polygon, a +60° step removes it. */
  lemma StepArea(pts: seq<Point>, sense: Sense, r: real)
    requires |pts| > 0
    ensures Shoelace(Step(pts, sense, r)) ==
            Shoelace(pts) - SinOf(sense, r) * SquaredLengths(pts) / 9.0
  {
    StepAreaBumps(pts, sense, r);
    BumpAreasSum(pts, sense, r);
  }

  lemma {:induction false} StepAreaBumps(pts: seq<Point>, sense: Sense, r: real)
    requires |pts| > 0
    ensures Shoelace(Step(pts, sense, r)) == Shoelace(pts) - BumpAreas(pts, sense, r)
    decreases |pts|
  {
    if |pts| == 1 {
      StepAreaSingle(pts, sense, r);
    } else {
      StepAreaBumps(pts[..|pts| - 1], sense, r);
      StepAreaExtend(pts, sense, r);
    }
  }

  lemma StepAreaSingle(pts: seq<Point>, sense: Sense, r: real)
    requires |pts| == 1
    ensures Shoelace(Step(pts, sense, r)) == Shoelace(pts) - BumpAreas(pts, sense, r)
  {
    assert Step(pts, sense, r) == pts;
    assert Shoelace(pts) == 0.0 && BumpAreas(pts, sense, r) == 0.0;
  }

  /** The inductive step of `StepAreaBumps`: from the polyline without its
      last point to the whole polyline. */
  lemma StepAreaExtend(pts: seq<Point>, sense: Sense, r: real)
    requires |pts| > 1
    requires Shoelace(Step(pts[..|pts| - 1], sense, r)) ==
             Shoelace(pts[..|pts| - 1]) - BumpAreas(pts[..|pts| - 1], sense, r)
    ensures Shoelace(Step(pts, sense, r)) == Shoelace(pts) - BumpAreas(pts, sense, r)
  {
    var front := pts[..|pts| - 1];
    StepAreaLast(pts, sense, r);
    var x := Cross(pts[|pts| - 2], pts[|pts| - 1]);
    var y := SinOf(sense, r) * Norm2(pts[|pts| - 1].Minus(pts[|pts| - 2])) / 9.0;
    assert Shoelace(pts) == Shoelace(front) + x;
    assert BumpAreas(pts, sense, r) == BumpAreas(front, sense, r) + y;
    assert Shoelace(Step(pts, sense, r)) == Shoelace(Step(front, sense, r)) + x - y;
  }

  /** The base triangle encloses twice-area r * side^2 (counter-clockwise). */
  lemma BaseShoelace(side: real, r: real)
    ensures Shoelace(BaseTriangle(side, r)) == r * side * side
  {
    var p1, p2 := Point(side, 0.0), Point(side / 2.0, r * side);
    assert BaseTriangle(side, r) == [Origin] + [p1] + [p2] + [Origin];
    assert Shoelace([Origin]) == 0.0;
    ShoelaceAppend([Origin], Origin, p1);
    ShoelaceAppend([Origin] + [p1], p1, p2);
    ShoelaceAppend([Origin] + [p1] + [p2], p2, Origin);
    assert Cross(p1, p2) == side * (r * side);
  }

  lemma SquaredLengthsAppend(pts: seq<Point>, q: Point, p: Point)
    requires |pts| > 0 && Last(pts) == q
    ensures SquaredLengths(pts + [p]) == SquaredLengths(pts) + Norm2(p.Minus(q))
  {
    assert (pts + [p])[..|pts|] == pts;
  }

  /** The three sides of the base triangle have squared length side^2 each. */
  lemma BaseSquaredLengths(side: real, r: real)
    requires IsSin60(r)
    ensures SquaredLengths(BaseTriangle(side, r)) == 3.0 * (side * side)
  {
    var p1, p2 := Point(side, 0.0), Point(side / 2.0, r * side);
    assert BaseTriangle(side, r) == [Origin] + [p1] + [p2] + [Origin];
    assert SquaredLengths([Origin]) == 0.0;
    SquaredLengthsAppend([Origin], Origin, p1);
    SquaredLengthsAppend([Origin] + [p1], p1, p2);
    SquaredLengthsAppend([Origin] + [p1] + [p2], p2, Origin);
    BaseTriangleEquilateral(side, r);
  }

  /** At depth 1 the -60° construction encloses 4/3 of the base triangle's
      area (it grows outward) and the +60° construction 2/3 of it (it
      folds inward). */
  lemma Depth1Area(side: real, r: real)
    requires IsSin60(r)
    ensures Shoelace(BaseTriangle(side, r)) == r * side * side
    ensures Shoelace(Snowflake(1, side, Clockwise, r)) == 4.0 / 3.0 * (r * side * side)
    ensures Shoelace(Snowflake(1, side, CounterClockwise, r)) == 2.0 / 3.0 * (r * side * side)
  {
    var t := BaseTriangle(side, r);
    BaseShoelace(side, r);
    BaseSquaredLengths(side, r);
    StepArea(t, Clockwise, r);
    StepArea(t, CounterClockwise, r);
    Depth1Arithmetic(Shoelace(Step(t, Clockwise, r)), Shoelace(Step(t, CounterClockwise, r)),
      Shoelace(t), SquaredLengths(t), r, side * side);
  }

  lemma Depth1Arithmetic(cw: real, ccw: real, area: real, lengths: real, r: real, q: real)
    requires area == r * q && lengths == 3.0 * q
    requires cw == area - (-r) * lengths / 9.0 && ccw == area - r * lengths / 9.0
    ensures cw == 4.0 / 3.0 * area && ccw == 2.0 / 3.0 * area
  {
  }

  lemma ScaleAllConcat(a: seq<Point>, b: seq<Point>, k: real)
    ensures ScaleAll(a + b, k) == ScaleAll(a, k) + ScaleAll(b, k)
  {
    assert |ScaleAll(a + b, k)| == |ScaleAll(a, k) + ScaleAll(b, k)|;
    forall i | 0 <= i < |a + b|
      ensures ScaleAll(a + b, k)[i] == (ScaleAll(a, k) + ScaleAll(b, k))[i]
    {
    }
  }

  lemma ScaleAllPrefix(pts: seq<Point>, n: nat, k: real)
    requires n <= |pts|
    ensures ScaleAll(pts, k)[..n] == ScaleAll(pts[..n], k)
  {
  }

  lemma QuadScale(p0: Point, p1: Point, k: real, sense: Sense, r: real)
    ensures Quad(p0.Times(k), p1.Times(k), sense, r) == ScaleAll(Quad(p0, p1, sense, r), k)
  {
    var a, b := OneThird(p0, p1), TwoThird(p0, p1);
    assert k * (p0.x + (p1.x - p0.x) / 3.0) == k * p0.x + (k * p1.x - k * p0.x) / 3.0;
    assert k * (p0.y + (p1.y - p0.y) / 3.0) == k * p0.y + (k * p1.y - k * p0.y) / 3.0;
    assert k * (p0.x + 2.0 * (p1.x - p0.x) / 3.0) == k * p0.x + 2.0 * (k * p1.x - k * p0.x) / 3.0;
    assert k * (p0.y + 2.0 * (p1.y - p0.y) / 3.0) == k * p0.y + 2.0 * (k * p1.y - k * p0.y) / 3.0;
    assert OneThird(p0.Times(k), p1.Times(k)) == a.Times(k);
    assert TwoThird(p0.Times(k), p1.Times(k)) == b.Times(k);
    var v := b.Minus(a);
    assert b.Times(k).Minus(a.Times(k)) == v.Times(k);
    RotateScale(v, k, sense, r);
    var w := Rotate(v, sense, r);
    assert a.Times(k).Plus(w.Times(k)) == a.Plus(w).Times(k);
  }

  lemma {:induction false} SegmentsScale(pts: seq<Point>, k: real, sense: Sense, r: real)
    ensures Segments(ScaleAll(pts, k), sense, r) == ScaleAll(Segments(pts, sense, r), k)
    decreases |pts|
  {
    if |pts| >= 2 {
      var n := |pts|;
      var front := pts[..n - 1];
      SegmentsScale(front, k, sense, r);
      ScaleAllPrefix(pts, n - 1, k);
      QuadScale(pts[n - 2], pts[n - 1], k, sense, r);
      ScaleAllConcat(Segments(front, sense, r), Quad(pts[n - 2], pts[n - 1], sense, r), k);
    }
  }

  /** One step commutes with scaling. */
  lemma StepScale(pts: seq<Point>, k: real, sense: Sense, r: real)
    requires |pts| > 0
    ensures Step(ScaleAll(pts, k), sense, r) == ScaleAll(Step(pts, sense, r), k)
  {
    SegmentsScale(pts, k, sense, r);
    ScaleAllConcat(Segments(pts, sense, r), [Last(pts)], k);
    assert ScaleAll([Last(pts)], k) == [Last(pts).Times(k)];
  }

  /** The base triangle of side k * side is the base triangle of side
      `side` scaled by k. */
  lemma BaseTriangleScale(side: real, k: real, r: real)
    ensures BaseTriangle(k * side, r) == ScaleAll(BaseTriangle(side, r), k)
  {
    var s := k * side;
    var u := ScaleAll(BaseTriangle(side, r), k);
    assert BaseTriangle(s, r) == [Origin, Point(s, 0.0), Point(s / 2.0, r * s), Origin];
    assert k * (side / 2.0) == s / 2.0 && k * (r * side) == r * s && k * 0.0 == 0.0;
    assert |u| == 4;
    assert u[0] == Origin && u[1] == Point(s, 0.0);
    assert u[2] == Point(s / 2.0, r * s) && u[3] == Origin;
    assert u == [Origin, Point(s, 0.0), Point(s / 2.0, r * s), Origin];
  }

  /** Scale invariance: the snowflake of side k * side is the snowflake of
      side `side` with every point multiplied by k. */
  lemma {:induction false} SnowflakeScale(depth: nat, side: real, k: real, sense: Sense, r: real)
    ensures Snowflake(depth, k * side, sense, r) == ScaleAll(Snowflake(depth, side, sense, r), k)
  {
    if depth == 0 {
      BaseTriangleScale(side, k, r);
    } else {
      SnowflakeScale(depth - 1, side, k, sense, r);
      StepScale(Snowflake(depth - 1, side, sense, r), k, sense, r);
    }
  }

  /** Every segment of the polyline has squared length `len2`. */
  predicate UniformSegments(pts: seq<Point>, len2: real) {
    forall i :: 0 <= i < |pts| - 1 ==> Norm2(pts[i + 1].Minus(pts[i])) == len2
  }

  /** The four pieces a segment is cut into (p0 -> a -> c -> b -> p1) each
      have one ninth of the segment's squared length. */
  lemma QuadLengths(p0: Point, p1: Point, sense: Sense, r: real)
    requires IsSin60(r)
    ensures var a, c, b := OneThird(p0, p1), Peak(p0, p1, sense, r), TwoThird(p0, p1);
      var l := Norm2(p1.Minus(p0)) / 9.0;
      Norm2(a.Minus(p0)) == l && Norm2(c.Minus(a)) == l &&
      Norm2(b.Minus(c)) == l && Norm2(p1.Minus(b)) == l
  {
    var a, c, b := OneThird(p0, p1), Peak(p0, p1, sense, r), TwoThird(p0, p1);
    PeakEquilateral(p0, p1, sense, r);
    var third := p1.Minus(p0).Over(3.0);
    assert a.Minus(p0) == third;
    assert p1.Minus(b) == third;
    assert b.Minus(a) == third;
    assert Norm2(b.Minus(c)) == Norm2(c.Minus(b));
  }

  /** One step keeps the segments uniform and divides their squared length
      by nine. */
  lemma StepUniform(pts: seq<Point>, len2: real, sense: Sense, r: real)
    requires IsSin60(r) && |pts| > 0 && UniformSegments(pts, len2)
    ensures UniformSegments(Step(pts, sense, r), len2 / 9.0)
  {
    var out := Step(pts, sense, r);
    StepShape(pts, sense, r);
    forall j | 0 <= j < |out| - 1
      ensures Norm2(out[j + 1].Minus(out[j])) == len2 / 9.0
    {
      var i, k := j / 4, j % 4;
      assert j == 4 * i + k;
      assert i < |pts| - 1;
      QuadLengths(pts[i], pts[i + 1], sense, r);
      if k == 3 {
        if i + 1 < |pts| - 1 {
          assert out[4 * (i + 1)] == pts[i + 1];
        } else {
          assert j + 1 == |out| - 1;
        }
      }
    }
  }

  /** (side / 3^n)^2, the squared length of a depth-n segment. */
  function SegmentLength2(side: real, depth: nat): real {
    (side / Pow(3, depth) as real) * (side / Pow(3, depth) as real)
  }

  lemma SegmentLength2Step(side: real, depth: nat)
    requires depth > 0
    ensures SegmentLength2(side, depth) == SegmentLength2(side, depth - 1) / 9.0
  {
    var p := Pow(3, depth - 1) as real;
    assert Pow(3, depth) as real == 3.0 * p;
    ThirdSquared(side, p);
  }

  lemma BaseUniform(side: real, r: real)
    requires IsSin60(r)
    ensures UniformSegments(BaseTriangle(side, r), side * side)
  {
    var t := BaseTriangle(side, r);
    BaseTriangleEquilateral(side, r);
    var e0, e1, e2 := Norm2(t[1].Minus(t[0])), Norm2(t[2].Minus(t[1])), Norm2(t[3].Minus(t[2]));
    assert e2 == Norm2(t[0].Minus(t[2]));
    forall i | 0 <= i < 3
      ensures Norm2(t[i + 1].Minus(t[i])) == side * side
    {
      if i == 0 {
        assert Norm2(t[i + 1].Minus(t[i])) == e0;
      } else if i == 1 {
        assert Norm2(t[i + 1].Minus(t[i])) == e1;
      } else {
        assert Norm2(t[i + 1].Minus(t[i])) == e2;
      }
    }
  }

  /** At depth n every segment of the snowflake has squared length
      (side / 3^n)^2. */
  lemma {:induction false} SnowflakeSegmentLength(depth: nat, side: real, sense: Sense, r: real)
    requires IsSin60(r)
    ensures UniformSegments(Snowflake(depth, side, sense, r), SegmentLength2(side, depth))
  {
    if depth == 0 {
      BaseUniform(side, r);
      assert SegmentLength2(side, 0) == side * side;
    } else {
      var prev := Snowflake(depth - 1, side, sense, r);
      SnowflakeSegmentLength(depth - 1, side, sense, r);
      StepUniform(prev, SegmentLength2(side, depth - 1), sense, r);
      SegmentLength2Step(side, depth);
    }
  }

  lemma ThirdSquared(side: real, p: real)
    requires p > 0.0
    ensures (side / p) * (side / p) / 9.0 == (side / (3.0 * p)) * (side / (3.0 * p))
  {
  }
}
