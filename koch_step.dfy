/** The Koch construction shared by both copies of the geometry engine:
    the closed base triangle, one subdivision step (parameterised by the
    sense of the 60-degree turn that raises each peak), and the step
    iterated `depth` times. */
module Koch {
  import opened Geometry

  function Pow(b: nat, n: nat): (p: nat)
    requires b > 0
    ensures p > 0
  {
    if n == 0 then 1 else b * Pow(b, n - 1)
  }

  function Last(pts: seq<Point>): Point
    requires |pts| > 0
  {
    pts[|pts| - 1]
  }

  /** A closed polyline: its last point is its first. */
  predicate Closed(pts: seq<Point>) {
    |pts| > 0 && pts[0] == Last(pts)
  }

  /** Every point multiplied by `k`. */
  function ScaleAll(pts: seq<Point>, k: real): (out: seq<Point>)
    ensures |out| == |pts|
    ensures forall i :: 0 <= i < |pts| ==> out[i] == pts[i].Times(k)
  {
    if pts == [] then [] else [pts[0].Times(k)] + ScaleAll(pts[1..], k)
  }

  /** The closed equilateral triangle of side `side`, wound counter-clockwise
      from the origin: (0,0), (side,0), (side/2, h), (0,0) with
      h = sin 60° * side. */
  function BaseTriangle(side: real, r: real): seq<Point> {
    [Origin, Point(side, 0.0), Point(side / 2.0, r * side), Origin]
  }

  /** The point one third of the way from `p0` to `p1`. */
  function OneThird(p0: Point, p1: Point): Point {
    p0.Plus(p1.Minus(p0).Over(3.0))
  }

  /** The point two thirds of the way from `p0` to `p1`. */
  function TwoThird(p0: Point, p1: Point): Point {
    p0.Plus(p1.Minus(p0).Times(2.0).Over(3.0))
  }

  /** The apex of the bump raised on the middle third of `p0`->`p1`: the
      middle-third vector turned by 60° in `sense`, added to `OneThird`. */
  function Peak(p0: Point, p1: Point, sense: Sense, r: real): Point {
    var a, b := OneThird(p0, p1), TwoThird(p0, p1);
    a.Plus(Rotate(b.Minus(a), sense, r))
  }

  /** The four points one segment contributes. */
  function Quad(p0: Point, p1: Point, sense: Sense, r: real): seq<Point> {
    [p0, OneThird(p0, p1), Peak(p0, p1, sense, r), TwoThird(p0, p1)]
  }

  /** The quadruples of all segments of `pts`, in order. */
  function Segments(pts: seq<Point>, sense: Sense, r: real): seq<Point>
    decreases |pts|
  {
    if |pts| < 2 then []
    else Segments(pts[..|pts| - 1], sense, r) + Quad(pts[|pts| - 2], pts[|pts| - 1], sense, r)
  }

  /** One Koch step: every segment replaced by its four points, then the
      last input point appended once. */
  function Step(pts: seq<Point>, sense: Sense, r: real): seq<Point>
    requires |pts| > 0
  {
    Segments(pts, sense, r) + [Last(pts)]
  }

  lemma {:induction false} SegmentsLength(pts: seq<Point>, sense: Sense, r: real)
    requires |pts| > 0
    ensures |Segments(pts, sense, r)| == 4 * (|pts| - 1)
    decreases |pts|
  {
    if |pts| >= 2 {
      SegmentsLength(pts[..|pts| - 1], sense, r);
    }
  }

  /** Segment `i` of `pts` occupies positions 4i .. 4i+3 of `Segments`. */
  lemma {:induction false} SegmentsAt(pts: seq<Point>, i: nat, sense: Sense, r: real)
    requires i < |pts| - 1
    ensures |Segments(pts, sense, r)| == 4 * (|pts| - 1)
    ensures Segments(pts, sense, r)[4 * i..4 * i + 4] == Quad(pts[i], pts[i + 1], sense, r)
    decreases |pts|
  {
    var front := pts[..|pts| - 1];
    SegmentsLength(front, sense, r);
    var q := Quad(pts[|pts| - 2], pts[|pts| - 1], sense, r);
    assert Segments(pts, sense, r) == Segments(front, sense, r) + q;
    if i < |pts| - 2 {
      SegmentsAt(front, i, sense, r);
      assert front[i] == pts[i] && front[i + 1] == pts[i + 1];
    }
  }

  /** The shape of one step: length 4(N-1)+1, segment i's points at
      4i .. 4i+3 (its start point at 4i), the last point kept, and a closed
      input giving a closed output. */
  lemma StepShape(pts: seq<Point>, sense: Sense, r: real)
    requires |pts| > 0
    ensures |Step(pts, sense, r)| == 4 * (|pts| - 1) + 1
    ensures forall i :: 0 <= i < |pts| - 1 ==>
      Step(pts, sense, r)[4 * i] == pts[i] &&
      Step(pts, sense, r)[4 * i + 1] == OneThird(pts[i], pts[i + 1]) &&
      Step(pts, sense, r)[4 * i + 2] == Peak(pts[i], pts[i + 1], sense, r) &&
      Step(pts, sense, r)[4 * i + 3] == TwoThird(pts[i], pts[i + 1])
    ensures Last(Step(pts, sense, r)) == Last(pts)
    ensures Closed(pts) ==> Closed(Step(pts, sense, r))
  {
    var out := Step(pts, sense, r);
    SegmentsLength(pts, sense, r);
    forall i | 0 <= i < |pts| - 1
      ensures out[4 * i] == pts[i] && out[4 * i + 1] == OneThird(pts[i], pts[i + 1])
      ensures out[4 * i + 2] == Peak(pts[i], pts[i + 1], sense, r)
      ensures out[4 * i + 3] == TwoThird(pts[i], pts[i + 1])
    {
      SegmentsAt(pts, i, sense, r);
      var seg := Segments(pts, sense, r);
      assert out[4 * i..4 * i + 4] == seg[4 * i..4 * i + 4];
    }
    if |pts| >= 2 {
      assert out[0] == pts[0];
    }
  }

  /** One Koch step as the source runs it: a loop over the segments that
      appends four points per segment, then the closing point. */
  method Subdivide(pts: seq<Point>, sense: Sense, r: real) returns (out: seq<Point>)
    requires |pts| > 0
    ensures out == Step(pts, sense, r)
    ensures |out| == 4 * (|pts| - 1) + 1 && Last(out) == Last(pts)
  {
    out := [];
    var i := 0;
    while i < |pts| - 1
      invariant 0 <= i <= |pts| - 1
      invariant out == Segments(pts[..i + 1], sense, r)
    {
      var p0, p1 := pts[i], pts[i + 1];
      var segment := p1.Minus(p0);
      var oneThird := p0.Plus(segment.Over(3.0));
      var twoThird := p0.Plus(segment.Times(2.0).Over(3.0));
      var peak := oneThird.Plus(Rotate(twoThird.Minus(oneThird), sense, r));
      assert pts[..i + 2][..i + 1] == pts[..i + 1];
      out := out + [p0, oneThird, peak, twoThird];
      i := i + 1;
    }
    assert pts[..|pts|] == pts;
    out := out + [pts[|pts| - 1]];
    StepShape(pts, sense, r);
  }

  /** The number of steps a loop `for i in 1..n` runs: none when n < 0. */
  function Depth(iterations: int): (d: nat)
    ensures iterations >= 0 ==> d == iterations
    ensures iterations < 0 ==> d == 0
  {
    if iterations < 0 then 0 else iterations
  }

  /** The base triangle of side `side` subdivided `depth` times. */
  function Snowflake(depth: nat, side: real, sense: Sense, r: real): (s: seq<Point>)
    ensures |s| > 0
  {
    if depth == 0 then BaseTriangle(side, r)
    else Step(Snowflake(depth - 1, side, sense, r), sense, r)
  }

  /** Depth n has 3 * 4^n + 1 points: 3 * 4^n segments. */
  lemma {:induction false} SnowflakeLength(depth: nat, side: real, sense: Sense, r: real)
    ensures |Snowflake(depth, side, sense, r)| == 3 * Pow(4, depth) + 1
  {
    if depth > 0 {
      SnowflakeLength(depth - 1, side, sense, r);
      StepCount(Snowflake(depth - 1, side, sense, r), depth, sense, r);
    }
  }

  /** One step turns 3 * 4^(n-1) segments into 3 * 4^n. */
  lemma StepCount(pts: seq<Point>, n: nat, sense: Sense, r: real)
    requires n > 0 && |pts| == 3 * Pow(4, n - 1) + 1
    ensures |Step(pts, sense, r)| == 3 * Pow(4, n) + 1
  {
    SegmentsLength(pts, sense, r);
  }

  /** Every depth is closed and starts (and ends) at the origin. */
  lemma {:induction false} SnowflakeClosed(depth: nat, side: real, sense: Sense, r: real)
    ensures Closed(Snowflake(depth, side, sense, r))
    ensures Snowflake(depth, side, sense, r)[0] == Origin
  {
    if depth > 0 {
      var prev := Snowflake(depth - 1, side, sense, r);
      SnowflakeClosed(depth - 1, side, sense, r);
      StepShape(prev, sense, r);
    }
  }

  /** Depth d + 1 is one step applied to depth d. */
  lemma SnowflakeNext(depth: nat, side: real, sense: Sense, r: real)
    ensures |Snowflake(depth, side, sense, r)| > 0
    ensures Snowflake(depth + 1, side, sense, r) == Step(Snowflake(depth, side, sense, r), sense, r)
  {
  }
}
