/** The "half" filters: keep, in their original order, the points whose
    chosen coordinate lies on one side of a threshold. */
module HalfFilter {
  import opened Geometry

  /** The coordinate a filter compares. */
  datatype Axis = X | Y

  function Coord(p: Point, axis: Axis): real {
    match axis
    case X => p.x
    case Y => p.y
  }

  /** The test a point must pass: coordinate <= limit, or >= limit. */
  datatype Bound = AtMost(limit: real) | AtLeast(limit: real)

  predicate Passes(p: Point, axis: Axis, bound: Bound) {
    match bound
    case AtMost(l) => Coord(p, axis) <= l
    case AtLeast(l) => Coord(p, axis) >= l
  }

  /** The largest value of the coordinate over a non-empty point list. */
  function MaxCoord(pts: seq<Point>, axis: Axis): (m: real)
    requires |pts| > 0
    ensures exists i :: 0 <= i < |pts| && Coord(pts[i], axis) == m
    ensures forall i :: 0 <= i < |pts| ==> Coord(pts[i], axis) <= m
  {
    if |pts| == 1 then Coord(pts[0], axis)
    else
      var rest := MaxCoord(pts[1..], axis);
      assert forall i :: 1 <= i < |pts| ==> pts[i] == pts[1..][i - 1];
      if Coord(pts[0], axis) >= rest then Coord(pts[0], axis) else rest
  }

  /** `a` is `b` with some elements removed and the rest in their order. */
  predicate IsSubsequence(a: seq<Point>, b: seq<Point>)
    decreases |b|
  {
    if a == [] then true
    else if b == [] then false
    else (a[0] == b[0] && IsSubsequence(a[1..], b[1..])) || IsSubsequence(a, b[1..])
  }

  /** Every sequence is a subsequence of itself. */
  lemma {:induction false} SelfSubsequence(pts: seq<Point>)
    ensures IsSubsequence(pts, pts)
    decreases |pts|
  {
    if pts != [] {
      SelfSubsequence(pts[1..]);
    }
  }

  /** `kept` is the half of `pts` selected by the test: an order-preserving
      subsequence of `pts` that holds every passing point as often as `pts`
      does and no failing point. */
  ghost predicate IsHalf(kept: seq<Point>, pts: seq<Point>, axis: Axis, bound: Bound) {
    IsSubsequence(kept, pts) &&
    forall p :: multiset(kept)[p] == if Passes(p, axis, bound) then multiset(pts)[p] else 0
  }

  /** The points of `pts` that pass the test, in order (its meaning is
      `KeepIsHalf`). */
  function Keep(pts: seq<Point>, axis: Axis, bound: Bound): (kept: seq<Point>)
    ensures |kept| <= |pts|
    decreases |pts|
  {
    if pts == [] then []
    else
      var rest := Keep(pts[1..], axis, bound);
      if Passes(pts[0], axis, bound) then [pts[0]] + rest else rest
  }

  /** `Keep` selects the half: exactly the passing points, as often as they
      occur and in their order; it is empty exactly when no point passes. */
  lemma KeepIsHalf(pts: seq<Point>, axis: Axis, bound: Bound)
    ensures IsHalf(Keep(pts, axis, bound), pts, axis, bound)
    ensures Keep(pts, axis, bound) == [] <==> forall i :: 0 <= i < |pts| ==> !Passes(pts[i], axis, bound)
  {
    KeepOrdered(pts, axis, bound);
    KeepCounts(pts, axis, bound);
    KeepEmpty(pts, axis, bound);
  }

  lemma {:induction false} KeepOrdered(pts: seq<Point>, axis: Axis, bound: Bound)
    ensures IsSubsequence(Keep(pts, axis, bound), pts)
    decreases |pts|
  {
    if pts != [] {
      KeepOrdered(pts[1..], axis, bound);
    }
  }

  lemma {:induction false} KeepCounts(pts: seq<Point>, axis: Axis, bound: Bound)
    ensures forall p ::
      multiset(Keep(pts, axis, bound))[p] == (if Passes(p, axis, bound) then multiset(pts)[p] else 0)
    decreases |pts|
  {
    if pts != [] {
      KeepCounts(pts[1..], axis, bound);
      assert pts == [pts[0]] + pts[1..];
    }
  }

  lemma {:induction false} KeepEmpty(pts: seq<Point>, axis: Axis, bound: Bound)
    ensures Keep(pts, axis, bound) == [] <==> forall i :: 0 <= i < |pts| ==> !Passes(pts[i], axis, bound)
    decreases |pts|
  {
    if pts != [] {
      var rest := pts[1..];
      KeepEmpty(rest, axis, bound);
      assert forall i :: 1 <= i < |pts| ==> pts[i] == rest[i - 1];
    }
  }

  /** A passing point of `pts` is kept. */
  lemma {:induction false} KeepContains(pts: seq<Point>, p: Point, axis: Axis, bound: Bound)
    requires p in pts && Passes(p, axis, bound)
    ensures p in Keep(pts, axis, bound)
    decreases |pts|
  {
    if pts[0] != p {
      assert p in pts[1..];
      KeepContains(pts[1..], p, axis, bound);
    }
  }

  /** Keeping never adds a point: the result holds each point at most as
      often as the input. */
  lemma {:induction false} KeepShrinks(pts: seq<Point>, axis: Axis, bound: Bound)
    ensures multiset(Keep(pts, axis, bound)) <= multiset(pts)
    decreases |pts|
  {
    if pts != [] {
      KeepShrinks(pts[1..], axis, bound);
      assert pts == [pts[0]] + pts[1..];
    }
  }

  /** A looser test keeps more: if every point passing `b1` passes `b2`,
      the `b1` half is contained, with multiplicities, in the `b2` half. */
  lemma {:induction false} KeepMonotone(pts: seq<Point>, axis: Axis, b1: Bound, b2: Bound)
    requires forall p :: Passes(p, axis, b1) ==> Passes(p, axis, b2)
    ensures multiset(Keep(pts, axis, b1)) <= multiset(Keep(pts, axis, b2))
    decreases |pts|
  {
    if pts != [] {
      KeepMonotone(pts[1..], axis, b1, b2);
    }
  }

  /** A subsequence holds no element more often than the sequence. */
  lemma {:induction false} SubsequenceCounts(a: seq<Point>, b: seq<Point>)
    requires IsSubsequence(a, b)
    ensures multiset(a) <= multiset(b)
    decreases |b|
  {
    if a != [] {
      assert b == [b[0]] + b[1..];
      if a[0] == b[0] && IsSubsequence(a[1..], b[1..]) {
        SubsequenceCounts(a[1..], b[1..]);
        assert a == [a[0]] + a[1..];
      } else {
        SubsequenceCounts(a, b[1..]);
      }
    }
  }

  /** `IsHalf` determines the half: every order-preserving subsequence that
      keeps exactly the passing points is `Keep`'s result. */
  lemma {:induction false} HalfIsUnique(kept: seq<Point>, pts: seq<Point>, axis: Axis, bound: Bound)
    requires IsHalf(kept, pts, axis, bound)
    ensures kept == Keep(pts, axis, bound)
    decreases |pts|
  {
    if pts == [] {
      assert kept == [];
    } else {
      var x, rest := pts[0], pts[1..];
      assert pts == [x] + rest;
      if Passes(x, axis, bound) {
        assert multiset(kept)[x] == multiset(pts)[x] > 0;
        assert kept != [];
        if kept[0] == x && IsSubsequence(kept[1..], rest) {
          assert kept == [x] + kept[1..];
          HalfIsUnique(kept[1..], rest, axis, bound);
        } else {
          SubsequenceCounts(kept, rest);
          assert false;
        }
      } else {
        assert multiset(kept)[x] == 0;
        assert x !in kept;
        assert IsSubsequence(kept, rest);
        HalfIsUnique(kept, rest, axis, bound);
      }
    }
  }
}
