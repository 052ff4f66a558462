/** Points of the plane with exact real coordinates, and the 60-degree
    rotation the Koch construction uses.

    Floating-point `cos`/`sin` are replaced by exact values: cos 60° is 1/2
    and sin 60° is a parameter `r` satisfying `IsSin60(r)`, so `r` stands
    for sqrt(3)/2 without any square root being taken. */
module Geometry {

  /** A point, or a vector, of the plane. */
  datatype Point = Point(x: real, y: real) {

    function Plus(q: Point): Point {
      Point(x + q.x, y + q.y)
    }

    function Minus(q: Point): Point {
      Point(x - q.x, y - q.y)
    }

    function Times(k: real): Point {
      Point(k * x, k * y)
    }

    function Over(k: real): Point
      requires k != 0.0
    {
      Point(x / k, y / k)
    }
  }

  const Origin: Point := Point(0.0, 0.0)

  /** The z-component of the cross product: positive when `b` turns
      counter-clockwise from `a`. */
  function Cross(a: Point, b: Point): real {
    a.x * b.y - a.y * b.x
  }

  function Dot(a: Point, b: Point): real {
    a.x * b.x + a.y * b.y
  }

  /** Squared Euclidean length. */
  function Norm2(a: Point): real {
    Dot(a, a)
  }

  /** `r` is sin 60°, that is sqrt(3)/2. */
  predicate IsSin60(r: real) {
    r > 0.0 && r * r == 3.0 / 4.0
  }

  /** The direction of a 60-degree turn: `CounterClockwise` is +60°,
      `Clockwise` is -60°. */
  datatype Sense = CounterClockwise | Clockwise

  /** sin(±60°), given `r` = sin 60°. */
  function SinOf(sense: Sense, r: real): real {
    match sense
    case CounterClockwise => r
    case Clockwise => -r
  }

  function Opposite(sense: Sense): Sense {
    match sense
    case CounterClockwise => Clockwise
    case Clockwise => CounterClockwise
  }

  /** A 2x2 matrix [[a, b], [c, d]]. */
  datatype Matrix = Matrix(a: real, b: real, c: real, d: real)

  /** Matrix-vector product. */
  function Apply(m: Matrix, v: Point): Point {
    Point(m.a * v.x + m.b * v.y, m.c * v.x + m.d * v.y)
  }

  /** The rotation matrix [[cos t, -sin t], [sin t, cos t]] for t = ±60°. */
  function RotationMatrix(sense: Sense, r: real): (m: Matrix)
    ensures m.a == m.d == 1.0 / 2.0 && m.b == -m.c
    ensures m.c == SinOf(sense, r)
  {
    var c, s := 1.0 / 2.0, SinOf(sense, r);
    Matrix(c, -s, s, c)
  }

  function Rotate(v: Point, sense: Sense, r: real): Point {
    Apply(RotationMatrix(sense, r), v)
  }

  /** A 60-degree rotation keeps lengths and makes an angle whose cosine
      is 1/2 with the vector it rotates. */
  lemma RotationIsometry(v: Point, sense: Sense, r: real)
    requires IsSin60(r)
    ensures Norm2(Rotate(v, sense, r)) == Norm2(v)
    ensures Dot(v, Rotate(v, sense, r)) == Norm2(v) / 2.0
  {
    var s := SinOf(sense, r);
    assert s * s == 3.0 / 4.0;
    var w := Rotate(v, sense, r);
    assert w.x == v.x / 2.0 - s * v.y;
    assert w.y == s * v.x + v.y / 2.0;
    calc {
      Norm2(w);
      (v.x / 2.0 - s * v.y) * (v.x / 2.0 - s * v.y) + (s * v.x + v.y / 2.0) * (s * v.x + v.y / 2.0);
      (1.0 / 4.0 + s * s) * (v.x * v.x) + (1.0 / 4.0 + s * s) * (v.y * v.y);
      Norm2(v);
    }
  }

  /** The rotated vector lies on the side of `v` given by the sense of the
      turn: to the left for +60°, to the right for -60°. */
  lemma RotationTurn(v: Point, sense: Sense, r: real)
    ensures Cross(v, Rotate(v, sense, r)) == SinOf(sense, r) * Norm2(v)
  {
    var s := SinOf(sense, r);
    var w := Rotate(v, sense, r);
    assert w.x == v.x / 2.0 - s * v.y;
    assert w.y == s * v.x + v.y / 2.0;
    calc {
      Cross(v, w);
      v.x * (s * v.x + v.y / 2.0) - v.y * (v.x / 2.0 - s * v.y);
      s * (v.x * v.x) + s * (v.y * v.y);
      s * Norm2(v);
    }
  }

  lemma CrossAddLeft(a: Point, b: Point, c: Point)
    ensures Cross(a.Plus(b), c) == Cross(a, c) + Cross(b, c)
  {
  }

  lemma CrossAddRight(a: Point, b: Point, c: Point)
    ensures Cross(a, b.Plus(c)) == Cross(a, b) + Cross(a, c)
  {
  }

  lemma CrossScaleLeft(a: Point, b: Point, k: real)
    ensures Cross(a.Times(k), b) == k * Cross(a, b)
  {
  }

  lemma CrossScaleRight(a: Point, b: Point, k: real)
    ensures Cross(a, b.Times(k)) == k * Cross(a, b)
  {
  }

  lemma CrossSelf(a: Point)
    ensures Cross(a, a) == 0.0
  {
  }

  lemma CrossAntisymmetric(a: Point, b: Point)
    ensures Cross(b, a) == -Cross(a, b)
  {
  }

  /** |a - b|^2 = |a|^2 - 2 a.b + |b|^2. */
  lemma Norm2Difference(a: Point, b: Point)
    ensures Norm2(a.Minus(b)) == Norm2(a) - 2.0 * Dot(a, b) + Norm2(b)
  {
    assert (a.x - b.x) * (a.x - b.x) == a.x * a.x - 2.0 * (a.x * b.x) + b.x * b.x;
    assert (a.y - b.y) * (a.y - b.y) == a.y * a.y - 2.0 * (a.y * b.y) + b.y * b.y;
  }

  /** Rotating a scaled vector is scaling the rotated vector. */
  lemma RotateScale(v: Point, k: real, sense: Sense, r: real)
    ensures Rotate(v.Times(k), sense, r) == Rotate(v, sense, r).Times(k)
  {
    var s := SinOf(sense, r);
    assert s * (k * v.x) == k * (s * v.x) && s * (k * v.y) == k * (s * v.y);
  }

  /** `Rotate` written out coordinate by coordinate. */
  lemma RotateCoordinates(v: Point, sense: Sense, r: real)
    ensures Rotate(v, sense, r).x == v.x / 2.0 - SinOf(sense, r) * v.y
    ensures Rotate(v, sense, r).y == SinOf(sense, r) * v.x + v.y / 2.0
  {
  }

  /** One coordinate of a turn by sine `s` followed by a turn by `-s`. */
  lemma TurnBack(a: real, b: real, s: real)
    requires s * s == 3.0 / 4.0
    ensures (a / 2.0 - s * b) / 2.0 + s * (s * a + b / 2.0) == a
  {
    assert s * (s * a) == (s * s) * a;
  }

  /** Rotating by +60° and then -60° (or the other way round) gives the
      vector back. */
  lemma RotationInverse(v: Point, sense: Sense, r: real)
    requires IsSin60(r)
    ensures Rotate(Rotate(v, sense, r), Opposite(sense), r) == v
  {
    var s := SinOf(sense, r);
    assert SinOf(Opposite(sense), r) == -s;
    var w := Rotate(v, sense, r);
    var u := Rotate(w, Opposite(sense), r);
    RotateCoordinates(v, sense, r);
    RotateCoordinates(w, Opposite(sense), r);
    TurnBack(v.x, v.y, s);
    TurnBack(v.y, v.x, -s);
    assert u.x == v.x;
    assert u.y == v.y;
  }
}
