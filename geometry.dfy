/** Three-component points and vectors (`Coordinate`) and the arithmetic the
    tiling engine performs on them. Floats are modelled as reals; the
    floating-point library calls the engine makes (pi, sin, cos, tan, sqrt and
    glm::normalize) are left uninterpreted as the fields of `Numerics`. */
module Geometry {

  /** A point or a vector: x, y, z. */
  datatype Coordinate = Coordinate(x: real, y: real, z: real)

  /** The library functions the engine calls and whose values are not modelled. */
  datatype Numerics = Numerics(
    pi: real,
    sin: real -> real,
    cos: real -> real,
    tan: real -> real,
    sqrt: real -> real,
    normalize: Coordinate -> Coordinate)
  {
    /** The one fact of the platform the engine relies on: a square root is never negative. */
    ghost predicate Valid() {
      forall v :: 0.0 <= v ==> 0.0 <= sqrt(v)
    }

    /** Degrees to radians, angle * M_PI / 180. */
    function Radians(angle: real): real {
      angle * pi / 180.0
    }

    /** The PHI macro, (1 + sqrt(5)) / 2. */
    function Phi(): real {
      (1.0 + sqrt(5.0)) / 2.0
    }
  }

  /** PHI is a legal divisor: it is at least 1/2 whenever sqrt is non-negative. */
  lemma PhiPositive(num: Numerics)
    requires num.Valid()
    ensures num.Phi() >= 0.5
  {
    assert 0.0 <= num.sqrt(5.0);
  }

  /** With an exact square root, PHI is the golden ratio: PHI > 1 and PHI * PHI == PHI + 1. */
  lemma PhiIsGolden(num: Numerics)
    requires 0.0 <= num.sqrt(5.0) && num.sqrt(5.0) * num.sqrt(5.0) == 5.0
    ensures num.Phi() > 1.0
    ensures num.Phi() * num.Phi() == num.Phi() + 1.0
  {
    var s := num.sqrt(5.0);
    var below, above := s - 1.0, s + 1.0;
    assert below * above == s * s - 1.0;
    PositiveFactor(below, above);
    assert s * s == 5.0;
    calc {
      num.Phi() * num.Phi();
      (1.0 + s) * (1.0 + s) / 4.0;
      (1.0 + 2.0 * s + s * s) / 4.0;
      (6.0 + 2.0 * s) / 4.0;
      num.Phi() + 1.0;
    }
  }

  lemma PositiveFactor(a: real, b: real)
    requires 0.0 < b && 0.0 < a * b
    ensures 0.0 < a
  {
  }

  /** The two-argument constructor: z is 0. */
  function Planar(x: real, y: real): (p: Coordinate)
    ensures p.z == 0.0 && p.x == x && p.y == y
  {
    Coordinate(x, y, 0.0)
  }

  /** Coordinate::sum */
  function Sum(a: Coordinate, b: Coordinate): Coordinate {
    Coordinate(a.x + b.x, a.y + b.y, a.z + b.z)
  }

  /** Coordinate::diff */
  function Diff(a: Coordinate, b: Coordinate): Coordinate {
    Coordinate(a.x - b.x, a.y - b.y, a.z - b.z)
  }

  /** Coordinate::divide: the divisor must not be zero. */
  function Divide(a: Coordinate, s: real): Coordinate
    requires s != 0.0
  {
    Coordinate(a.x / s, a.y / s, a.z / s)
  }

  function Scale(a: Coordinate, s: real): Coordinate {
    Coordinate(a.x * s, a.y * s, a.z * s)
  }

  function Dot(u: Coordinate, v: Coordinate): real {
    u.x * v.x + u.y * v.y + u.z * v.z
  }

  /** glm::cross */
  function Cross(u: Coordinate, v: Coordinate): Coordinate {
    Coordinate(u.y * v.z - u.z * v.y, u.z * v.x - u.x * v.z, u.x * v.y - u.y * v.x)
  }

  /** Sum and Diff undo each other, and Sum is commutative. */
  lemma SumDiffInverse(a: Coordinate, b: Coordinate)
    ensures Diff(Sum(a, b), b) == a
    ensures Sum(Diff(a, b), b) == a
    ensures Sum(a, b) == Sum(b, a)
  {
  }

  /** Dividing by s and scaling back by s gives the original vector. */
  lemma DivideScaleInverse(a: Coordinate, s: real)
    requires s != 0.0
    ensures Scale(Divide(a, s), s) == a
  {
  }

  /** Coordinate::RotatePoint: rotate p about origin by angle degrees in the XY plane.
      The result always has z == 0. */
  function RotatePoint(num: Numerics, origin: Coordinate, angle: real, p: Coordinate): (r: Coordinate)
    ensures r.z == 0.0
  {
    var rad := num.Radians(angle);
    var s := num.sin(rad);
    var c := num.cos(rad);
    var px := p.x - origin.x;
    var py := p.y - origin.y;
    Coordinate(px * c - py * s + origin.x, px * s + py * c + origin.y, 0.0)
  }

  /** RotatePoint reads neither p.z nor origin.z. */
  lemma RotatePointIgnoresZ(num: Numerics, origin: Coordinate, origin': Coordinate, angle: real,
                            p: Coordinate, p': Coordinate)
    requires origin.x == origin'.x && origin.y == origin'.y
    requires p.x == p'.x && p.y == p'.y
    ensures RotatePoint(num, origin, angle, p) == RotatePoint(num, origin', angle, p')
  {
    var r, r' := RotatePoint(num, origin, angle, p), RotatePoint(num, origin', angle, p');
    assert r.x == r'.x && r.y == r'.y && r.z == r'.z;
  }

  /** The centre of rotation is a fixed point (once dropped to the plane). */
  lemma RotatePointFixesOrigin(num: Numerics, origin: Coordinate, angle: real)
    ensures RotatePoint(num, origin, angle, origin) == Planar(origin.x, origin.y)
  {
  }

  function Sq(v: real): real {
    v * v
  }

  function PlanarSqDist(a: Coordinate, b: Coordinate): real {
    Sq(a.x - b.x) + Sq(a.y - b.y)
  }

  /** When sin and cos of the angle satisfy the Pythagorean identity, the rotation keeps
      the distance to the centre of rotation in the plane. */
  lemma RotatePointKeepsRadius(num: Numerics, origin: Coordinate, angle: real, p: Coordinate)
    requires Sq(num.sin(num.Radians(angle))) + Sq(num.cos(num.Radians(angle))) == 1.0
    ensures PlanarSqDist(RotatePoint(num, origin, angle, p), origin) == PlanarSqDist(p, origin)
  {
    var rad := num.Radians(angle);
    var s, c := num.sin(rad), num.cos(rad);
    var px, py := p.x - origin.x, p.y - origin.y;
    var r := RotatePoint(num, origin, angle, p);
    assert r.x - origin.x == px * c - py * s && r.y - origin.y == px * s + py * c;
    RotationSquares(px, py, s, c);
  }

  lemma RotationSquares(px: real, py: real, s: real, c: real)
    requires Sq(s) + Sq(c) == 1.0
    ensures Sq(px * c - py * s) + Sq(px * s + py * c) == Sq(px) + Sq(py)
  {
    calc {
      Sq(px * c - py * s) + Sq(px * s + py * c);
      (px * c - py * s) * (px * c - py * s) + (px * s + py * c) * (px * s + py * c);
      px * px * (s * s + c * c) + py * py * (s * s + c * c);
      Sq(px) + Sq(py);
    }
  }

  function SqDist(a: Coordinate, b: Coordinate): real {
    Sq(a.x - b.x) + Sq(a.y - b.y) + Sq(a.z - b.z)
  }

  /** Coordinate::dist: sqrt of the sum of squared differences. */
  function Dist(num: Numerics, a: Coordinate, b: Coordinate): (d: real)
    ensures num.Valid() ==> 0.0 <= d
  {
    assert 0.0 <= Sq(a.x - b.x) && 0.0 <= Sq(a.y - b.y) && 0.0 <= Sq(a.z - b.z);
    num.sqrt(SqDist(a, b))
  }

  /** dist is symmetric, zero-argument on equal points, and never negative. */
  lemma DistProperties(num: Numerics, a: Coordinate, b: Coordinate)
    requires num.Valid()
    ensures Dist(num, a, b) == Dist(num, b, a)
    ensures Dist(num, a, a) == num.sqrt(0.0)
    ensures 0.0 <= Dist(num, a, b)
  {
    assert SqDist(a, b) == SqDist(b, a);
  }

  /** The cross product is orthogonal to both of its arguments. */
  lemma CrossOrthogonal(u: Coordinate, v: Coordinate)
    ensures Dot(Cross(u, v), u) == 0.0
    ensures Dot(Cross(u, v), v) == 0.0
  {
  }

  /** Swapping the arguments of the cross product negates it. */
  lemma CrossAntiSymmetric(u: Coordinate, v: Coordinate)
    ensures Cross(v, u) == Scale(Cross(u, v), -1.0)
  {
  }
}
