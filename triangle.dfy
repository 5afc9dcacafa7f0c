/** The `Triangle` struct: three ordered vertices and an integer type tag (`kind` here, since `type` is a Dafny keyword), its face
    normal, the five per-triangle vertex emitters and the `iso` factory. */
module Triangles {
  import opened Geometry

  datatype Triangle = Triangle(a: Coordinate, b: Coordinate, c: Coordinate, kind: int)

  /** The three-argument constructor: kind 0. */
  function NewTriangle(a: Coordinate, b: Coordinate, c: Coordinate): (t: Triangle)
    ensures t.a == a && t.b == b && t.c == c
    ensures t.kind == 0
  {
    Triangle(a, b, c, 0)
  }

  /** The four-argument constructor stores one more than the tag it is given. */
  function NewTypedTriangle(a: Coordinate, b: Coordinate, c: Coordinate, tag: int): (t: Triangle)
    ensures t.a == a && t.b == b && t.c == c
    ensures t.kind == tag + 1
  {
    Triangle(a, b, c, tag + 1)
  }

  /** Vertex v of t, v in 0..2, in the stored order a, b, c. */
  function Vertex(t: Triangle, v: nat): Coordinate
    requires v < 3
  {
    if v == 0 then t.a else if v == 1 then t.b else t.c
  }

  /** The cross product of the edges b - a and c - a, before normalisation. */
  function FaceCross(t: Triangle): Coordinate {
    Cross(Diff(t.b, t.a), Diff(t.c, t.a))
  }

  /** GetNormalOfTriangle: glm::normalize of the cross product of the edges b - a and c - a. */
  function GetNormalOfTriangle(num: Numerics, t: Triangle): Coordinate {
    num.normalize(FaceCross(t))
  }

  /** The vector handed to normalize is orthogonal to both edges leaving a, it does not
      depend on the kind tag, and exchanging b and c reverses it: vertex order fixes the
      side the normal points to. */
  lemma FaceCrossProperties(t: Triangle, tag: int)
    ensures Dot(FaceCross(t), Diff(t.b, t.a)) == 0.0
    ensures Dot(FaceCross(t), Diff(t.c, t.a)) == 0.0
    ensures FaceCross(t.(kind := tag)) == FaceCross(t)
    ensures FaceCross(Triangle(t.a, t.c, t.b, t.kind)) == Scale(FaceCross(t), -1.0)
  {
    CrossOrthogonal(Diff(t.b, t.a), Diff(t.c, t.a));
    CrossAntiSymmetric(Diff(t.b, t.a), Diff(t.c, t.a));
  }

  /** buf holds x, y, z at s, s + 1, s + 2. */
  predicate TripleAt(buf: seq<real>, s: nat, x: real, y: real, z: real) {
    s + 3 <= |buf| && buf[s] == x && buf[s + 1] == y && buf[s + 2] == z
  }

  /** buf holds u, w at s, s + 1. */
  predicate PairAt(buf: seq<real>, s: nat, u: real, w: real) {
    s + 2 <= |buf| && buf[s] == u && buf[s + 1] == w
  }

  /** buf holds the coordinates of p at s, s + 1, s + 2. */
  predicate PointAt(buf: seq<real>, s: nat, p: Coordinate) {
    TripleAt(buf, s, p.x, p.y, p.z)
  }

  datatype Rgb = Rgb(r: real, g: real, b: real)

  const Blue := Rgb(0.204, 0.275, 0.722)
  const Magenta := Rgb(0.804, 0.141, 0.557)
  const Gray := Rgb(0.7, 0.7, 0.7)

  predicate ColorAt(buf: seq<real>, s: nat, col: Rgb) {
    TripleAt(buf, s, col.r, col.g, col.b)
  }

  /** The colour of getTriangleCoordinatesWithColors: a two-way choice on kind != 0. */
  function FlatColor(kind: int): Rgb {
    if kind != 0 then Blue else Magenta
  }

  /** The texture coordinates (0,0), (1,0), (0.5,1) of vertices a, b, c. */
  function TexU(v: nat): real {
    if v == 0 then 0.0 else if v == 1 then 1.0 else 0.5
  }

  function TexV(v: nat): real {
    if v == 2 then 1.0 else 0.0
  }

  /** The texture index of the layered variants: 2 for kind 2, 1 for kind 1, else 0. */
  function TextureIndex(kind: int): (k: real)
    ensures kind in {0, 1, 2} ==> k == kind as real
    ensures kind !in {0, 1, 2} ==> k == 0.0
  {
    if kind == 2 then 2.0 else if kind == 1 then 1.0 else 0.0
  }

  /** getTriangleCoordinates: the nine position values a, b, c. */
  function GetTriangleCoordinates(t: Triangle): (r: seq<real>)
    ensures |r| == 9
    ensures forall v :: 0 <= v < 3 ==> PointAt(r, 3 * v, Vertex(t, v))
  {
    [t.a.x, t.a.y, t.a.z,
     t.b.x, t.b.y, t.b.z,
     t.c.x, t.c.y, t.c.z]
  }

  /** getTriangleCoordinatesWithColors: per vertex a position and a colour, 6 values;
      all three vertices get the colour of the kind. */
  function GetTriangleCoordinatesWithColors(t: Triangle): (r: seq<real>)
    ensures |r| == 18
    ensures forall v :: 0 <= v < 3 ==> PointAt(r, 6 * v, Vertex(t, v))
    ensures forall v :: 0 <= v < 3 ==> ColorAt(r, 6 * v + 3, FlatColor(t.kind))
  {
    if t.kind != 0 then
      [t.a.x, t.a.y, t.a.z, 0.204, 0.275, 0.722,
       t.b.x, t.b.y, t.b.z, 0.204, 0.275, 0.722,
       t.c.x, t.c.y, t.c.z, 0.204, 0.275, 0.722]
    else
      [t.a.x, t.a.y, t.a.z, 0.804, 0.141, 0.557,
       t.b.x, t.b.y, t.b.z, 0.804, 0.141, 0.557,
       t.c.x, t.c.y, t.c.z, 0.804, 0.141, 0.557]
  }

  /** getTriangleCoordinatesWithTexCoords: per vertex a position, its texture coordinate and
      a third value that is 0 for a non-zero kind and 1 for kind 0, 6 values. */
  function GetTriangleCoordinatesWithTexCoords(t: Triangle): (r: seq<real>)
    ensures |r| == 18
    ensures forall v :: 0 <= v < 3 ==> PointAt(r, 6 * v, Vertex(t, v))
    ensures forall v :: 0 <= v < 3 ==> PairAt(r, 6 * v + 3, TexU(v), TexV(v))
    ensures forall v :: 0 <= v < 3 ==> r[6 * v + 5] == if t.kind != 0 then 0.0 else 1.0
  {
    if t.kind != 0 then
      [t.a.x, t.a.y, t.a.z, 0.0, 0.0, 0.0,
       t.b.x, t.b.y, t.b.z, 1.0, 0.0, 0.0,
       t.c.x, t.c.y, t.c.z, 0.5, 1.0, 0.0]
    else
      [t.a.x, t.a.y, t.a.z, 0.0, 0.0, 1.0,
       t.b.x, t.b.y, t.b.z, 1.0, 0.0, 1.0,
       t.c.x, t.c.y, t.c.z, 0.5, 1.0, 1.0]
  }

  /** getTriangleCoordinatesWithColorsAndTexCoords: per vertex position, gray, texture
      coordinate and texture index, 9 values. */
  function GetTriangleCoordinatesWithColorsAndTexCoords(t: Triangle): (r: seq<real>)
    ensures |r| == 27
    ensures forall v :: 0 <= v < 3 ==> PointAt(r, 9 * v, Vertex(t, v))
    ensures forall v :: 0 <= v < 3 ==> ColorAt(r, 9 * v + 3, Gray)
    ensures forall v :: 0 <= v < 3 ==> PairAt(r, 9 * v + 6, TexU(v), TexV(v))
    ensures forall v :: 0 <= v < 3 ==> r[9 * v + 8] == TextureIndex(t.kind)
  {
    var k := if t.kind == 2 then 2.0 else if t.kind == 1 then 1.0 else 0.0;
    [t.a.x, t.a.y, t.a.z, 0.7, 0.7, 0.7, 0.0, 0.0, k,
     t.b.x, t.b.y, t.b.z, 0.7, 0.7, 0.7, 1.0, 0.0, k,
     t.c.x, t.c.y, t.c.z, 0.7, 0.7, 0.7, 0.5, 1.0, k]
  }

  /** The twelve values of one vertex of the lit layout, starting at s: position p, gray,
      texture coordinate (u, w), texture index k and normal n. */
  predicate LitVertexAt(buf: seq<real>, s: nat, p: Coordinate, u: real, w: real, k: real, n: Coordinate) {
    PointAt(buf, s, p) && ColorAt(buf, s + 3, Gray) && PairAt(buf, s + 6, u, w) &&
    s + 12 <= |buf| && buf[s + 8] == k && PointAt(buf, s + 9, n)
  }

  /** One vertex of the lit layout, twelve values. */
  function LitVertex(p: Coordinate, u: real, w: real, k: real, n: Coordinate): (r: seq<real>)
    ensures |r| == 12 && LitVertexAt(r, 0, p, u, w, k, n)
  {
    [p.x, p.y, p.z, 0.7, 0.7, 0.7, u, w, k, n.x, n.y, n.z]
  }

  /** getTriangleCoordinatesWithColorsTexCoordsAndNormalLight: per vertex position, gray,
      texture coordinate, texture index and the face normal, 12 values; the normal is
      computed once and repeated at every vertex. */
  function GetTriangleCoordinatesWithColorsTexCoordsAndNormalLight(num: Numerics, t: Triangle): (r: seq<real>)
    ensures |r| == 36
    ensures forall v :: 0 <= v < 3 ==>
      LitVertexAt(r, 12 * v, Vertex(t, v), TexU(v), TexV(v), TextureIndex(t.kind), GetNormalOfTriangle(num, t))
  {
    var n := GetNormalOfTriangle(num, t);
    var k := if t.kind == 2 then 2.0 else if t.kind == 1 then 1.0 else 0.0;
    LitVertex(t.a, 0.0, 0.0, k, n) + LitVertex(t.b, 1.0, 0.0, k, n) + LitVertex(t.c, 0.5, 1.0, k, n)
  }

  /** Triangle::iso: an isosceles triangle with apex a, apex angle `degree` and height h
      (b and c are built with the two-argument constructor, so their z is 0). Kind 1 for
      36 degrees, kind 2 for 108 degrees, kind 0 for any other angle. */
  function Iso(num: Numerics, a: Coordinate, degree: int, h: real): (t: Triangle)
    ensures t.a == a
    ensures t.b.y == a.y + h && t.c.y == a.y + h
    ensures t.b.x + t.c.x == 2.0 * a.x
    ensures t.b.z == 0.0 && t.c.z == 0.0
    ensures t.kind == if degree == 36 then 1 else if degree == 108 then 2 else 0
  {
    var rad := num.Radians(degree as real);
    var dx := num.tan(rad / 2.0) * h;
    var b := Planar(a.x - dx, a.y + h);
    var c := Planar(a.x + dx, a.y + h);
    if degree == 36 then NewTypedTriangle(a, b, c, 0)
    else if degree == 108 then NewTypedTriangle(a, b, c, 1)
    else NewTriangle(a, b, c)
  }
}
