/** What the `Penrose` engine computes, as functions of the triangle list: the initial
    fan, one deflation pass and its kind grammar, repeated passes, the extrusion of
    every triangle into three lifted faces, and the flat vertex buffers. The class in
    engine.dfy is proved to compute exactly these. */
module Tiling {
  import opened Geometry
  import opened Triangles

  // ---------------------------------------------------------------- the fan

  /** p(0) = (height, 0) and p(i + 1) = RotatePoint(origin, degree, p(i)). The first
      point is not offset by the origin. */
  function FanPoint(num: Numerics, origin: Coordinate, degree: int, height: real, i: nat): Coordinate {
    if i == 0 then Planar(height, 0.0)
    else RotatePoint(num, origin, degree as real, FanPoint(num, origin, degree, height, i - 1))
  }

  /** Triangle i of the fan: (origin, p(i), p(i+1)) for even i, (origin, p(i+1), p(i)) for odd i,
      built with the four-argument constructor and tag 0. */
  function FanTriangle(num: Numerics, origin: Coordinate, degree: int, height: real, i: nat): Triangle {
    var p := FanPoint(num, origin, degree, height, i);
    var q := FanPoint(num, origin, degree, height, i + 1);
    if i % 2 == 0 then NewTypedTriangle(origin, p, q, 0) else NewTypedTriangle(origin, q, p, 0)
  }

  /** The first n fan triangles, in the order the constructor pushes them. */
  function FanPrefix(num: Numerics, origin: Coordinate, degree: int, height: real, n: nat): (r: seq<Triangle>)
    ensures |r| == n
    ensures forall i :: 0 <= i < n ==> r[i] == FanTriangle(num, origin, degree, height, i)
  {
    if n == 0 then [] else FanPrefix(num, origin, degree, height, n - 1) + [FanTriangle(num, origin, degree, height, n - 1)]
  }

  /** The C++ `360 / _degree` (truncating division; it agrees with Dafny's because 360 is
      positive), or 0 when that is negative and the loop does not run. */
  function FanSize(degree: int): nat
    requires degree != 0
  {
    if 360 / degree > 0 then 360 / degree else 0
  }

  function Fan(num: Numerics, origin: Coordinate, degree: int, height: real): seq<Triangle>
    requires degree != 0
  {
    FanPrefix(num, origin, degree, height, FanSize(degree))
  }

  /** The fan has 360 / degree triangles (none for a negative degree); every one has kind 1
      and first vertex origin; consecutive triangles share the spoke (origin, p(i+1)), which
      sits in the same slot of both (c after an even index, b after an odd one). */
  lemma FanShape(num: Numerics, origin: Coordinate, degree: int, height: real)
    requires degree != 0
    ensures var fan := Fan(num, origin, degree, height);
      && (0 < degree ==> |fan| == 360 / degree)
      && (degree < 0 ==> |fan| == 0)
      && (forall i :: 0 <= i < |fan| ==> fan[i].kind == 1 && fan[i].a == origin)
      && (forall i :: 0 <= i < |fan| - 1 && i % 2 == 0 ==>
            fan[i].c == fan[i + 1].c == FanPoint(num, origin, degree, height, i + 1))
      && (forall i :: 0 <= i < |fan| - 1 && i % 2 == 1 ==>
            fan[i].b == fan[i + 1].b == FanPoint(num, origin, degree, height, i + 1))
  {
    FanSizeValue(degree);
    var n := FanSize(degree);
    FanPrefixKinds(num, origin, degree, height, n);
    FanPrefixEvenSpokes(num, origin, degree, height, n);
    FanPrefixOddSpokes(num, origin, degree, height, n);
  }

  lemma FanSizeValue(degree: int)
    requires degree != 0
    ensures 0 < degree ==> FanSize(degree) == 360 / degree
    ensures degree < 0 ==> FanSize(degree) == 0
  {
    if degree < 0 {
      assert 360 / degree <= 0;
    }
  }

  lemma FanPrefixKinds(num: Numerics, origin: Coordinate, degree: int, height: real, n: nat)
    ensures var fan := FanPrefix(num, origin, degree, height, n);
      forall i :: 0 <= i < |fan| ==> fan[i].kind == 1 && fan[i].a == origin
  {
    var fan := FanPrefix(num, origin, degree, height, n);
    forall i | 0 <= i < |fan|
      ensures fan[i].kind == 1 && fan[i].a == origin
    {
      FanTriangleShape(num, origin, degree, height, i);
    }
  }

  lemma FanPrefixEvenSpokes(num: Numerics, origin: Coordinate, degree: int, height: real, n: nat)
    ensures var fan := FanPrefix(num, origin, degree, height, n);
      forall i :: 0 <= i < |fan| - 1 && i % 2 == 0 ==>
        fan[i].c == fan[i + 1].c == FanPoint(num, origin, degree, height, i + 1)
  {
    var fan := FanPrefix(num, origin, degree, height, n);
    forall i | 0 <= i < |fan| - 1 && i % 2 == 0
      ensures fan[i].c == fan[i + 1].c == FanPoint(num, origin, degree, height, i + 1)
    {
      FanTriangleShape(num, origin, degree, height, i);
      FanTriangleShape(num, origin, degree, height, i + 1);
    }
  }

  lemma FanPrefixOddSpokes(num: Numerics, origin: Coordinate, degree: int, height: real, n: nat)
    ensures var fan := FanPrefix(num, origin, degree, height, n);
      forall i :: 0 <= i < |fan| - 1 && i % 2 == 1 ==>
        fan[i].b == fan[i + 1].b == FanPoint(num, origin, degree, height, i + 1)
  {
    var fan := FanPrefix(num, origin, degree, height, n);
    forall i | 0 <= i < |fan| - 1 && i % 2 == 1
      ensures fan[i].b == fan[i + 1].b == FanPoint(num, origin, degree, height, i + 1)
    {
      FanTriangleShape(num, origin, degree, height, i);
      FanTriangleShape(num, origin, degree, height, i + 1);
    }
  }

  lemma FanTriangleShape(num: Numerics, origin: Coordinate, degree: int, height: real, i: nat)
    ensures var t := FanTriangle(num, origin, degree, height, i);
      var p, q := FanPoint(num, origin, degree, height, i), FanPoint(num, origin, degree, height, i + 1);
      && t.kind == 1 && t.a == origin
      && (i % 2 == 0 ==> t.b == p && t.c == q)
      && (i % 2 == 1 ==> t.b == q && t.c == p)
  {
  }

  // ------------------------------------------------------------- deflation

  /** from + (to - from) / PHI: the point that cuts the edge from -> to in the golden ratio. */
  function GoldenPoint(num: Numerics, from: Coordinate, to: Coordinate): Coordinate
    requires num.Valid()
  {
    PhiPositive(num);
    Sum(from, Divide(Diff(to, from), num.Phi()))
  }

  lemma GoldenSplit(d: real, phi: real)
    requires phi > 1.0 && phi * phi == phi + 1.0
    ensures Sq(d / phi) == Sq(phi) * Sq(d - d / phi)
  {
    var e := d / phi;
    assert d == e * phi;
    assert (d - e) * phi == e * (phi * phi - phi);
    assert (d - e) * phi == e;
    calc {
      Sq(phi) * Sq(d - e);
      (phi * (d - e)) * (phi * (d - e));
      Sq(e);
    }
  }

  /** With an exact square root, the golden point g of from -> to satisfies
      |from g| = PHI * |g to|, and g - from is (to - from) / PHI. */
  lemma GoldenPointRatio(num: Numerics, from: Coordinate, to: Coordinate)
    requires num.Valid()
    requires num.sqrt(5.0) * num.sqrt(5.0) == 5.0
    ensures var g := GoldenPoint(num, from, to);
      && Diff(g, from) == Divide(Diff(to, from), num.Phi())
      && SqDist(g, from) == Sq(num.Phi()) * SqDist(to, g)
  {
    PhiPositive(num);
    PhiIsGolden(num);
    var phi := num.Phi();
    var g := GoldenPoint(num, from, to);
    var d := Diff(to, from);
    assert g.x - from.x == d.x / phi && to.x - g.x == d.x - d.x / phi;
    assert g.y - from.y == d.y / phi && to.y - g.y == d.y - d.y / phi;
    assert g.z - from.z == d.z / phi && to.z - g.z == d.z - d.z / phi;
    GoldenSplit(d.x, phi);
    GoldenSplit(d.y, phi);
    GoldenSplit(d.z, phi);
  }

  /** The children deflate emits for one triangle: kind 2 gives three children of kinds
      2, 2, 1; kind 1 gives two of kinds 1, 2; any other kind gives none. */
  function Children(num: Numerics, t: Triangle): (r: seq<Triangle>)
    requires num.Valid()
    ensures t.kind == 2 ==> |r| == 3 && r[0].kind == 2 && r[1].kind == 2 && r[2].kind == 1
    ensures t.kind == 1 ==> |r| == 2 && r[0].kind == 1 && r[1].kind == 2
    ensures t.kind != 1 && t.kind != 2 ==> r == []
  {
    if t.kind == 2 then
      var q := GoldenPoint(num, t.b, t.a);
      var r := GoldenPoint(num, t.b, t.c);
      [NewTypedTriangle(r, t.c, t.a, 1), NewTypedTriangle(q, r, t.b, 1), NewTypedTriangle(r, q, t.a, 0)]
    else if t.kind == 1 then
      var p := GoldenPoint(num, t.a, t.b);
      [NewTypedTriangle(t.c, p, t.b, 0), NewTypedTriangle(p, t.c, t.a, 1)]
    else
      []
  }

  /** The vertices of the children, in order: for kind 2 with Q = b + (a - b)/PHI and
      R = b + (c - b)/PHI they are (R, c, a), (Q, R, b), (R, Q, a); for kind 1 with
      P = a + (b - a)/PHI they are (c, P, b), (P, c, a). */
  lemma ChildrenVertices(num: Numerics, t: Triangle)
    requires num.Valid()
    ensures var r := Children(num, t);
      var q, rr, p := GoldenPoint(num, t.b, t.a), GoldenPoint(num, t.b, t.c), GoldenPoint(num, t.a, t.b);
      && (t.kind == 2 ==>
            r[0].a == rr && r[0].b == t.c && r[0].c == t.a &&
            r[1].a == q && r[1].b == rr && r[1].c == t.b &&
            r[2].a == rr && r[2].b == q && r[2].c == t.a)
      && (t.kind == 1 ==>
            r[0].a == t.c && r[0].b == p && r[0].c == t.b &&
            r[1].a == p && r[1].b == t.c && r[1].c == t.a)
  {
  }

  /** One deflation pass: the children of every triangle, concatenated in input order. */
  function DeflateAll(num: Numerics, ts: seq<Triangle>): seq<Triangle>
    requires num.Valid()
  {
    if ts == [] then [] else DeflateAll(num, ts[..|ts| - 1]) + Children(num, ts[|ts| - 1])
  }

  /** A pass over a concatenation is the concatenation of the passes: children keep the
      order of their parents. */
  lemma {:induction false} DeflateAllAppend(num: Numerics, xs: seq<Triangle>, ys: seq<Triangle>)
    requires num.Valid()
    ensures DeflateAll(num, xs + ys) == DeflateAll(num, xs) + DeflateAll(num, ys)
    decreases |ys|
  {
    if ys == [] {
      assert xs + ys == xs;
    } else {
      var ys' := ys[..|ys| - 1];
      assert (xs + ys)[..|xs + ys| - 1] == xs + ys';
      DeflateAllAppend(num, xs, ys');
    }
  }

  /** The number of triangles in ts whose kind is k. */
  function CountKind(ts: seq<Triangle>, k: int): nat {
    if ts == [] then 0 else CountKind(ts[..|ts| - 1], k) + (if ts[|ts| - 1].kind == k then 1 else 0)
  }

  lemma {:induction false} CountKindAppend(xs: seq<Triangle>, ys: seq<Triangle>, k: int)
    ensures CountKind(xs + ys, k) == CountKind(xs, k) + CountKind(ys, k)
    decreases |ys|
  {
    if ys == [] {
      assert xs + ys == xs;
    } else {
      var ys' := ys[..|ys| - 1];
      assert (xs + ys)[..|xs + ys| - 1] == xs + ys';
      CountKindAppend(xs, ys', k);
    }
  }

  /** Every kind is one of the two of the deflation grammar. */
  ghost predicate InGrammar(ts: seq<Triangle>) {
    forall i :: 0 <= i < |ts| ==> ts[i].kind == 1 || ts[i].kind == 2
  }

  /** In a list of grammar kinds, the two kind counts add up to the length. */
  lemma {:induction false} InGrammarSize(ts: seq<Triangle>)
    requires InGrammar(ts)
    ensures |ts| == CountKind(ts, 1) + CountKind(ts, 2)
  {
    if ts != [] {
      InGrammarSize(ts[..|ts| - 1]);
    }
  }

  /** One pass maps the kind counts (n1, n2) to (n1 + n2, n1 + 2 n2), has 2 n1 + 3 n2
      triangles (other kinds are dropped), and yields only grammar kinds. */
  lemma {:induction false} DeflateAllCounts(num: Numerics, ts: seq<Triangle>)
    requires num.Valid()
    ensures var out := DeflateAll(num, ts);
      && CountKind(out, 1) == CountKind(ts, 1) + CountKind(ts, 2)
      && CountKind(out, 2) == CountKind(ts, 1) + 2 * CountKind(ts, 2)
      && |out| == 2 * CountKind(ts, 1) + 3 * CountKind(ts, 2)
      && InGrammar(out)
  {
    if ts != [] {
      var init, last := ts[..|ts| - 1], ts[|ts| - 1];
      DeflateAllCounts(num, init);
      var kids := Children(num, last);
      CountKindAppend(DeflateAll(num, init), kids, 1);
      CountKindAppend(DeflateAll(num, init), kids, 2);
      ChildrenCounts(num, last);
    }
  }

  /** The count of a one-element list. */
  lemma CountKindSingleton(t: Triangle, k: int)
    ensures CountKind([t], k) == if t.kind == k then 1 else 0
  {
    assert [t][..0] == [];
  }

  /** The children of one triangle, counted by kind. */
  lemma ChildrenCounts(num: Numerics, t: Triangle)
    requires num.Valid()
    ensures var kids := Children(num, t);
      && CountKind(kids, 1) == (if t.kind == 1 || t.kind == 2 then 1 else 0)
      && CountKind(kids, 2) == (if t.kind == 1 then 1 else if t.kind == 2 then 2 else 0)
  {
    var kids := Children(num, t);
    forall k ensures CountKind(kids, k) ==
      if kids == [] then 0
      else if |kids| == 2 then CountKind([kids[0]], k) + CountKind([kids[1]], k)
      else CountKind([kids[0]], k) + CountKind([kids[1]], k) + CountKind([kids[2]], k)
    {
      if |kids| == 2 {
        assert kids == [kids[0]] + [kids[1]];
        CountKindAppend([kids[0]], [kids[1]], k);
      } else if |kids| == 3 {
        assert kids == [kids[0]] + [kids[1]] + [kids[2]];
        CountKindAppend([kids[0]] + [kids[1]], [kids[2]], k);
        CountKindAppend([kids[0]], [kids[1]], k);
      }
    }
    if kids != [] {
      CountKindSingleton(kids[0], 1);
      CountKindSingleton(kids[1], 1);
      CountKindSingleton(kids[0], 2);
      CountKindSingleton(kids[1], 2);
      if |kids| == 3 {
        CountKindSingleton(kids[2], 1);
        CountKindSingleton(kids[2], 2);
      }
    }
  }

  /** `loops` passes, none when loops <= 0. */
  function DeflateTimes(num: Numerics, ts: seq<Triangle>, loops: int): seq<Triangle>
    requires num.Valid()
    decreases loops
  {
    if loops <= 0 then ts else DeflateAll(num, DeflateTimes(num, ts, loops - 1))
  }

  /** The kind counts after k passes from (n1, n2), by the recurrence of DeflateAllCounts. */
  function Generations(n1: nat, n2: nat, k: nat): (nat, nat) {
    if k == 0 then (n1, n2)
    else
      var g := Generations(n1, n2, k - 1);
      (g.0 + g.1, g.0 + 2 * g.1)
  }

  function Fib(n: nat): nat {
    if n < 2 then n else Fib(n - 1) + Fib(n - 2)
  }

  /** The counts grow by every other Fibonacci number: after k passes they are
      (n1 F(2k-1) + n2 F(2k), n1 F(2k) + n2 F(2k+1)), so the size grows like PHI^2 per pass. */
  lemma {:induction false} GenerationsAreFibonacci(n1: nat, n2: nat, k: nat)
    ensures Generations(n1, n2, k).0 == n1 * (Fib(2 * k + 1) - Fib(2 * k)) + n2 * Fib(2 * k)
    ensures Generations(n1, n2, k).1 == n1 * Fib(2 * k) + n2 * Fib(2 * k + 1)
  {
    if k > 0 {
      GenerationsAreFibonacci(n1, n2, k - 1);
      var g := Generations(n1, n2, k - 1);
      assert 2 * (k - 1) == 2 * k - 2 && 2 * (k - 1) + 1 == 2 * k - 1;
      FibonacciStep(n1, n2, g.0, g.1, Fib(2 * k - 2), Fib(2 * k - 1), Fib(2 * k), Fib(2 * k + 1));
    }
  }

  /** One application of the count recurrence to the closed form of the previous pass,
      with a, b, c, d four consecutive Fibonacci numbers. */
  lemma FibonacciStep(n1: int, n2: int, g1: int, g2: int, a: int, b: int, c: int, d: int)
    requires c == a + b && d == b + c
    requires g1 == n1 * (b - a) + n2 * a && g2 == n1 * a + n2 * b
    ensures g1 + g2 == n1 * (d - c) + n2 * c
    ensures g1 + 2 * g2 == n1 * c + n2 * d
  {
    assert d - c == b;
    assert n1 * (b - a) + n1 * a == n1 * b;
    assert n2 * a + n2 * b == n2 * c;
    assert n1 * (b - a) + 2 * (n1 * a) == n1 * c;
    assert n2 * a + 2 * (n2 * b) == n2 * d;
  }

  /** k passes take the kind counts to Generations(n1, n2, k). */
  lemma {:induction false} DeflateTimesCounts(num: Numerics, ts: seq<Triangle>, k: nat)
    requires num.Valid()
    ensures var out, g := DeflateTimes(num, ts, k), Generations(CountKind(ts, 1), CountKind(ts, 2), k);
      CountKind(out, 1) == g.0 && CountKind(out, 2) == g.1
  {
    if k > 0 {
      DeflateTimesCounts(num, ts, k - 1);
      PassCounts(num, DeflateTimes(num, ts, k - 1), Generations(CountKind(ts, 1), CountKind(ts, 2), k - 1));
    }
  }

  lemma PassCounts(num: Numerics, prev: seq<Triangle>, g: (nat, nat))
    requires num.Valid()
    requires CountKind(prev, 1) == g.0 && CountKind(prev, 2) == g.1
    ensures var out := DeflateAll(num, prev);
      CountKind(out, 1) == g.0 + g.1 && CountKind(out, 2) == g.0 + 2 * g.1
  {
    DeflateAllCounts(num, prev);
  }

  /** A list of one kind counts fully in that kind and not at all in any other. */
  lemma {:induction false} CountKindUniform(ts: seq<Triangle>, k: int, other: int)
    requires forall i :: 0 <= i < |ts| ==> ts[i].kind == k
    requires other != k
    ensures CountKind(ts, k) == |ts| && CountKind(ts, other) == 0
  {
    if ts != [] {
      CountKindUniform(ts[..|ts| - 1], k, other);
    }
  }

  /** The scene the application draws: a fan of 9-degree triangles (40 of them) deflated
      three times has (40, 0) -> (40, 40) -> (80, 120) -> (200, 320) triangles of kinds
      1 and 2, 520 in all. */
  lemma SceneSize(num: Numerics, origin: Coordinate, height: real)
    requires num.Valid()
    ensures |Fan(num, origin, 9, height)| == 40
    ensures |DeflateTimes(num, Fan(num, origin, 9, height), 3)| == 520
    ensures CountKind(DeflateTimes(num, Fan(num, origin, 9, height), 3), 1) == 200
    ensures CountKind(DeflateTimes(num, Fan(num, origin, 9, height), 3), 2) == 320
  {
    var fan := Fan(num, origin, 9, height);
    FanShape(num, origin, 9, height);
    CountKindUniform(fan, 1, 2);
    DeflateTimesCounts(num, fan, 3);
    DeflateTimesInGrammar(num, fan, 3);
    assert Generations(40, 0, 3) == (200, 320);
  }

  /** One pass establishes the grammar whatever the input kinds (and so does any later
      pass); afterwards the size is the sum of the two kind counts. */
  lemma DeflateTimesInGrammar(num: Numerics, ts: seq<Triangle>, loops: int)
    requires num.Valid()
    ensures var out := DeflateTimes(num, ts, loops);
      && (InGrammar(ts) || loops > 0 ==> InGrammar(out))
      && (loops > 0 ==> |out| == CountKind(out, 1) + CountKind(out, 2))
  {
    if loops > 0 {
      DeflateAllCounts(num, DeflateTimes(num, ts, loops - 1));
      InGrammarSize(DeflateTimes(num, ts, loops));
    }
  }

  // ------------------------------------------------------------- extrusion

  /** The apex of the lifted faces: a + normal. */
  function Apex(num: Numerics, t: Triangle): Coordinate {
    Sum(t.a, GetNormalOfTriangle(num, t))
  }

  /** The three faces that join t to apex, (apex, b, a), (apex, a, c), (apex, c, b); the
      type - 1 goes through the four-argument constructor, so every face keeps the
      parent's kind. */
  function Faces(apex: Coordinate, t: Triangle): (r: seq<Triangle>)
    ensures |r| == 3
    ensures forall i :: 0 <= i < 3 ==> r[i].kind == t.kind && r[i].a == apex
  {
    [NewTypedTriangle(apex, t.b, t.a, t.kind - 1),
     NewTypedTriangle(apex, t.a, t.c, t.kind - 1),
     NewTypedTriangle(apex, t.c, t.b, t.kind - 1)]
  }

  /** The faces DoIT3D makes of one triangle: apex a + normal. */
  function Lift(num: Numerics, t: Triangle): seq<Triangle> {
    Faces(Apex(num, t), t)
  }

  /** The directed edges of a triangle, in its winding order. */
  function Edges(t: Triangle): seq<(Coordinate, Coordinate)> {
    [(t.a, t.b), (t.b, t.c), (t.c, t.a)]
  }

  /** The directed edges of a triangle and its three faces to apex: 3 of the base, then 3
      per face. */
  function SurfaceEdges(apex: Coordinate, t: Triangle): (es: seq<(Coordinate, Coordinate)>)
    ensures |es| == 12
  {
    var r := Faces(apex, t);
    Edges(t) + Edges(r[0]) + Edges(r[1]) + Edges(r[2])
  }

  /** The edge of SurfaceEdges that runs the other way along the same side. */
  function Mate(i: nat): (m: nat)
    requires i < 12
    ensures m < 12 && m != i
  {
    [4, 10, 7, 11, 0, 6, 5, 2, 9, 8, 1, 3][i]
  }

  /** A base triangle and its three faces to any apex (in particular the lifted faces,
      Lift(num, t) == Faces(Apex(num, t), t)) close up into a consistently wound
      tetrahedron: each of the twelve directed edges is matched by its Mate, which is the
      same edge run the other way. */
  lemma LiftClosesSurface(apex: Coordinate, t: Triangle)
    ensures var es := SurfaceEdges(apex, t);
      forall i :: 0 <= i < 12 ==> es[Mate(i)] == (es[i].1, es[i].0)
  {
    var es := SurfaceEdges(apex, t);
    var flat := [(t.a, t.b), (t.b, t.c), (t.c, t.a),
                 (apex, t.b), (t.b, t.a), (t.a, apex),
                 (apex, t.a), (t.a, t.c), (t.c, apex),
                 (apex, t.c), (t.c, t.b), (t.b, apex)];
    assert es == flat;
    // The empty branches split the twelve edges into the base and the three faces, so
    // that the solver meets three edges at a time.
    forall i | 0 <= i < 12 ensures flat[Mate(i)] == (flat[i].1, flat[i].0) {
      if i < 3 {
      } else if i < 6 {
      } else if i < 9 {
      } else {
      }
    }
  }

  /** The faces of every triangle, in order. */
  function LiftAll(num: Numerics, ts: seq<Triangle>): (r: seq<Triangle>)
    ensures |r| == 3 * |ts|
  {
    if ts == [] then [] else LiftAll(num, ts[..|ts| - 1]) + Lift(num, ts[|ts| - 1])
  }

  /** Face i of triangle j is element 3 j + i. */
  lemma {:induction false} LiftAllBlocks(num: Numerics, ts: seq<Triangle>)
    ensures var r := LiftAll(num, ts);
      forall j, i :: 0 <= j < |ts| && 0 <= i < 3 ==> r[3 * j + i] == Lift(num, ts[j])[i]
  {
    if ts != [] {
      var init := ts[..|ts| - 1];
      LiftAllBlocks(num, init);
      var r := LiftAll(num, ts);
      forall j, i | 0 <= j < |ts| && 0 <= i < 3 ensures r[3 * j + i] == Lift(num, ts[j])[i] {
        if j < |ts| - 1 {
          assert ts[j] == init[j];
        }
      }
    }
  }

  /** The lift has three faces of each kind for every parent of that kind, so it keeps
      the grammar. */
  lemma {:induction false} LiftAllCounts(num: Numerics, ts: seq<Triangle>)
    ensures var r := LiftAll(num, ts);
      && (forall k :: CountKind(r, k) == 3 * CountKind(ts, k))
      && (InGrammar(ts) ==> InGrammar(r))
  {
    if ts != [] {
      var init, last := ts[..|ts| - 1], ts[|ts| - 1];
      LiftAllCounts(num, init);
      var r := LiftAll(num, ts);
      var faces := Lift(num, last);
      assert faces == [faces[0]] + [faces[1]] + [faces[2]];
      assert ts == init + [last];
      forall k ensures CountKind(r, k) == 3 * CountKind(ts, k) {
        CountKindAppend(LiftAll(num, init), faces, k);
        CountKindAppend([faces[0]] + [faces[1]], [faces[2]], k);
        CountKindAppend([faces[0]], [faces[1]], k);
        CountKindSingleton(faces[0], k);
        CountKindSingleton(faces[1], k);
        CountKindSingleton(faces[2], k);
        CountKindSingleton(last, k);
        CountKindAppend(init, [last], k);
      }
      if InGrammar(ts) {
        assert InGrammar(init) by {
          forall i | 0 <= i < |init| ensures init[i].kind == 1 || init[i].kind == 2 {
            assert init[i] == ts[i];
          }
        }
      }
    }
  }

  // -------------------------------------------------------- vertex buffers

  /** The five GetVertices* variants. */
  datatype Layout = Positions | Colors | TexCoords | ColorsAndTexCoords | ColorsTexCoordsAndNormalLight

  /** Values per triangle: 9, 18, 18, 27, 36. */
  function Stride(layout: Layout): nat {
    match layout
    case Positions => 9
    case Colors => 18
    case TexCoords => 18
    case ColorsAndTexCoords => 27
    case ColorsTexCoordsAndNormalLight => 36
  }

  /** The per-triangle emitter each variant calls. */
  function Emit(num: Numerics, layout: Layout, t: Triangle): (r: seq<real>)
    ensures |r| == Stride(layout)
  {
    match layout
    case Positions => GetTriangleCoordinates(t)
    case Colors => GetTriangleCoordinatesWithColors(t)
    case TexCoords => GetTriangleCoordinatesWithTexCoords(t)
    case ColorsAndTexCoords => GetTriangleCoordinatesWithColorsAndTexCoords(t)
    case ColorsTexCoordsAndNormalLight => GetTriangleCoordinatesWithColorsTexCoordsAndNormalLight(num, t)
  }

  /** The blocks laid end to end. */
  function Concat(bs: seq<seq<real>>): seq<real> {
    if bs == [] then [] else Concat(bs[..|bs| - 1]) + bs[|bs| - 1]
  }

  /** Blocks of one common length k: the concatenation has k values per block. */
  lemma {:induction false} ConcatLength(bs: seq<seq<real>>, k: nat)
    requires forall j :: 0 <= j < |bs| ==> |bs[j]| == k
    ensures |Concat(bs)| == k * |bs|
  {
    if bs != [] {
      ConcatLength(bs[..|bs| - 1], k);
      BlockArithmetic(k, |bs|);
    }
  }

  /** Value m of block j sits at k * j + m. */
  lemma {:induction false} ConcatAt(bs: seq<seq<real>>, k: nat, j: nat, m: nat)
    requires forall i :: 0 <= i < |bs| ==> |bs[i]| == k
    requires j < |bs| && m < k
    ensures k * j + m < |Concat(bs)| && Concat(bs)[k * j + m] == bs[j][m]
  {
    var n := |bs|;
    var init, last := bs[..n - 1], bs[n - 1];
    ConcatLength(init, k);
    if j < n - 1 {
      ConcatAt(init, k, j, m);
      PrefixBlock(Concat(init), last, k, j, m, n - 1);
    } else {
      LastBlock(Concat(init), last, k, j, m);
    }
    ConcatLength(bs, k);
    BlockIndex(k, j, m, n);
  }

  lemma PrefixBlock(front: seq<real>, e: seq<real>, k: nat, j: nat, m: nat, n: nat)
    requires |front| == k * n && j < n && m < k
    ensures k * j + m < |front| && (front + e)[k * j + m] == front[k * j + m]
  {
    BlockIndex(k, j, m, n);
  }

  lemma LastBlock(front: seq<real>, e: seq<real>, k: nat, j: nat, m: nat)
    requires |front| == k * j && |e| == k && m < k
    ensures (front + e)[k * j + m] == e[m]
  {
  }

  /** Concatenating one more block. */
  lemma ConcatSnoc(bs: seq<seq<real>>, b: seq<real>)
    ensures Concat(bs + [b]) == Concat(bs) + b
  {
    assert (bs + [b])[..|bs|] == bs;
  }

  /** The emission of every triangle, in list order. */
  function Blocks(num: Numerics, layout: Layout, ts: seq<Triangle>): (bs: seq<seq<real>>)
    ensures |bs| == |ts| && forall j :: 0 <= j < |bs| ==> |bs[j]| == Stride(layout)
  {
    seq(|ts|, j requires 0 <= j < |ts| => Emit(num, layout, ts[j]))
  }

  /** The buffer: every triangle's emission, concatenated in list order. */
  function Serialised(num: Numerics, layout: Layout, ts: seq<Triangle>): seq<real> {
    Concat(Blocks(num, layout, ts))
  }

  /** Serialising one more triangle appends its emission. */
  lemma SerialisedSnoc(num: Numerics, layout: Layout, ts: seq<Triangle>, t: Triangle)
    ensures Serialised(num, layout, ts + [t]) == Serialised(num, layout, ts) + Emit(num, layout, t)
  {
    assert Blocks(num, layout, ts + [t]) == Blocks(num, layout, ts) + [Emit(num, layout, t)];
    ConcatSnoc(Blocks(num, layout, ts), Emit(num, layout, t));
  }

  /** The buffer has Stride values per triangle, and block j is triangle j's emission. */
  lemma SerialisedBlocks(num: Numerics, layout: Layout, ts: seq<Triangle>)
    ensures var buf := Serialised(num, layout, ts);
      && |buf| == Stride(layout) * |ts|
      && forall j, m :: 0 <= j < |ts| && 0 <= m < Stride(layout) ==>
           Stride(layout) * j + m < |buf| && buf[Stride(layout) * j + m] == Emit(num, layout, ts[j])[m]
  {
    var bs := Blocks(num, layout, ts);
    ConcatLength(bs, Stride(layout));
    forall j, m | 0 <= j < |ts| && 0 <= m < Stride(layout)
      ensures Stride(layout) * j + m < |Concat(bs)| && Concat(bs)[Stride(layout) * j + m] == Emit(num, layout, ts[j])[m]
    {
      ConcatAt(bs, Stride(layout), j, m);
      assert bs[j] == Emit(num, layout, ts[j]);
    }
  }

  /** One value of the buffer. */
  lemma SerialisedAt(num: Numerics, layout: Layout, ts: seq<Triangle>, j: nat, m: nat)
    requires j < |ts| && m < Stride(layout)
    ensures var buf := Serialised(num, layout, ts);
      Stride(layout) * j + m < |buf| && buf[Stride(layout) * j + m] == Emit(num, layout, ts[j])[m]
  {
    SerialisedBlocks(num, layout, ts);
    BlockIndex(Stride(layout), j, m, |ts|);
  }

  lemma BlockArithmetic(k: nat, n: nat)
    requires 0 < n
    ensures k * (n - 1) + k == k * n
  {
  }

  /** Block n of k values ends inside a buffer of `total` blocks, at k * (n + 1). */
  lemma BlockFits(k: nat, n: nat, total: nat)
    requires n < total
    ensures k * n + k == k * (n + 1) && k * (n + 1) <= k * total
  {
  }

  lemma BlockIndex(k: nat, j: nat, m: nat, n: nat)
    requires j < n && m < k
    ensures k * j + m < k * n
  {
    assert k * j + k == k * (j + 1);
    assert k * (j + 1) <= k * n;
  }

  /** Values per vertex in each variant: 3, 6, 6, 9, 12. */
  function VertexStride(layout: Layout): (w: nat)
    ensures 3 * w == Stride(layout)
  {
    match layout
    case Positions => 3
    case Colors => 6
    case TexCoords => 6
    case ColorsAndTexCoords => 9
    case ColorsTexCoordsAndNormalLight => 12
  }

  /** Every emitter puts the position of vertex v first in its v-th group of values. */
  lemma EmitPositions(num: Numerics, layout: Layout, t: Triangle, v: nat)
    requires v < 3
    ensures PointAt(Emit(num, layout, t), VertexStride(layout) * v, Vertex(t, v))
  {
    match layout
    case Positions =>
    case Colors =>
    case TexCoords =>
    case ColorsAndTexCoords =>
    case ColorsTexCoordsAndNormalLight =>
      assert LitVertexAt(Emit(num, layout, t), 12 * v, Vertex(t, v), TexU(v), TexV(v),
                         TextureIndex(t.kind), GetNormalOfTriangle(num, t));
  }

  /** Reading the buffer back: in every variant the position of vertex v of triangle j sits
      at offset Stride * j + VertexStride * v. */
  lemma BufferPositions(num: Numerics, layout: Layout, ts: seq<Triangle>, j: nat, v: nat)
    requires j < |ts| && v < 3
    ensures PointAt(Serialised(num, layout, ts), Stride(layout) * j + VertexStride(layout) * v, Vertex(ts[j], v))
  {
    var s := VertexStride(layout) * v;
    EmitPositions(num, layout, ts[j], v);
    SerialisedAt(num, layout, ts, j, s);
    SerialisedAt(num, layout, ts, j, s + 1);
    SerialisedAt(num, layout, ts, j, s + 2);
  }

  /** Reading the lit buffer back: vertex v of triangle j carries the triangle's texture
      index (its kind when that is 0, 1 or 2) at 36 j + 12 v + 8 and its normal at
      36 j + 12 v + 9. */
  lemma LitBufferAttributes(num: Numerics, ts: seq<Triangle>, j: nat, v: nat)
    requires j < |ts| && v < 3
    ensures var buf := Serialised(num, ColorsTexCoordsAndNormalLight, ts);
      && |buf| == 36 * |ts|
      && buf[36 * j + 12 * v + 8] == TextureIndex(ts[j].kind)
      && (ts[j].kind in {0, 1, 2} ==> buf[36 * j + 12 * v + 8] == ts[j].kind as real)
      && PointAt(buf, 36 * j + 12 * v + 9, GetNormalOfTriangle(num, ts[j]))
  {
    var layout := ColorsTexCoordsAndNormalLight;
    SerialisedBlocks(num, layout, ts);
    var s := 12 * v;
    var e := Emit(num, layout, ts[j]);
    assert LitVertexAt(e, s, Vertex(ts[j], v), TexU(v), TexV(v), TextureIndex(ts[j].kind), GetNormalOfTriangle(num, ts[j]));
    SerialisedAt(num, layout, ts, j, s + 8);
    SerialisedAt(num, layout, ts, j, s + 9);
    SerialisedAt(num, layout, ts, j, s + 10);
    SerialisedAt(num, layout, ts, j, s + 11);
  }
}
