/** The `Penrose` class: it owns the triangle list, builds the initial fan, deflates it a
    fixed number of times, extrudes it to 3D and writes the list to flat vertex buffers.
    Every method is proved to compute the functions of module Tiling. */
module PenroseEngine {
  import opened Geometry
  import opened Triangles
  import opened Tiling

  class Penrose {
    /** The library numerics every computation uses. */
    const num: Numerics
    var loops: int
    var triangles: seq<Triangle>
    var numTriangles: int

    /** The counter agrees with the list, and every triangle has a kind deflation knows. */
    ghost predicate Valid()
      reads this
    {
      num.Valid() && numTriangles == |triangles| && InGrammar(triangles)
    }

    /** The fan of 360 / degree triangles of kind 1 around origin; the first rim point is
        (height, 0). */
    constructor (loops: int, origin: Coordinate, degree: int, height: real, num: Numerics)
      requires degree != 0 && num.Valid()
      ensures Valid()
      ensures this.loops == loops && this.num == num
      ensures triangles == Fan(num, origin, degree, height)
    {
      this.loops := loops;
      this.num := num;
      var totalTriangles := 360 / degree;
      var p := Planar(height, 0.0);
      var ts: seq<Triangle> := [];
      var i := 0;
      while i < totalTriangles
        invariant 0 <= i && (i <= totalTriangles || i == 0)
        invariant ts == FanPrefix(num, origin, degree, height, i)
        invariant p == FanPoint(num, origin, degree, height, i)
      {
        var temp := RotatePoint(num, origin, degree as real, p);
        if i % 2 == 0 {
          ts := ts + [NewTypedTriangle(origin, p, temp, 0)];
        } else {
          ts := ts + [NewTypedTriangle(origin, temp, p, 0)];
        }
        p := temp;
        i := i + 1;
      }
      FanShape(num, origin, degree, height);
      triangles := ts;
      numTriangles := |ts|;
    }

    /** GetNumTriangles */
    function GetNumTriangles(): (n: int)
      reads this
      ensures Valid() ==> n == |triangles|
    {
      numTriangles
    }

    /** `loops` deflation passes (none when loops <= 0); afterwards the counter is the
        size of the list and, once at least one pass ran, every kind is 1 or 2. */
    method Execute()
      requires num.Valid()
      modifies this
      ensures triangles == DeflateTimes(num, old(triangles), loops)
      ensures numTriangles == |triangles|
      ensures loops == old(loops)
      ensures old(Valid()) || loops > 0 ==> Valid()
    {
      ghost var start := triangles;
      var i := 0;
      while i < loops
        invariant 0 <= i && (i <= loops || i == 0)
        invariant triangles == DeflateTimes(num, start, i)
        invariant loops == old(loops)
      {
        triangles := Deflate();
        i := i + 1;
      }
      numTriangles := |triangles|;
      DeflateTimesInGrammar(num, start, loops);
    }

    /** One deflation pass over the list, which it leaves unchanged. */
    method Deflate() returns (temp: seq<Triangle>)
      requires num.Valid()
      ensures temp == DeflateAll(num, triangles)
    {
      PhiPositive(num);
      temp := [];
      var i := 0;
      while i < |triangles|
        invariant 0 <= i <= |triangles|
        invariant temp == DeflateAll(num, triangles[..i])
      {
        var t := triangles[i];
        if t.kind == 2 {
          var q := Sum(t.b, Divide(Diff(t.a, t.b), num.Phi()));
          var r := Sum(t.b, Divide(Diff(t.c, t.b), num.Phi()));
          temp := temp + [NewTypedTriangle(r, t.c, t.a, 1)];
          temp := temp + [NewTypedTriangle(q, r, t.b, 1)];
          temp := temp + [NewTypedTriangle(r, q, t.a, 0)];
        } else if t.kind == 1 {
          var p := Sum(t.a, Divide(Diff(t.b, t.a), num.Phi()));
          temp := temp + [NewTypedTriangle(t.c, p, t.b, 0)];
          temp := temp + [NewTypedTriangle(p, t.c, t.a, 1)];
        }
        assert triangles[..i + 1][..i] == triangles[..i];
        i := i + 1;
      }
      assert triangles[..|triangles|] == triangles;
    }

    /** The three lifted faces of every triangle, in order; the list is unchanged. */
    method DoIT3D() returns (temp: seq<Triangle>)
      ensures temp == LiftAll(num, triangles)
    {
      temp := [];
      var i := 0;
      while i < |triangles|
        invariant 0 <= i <= |triangles|
        invariant temp == LiftAll(num, triangles[..i])
      {
        var t := triangles[i];
        var topPoint := Sum(t.a, GetNormalOfTriangle(num, t));
        temp := temp + [NewTypedTriangle(topPoint, t.b, t.a, t.kind - 1)];
        temp := temp + [NewTypedTriangle(topPoint, t.a, t.c, t.kind - 1)];
        temp := temp + [NewTypedTriangle(topPoint, t.c, t.b, t.kind - 1)];
        assert triangles[..i + 1][..i] == triangles[..i];
        i := i + 1;
      }
      assert triangles[..|triangles|] == triangles;
    }

    /** Appends the lifted faces to the list, one increment of the counter per face; a
        valid engine stays valid with four times as many triangles. */
    method DoIt3D()
      modifies this
      ensures triangles == old(triangles) + LiftAll(num, old(triangles))
      ensures numTriangles == old(numTriangles) + 3 * |old(triangles)|
      ensures loops == old(loops)
      ensures old(Valid()) ==> Valid() && numTriangles == 4 * old(numTriangles)
    {
      var temp := DoIT3D();
      ghost var base := triangles;
      var i := 0;
      while i < |temp|
        invariant 0 <= i <= |temp|
        invariant triangles == base + temp[..i]
        invariant numTriangles == old(numTriangles) + i
        invariant loops == old(loops)
      {
        triangles := triangles + [temp[i]];
        numTriangles := numTriangles + 1;
        assert temp[..i + 1] == temp[..i] + [temp[i]];
        i := i + 1;
      }
      assert temp[..|temp|] == temp;
      LiftAllCounts(num, base);
    }

    /** The shared body of the five GetVertices* variants: a fresh buffer of
        numTriangles * Stride values holding every triangle's emission in list order. */
    method Serialise(layout: Layout) returns (vertices: array<real>)
      requires numTriangles == |triangles|
      ensures fresh(vertices)
      ensures vertices[..] == Serialised(num, layout, triangles)
    {
      var blocks := Blocks(num, layout, triangles);
      vertices := Flatten(blocks, Stride(layout), numTriangles * Stride(layout));
    }

    /** 9 position values per triangle. */
    method GetVertices() returns (vertices: array<real>)
      requires numTriangles == |triangles|
      ensures fresh(vertices)
      ensures vertices[..] == Serialised(num, Positions, triangles)
    {
      vertices := Serialise(Positions);
    }

    /** 18 values per triangle: positions and the kind colour. */
    method GetVerticesWithColors() returns (vertices: array<real>)
      requires numTriangles == |triangles|
      ensures fresh(vertices)
      ensures vertices[..] == Serialised(num, Colors, triangles)
    {
      vertices := Serialise(Colors);
    }

    /** 18 values per triangle: positions, texture coordinates and the kind flag. */
    method GetVerticesWithTextureCoords() returns (vertices: array<real>)
      requires numTriangles == |triangles|
      ensures fresh(vertices)
      ensures vertices[..] == Serialised(num, TexCoords, triangles)
    {
      vertices := Serialise(TexCoords);
    }

    /** 27 values per triangle: positions, gray, texture coordinates and texture index. */
    method GetVerticesWithColorsAndTextureCoords() returns (vertices: array<real>)
      requires numTriangles == |triangles|
      ensures fresh(vertices)
      ensures vertices[..] == Serialised(num, ColorsAndTexCoords, triangles)
    {
      vertices := Serialise(ColorsAndTexCoords);
    }

    /** 36 values per triangle: the lit layout with the face normal. */
    method GetVerticesWithColorsTexCoordsAndNormalLight() returns (vertices: array<real>)
      requires numTriangles == |triangles|
      ensures fresh(vertices)
      ensures vertices[..] == Serialised(num, ColorsTexCoordsAndNormalLight, triangles)
    {
      vertices := Serialise(ColorsTexCoordsAndNormalLight);
    }
  }

  /** The loops of the GetVertices* variants: allocate `size` values and copy the blocks
      into them one after another, one value at a time. */
  method Flatten(blocks: seq<seq<real>>, k: nat, size: int) returns (vertices: array<real>)
    requires forall j :: 0 <= j < |blocks| ==> |blocks[j]| == k
    requires size == |blocks| * k
    ensures fresh(vertices)
    ensures vertices[..] == Concat(blocks)
  {
    vertices := new real[size];
    var i := 0;
    var n := 0;
    while n < |blocks|
      invariant 0 <= n <= |blocks|
      invariant i == k * n
      invariant vertices[..i] == Concat(blocks[..n])
    {
      BlockFits(k, n, |blocks|);
      i := CopyBlock(vertices, i, blocks[n]);
      assert blocks[..n + 1][..n] == blocks[..n];
      n := n + 1;
    }
    assert blocks[..n] == blocks;
    assert vertices[..] == vertices[..i];
  }

  /** The inner loop: write block into vertices from index i on, one value at a time,
      and return the index after it. */
  method CopyBlock(vertices: array<real>, i: nat, block: seq<real>) returns (next: nat)
    requires i + |block| <= vertices.Length
    modifies vertices
    ensures next == i + |block|
    ensures vertices[..next] == old(vertices[..i]) + block
    ensures vertices[next..] == old(vertices[next..])
  {
    next := i;
    var j := 0;
    while j < |block|
      invariant 0 <= j <= |block|
      invariant next == i + j
      invariant vertices[..next] == old(vertices[..i]) + block[..j]
      invariant vertices[i + |block|..] == old(vertices[i + |block|..])
    {
      vertices[next] := block[j];
      assert block[..j + 1] == block[..j] + [block[j]];
      next := next + 1;
      j := j + 1;
    }
    assert block[..j] == block;
  }

  /** The scene of the application: three passes over a fan of 9-degree triangles of
      height 1 around (0, 0), extruded to 3D, written in the lit layout. It has 2080
      triangles and 36 values for each of them. */
  method Scene(num: Numerics) returns (count: int, vertices: array<real>)
    requires num.Valid()
    ensures count == 2080
    ensures vertices.Length == 36 * count
  {
    var origin := Planar(0.0, 0.0);
    var p := new Penrose(3, origin, 9, 1.0, num);
    p.Execute();
    SceneSize(num, origin, 1.0);
    p.DoIt3D();
    vertices := p.GetVerticesWithColorsTexCoordsAndNormalLight();
    count := p.GetNumTriangles();
    SerialisedBlocks(num, ColorsTexCoordsAndNormalLight, p.triangles);
  }
}
