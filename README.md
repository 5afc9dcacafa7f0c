# Penrose tiling engine and shader-source splitter, in Dafny

This project models the core of PenroseTilling, a small OpenGL program that draws a
Penrose tiling.
- **The engine.** The `Penrose` class builds a fan of isosceles triangles around an origin. It deflates the fan a fixed number of times, splitting every triangle into golden-ratio children. It then extrudes every triangle into three faces joined at an apex a normal's length above it. Finally it writes the triangle list into one of five flat vertex layouts.
- **The shader wrapper.** Two non-OpenGL pieces are modelled. `ParseShader` splits a shader file at `#shader` marker lines. `GetUniformLocation` is a memo table in front of the uniform-location query.

Files:
- `geometry.dfy` (module `Geometry`) covers `Coordinate`, its arithmetic, `RotatePoint`, `dist` and the `PHI` macro. Floats are reals. The platform's pi, sin, cos, tan, sqrt and `glm::normalize` are the fields of a `Numerics` value (pi a real, the others functions), which every computation takes as a parameter. The only fact every computation relies on is that sqrt of a non-negative number is non-negative (`Numerics.Valid`), so PHI is a legal divisor. Three lemmas assume more, in their own preconditions: Geometry.PhiIsGolden and Tiling.GoldenPointRatio assume an exact sqrt of 5, and Geometry.RotatePointKeepsRadius assumes sin² + cos² = 1.
- `triangle.dfy` (module `Triangles`) covers `Triangle`, its two constructors, the face normal, the five per-triangle emitters and `iso`. The C++ field `type` is called `kind`, because `type` is a Dafny keyword.
- `tiling.dfy` (module `Tiling`) defines, as functions of the triangle list, what the engine computes: the fan, one deflation pass, repeated passes, the extrusion and the vertex buffers. Its lemmas cover:
  - the kind grammar and the kind counts of deflation: (n1, n2) goes to (n1 + n2, n1 + 2 n2), with a Fibonacci closed form;
  - the placement of the children;
  - the closed surface the extrusion forms;
  - the offsets of every attribute in the buffers.
- `engine.dfy` (module `PenroseEngine`) holds the `Penrose` class. Its fields are the triangle list and the counter, and its methods are loops. Each method is proved to compute the matching function of `Tiling` and to keep the counter equal to the list's size. `Scene` replays the application's scene: 3 passes over a fan of 9-degree triangles, then the extrusion. It ends with 2080 triangles and a buffer of 36 values per triangle.
- `shader.dfy` (module `Shaders`) takes `ParseShader` over the lines of the file, with no file access. It also holds a `Shader` class reduced to the program id, the query and the cache.

Where the source's comments and the code disagree, the model follows the code:
- The four-argument `Triangle` constructor stores its tag plus one (Penrose.h:129), although the comment at Penrose.h:113 describes tags 0 and 1.
- So the stored tags are 1 for the 36-degree (acute) triangles and 2 for the 108-degree (obtuse) ones.
- The initial fan is all kind 1.
- Deflation maps kind 2 to children of kinds 2, 2, 1 and kind 1 to children of kinds 1, 2. It drops every other kind.
- Extrusion passes `type - 1` to the same constructor, so each face keeps its parent's kind. It is not decremented as one might read it.

## Model

| member | source | states |
|---|---|---|
| Geometry.Planar | PenroseTilling/src/Penrose.h:24-28 | the two-argument constructor sets z to 0 |
| Geometry.Sum | PenroseTilling/src/Penrose.h:37-39 | Coordinate::sum, componentwise; its inverse is stated by SumDiffInverse |
| Geometry.Diff | PenroseTilling/src/Penrose.h:42-44 | Coordinate::diff, componentwise; its inverse is stated by SumDiffInverse |
| Geometry.Divide | PenroseTilling/src/Penrose.h:47-49 | Coordinate::divide, componentwise, defined only for a nonzero divisor; undone by scaling (DivideScaleInverse) |
| Geometry.SumDiffInverse | PenroseTilling/src/Penrose.h:37-44 | sum and diff are componentwise and undo each other, and sum is commutative |
| Geometry.DivideScaleInverse | PenroseTilling/src/Penrose.h:47-49 | divide by a nonzero divisor is componentwise; scaling back recovers the vector |
| Geometry.RotatePoint | PenroseTilling/src/Penrose.h:52-72 | the rotated point always has z == 0 |
| Geometry.RotatePointIgnoresZ | PenroseTilling/src/Penrose.h:52-72 | the rotation reads neither p.z nor origin.z |
| Geometry.RotatePointFixesOrigin | PenroseTilling/src/Penrose.h:52-72 | the centre of rotation is a fixed point, once dropped to the plane |
| Geometry.RotatePointKeepsRadius | PenroseTilling/src/Penrose.h:52-72 | when sin² + cos² = 1 the rotation keeps the planar distance to the centre |
| Geometry.Numerics.Radians | PenroseTilling/src/Penrose.h:52-72 | degrees to radians, angle · pi / 180, as RotatePoint (Penrose.h:53) and iso (Penrose.h:601) write it |
| Geometry.Numerics.Phi | PenroseTilling/src/Penrose.h:5 | the PHI macro, (1 + sqrt 5) / 2; PhiPositive and PhiIsGolden state its properties |
| Geometry.PhiPositive | PenroseTilling/src/Penrose.h:5 | with a non-negative sqrt, PHI = (1 + sqrt 5) / 2 is at least 1/2, so a legal divisor |
| Geometry.PhiIsGolden | PenroseTilling/src/Penrose.h:5 | with an exact sqrt of 5, PHI > 1 and PHI² = PHI + 1 |
| Geometry.Dist | PenroseTilling/src/Penrose.h:104-106 | Coordinate::dist, sqrt of the summed squared differences; never negative when sqrt is not |
| Geometry.DistProperties | PenroseTilling/src/Penrose.h:104-106 | dist is symmetric, never negative, and sqrt(0) on equal points |
| Triangles.NewTriangle | PenroseTilling/src/Penrose.h:117-122 | the three-argument constructor keeps the vertices and stores kind 0 |
| Triangles.NewTypedTriangle | PenroseTilling/src/Penrose.h:125-130 | the four-argument constructor keeps the vertices and stores tag + 1 |
| Triangles.GetNormalOfTriangle | PenroseTilling/src/Penrose.h:132-140 | normalize applied to the cross product of b - a and c - a; what is proved of that product is FaceCrossProperties |
| Triangles.FaceCrossProperties | PenroseTilling/src/Penrose.h:132-140 | the vector normalised into the normal is orthogonal to both edges from a, is independent of the kind, and flips with the vertex order |
| Triangles.TextureIndex | PenroseTilling/src/Penrose.h:280-418 | the texture index is the kind for kinds 0, 1 and 2, else 0 |
| Triangles.GetTriangleCoordinates | PenroseTilling/src/Penrose.h:142-150 | 9 values: the positions of a, b, c at offsets 0, 3, 6 |
| Triangles.GetTriangleCoordinatesWithColors | PenroseTilling/src/Penrose.h:153-218 | 18 values: positions at 0, 6, 12; each followed by the same colour, blue for a nonzero kind and magenta for kind 0 |
| Triangles.GetTriangleCoordinatesWithTexCoords | PenroseTilling/src/Penrose.h:221-277 | 18 values: positions at 0, 6, 12; texture coordinates (0,0), (1,0), (0.5,1); then 0 for a nonzero kind and 1 for kind 0 |
| Triangles.GetTriangleCoordinatesWithColorsAndTexCoords | PenroseTilling/src/Penrose.h:280-418 | 27 values, stride 9: position, gray 0.7, texture coordinate, and the texture index at 8, 17, 26 |
| Triangles.GetTriangleCoordinatesWithColorsTexCoordsAndNormalLight | PenroseTilling/src/Penrose.h:421-597 | 36 values, stride 12: position, gray, texture coordinate, texture index at 8, 20, 32, and the one face normal repeated at 9, 21, 33 |
| Triangles.Iso | PenroseTilling/src/Penrose.h:600-613 | apex a; b and c at height a.y + h, mirrored about a.x, with z 0; kind 1 for 36 degrees, 2 for 108, 0 otherwise |
| Tiling.FanPrefix | PenroseTilling/src/Penrose.cpp:17-27 | the first n fan triangles in push order, triangle i being (origin, p(i), p(i+1)) for even i and (origin, p(i+1), p(i)) for odd i |
| Tiling.FanSize | PenroseTilling/src/Penrose.cpp:15 | the constructor's loop bound `360 / _degree`; a non-positive quotient runs no iteration; its value is FanSizeValue |
| Tiling.Fan | PenroseTilling/src/Penrose.cpp:13-27 | the fan the constructor pushes, FanSize triangles; the constructor is proved to build it and FanShape states its shape |
| Tiling.FanSizeValue | PenroseTilling/src/Penrose.cpp:15-18 | 360 / degree triangles for a positive degree, none for a negative one |
| Tiling.FanTriangleShape | PenroseTilling/src/Penrose.cpp:21-25 | every fan triangle has kind 1 and first vertex origin; the rim points sit in slots b, c by parity |
| Tiling.FanShape | PenroseTilling/src/Penrose.cpp:13-30 | the fan's size, all kind 1 with a == origin, and consecutive triangles share their spoke in the same slot |
| Tiling.FanPoint | PenroseTilling/src/Penrose.cpp:17-26 | the rim points p(0) = (height, 0) and p(i+1) = RotatePoint(origin, degree, p(i)), which the constructor loop carries in p; the loop invariant ties p to it |
| Tiling.FanTriangle | PenroseTilling/src/Penrose.cpp:21-25 | fan triangle i from the rim points by parity; its shape is FanTriangleShape |
| Tiling.Children | PenroseTilling/src/Penrose.cpp:53-71 | kind 2 gives three children of kinds 2, 2, 1; kind 1 gives two of kinds 1, 2; any other kind gives none |
| Tiling.ChildrenVertices | PenroseTilling/src/Penrose.cpp:53-71 | children (R, c, a), (Q, R, b), (R, Q, a) with Q = b + (a - b)/PHI and R = b + (c - b)/PHI; and (c, P, b), (P, c, a) with P = a + (b - a)/PHI |
| Tiling.DeflateAll | PenroseTilling/src/Penrose.cpp:49-75 | the reference definition of one pass, the children of every triangle in input order, that Penrose.Deflate is proved to compute; its counts are DeflateAllCounts |
| Tiling.GoldenPointRatio | PenroseTilling/src/Penrose.cpp:55-66 | with an exact sqrt, each new point cuts its edge in the golden ratio |
| Tiling.DeflateAllAppend | PenroseTilling/src/Penrose.cpp:49-75 | a pass over a concatenation is the concatenation of the passes: children keep their parents' order |
| Tiling.ChildrenCounts | PenroseTilling/src/Penrose.cpp:53-71 | one triangle's children counted by kind |
| Tiling.DeflateAllCounts | PenroseTilling/src/Penrose.cpp:49-75 | one pass maps the counts (n1, n2) to (n1 + n2, n1 + 2 n2), yields 2 n1 + 3 n2 triangles, and leaves only kinds 1 and 2 |
| Tiling.InGrammarSize | PenroseTilling/src/Penrose.cpp:49-75 | in a list of kinds 1 and 2, the two counts add up to its size |
| Tiling.DeflateTimesCounts | PenroseTilling/src/Penrose.cpp:39-44 | k passes take the kind counts to the k-th step of the count recurrence |
| Tiling.DeflateTimes | PenroseTilling/src/Penrose.cpp:39-44 | the reference definition of max(loops, 0) passes that Penrose.Execute is proved to compute |
| Tiling.GenerationsAreFibonacci | PenroseTilling/src/Penrose.cpp:39-44 | after k passes the counts are (n1 F(2k-1) + n2 F(2k), n1 F(2k) + n2 F(2k+1)) |
| Tiling.DeflateTimesInGrammar | PenroseTilling/src/Penrose.cpp:39-44 | at least one pass leaves only kinds 1 and 2, so the size is the sum of the two counts |
| Tiling.SceneSize | PenroseTilling/src/Application.cpp:92-94 | the application's fan has 40 triangles, and 3 passes give (200, 320) of kinds 1 and 2, 520 in all |
| Tiling.Faces | PenroseTilling/src/Penrose.cpp:95-118 | three faces (apex, b, a), (apex, a, c), (apex, c, b), each keeping the parent's kind |
| Tiling.Apex | PenroseTilling/src/Penrose.cpp:91-93 | the top point a + normal of DoIT3D |
| Tiling.Lift | PenroseTilling/src/Penrose.cpp:91-118 | the three faces of one triangle to its apex; closed surface by LiftClosesSurface |
| Tiling.LiftClosesSurface | PenroseTilling/src/Penrose.cpp:90-118 | the base and its three faces form a closed surface: every directed edge is matched by the same edge run backwards |
| Tiling.LiftAll | PenroseTilling/src/Penrose.cpp:87-122 | three faces per triangle |
| Tiling.LiftAllBlocks | PenroseTilling/src/Penrose.cpp:87-122 | face i of triangle j is element 3 j + i |
| Tiling.LiftAllCounts | PenroseTilling/src/Penrose.cpp:95-118 | the faces triple every kind count and keep kinds 1 and 2 |
| Tiling.Emit | PenroseTilling/src/Penrose.cpp:124-211 | each variant's emitter gives 9, 18, 18, 27 or 36 values |
| Tiling.SerialisedSnoc | PenroseTilling/src/Penrose.cpp:128-136 | one more triangle appends exactly its emission to the buffer |
| Tiling.Serialised | PenroseTilling/src/Penrose.cpp:124-211 | the reference buffer, each triangle's emission laid end to end in list order, that the GetVertices* methods are proved to return; its layout is SerialisedBlocks |
| Tiling.SerialisedBlocks | PenroseTilling/src/Penrose.cpp:124-211 | the buffer has Stride values per triangle, and block j is triangle j's emission |
| Tiling.SerialisedAt | PenroseTilling/src/Penrose.cpp:124-211 | value m of triangle j's emission is at Stride · j + m |
| Tiling.VertexStride | PenroseTilling/src/Penrose.h:142-597 | each emitter gives three equal groups of 3, 6, 6, 9 or 12 values |
| Tiling.EmitPositions | PenroseTilling/src/Penrose.h:142-597 | every emitter starts its v-th group with the position of vertex v |
| Tiling.BufferPositions | PenroseTilling/src/Penrose.cpp:124-211 | in every layout, vertex v of triangle j sits at Stride · j + VertexStride · v |
| Tiling.LitBufferAttributes | PenroseTilling/src/Penrose.cpp:195-211 | the lit buffer has 36 values per triangle, with the texture index at 36 j + 12 v + 8 and the face normal at 36 j + 12 v + 9 |
| PenroseEngine.Penrose.constructor | PenroseTilling/src/Penrose.cpp:13-30 | the loop builds exactly the fan; the counter is its size; kinds are 1 |
| PenroseEngine.Penrose.GetNumTriangles | PenroseTilling/src/Penrose.h:637 | the counter, which is the list's size on a valid engine |
| PenroseEngine.Penrose.Execute | PenroseTilling/src/Penrose.cpp:39-44 | exactly max(loops, 0) passes; afterwards the counter is the size, and after one pass only kinds 1 and 2 remain |
| PenroseEngine.Penrose.Deflate | PenroseTilling/src/Penrose.cpp:49-75 | the loop returns one deflation pass and leaves the list unchanged |
| PenroseEngine.Penrose.DoIT3D | PenroseTilling/src/Penrose.cpp:87-122 | the loop returns the lifted faces of every triangle in order |
| PenroseEngine.Penrose.DoIt3D | PenroseTilling/src/Penrose.cpp:77-85 | appends the faces after the unchanged old list, one counter increment per face; a valid engine stays valid with four times as many triangles |
| PenroseEngine.Penrose.Serialise | PenroseTilling/src/Penrose.cpp:124-211 | a fresh buffer that is every triangle's emission laid end to end |
| PenroseEngine.Penrose.GetVertices | PenroseTilling/src/Penrose.cpp:124-139 | the positions layout of the list |
| PenroseEngine.Penrose.GetVerticesWithColors | PenroseTilling/src/Penrose.cpp:141-157 | the coloured layout of the list |
| PenroseEngine.Penrose.GetVerticesWithTextureCoords | PenroseTilling/src/Penrose.cpp:159-175 | the textured layout of the list |
| PenroseEngine.Penrose.GetVerticesWithColorsAndTextureCoords | PenroseTilling/src/Penrose.cpp:177-193 | the coloured and textured layout of the list |
| PenroseEngine.Penrose.GetVerticesWithColorsTexCoordsAndNormalLight | PenroseTilling/src/Penrose.cpp:195-211 | the lit layout of the list |
| PenroseEngine.Flatten | PenroseTilling/src/Penrose.cpp:124-139 | allocating NumTriangles · k values and copying k values per triangle through a running index yields the blocks laid end to end |
| PenroseEngine.CopyBlock | PenroseTilling/src/Penrose.cpp:131-134 | the inner loop writes the block after the values already written and keeps them |
| PenroseEngine.Scene | PenroseTilling/src/Application.cpp:92-99 | the application's scene has 2080 triangles and a buffer of 36 values per triangle |
| Shaders.Find | PenroseTilling/src/Shader.cpp:41-50 | the first position of the pattern at or after `from`, or -1 exactly when there is none |
| Shaders.Has | PenroseTilling/src/Shader.cpp:41-50 | `find(pat) != npos` exactly when the line contains pat |
| Shaders.Index | PenroseTilling/src/Shader.cpp:31-33 | VERTEX, FRAGMENT, GEOMETRY index buffers 0, 1, 2 |
| Shaders.Select | PenroseTilling/src/Shader.cpp:42-52 | the state after a marker line: vertex, else fragment, else geometry, else unchanged; ParseShader's if-chain is proved to follow it |
| Shaders.TypeAfter | PenroseTilling/src/Shader.cpp:37-53 | the state after a prefix of the lines, starting from NONE; a marker line selects vertex, else fragment, else geometry, else keeps the state; ParseShader's loop invariant ties `type` to it |
| Shaders.Bucket | PenroseTilling/src/Shader.cpp:39-57 | source k: every non-marker line read in state k, with its newline, in input order; ParseShader is proved to return the three of them |
| Shaders.ParseShader | PenroseTilling/src/Shader.cpp:28-60 | the three sources are the content lines, each followed by a newline, read while the state selected vertex, fragment and geometry |
| Shaders.BucketsPartition | PenroseTilling/src/Shader.cpp:39-57 | when no content line precedes the first marker, the three sources together are exactly as long as the content lines with their newlines, so no content line is lost (which lines go where is Bucket's definition and SectionLands) |
| Shaders.SectionLands | PenroseTilling/src/Shader.cpp:41-54 | a marker selecting k followed by content lines appends them to source k only, and the state stays k |
| Shaders.Shader.constructor | PenroseTilling/src/Shader.cpp:10-14 | an empty cache for the program id |
| Shaders.Shader.GetUniformLocation | PenroseTilling/src/Shader.cpp:105-115 | a hit returns the cached value with no query and no change; a miss queries once and caches the answer, -1 included, changing no other entry; the cache stays coherent with the query |

## Left out

- Floating point: coordinates are reals. Rounding, `float` precision and the float constants' exact binary values are not modelled.
- pi, sin, cos, tan, sqrt and `glm::normalize` are uninterpreted. One fact about them is assumed throughout: sqrt of a non-negative number is non-negative (`Geometry.Numerics.Valid`). Geometry.PhiPositive and Geometry.DistProperties require it, and Geometry.Dist's ensures is conditional on it. Every deflation member requires it, so that the division by PHI is legal: Tiling.GoldenPoint, Tiling.Children, Tiling.DeflateAll, Tiling.DeflateTimes and their lemmas, and PenroseEngine.Penrose.constructor, Execute and Deflate (through the class invariant) and PenroseEngine.Scene. Beyond that, three lemmas assume more in their preconditions: an exact sqrt of 5 (Geometry.PhiIsGolden, Tiling.GoldenPointRatio) and the Pythagorean identity (Geometry.RotatePointKeepsRadius).
- `RotatePoint3D` (Penrose.h:75-101) is glm matrix code and is unused by the engine.
- Memory: the emitters return pointers to stack arrays. They are modelled as returning fresh value sequences. Ownership of the `new[]` buffers is not modelled.
- The destructor, which clears the list, is not modelled.
- `int` overflow of the counter and of `NumTriangles * k` is not modelled. The counts are unbounded integers, and the application's 2080 is far from the limit.
- A zero degree divides by zero in the C++ constructor. It is a precondition here.
- PenroseEngine.Serialise: it computes every triangle's emission and then copies the values one by one. Both orders write the same values into the same slots. The buffer size must equal NumTriangles · k, so it requires the counter to equal the list's size, as every public entry point leaves it.
- Shaders.ParseShader: a content line before the first recognised marker indexes `ss[-1]`, which is undefined behaviour. It is a precondition (`Routable`).
- The file stream of ParseShader is not modelled: the file arrives as its lines.
- `glGetUniformLocation` is an arbitrary function of program id and name. The warning printed for -1 is console output and is left out.
- Shader compile, link, bind, unbind and delete are OpenGL calls and are not part of this model. This covers CompileShader, CreateShader (which deletes `fs` twice and never `gs`), Bind and UnBind. The uniform setters, Renderer.h, IndexBuffer.cpp and the rest of Application.cpp (window, camera, index buffer, animation) are not part of this model either.
