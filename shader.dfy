/** The two pieces of the shader wrapper that are not OpenGL calls: ParseShader, which
    splits a shader file into its vertex, fragment and geometry sources at `#shader`
    marker lines, and the uniform-location memo table in front of glGetUniformLocation.
    The file is given as its sequence of lines (without their line terminators). */
module Shaders {

  datatype ShaderProgramSource = ShaderProgramSource(VertexSource: string, FragmentSource: string, GeometrySource: string)

  /** The parser state; NONE is the state before the first recognised marker. */
  datatype ShaderType = NONE | VERTEX | FRAGMENT | GEOMETRY

  // ------------------------------------------------------ substring search

  /** pat occurs in s starting at i. */
  predicate OccursAt(s: string, pat: string, i: nat) {
    i + |pat| <= |s| && s[i..i + |pat|] == pat
  }

  /** pat occurs somewhere in s. */
  ghost predicate Contains(s: string, pat: string) {
    exists i: nat :: OccursAt(s, pat, i)
  }

  /** std::string::find from position `from`: the first position at or after `from` where pat
      occurs, or -1 (npos) when there is none. */
  function Find(s: string, pat: string, from: nat): (r: int)
    requires from <= |s|
    decreases |s| - from
    ensures r == -1 <==> forall i: nat :: from <= i ==> !OccursAt(s, pat, i)
    ensures r != -1 ==> from <= r && OccursAt(s, pat, r) && forall i: nat :: from <= i < r ==> !OccursAt(s, pat, i)
  {
    if from + |pat| > |s| then -1
    else if s[from..from + |pat|] == pat then assert OccursAt(s, pat, from); from
    else Find(s, pat, from + 1)
  }

  /** `line.find(pat) != std::string::npos` */
  function Has(line: string, pat: string): (b: bool)
    ensures b <==> Contains(line, pat)
  {
    var r := Find(line, pat, 0);
    if r != -1 then assert OccursAt(line, pat, r); true else false
  }

  // ------------------------------------------------------- the line machine

  ghost predicate IsMarker(line: string) {
    Contains(line, "#shader")
  }

  /** The state after a marker line: "vertex" wins over "fragment", which wins over
      "geometry"; a marker naming none of them keeps the current state. */
  ghost function Select(line: string, current: ShaderType): ShaderType {
    if Contains(line, "vertex") then VERTEX
    else if Contains(line, "fragment") then FRAGMENT
    else if Contains(line, "geometry") then GEOMETRY
    else current
  }

  /** The state after reading lines, starting from NONE. */
  ghost function TypeAfter(lines: seq<string>): ShaderType {
    if lines == [] then NONE
    else
      var prev := TypeAfter(lines[..|lines| - 1]);
      var line := lines[|lines| - 1];
      if IsMarker(line) then Select(line, prev) else prev
  }

  /** The buffer index `(int) type` of the three real states. */
  function Index(t: ShaderType): (k: nat)
    requires t != NONE
    ensures k < 3
    ensures t == [VERTEX, FRAGMENT, GEOMETRY][k]
  {
    match t
    case VERTEX => 0
    case FRAGMENT => 1
    case GEOMETRY => 2
  }

  /** The text collected for state k: every non-marker line read while the state was k,
      each followed by a newline, in input order. */
  ghost function Bucket(lines: seq<string>, k: ShaderType): string {
    if lines == [] then ""
    else
      var init, line := lines[..|lines| - 1], lines[|lines| - 1];
      if !IsMarker(line) && TypeAfter(init) == k then Bucket(init, k) + line + "\n"
      else Bucket(init, k)
  }

  /** ParseShader indexes its buffers with the state, and in state NONE that index is -1:
      no content line may come before the first recognised marker. */
  ghost predicate Routable(lines: seq<string>) {
    forall i :: 0 <= i < |lines| && !IsMarker(lines[i]) ==> TypeAfter(lines[..i]) != NONE
  }

  /** Shader::ParseShader over the lines of the file. */
  method ParseShader(lines: seq<string>) returns (source: ShaderProgramSource)
    requires Routable(lines)
    ensures source.VertexSource == Bucket(lines, VERTEX)
    ensures source.FragmentSource == Bucket(lines, FRAGMENT)
    ensures source.GeometrySource == Bucket(lines, GEOMETRY)
  {
    var ss := new string[3](_ => "");
    var current := NONE;
    var i := 0;
    while i < |lines|
      invariant 0 <= i <= |lines|
      invariant current == TypeAfter(lines[..i])
      invariant ss[0] == Bucket(lines[..i], VERTEX)
      invariant ss[1] == Bucket(lines[..i], FRAGMENT)
      invariant ss[2] == Bucket(lines[..i], GEOMETRY)
    {
      var line := lines[i];
      assert lines[..i + 1][..i] == lines[..i];
      if Has(line, "#shader") {
        if Has(line, "vertex") {
          current := VERTEX;
        } else if Has(line, "fragment") {
          current := FRAGMENT;
        } else if Has(line, "geometry") {
          current := GEOMETRY;
        }
      } else {
        var k := Index(current);
        ss[k] := ss[k] + line + "\n";
      }
      i := i + 1;
    }
    assert lines[..i] == lines;
    source := ShaderProgramSource(ss[0], ss[1], ss[2]);
  }

  // ------------------------------------------------------------ properties

  /** Every content line followed by its newline, in order. */
  function Joined(cs: seq<string>): string {
    if cs == [] then "" else Joined(cs[..|cs| - 1]) + cs[|cs| - 1] + "\n"
  }

  /** The number of characters the content lines contribute: each one and its newline. */
  ghost function ContentSize(lines: seq<string>): nat {
    if lines == [] then 0
    else
      var line := lines[|lines| - 1];
      ContentSize(lines[..|lines| - 1]) + (if IsMarker(line) then 0 else |line| + 1)
  }

  /** When no content line precedes the first marker, the three sources together are
      exactly as long as the content lines, each with its newline: no content line is lost
      and no marker line is copied. Which source a line reaches is Bucket's definition. */
  lemma {:induction false} BucketsPartition(lines: seq<string>)
    requires Routable(lines)
    ensures |Bucket(lines, VERTEX)| + |Bucket(lines, FRAGMENT)| + |Bucket(lines, GEOMETRY)| == ContentSize(lines)
  {
    if lines != [] {
      var init := lines[..|lines| - 1];
      assert Routable(init) by {
        forall i | 0 <= i < |init| && !IsMarker(init[i])
          ensures TypeAfter(init[..i]) != NONE
        {
          assert init[..i] == lines[..i] && init[i] == lines[i];
        }
      }
      BucketsPartition(init);
      assert TypeAfter(init) != NONE || IsMarker(lines[|lines| - 1]) by {
        assert lines[..|lines| - 1] == init;
      }
    }
  }

  /** A section of the file: a marker that selects k, then content lines. The content is
      appended to source k and the two other sources do not change. */
  lemma {:induction false} SectionLands(before: seq<string>, marker: string, cs: seq<string>, k: ShaderType)
    requires IsMarker(marker) && TypeAfter(before + [marker]) == k
    requires forall c :: c in cs ==> !IsMarker(c)
    ensures Bucket(before + [marker] + cs, k) == Bucket(before, k) + Joined(cs)
    ensures forall other :: other != k ==> Bucket(before + [marker] + cs, other) == Bucket(before, other)
    ensures TypeAfter(before + [marker] + cs) == k
  {
    var head := before + [marker];
    assert head[..|head| - 1] == before;
    if cs == [] {
      assert head + cs == head;
    } else {
      var init, last := cs[..|cs| - 1], cs[|cs| - 1];
      SectionLands(before, marker, init, k);
      var all := head + cs;
      assert all[..|all| - 1] == head + init;
      assert all[|all| - 1] == last;
      assert !IsMarker(last);
    }
  }

  // ------------------------------------------------------ the uniform cache

  /** The part of Shader that GetUniformLocation uses: the program id, the GL query it
      memoises (glGetUniformLocation, a function of program and name) and the cache. */
  class Shader {
    var renderId: nat
    const locate: (nat, string) -> int
    var uniformLocationCache: map<string, int>
    /** The names passed to the GL query so far, in order. */
    ghost var queries: seq<string>

    /** Every cached location is the query's answer, the cache holds exactly the names
        queried, and no name was queried twice. */
    ghost predicate Valid()
      reads this
    {
      && (forall n :: n in uniformLocationCache ==> uniformLocationCache[n] == locate(renderId, n))
      && (forall n :: n in uniformLocationCache <==> n in queries)
      && (forall i, j :: 0 <= i < j < |queries| ==> queries[i] != queries[j])
    }

    /** The id comes from CreateShader, which is not part of this model. */
    constructor(renderId: nat, locate: (nat, string) -> int)
      ensures Valid()
      ensures this.renderId == renderId && this.locate == locate
      ensures uniformLocationCache == map[] && queries == []
    {
      this.renderId := renderId;
      this.locate := locate;
      uniformLocationCache := map[];
      queries := [];
    }

    /** Shader::GetUniformLocation: a cached name is answered from the cache without a
        query; any other name is queried once and its answer, -1 included, is cached. */
    method GetUniformLocation(name: string) returns (location: int)
      modifies this
      ensures renderId == old(renderId)
      ensures name in old(uniformLocationCache) ==>
        location == old(uniformLocationCache)[name] &&
        uniformLocationCache == old(uniformLocationCache) && queries == old(queries)
      ensures name !in old(uniformLocationCache) ==>
        location == locate(renderId, name) &&
        uniformLocationCache == old(uniformLocationCache)[name := location] &&
        queries == old(queries) + [name]
      ensures old(Valid()) ==> Valid() && location == locate(renderId, name)
    {
      if name in uniformLocationCache {
        return uniformLocationCache[name];
      }
      location := locate(renderId, name);
      uniformLocationCache := uniformLocationCache[name := location];
      queries := queries + [name];
    }
  }
}
