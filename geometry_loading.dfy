/** The loader logic of src/geometry.cpp that is not file reading: turning
    Wavefront faces into corner entries (a quad into two triangles), keeping
    the triangles of a PLY face list, and flattening the indexed corners into
    per-corner streams; with the Geometry fields they fill. */
module GeometryLoading {
  import opened Wrappers
  import opened Vectors
  import opened ObjVertices

  /** IndicePolygon: the position, texture-coordinate and normal indices of
      one corner. */
  datatype IndicePolygon = IndicePolygon(vertex: nat, uv: nat, normal: nat)

  /** A vertex of the addVertex interface. */
  datatype Vertex = Vertex(position: Vec3, textureCoordinate: Vec2, normal: Vec3)

  /** A line of a Wavefront file after its prefix has been read: the loader
      acts on "v", "vn", "vt" and "f" lines and skips every other one. The
      numbers of "v", "vn" and "vt" lines arrive already parsed. */
  datatype ObjLine =
    | PositionLine(position: Vec3)
    | NormalLine(normal: Vec3)
    | TextureLine(textureCoordinate: Vec2)
    | FaceLine(words: seq<string>)
    | OtherLine

  /** Word i after "f", or the empty string the stream leaves in a word it
      could not read. */
  function Token(words: seq<string>, i: nat): string
  {
    if i < |words| then words[i] else ""
  }

  /** The corners a face line contributes: v1, v2, v3; and when a fourth word
      is present, the second triangle v4, v1, v3. Words past the fourth are
      never read. */
  function FaceCorners(words: seq<string>): (corners: seq<ObjVertex>)
    ensures |corners| == if |words| >= 4 then 6 else 3
    ensures forall i :: 0 <= i < 3 ==> corners[i] == ParseVertex(Token(words, i))
  {
    var tri := [ParseVertex(Token(words, 0)), ParseVertex(Token(words, 1)), ParseVertex(Token(words, 2))];
    if |words| >= 4 then tri + [ParseVertex(words[3]), tri[0], tri[2]] else tri
  }

  /** A quad face becomes two triangles over its four corners that share the
      diagonal v1-v3: the second triangle is v4, v1, v3. */
  lemma QuadSplit(words: seq<string>)
    requires |words| >= 4
    ensures var c := FaceCorners(words);
      c[3..] == [ParseVertex(words[3]), c[0], c[2]]
      && (forall k :: 0 <= k < 4 ==> ParseVertex(words[k]) in c)
  {
    var c := FaceCorners(words);
    assert c[1] == ParseVertex(words[1]);
    assert c[3] == ParseVertex(words[3]);
  }

  /** What both branches of the vertex-map lookup push for a corner. */
  function CornerEntry(v: ObjVertex): (e: IndicePolygon)
    ensures e.vertex == v.p && e.uv == v.uv && e.normal == v.n
  {
    IndicePolygon(v.p, v.uv, v.n)
  }

  function Entries(corners: seq<ObjVertex>): (r: seq<IndicePolygon>)
    ensures |r| == |corners|
    ensures forall i :: 0 <= i < |corners| ==> r[i] == CornerEntry(corners[i])
  {
    seq(|corners|, i requires 0 <= i < |corners| => CornerEntry(corners[i]))
  }

  /** The corner entries a line contributes. */
  function LineEntries(line: ObjLine): seq<IndicePolygon>
  {
    if line.FaceLine? then Entries(FaceCorners(line.words)) else []
  }

  /** The corner entries of a whole file, in line order. Every face
      contributes whole triangles, so there is always a multiple of three. */
  function ObjEntries(lines: seq<ObjLine>): (r: seq<IndicePolygon>)
    ensures |r| % 3 == 0
  {
    if |lines| == 0 then []
    else
      var init, last := ObjEntries(lines[..|lines| - 1]), LineEntries(lines[|lines| - 1]);
      LineEntriesAreTriangles(lines[|lines| - 1]);
      AppendTriangles(init, last);
      init + last
  }

  lemma LineEntriesAreTriangles(line: ObjLine)
    ensures |LineEntries(line)| % 3 == 0
  {
    var n := |LineEntries(line)|;
    assert n == 0 || n == 3 || n == 6;
    SmallMultiples(n);
  }

  lemma SmallMultiples(n: nat)
    requires n == 0 || n == 3 || n == 6
    ensures n % 3 == 0
  {
  }

  lemma ThirdOfMultiple(n: nat)
    requires n % 3 == 0
    ensures 3 * (n / 3) == n
  {
  }

  lemma AppendTriangles(a: seq<IndicePolygon>, b: seq<IndicePolygon>)
    requires |a| % 3 == 0 && |b| % 3 == 0
    ensures |a + b| % 3 == 0
  {
    SumOfMultiples(|a|, |b|);
  }

  lemma SumOfMultiples(a: nat, b: nat)
    requires a % 3 == 0 && b % 3 == 0
    ensures (a + b) % 3 == 0
  {
  }

  function Positions(lines: seq<ObjLine>): seq<Vec3>
  {
    if |lines| == 0 then []
    else Positions(lines[..|lines| - 1]) + (if lines[|lines| - 1].PositionLine? then [lines[|lines| - 1].position] else [])
  }

  function Normals(lines: seq<ObjLine>): seq<Vec3>
  {
    if |lines| == 0 then []
    else Normals(lines[..|lines| - 1]) + (if lines[|lines| - 1].NormalLine? then [lines[|lines| - 1].normal] else [])
  }

  function TextureCoordinates(lines: seq<ObjLine>): seq<Vec2>
  {
    if |lines| == 0 then []
    else
      var last := lines[|lines| - 1];
      TextureCoordinates(lines[..|lines| - 1]) + (if last.TextureLine? then [last.textureCoordinate] else [])
  }

  /** vertexMap and the vertex list agree: each mapped corner sits at its
      mapped position, and each listed corner maps to its own position. */
  ghost predicate Indexed(vertexMap: map<ObjVertex, nat>, vertices: seq<ObjVertex>)
  {
    (forall v :: v in vertexMap ==> vertexMap[v] < |vertices| && vertices[vertexMap[v]] == v)
    && (forall i :: 0 <= i < |vertices| ==> vertices[i] in vertexMap && vertexMap[vertices[i]] == i)
  }

  /** Adding a new corner at the end of the list keeps map and list in
      agreement. */
  lemma IndexedAppend(vertexMap: map<ObjVertex, nat>, vertices: seq<ObjVertex>, v: ObjVertex)
    requires Indexed(vertexMap, vertices) && v !in vertexMap
    ensures Indexed(vertexMap[v := |vertices|], vertices + [v])
  {
    var m := vertexMap[v := |vertices|];
    var vs := vertices + [v];
    forall i | 0 <= i < |vs|
      ensures vs[i] in m && m[vs[i]] == i
    {
      if i < |vertices| {
        assert vs[i] == vertices[i] && vertices[i] != v;
      }
    }
  }

  /** The listed corners of an indexed vertex list are pairwise different. */
  lemma IndexedIsDistinct(vertexMap: map<ObjVertex, nat>, vertices: seq<ObjVertex>)
    requires Indexed(vertexMap, vertices)
    ensures forall i, j :: 0 <= i < j < |vertices| ==> vertices[i] != vertices[j]
  {
    forall i, j | 0 <= i < j < |vertices|
      ensures vertices[i] != vertices[j]
    {
      assert vertexMap[vertices[i]] == i && vertexMap[vertices[j]] == j;
    }
  }

  // ---- de-indexing ----

  /** The loop may read the corner's attributes: its position always, its
      texture coordinate and normal only when those lists are not empty. */
  predicate CornerInRange(c: IndicePolygon, positions: seq<Vec3>, uvs: seq<Vec2>, normals: seq<Vec3>)
  {
    c.vertex < |positions| && (|uvs| > 0 ==> c.uv < |uvs|) && (|normals| > 0 ==> c.normal < |normals|)
  }

  predicate AllInRange(corners: seq<IndicePolygon>, positions: seq<Vec3>, uvs: seq<Vec2>, normals: seq<Vec3>)
  {
    forall i :: 0 <= i < |corners| ==> CornerInRange(corners[i], positions, uvs, normals)
  }

  /** The streams the de-indexing loop appends. */
  datatype Streams = Streams(indices: seq<nat>, positions: seq<Vec3>, uvs: seq<Vec2>, normals: seq<Vec3>)

  /** Corner i becomes index i with its own position and, where the source
      list is not empty, its texture coordinate and normal. */
  function Flatten(corners: seq<IndicePolygon>, positions: seq<Vec3>, uvs: seq<Vec2>, normals: seq<Vec3>): (s: Streams)
    requires AllInRange(corners, positions, uvs, normals)
    ensures |s.indices| == |s.positions| == |corners|
    ensures |s.uvs| == (if |uvs| == 0 then 0 else |corners|)
    ensures |s.normals| == (if |normals| == 0 then 0 else |corners|)
    ensures forall i :: 0 <= i < |corners| ==>
      s.indices[i] < |corners|
      && s.positions[s.indices[i]] == positions[corners[i].vertex]
      && (|uvs| > 0 ==> s.uvs[s.indices[i]] == uvs[corners[i].uv])
      && (|normals| > 0 ==> s.normals[s.indices[i]] == normals[corners[i].normal])
  {
    Streams(
      seq(|corners|, i => i),
      seq(|corners|, i requires 0 <= i < |corners| => positions[corners[i].vertex]),
      if |uvs| == 0 then [] else seq(|corners|, i requires 0 <= i < |corners| => uvs[corners[i].uv]),
      if |normals| == 0 then [] else seq(|corners|, i requires 0 <= i < |corners| => normals[corners[i].normal]))
  }

  // ---- PLY faces ----

  /** One index of a PLY face line: toInt of the word, stored in a uint. */
  function PlyCorner(word: string): (c: IndicePolygon)
    ensures c.vertex == c.uv == c.normal
  {
    var k := Wrap(ToInt(word));
    IndicePolygon(k, k, k)
  }

  /** The corner entries of a PLY face line "n i j k ...": none unless the
      leading count is 3; with count 3, one entry per index using it for
      position, texture coordinate and normal alike; nothing when the line is
      too short to hold three indices, where `QList::at` past the end fails an
      assertion or is undefined behaviour. */
  function PlyFace(line: string): (r: Option<seq<IndicePolygon>>)
    ensures var words := Split(line, ' ');
      r.None? <==> ToInt(words[0]) == 3 && |words| < 4
    ensures r.Some? && ToInt(Split(line, ' ')[0]) != 3 ==> r.value == []
    ensures r.Some? && ToInt(Split(line, ' ')[0]) == 3 ==>
      |r.value| == 3 && forall c :: 0 <= c < 3 ==> r.value[c] == PlyCorner(Split(line, ' ')[c + 1])
  {
    var words := Split(line, ' ');
    if ToInt(words[0]) == 3 then
      if |words| < 4 then None
      else Some([PlyCorner(words[1]), PlyCorner(words[2]), PlyCorner(words[3])])
    else Some([])
  }

  /** The corner entries of all face lines, or nothing when one of them is
      too short. */
  function PlyEntries(lines: seq<string>): (r: Option<seq<IndicePolygon>>)
    ensures r.Some? ==> |r.value| % 3 == 0
  {
    if |lines| == 0 then Some([])
    else
      var init := PlyEntries(lines[..|lines| - 1]);
      var last := PlyFace(lines[|lines| - 1]);
      if init.None? || last.None? then None else Some(init.value + last.value)
  }

  /** Once a face line fails, the whole face list fails. */
  lemma {:induction false} PlyEntriesFail(lines: seq<string>, k: nat)
    requires 0 < k <= |lines| && PlyFace(lines[k - 1]).None?
    ensures PlyEntries(lines).None?
    decreases |lines|
  {
    if k < |lines| {
      assert lines[..|lines| - 1][k - 1] == lines[k - 1];
      PlyEntriesFail(lines[..|lines| - 1], k);
    }
  }

  /** isTriangles on a triangle list: four-divisible index count means a
      triangle count divisible by four, not a triangle list. */
  lemma TriangleTestOnTriangles(n: nat)
    requires n % 3 == 0
    ensures n % 4 == 0 <==> (n / 3) % 4 == 0
  {
    var t := n / 3;
    assert n == 3 * t;
  }

  /** The face branch of loadModelWavefront: the face's corners are parsed
      and then pushed in order onto the corner entries. */
  method AddFace(words: seq<string>, entries: seq<IndicePolygon>, vertexMap: map<ObjVertex, nat>, objVertices: seq<ObjVertex>)
    returns (newEntries: seq<IndicePolygon>, newMap: map<ObjVertex, nat>, newVertices: seq<ObjVertex>)
    requires Indexed(vertexMap, objVertices)
    ensures newEntries == entries + Entries(FaceCorners(words))
    ensures Indexed(newMap, newVertices) && objVertices <= newVertices
    ensures forall v :: v in FaceCorners(words) ==> v in newMap
    ensures forall i, j :: 0 <= i < j < |newVertices| ==> newVertices[i] != newVertices[j]
  {
    var tri := FaceCorners(words);
    newEntries, newMap, newVertices := PushCorners(tri, entries, vertexMap, objVertices);
    IndexedIsDistinct(newMap, newVertices);
  }

  /** The corner loop of the face branch: each corner is looked up in
      vertexMap and added to it and to the vertex list when new, and is pushed
      as a corner entry whether new or not. */
  method PushCorners(tri: seq<ObjVertex>, entries: seq<IndicePolygon>, vertexMap: map<ObjVertex, nat>, objVertices: seq<ObjVertex>)
    returns (newEntries: seq<IndicePolygon>, newMap: map<ObjVertex, nat>, newVertices: seq<ObjVertex>)
    requires Indexed(vertexMap, objVertices)
    ensures newEntries == entries + Entries(tri)
    ensures Indexed(newMap, newVertices) && objVertices <= newVertices
    ensures forall v :: v in tri ==> v in newMap
  {
    newEntries, newMap, newVertices := entries, vertexMap, objVertices;
    var i := 0;
    while i < |tri|
      invariant 0 <= i <= |tri|
      invariant newEntries == entries + Entries(tri[..i])
      invariant Indexed(newMap, newVertices) && objVertices <= newVertices
      invariant forall j :: 0 <= j < i ==> tri[j] in newMap
    {
      var v := tri[i];
      if v !in newMap {
        IndexedAppend(newMap, newVertices, v);
        newMap := newMap[v := |newVertices|];
        newEntries := newEntries + [IndicePolygon(v.p, v.uv, v.n)];
        newVertices := newVertices + [v];
      } else {
        newEntries := newEntries + [IndicePolygon(v.p, v.uv, v.n)];
      }
      assert Entries(tri[..i + 1]) == Entries(tri[..i]) + [CornerEntry(v)];
      i := i + 1;
    }
    assert tri[..|tri|] == tri;
  }

  /** The body of the line loop: a "v", "vn" or "vt" line appends to its
      list, an "f" line pushes its corner entries, any other line is
      skipped. */
  method ReadLine(line: ObjLine, entries: seq<IndicePolygon>, sourcePositions: seq<Vec3>, sourceUvs: seq<Vec2>,
                  sourceNormals: seq<Vec3>, vertexMap: map<ObjVertex, nat>, objVertices: seq<ObjVertex>)
    returns (newEntries: seq<IndicePolygon>, newPositions: seq<Vec3>, newUvs: seq<Vec2>, newNormals: seq<Vec3>,
             newMap: map<ObjVertex, nat>, newVertices: seq<ObjVertex>)
    requires Indexed(vertexMap, objVertices)
    ensures newEntries == entries + LineEntries(line)
    ensures newPositions == sourcePositions + (if line.PositionLine? then [line.position] else [])
    ensures newNormals == sourceNormals + (if line.NormalLine? then [line.normal] else [])
    ensures newUvs == sourceUvs + (if line.TextureLine? then [line.textureCoordinate] else [])
    ensures Indexed(newMap, newVertices)
  {
    newEntries, newPositions, newUvs, newNormals := entries, sourcePositions, sourceUvs, sourceNormals;
    newMap, newVertices := vertexMap, objVertices;
    match line {
      case PositionLine(p) => newPositions := sourcePositions + [p];
      case NormalLine(n) => newNormals := sourceNormals + [n];
      case TextureLine(t) => newUvs := sourceUvs + [t];
      case FaceLine(words) => newEntries, newMap, newVertices := AddFace(words, entries, vertexMap, objVertices);
      case OtherLine =>
    }
  }

  /** What the line loop has collected after reading the lines so far. */
  ghost predicate ReadSoFar(read: seq<ObjLine>, base: seq<IndicePolygon>, entries: seq<IndicePolygon>,
                            positions: seq<Vec3>, uvs: seq<Vec2>, normals: seq<Vec3>)
  {
    entries == base + ObjEntries(read) && positions == Positions(read)
    && uvs == TextureCoordinates(read) && normals == Normals(read)
  }

  /** Reading line i extends what was collected from the lines before it. */
  lemma EntriesStep(prev: seq<ObjLine>, next: seq<ObjLine>, line: ObjLine)
    requires |next| > 0 && next[..|next| - 1] == prev && next[|next| - 1] == line
    ensures ObjEntries(next) == ObjEntries(prev) + LineEntries(line)
  {
  }

  lemma PositionsStep(prev: seq<ObjLine>, next: seq<ObjLine>, line: ObjLine)
    requires |next| > 0 && next[..|next| - 1] == prev && next[|next| - 1] == line
    ensures Positions(next) == Positions(prev) + (if line.PositionLine? then [line.position] else [])
  {
  }

  lemma TexturesStep(prev: seq<ObjLine>, next: seq<ObjLine>, line: ObjLine)
    requires |next| > 0 && next[..|next| - 1] == prev && next[|next| - 1] == line
    ensures TextureCoordinates(next)
      == TextureCoordinates(prev) + (if line.TextureLine? then [line.textureCoordinate] else [])
  {
  }

  lemma NormalsStep(prev: seq<ObjLine>, next: seq<ObjLine>, line: ObjLine)
    requires |next| > 0 && next[..|next| - 1] == prev && next[|next| - 1] == line
    ensures Normals(next) == Normals(prev) + (if line.NormalLine? then [line.normal] else [])
  {
  }

  lemma ReadStep(lines: seq<ObjLine>, i: nat, base: seq<IndicePolygon>,
                 entries: seq<IndicePolygon>, positions: seq<Vec3>, uvs: seq<Vec2>, normals: seq<Vec3>,
                 entries': seq<IndicePolygon>, positions': seq<Vec3>, uvs': seq<Vec2>, normals': seq<Vec3>)
    requires i < |lines| && ReadSoFar(lines[..i], base, entries, positions, uvs, normals)
    requires entries' == entries + LineEntries(lines[i])
    requires positions' == positions + (if lines[i].PositionLine? then [lines[i].position] else [])
    requires normals' == normals + (if lines[i].NormalLine? then [lines[i].normal] else [])
    requires uvs' == uvs + (if lines[i].TextureLine? then [lines[i].textureCoordinate] else [])
    ensures ReadSoFar(lines[..i + 1], base, entries', positions', uvs', normals')
  {
    var prev, next, line := lines[..i], lines[..i + 1], lines[i];
    assert next[..|next| - 1] == prev && next[|next| - 1] == line;
    EntriesStep(prev, next, line);
    PositionsStep(prev, next, line);
    TexturesStep(prev, next, line);
    NormalsStep(prev, next, line);
  }

  class Geometry {
    var indices: seq<nat>
    var indicePolygons: seq<IndicePolygon>
    var positions: seq<Vec3>
    var normals: seq<Vec3>
    var textureCoordinates: seq<Vec2>
    var vertices: seq<Vertex>
    var triangleCount: nat
    var vertexCount: nat

    /** Geometry(): every list starts empty. */
    constructor ()
      ensures indices == [] && indicePolygons == [] && positions == [] && normals == []
      ensures textureCoordinates == [] && vertices == [] && triangleCount == 0 && vertexCount == 0
    {
      indices, indicePolygons := [], [];
      positions, normals, textureCoordinates, vertices := [], [], [], [];
      triangleCount, vertexCount := 0, 0;
    }

    /** The four vertex-attribute lists have one entry per vertex. */
    predicate Aligned()
      reads this
    {
      |positions| == |normals| == |textureCoordinates| == |vertices|
    }

    /** addVertex: one entry appended to each of the four lists; aligned
        lists stay aligned. */
    method AddVertex(vertex: Vertex)
      modifies this
      ensures positions == old(positions) + [vertex.position]
      ensures normals == old(normals) + [vertex.normal]
      ensures textureCoordinates == old(textureCoordinates) + [vertex.textureCoordinate]
      ensures vertices == old(vertices) + [vertex]
      ensures indices == old(indices) && indicePolygons == old(indicePolygons)
      ensures triangleCount == old(triangleCount) && vertexCount == old(vertexCount)
      ensures old(Aligned()) ==> Aligned()
    {
      positions := positions + [vertex.position];
      normals := normals + [vertex.normal];
      textureCoordinates := textureCoordinates + [vertex.textureCoordinate];
      vertices := vertices + [vertex];
    }

    /** isQuads: the index count is divisible by three. */
    function IsQuads(): (r: bool)
      reads this
      ensures r <==> |indices| % 3 == 0
    {
      |indices| % 3 == 0
    }

    /** isTriangles: the index count is divisible by four. */
    function IsTriangles(): (r: bool)
      reads this
      ensures r <==> |indices| % 4 == 0
    {
      |indices| % 4 == 0
    }

    /** The de-indexing loop: corner i appends index i, its position and,
        when those source lists are not empty, its texture coordinate and
        normal. ok is false when a corner's index is past the end of a list it
        is read from (std::out_of_range). */
    method Deindex(sourcePositions: seq<Vec3>, sourceUvs: seq<Vec2>, sourceNormals: seq<Vec3>) returns (ok: bool)
      modifies this
      ensures ok <==> AllInRange(indicePolygons, sourcePositions, sourceUvs, sourceNormals)
      ensures ok ==>
        var s := Flatten(indicePolygons, sourcePositions, sourceUvs, sourceNormals);
        indices == old(indices) + s.indices && positions == old(positions) + s.positions
        && textureCoordinates == old(textureCoordinates) + s.uvs && normals == old(normals) + s.normals
      ensures indicePolygons == old(indicePolygons) && vertices == old(vertices)
      ensures triangleCount == old(triangleCount) && vertexCount == old(vertexCount)
    {
      var corners := indicePolygons;
      var n := |corners|;
      var idx, pos, uvs, nrm := indices, positions, textureCoordinates, normals;
      var i := 0;
      while i < n
        invariant 0 <= i <= n
        invariant AllInRange(corners[..i], sourcePositions, sourceUvs, sourceNormals)
        invariant idx == old(indices) + seq(i, k => k)
        invariant pos == old(positions) + seq(i, k requires 0 <= k < i => sourcePositions[corners[k].vertex])
        invariant uvs == old(textureCoordinates)
          + (if |sourceUvs| == 0 then [] else seq(i, k requires 0 <= k < i => sourceUvs[corners[k].uv]))
        invariant nrm == old(normals)
          + (if |sourceNormals| == 0 then [] else seq(i, k requires 0 <= k < i => sourceNormals[corners[k].normal]))
        invariant unchanged(this)
      {
        var c := corners[i];
        idx := idx + [i];
        if c.vertex >= |sourcePositions| {
          indices, positions, textureCoordinates, normals := idx, pos, uvs, nrm;
          return false;
        }
        pos := pos + [sourcePositions[c.vertex]];
        if |sourceUvs| > 0 {
          if c.uv >= |sourceUvs| {
            indices, positions, textureCoordinates, normals := idx, pos, uvs, nrm;
            return false;
          }
          uvs := uvs + [sourceUvs[c.uv]];
        }
        if |sourceNormals| > 0 {
          if c.normal >= |sourceNormals| {
            indices, positions, textureCoordinates, normals := idx, pos, uvs, nrm;
            return false;
          }
          nrm := nrm + [sourceNormals[c.normal]];
        }
        i := i + 1;
      }
      assert corners[..n] == corners;
      indices, positions, textureCoordinates, normals := idx, pos, uvs, nrm;
      return true;
    }

    /** loadModelWavefront once the file is read into lines: the lines are
        read, the triangle count is a third of the corner entries and the
        vertex count the number of positions, and then the entries are
        flattened into the streams; ok is false when a corner points past a
        list it is read from (std::out_of_range). */
    method LoadWavefront(lines: seq<ObjLine>) returns (ok: bool)
      modifies this
      ensures indicePolygons == old(indicePolygons) + ObjEntries(lines)
      ensures triangleCount == |indicePolygons| / 3 && vertexCount == |Positions(lines)|
      ensures ok <==> AllInRange(indicePolygons, Positions(lines), TextureCoordinates(lines), Normals(lines))
      ensures ok ==>
        var s := Flatten(indicePolygons, Positions(lines), TextureCoordinates(lines), Normals(lines));
        indices == old(indices) + s.indices && positions == old(positions) + s.positions
        && textureCoordinates == old(textureCoordinates) + s.uvs && normals == old(normals) + s.normals
      ensures ok && old(indices) == [] && old(indicePolygons) == [] ==> IsQuads() && 3 * triangleCount == |indices|
      ensures vertices == old(vertices)
    {
      var sourcePositions, sourceUvs, sourceNormals := ReadLines(lines);
      triangleCount := |indicePolygons| / 3;
      vertexCount := |sourcePositions|;
      ok := Deindex(sourcePositions, sourceUvs, sourceNormals);
      if ok && old(indices) == [] && old(indicePolygons) == [] {
        var n := |indicePolygons|;
        assert n % 3 == 0 by {
          assert indicePolygons == ObjEntries(lines);
        }
        assert |indices| == n by {
          assert indices == Flatten(indicePolygons, sourcePositions, sourceUvs, sourceNormals).indices;
        }
        ThirdOfMultiple(n);
      }
    }

    /** The line loop of loadModelWavefront: positions, normals and texture
        coordinates are collected in file order, and every face pushes its
        corner entries through one vertex map for the whole file. */
    method ReadLines(lines: seq<ObjLine>) returns (sourcePositions: seq<Vec3>, sourceUvs: seq<Vec2>, sourceNormals: seq<Vec3>)
      modifies this
      ensures indicePolygons == old(indicePolygons) + ObjEntries(lines)
      ensures sourcePositions == Positions(lines) && sourceNormals == Normals(lines)
      ensures sourceUvs == TextureCoordinates(lines)
      ensures indices == old(indices) && positions == old(positions) && normals == old(normals)
      ensures textureCoordinates == old(textureCoordinates) && vertices == old(vertices)
      ensures triangleCount == old(triangleCount) && vertexCount == old(vertexCount)
    {
      sourcePositions, sourceNormals, sourceUvs := [], [], [];
      var polygons := indicePolygons;
      var objVertices: seq<ObjVertex> := [];
      var vertexMap: map<ObjVertex, nat> := map[];
      var i := 0;
      while i < |lines|
        invariant 0 <= i <= |lines|
        invariant ReadSoFar(lines[..i], old(indicePolygons), polygons, sourcePositions, sourceUvs, sourceNormals)
        invariant Indexed(vertexMap, objVertices)
        invariant unchanged(this)
      {
        ghost var entries, ps, us, ns := polygons, sourcePositions, sourceUvs, sourceNormals;
        polygons, sourcePositions, sourceUvs, sourceNormals, vertexMap, objVertices :=
          ReadLine(lines[i], polygons, sourcePositions, sourceUvs, sourceNormals, vertexMap, objVertices);
        ReadStep(lines, i, old(indicePolygons), entries, ps, us, ns, polygons, sourcePositions, sourceUvs, sourceNormals);
        i := i + 1;
      }
      assert lines[..|lines|] == lines;
      indicePolygons := polygons;
    }

    /** The face section of loadModelPLY once read into lines: each face
        line pushes the corner entries PlyFace keeps; ok is false when a line
        is too short for its three indices, where `QList::at` past the end
        fails an assertion or is undefined behaviour. */
    method AddPlyFaces(lines: seq<string>) returns (ok: bool)
      modifies this
      ensures ok <==> PlyEntries(lines).Some?
      ensures ok ==> indicePolygons == old(indicePolygons) + PlyEntries(lines).value
      ensures indices == old(indices) && positions == old(positions) && normals == old(normals)
      ensures textureCoordinates == old(textureCoordinates) && vertices == old(vertices)
      ensures triangleCount == old(triangleCount) && vertexCount == old(vertexCount)
    {
      var polygons := indicePolygons;
      var i := 0;
      while i < |lines|
        invariant 0 <= i <= |lines|
        invariant PlyEntries(lines[..i]).Some?
        invariant polygons == old(indicePolygons) + PlyEntries(lines[..i]).value
        invariant unchanged(this)
      {
        assert lines[..i + 1][..i] == lines[..i] && lines[..i + 1][i] == lines[i];
        var face := PlyFace(lines[i]);
        if face.None? {
          PlyEntriesFail(lines, i + 1);
          indicePolygons := polygons;
          return false;
        }
        polygons := polygons + face.value;
        i := i + 1;
      }
      assert lines[..|lines|] == lines;
      indicePolygons := polygons;
      return true;
    }
  }
}
