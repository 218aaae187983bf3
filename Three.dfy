/**
 * The parts of three.js's BufferGeometry that the viewers rely on, reduced
 * to what affects the statistics: the position attribute, the optional
 * index, `toNonIndexed`, `applyMatrix4`/`translate`, `mergeGeometries`, and
 * the bounding box of `computeBoundingBox`. These are library code; they are
 * modelled here by what they do to positions.
 */
module Three {
  import opened Wrappers
  import opened Geometry
  import opened MeshStats

  /**
   * A BufferGeometry: the position attribute as its vertices (each item of
   * size three), an optional index (three entries per triangle), and the
   * names of its other attributes (normal, uv, ...).
   */
  datatype BufferGeometry = BufferGeometry(position: seq<Vec3>, index: Option<seq<nat>>, attributes: set<string>)

  predicate IndexInRange(ix: seq<nat>, vertexCount: nat) {
    forall j :: 0 <= j < |ix| ==> ix[j] < vertexCount
  }

  /** A triangle geometry as the loaders produce it. */
  predicate WellFormed(g: BufferGeometry) {
    match g.index
    case None => |g.position| % 3 == 0
    case Some(ix) => |ix| % 3 == 0 && IndexInRange(ix, |g.position|)
  }

  /** The Float32Array behind a list of vertices: x, y, z of each in turn. */
  function Flatten(vs: seq<Vec3>): (p: seq<real>)
    ensures |p| == 3 * |vs|
  {
    if |vs| == 0 then [] else Flatten(vs[..|vs| - 1]) + [vs[|vs| - 1].x, vs[|vs| - 1].y, vs[|vs| - 1].z]
  }

  lemma {:induction false} FlattenAt(vs: seq<Vec3>, k: nat)
    requires k < |vs|
    ensures Flatten(vs)[3 * k] == vs[k].x && Flatten(vs)[3 * k + 1] == vs[k].y && Flatten(vs)[3 * k + 2] == vs[k].z
  {
    var n := |vs| - 1;
    if k < n {
      FlattenAt(vs[..n], k);
    }
  }

  lemma {:induction false} FlattenAppend(a: seq<Vec3>, b: seq<Vec3>)
    ensures Flatten(a + b) == Flatten(a) + Flatten(b)
  {
    if |b| > 0 {
      var n := |b| - 1;
      assert (a + b)[..|a + b| - 1] == a + b[..n];
      FlattenAppend(a, b[..n]);
    } else {
      assert a + b == a;
    }
  }

  /** The triangles of a flattened list of vertices are its consecutive vertex triples. */
  lemma TrianglesOfFlatten(vs: seq<Vec3>, k: nat)
    requires |vs| % 3 == 0 && k < |vs| / 3
    ensures |Flatten(vs)| % 9 == 0
    ensures Triangles(Flatten(vs))[k] == Triangle(vs[3 * k], vs[3 * k + 1], vs[3 * k + 2])
  {
    FlattenNine(vs);
    var p := Flatten(vs);
    var j := 3 * k;
    assert 3 * j == 9 * k && 3 * (j + 1) == 9 * k + 3 && 3 * (j + 2) == 9 * k + 6;
    assert 9 * k + 9 <= |p|;
    FlattenAt(vs, j);
    FlattenAt(vs, j + 1);
    FlattenAt(vs, j + 2);
    assert Triangles(p)[k] == TriangleAt(p, 9 * k);
  }

  /** One copy of vertex ix[k] for each index entry k. */
  function Gather(vs: seq<Vec3>, ix: seq<nat>): (r: seq<Vec3>)
    requires IndexInRange(ix, |vs|)
    ensures |r| == |ix|
  {
    seq(|ix|, k requires 0 <= k < |ix| => vs[ix[k]])
  }

  /** The vertex list of `toNonIndexed()` (or of the geometry itself when it has no index). */
  function NonIndexedVertices(g: BufferGeometry): (vs: seq<Vec3>)
    requires WellFormed(g)
    ensures |vs| % 3 == 0
    ensures |vs| == if g.index.Some? then |g.index.value| else |g.position|
  {
    match g.index
    case None => g.position
    case Some(ix) => Gather(g.position, ix)
  }

  /** The flat triangle buffer the statistics loop reads. */
  function NonIndexed(g: BufferGeometry): (p: Positions)
    requires WellFormed(g)
    ensures |p| == 3 * |NonIndexedVertices(g)|
  {
    Flatten(NonIndexedVertices(g))
  }

  /** The affine part of a three.js Matrix4 whose bottom row is (0, 0, 0, 1). */
  datatype Matrix4 = Matrix4(row0: Vec3, row1: Vec3, row2: Vec3, translation: Vec3)

  const Identity := Matrix4(Vec3(1.0, 0.0, 0.0), Vec3(0.0, 1.0, 0.0), Vec3(0.0, 0.0, 1.0), Origin)

  function Translation(d: Vec3): Matrix4 {
    Identity.(translation := d)
  }

  function TransformPoint(m: Matrix4, v: Vec3): Vec3 {
    Vec3(Dot(m.row0, v) + m.translation.x, Dot(m.row1, v) + m.translation.y, Dot(m.row2, v) + m.translation.z)
  }

  /** Every vertex mapped through m. */
  function TransformVertices(m: Matrix4, vs: seq<Vec3>): (r: seq<Vec3>)
    ensures |r| == |vs|
  {
    seq(|vs|, k requires 0 <= k < |vs| => TransformPoint(m, vs[k]))
  }

  /** `geometry.applyMatrix4(m)`: the vertices are transformed, the index is kept. */
  function ApplyMatrix4(m: Matrix4, g: BufferGeometry): (r: BufferGeometry)
    ensures r.index == g.index && r.attributes == g.attributes && |r.position| == |g.position|
  {
    g.(position := TransformVertices(m, g.position))
  }

  /**
   * Transforming then expanding equals expanding then transforming, so it
   * does not matter whether a viewer applies the world matrix before or after
   * `toNonIndexed`.
   */
  lemma ApplyMatrix4CommutesWithNonIndexed(m: Matrix4, g: BufferGeometry)
    requires WellFormed(g)
    ensures WellFormed(ApplyMatrix4(m, g))
    ensures NonIndexedVertices(ApplyMatrix4(m, g)) == TransformVertices(m, NonIndexedVertices(g))
  {
  }

  /** Translating the vertices by d translates every triangle by d. */
  lemma TranslationMovesTriangles(vs: seq<Vec3>, d: Vec3)
    requires |vs| % 3 == 0
    ensures |Flatten(vs)| % 9 == 0
    ensures Triangles(Flatten(TransformVertices(Translation(d), vs))) == TranslateAll(Triangles(Flatten(vs)), d)
  {
    var ws := TransformVertices(Translation(d), vs);
    var l, r := Triangles(Flatten(ws)), TranslateAll(Triangles(Flatten(vs)), d);
    forall k | 0 <= k < |l| ensures l[k] == r[k] {
      TrianglesOfFlatten(ws, k);
      TrianglesOfFlatten(vs, k);
    }
  }

  /** The identity matrix leaves every vertex where it is. */
  lemma IdentityTransform(vs: seq<Vec3>)
    ensures TransformVertices(Identity, vs) == vs
  {
  }

  /** `geometry.translate(d.x, d.y, d.z)`. */
  function Translate(g: BufferGeometry, d: Vec3): (r: BufferGeometry)
    ensures r.index == g.index && |r.position| == |g.position|
  {
    ApplyMatrix4(Translation(d), g)
  }

  function OffsetIndex(ix: seq<nat>, offset: nat): (r: seq<nat>)
    ensures |r| == |ix|
  {
    seq(|ix|, j requires 0 <= j < |ix| => ix[j] + offset)
  }

  /** Two geometries `mergeGeometries` accepts together: both indexed or neither, and the same attributes. */
  predicate Mergeable(a: BufferGeometry, b: BufferGeometry) {
    a.index.Some? == b.index.Some? && a.attributes == b.attributes
  }

  /**
   * `BufferGeometryUtils.mergeGeometries([a, b])`: null unless the two are
   * mergeable; otherwise the vertices are concatenated and b's index is
   * shifted past a's vertices.
   */
  function MergeGeometries(a: BufferGeometry, b: BufferGeometry): (r: Option<BufferGeometry>)
    ensures r.Some? <==> Mergeable(a, b)
    ensures r.Some? ==> Mergeable(r.value, a) && Mergeable(a, r.value)
  {
    if !Mergeable(a, b) then None
    else
      var index := if a.index.Some? then Some(a.index.value + OffsetIndex(b.index.value, |a.position|)) else None;
      Some(BufferGeometry(a.position + b.position, index, a.attributes))
  }

  /** Merging two well-formed geometries expands to the two expansions one after the other. */
  lemma MergeGeometriesNonIndexed(a: BufferGeometry, b: BufferGeometry)
    requires WellFormed(a) && WellFormed(b) && Mergeable(a, b)
    ensures WellFormed(MergeGeometries(a, b).value)
    ensures NonIndexedVertices(MergeGeometries(a, b).value) == NonIndexedVertices(a) + NonIndexedVertices(b)
  {
    var m := MergeGeometries(a, b).value;
    if a.index.Some? {
      var ia, ib := a.index.value, b.index.value;
      var ix := m.index.value;
      assert IndexInRange(ix, |m.position|) by {
        forall j | 0 <= j < |ix| ensures ix[j] < |m.position| {
          if j >= |ia| {
            assert ix[j] == ib[j - |ia|] + |a.position|;
          }
        }
      }
      var l, r := NonIndexedVertices(m), NonIndexedVertices(a) + NonIndexedVertices(b);
      forall k | 0 <= k < |l| ensures l[k] == r[k] {
        if k >= |ia| {
          assert ix[k] == ib[k - |ia|] + |a.position|;
        }
      }
    }
  }

  /** three.js's Box3: empty, or the corners of an axis-aligned box. */
  datatype Box3 = EmptyBox | Box3(min: Vec3, max: Vec3)

  function MinVec(u: Vec3, v: Vec3): Vec3 {
    Vec3(if u.x <= v.x then u.x else v.x, if u.y <= v.y then u.y else v.y, if u.z <= v.z then u.z else v.z)
  }

  function MaxVec(u: Vec3, v: Vec3): Vec3 {
    Vec3(if u.x >= v.x then u.x else v.x, if u.y >= v.y then u.y else v.y, if u.z >= v.z then u.z else v.z)
  }

  function ExpandByPoint(b: Box3, v: Vec3): Box3 {
    match b
    case EmptyBox => Box3(v, v)
    case Box3(lo, hi) => Box3(MinVec(lo, v), MaxVec(hi, v))
  }

  /** `computeBoundingBox`: the box of every vertex of the position attribute. */
  function BoundingBox(vs: seq<Vec3>): Box3 {
    if |vs| == 0 then EmptyBox else ExpandByPoint(BoundingBox(vs[..|vs| - 1]), vs[|vs| - 1])
  }

  predicate Ordered(b: Box3) {
    b.Box3? ==> b.min.x <= b.max.x && b.min.y <= b.max.y && b.min.z <= b.max.z
  }

  /** `Box3.getSize`: zero for the empty box. */
  function Size(b: Box3): Vec3 {
    match b
    case EmptyBox => Origin
    case Box3(lo, hi) => Sub(hi, lo)
  }

  /** `Box3.getCenter`: the origin for the empty box. */
  function Center(b: Box3): Vec3 {
    match b
    case EmptyBox => Origin
    case Box3(lo, hi) => Scale(0.5, Add(lo, hi))
  }

  lemma {:induction false} BoundingBoxOrdered(vs: seq<Vec3>)
    ensures Ordered(BoundingBox(vs))
    ensures NonNegative(Size(BoundingBox(vs)))
  {
    if |vs| > 0 {
      BoundingBoxOrdered(vs[..|vs| - 1]);
    }
  }

  /** `geometry.center()`: translate so that the bounding box is centred on the origin. */
  function CenterGeometry(g: BufferGeometry): (r: BufferGeometry)
    ensures r.index == g.index && |r.position| == |g.position|
  {
    Translate(g, Neg(Center(BoundingBox(g.position))))
  }

  function ShiftBox(b: Box3, d: Vec3): Box3 {
    match b
    case EmptyBox => EmptyBox
    case Box3(lo, hi) => Box3(Add(lo, d), Add(hi, d))
  }

  /** Translating the vertices translates their bounding box. */
  lemma {:induction false} BoundingBoxTranslate(vs: seq<Vec3>, d: Vec3)
    ensures BoundingBox(TransformVertices(Translation(d), vs)) == ShiftBox(BoundingBox(vs), d)
  {
    if |vs| > 0 {
      var n := |vs| - 1;
      var ws := TransformVertices(Translation(d), vs);
      assert ws[..n] == TransformVertices(Translation(d), vs[..n]);
      BoundingBoxTranslate(vs[..n], d);
      TranslatePoint(d, vs[n]);
      ExpandShift(BoundingBox(vs[..n]), vs[n], d);
      assert BoundingBox(ws) == ExpandByPoint(BoundingBox(ws[..n]), ws[n]);
    }
  }

  /** The translation matrix moves a point by d. */
  lemma TranslatePoint(d: Vec3, v: Vec3)
    ensures TransformPoint(Translation(d), v) == Add(v, d)
  {
  }

  /** Expanding a shifted box by a shifted point shifts the expanded box. */
  lemma ExpandShift(b: Box3, v: Vec3, d: Vec3)
    ensures ExpandByPoint(ShiftBox(b, d), Add(v, d)) == ShiftBox(ExpandByPoint(b, v), d)
  {
  }

  /** After `center()` the bounding box is centred on the origin and has the same size. */
  lemma CenterGeometryBox(g: BufferGeometry)
    ensures Center(BoundingBox(CenterGeometry(g).position)) == Origin
    ensures Size(BoundingBox(CenterGeometry(g).position)) == Size(BoundingBox(g.position))
  {
    BoundingBoxTranslate(g.position, Neg(Center(BoundingBox(g.position))));
  }

  /** `center()` moves every triangle by the same vector, the negated box centre. */
  lemma CenterGeometryTriangles(g: BufferGeometry)
    requires WellFormed(g)
    ensures WellFormed(CenterGeometry(g))
    ensures Triangles(NonIndexed(CenterGeometry(g))) == TranslateAll(Triangles(NonIndexed(g)), Neg(Center(BoundingBox(g.position))))
  {
    var d := Neg(Center(BoundingBox(g.position)));
    ApplyMatrix4CommutesWithNonIndexed(Translation(d), g);
    TranslationMovesTriangles(NonIndexedVertices(g), d);
  }

  lemma FlattenNine(vs: seq<Vec3>)
    requires |vs| % 3 == 0
    ensures |Flatten(vs)| % 9 == 0
  {
    var k := |vs| / 3;
    assert |vs| == 3 * k;
    assert |Flatten(vs)| == 9 * k;
    assert (9 * k) % 9 == 0;
  }

  /** The triangles of a list of vertices, three vertices each. */
  function VertexTriangles(vs: seq<Vec3>): (ts: seq<Triangle>)
    requires |vs| % 3 == 0
    ensures 3 * |ts| == |vs|
  {
    FlattenNine(vs);
    Triangles(Flatten(vs))
  }

  /** The triangles of two concatenated vertex lists are the triangles of each, in order. */
  lemma TrianglesOfConcat(a: seq<Vec3>, b: seq<Vec3>)
    requires |a| % 3 == 0 && |b| % 3 == 0
    ensures |Flatten(a)| % 9 == 0 && |Flatten(b)| % 9 == 0
    ensures Triangles(Flatten(a + b)) == Triangles(Flatten(a)) + Triangles(Flatten(b))
  {
    FlattenNine(a);
    FlattenNine(b);
    FlattenAppend(a, b);
    TrianglesAppend(Flatten(a), Flatten(b));
  }

  /** A node of the group OBJLoader returns, as `traverse` visits it. */
  datatype Object3D = Object3D(isMesh: bool, geometry: BufferGeometry, matrixWorld: Matrix4)

  predicate AllWellFormed(gs: seq<BufferGeometry>) {
    forall i :: 0 <= i < |gs| ==> WellFormed(gs[i])
  }

  predicate MeshesWellFormed(group: seq<Object3D>) {
    forall i :: 0 <= i < |group| ==> group[i].isMesh ==> WellFormed(group[i].geometry)
  }

  /** The geometries of the mesh nodes, in traversal order. */
  function MeshGeometries(group: seq<Object3D>): (gs: seq<BufferGeometry>)
    ensures |gs| <= |group|
    ensures MeshesWellFormed(group) ==> AllWellFormed(gs)
  {
    if |group| == 0 then []
    else
      var last := group[|group| - 1];
      MeshGeometries(group[..|group| - 1]) + (if last.isMesh then [last.geometry] else [])
  }

  /** The mesh geometries, each transformed by its node's world matrix, in traversal order. */
  function WorldGeometries(group: seq<Object3D>): (gs: seq<BufferGeometry>)
    ensures |gs| == |MeshGeometries(group)|
    ensures MeshesWellFormed(group) ==> AllWellFormed(gs)
  {
    if |group| == 0 then []
    else
      var last := group[|group| - 1];
      WorldGeometries(group[..|group| - 1]) + (if last.isMesh then [ApplyMatrix4(last.matrixWorld, last.geometry)] else [])
  }

  /** The non-indexed vertices of each geometry, one geometry after another. */
  function Concatenated(gs: seq<BufferGeometry>): (vs: seq<Vec3>)
    requires AllWellFormed(gs)
    ensures |vs| % 3 == 0
  {
    if |gs| == 0 then [] else Concatenated(gs[..|gs| - 1]) + NonIndexedVertices(gs[|gs| - 1])
  }

  lemma {:induction false} ConcatenatedCons(g: BufferGeometry, rest: seq<BufferGeometry>)
    requires WellFormed(g) && AllWellFormed(rest)
    ensures AllWellFormed([g] + rest)
    ensures Concatenated([g] + rest) == NonIndexedVertices(g) + Concatenated(rest)
  {
    var gs := [g] + rest;
    assert AllWellFormed(gs) by {
      forall i | 0 <= i < |gs| ensures WellFormed(gs[i]) {
        if i > 0 {
          assert gs[i] == rest[i - 1];
        }
      }
    }
    if |rest| == 0 {
      assert gs == [g];
      assert gs[..0] == [];
    } else {
      var n := |rest| - 1;
      var front := rest[..n];
      assert gs[..|gs| - 1] == [g] + front;
      assert gs[|gs| - 1] == rest[n];
      ConcatenatedCons(g, front);
      calc {
        Concatenated(gs);
        Concatenated([g] + front) + NonIndexedVertices(rest[n]);
        NonIndexedVertices(g) + Concatenated(front) + NonIndexedVertices(rest[n]);
        NonIndexedVertices(g) + Concatenated(rest);
      }
    }
  }

  /** The triangles of concatenated vertex lists measure the sum of the parts. */
  lemma VertexTrianglesAppend(sqrt: real -> real, a: seq<Vec3>, b: seq<Vec3>)
    requires |a| % 3 == 0 && |b| % 3 == 0
    ensures SignedVolume(VertexTriangles(a + b)) == SignedVolume(VertexTriangles(a)) + SignedVolume(VertexTriangles(b))
    ensures SurfaceArea(sqrt, VertexTriangles(a + b)) == SurfaceArea(sqrt, VertexTriangles(a)) + SurfaceArea(sqrt, VertexTriangles(b))
  {
    TrianglesOfConcat(a, b);
    MeasuresAppend(sqrt, VertexTriangles(a), VertexTriangles(b));
  }

  /** Σ of the signed volumes of the geometries taken one by one. */
  function PartsSignedVolume(gs: seq<BufferGeometry>): real
    requires AllWellFormed(gs)
  {
    if |gs| == 0 then 0.0 else PartsSignedVolume(gs[..|gs| - 1]) + SignedVolume(Triangles(NonIndexed(gs[|gs| - 1])))
  }

  /** The triangles of the concatenation are those of the parts, so its signed volume is the sum of theirs. */
  lemma {:induction false} ConcatenatedSignedVolume(gs: seq<BufferGeometry>)
    requires AllWellFormed(gs)
    ensures |Flatten(Concatenated(gs))| % 9 == 0
    ensures SignedVolume(Triangles(Flatten(Concatenated(gs)))) == PartsSignedVolume(gs)
  {
    if |gs| > 0 {
      var n := |gs| - 1;
      var init, last := gs[..n], gs[n];
      assert AllWellFormed(init) && WellFormed(last);
      var a, b := Concatenated(init), NonIndexedVertices(last);
      assert Concatenated(gs) == a + b;
      ConcatenatedSignedVolume(init);
      TrianglesOfConcat(a, b);
      assert NonIndexed(last) == Flatten(b);
      SumAppend(SignedVol, Triangles(Flatten(a)), Triangles(Flatten(b)));
      assert PartsSignedVolume(gs) == PartsSignedVolume(init) + SignedVolume(Triangles(Flatten(b)));
    }
  }

  /** `toNonIndexed()`: one vertex per index entry and no index; a geometry without an index is returned as is. */
  function ToNonIndexed(g: BufferGeometry): (r: BufferGeometry)
    requires WellFormed(g)
    ensures WellFormed(r) && r.index.None? && r.attributes == g.attributes
    ensures NonIndexedVertices(r) == NonIndexedVertices(g)
  {
    if g.index.None? then g else BufferGeometry(NonIndexedVertices(g), None, g.attributes)
  }

  /**
   * What the loaders returned for a file: STLLoader's geometry and
   * OBJLoader's group, None when parsing threw. Only the one for the file's
   * format is used.
   */
  datatype Parsed = Parsed(stl: Option<BufferGeometry>, obj: Option<seq<Object3D>>)

  predicate ParsedWellFormed(parsed: Parsed) {
    && (parsed.stl.Some? ==> WellFormed(parsed.stl.value))
    && (parsed.obj.Some? ==> MeshesWellFormed(parsed.obj.value))
  }
}
