/**
 * The viewer of `ModelViewer.tsx`. Its load effect removes the previous
 * mesh, gates the extension, turns the loader's output into one geometry
 * (an OBJ's meshes concatenated by `mergeGeoms`, without their world
 * matrices), measures it with `computeStats`, and only then recentres it.
 */
module ModelViewer {
  import opened Wrappers
  import opened Geometry
  import opened MeshStats
  import opened Three
  import opened FileNames

  /** The inner loop of `mergeGeoms`: every vertex of geo pushed, in order, onto arrays. */
  method PushAll(arrays: seq<Vec3>, geo: seq<Vec3>) returns (pushed: seq<Vec3>)
    ensures pushed == arrays + geo
  {
    pushed := arrays;
    var i := 0;
    while i < |geo|
      invariant i <= |geo|
      invariant pushed == arrays + geo[..i]
    {
      pushed := pushed + [geo[i]];
      assert geo[..i + 1] == geo[..i] + [geo[i]];
      i := i + 1;
    }
    assert geo[..i] == geo;
  }

  /**
   * `mergeGeoms`: the non-indexed positions of every geometry, in input
   * order, pushed into one new position-only geometry.
   */
  method MergeGeoms(geoms: seq<BufferGeometry>) returns (merged: BufferGeometry)
    requires AllWellFormed(geoms)
    ensures merged.index.None? && merged.attributes == {}
    ensures merged.position == Concatenated(geoms)
    ensures WellFormed(merged)
  {
    var arrays: seq<Vec3> := [];
    var k := 0;
    while k < |geoms|
      invariant k <= |geoms|
      invariant arrays == Concatenated(geoms[..k])
    {
      var geo := NonIndexedVertices(geoms[k]);
      arrays := PushAll(arrays, geo);
      assert geoms[..k + 1][..k] == geoms[..k];
      assert Concatenated(geoms[..k + 1]) == Concatenated(geoms[..k]) + geo;
      k := k + 1;
    }
    assert geoms[..k] == geoms;
    merged := BufferGeometry(arrays, None, {});
  }

  /** The merged geometry's signed volume is the sum of the parts' signed volumes: |·| is taken once, after merging. */
  lemma MergedSignedVolume(geoms: seq<BufferGeometry>, merged: BufferGeometry)
    requires AllWellFormed(geoms) && merged == BufferGeometry(Concatenated(geoms), None, {})
    ensures SignedVolume(Triangles(NonIndexed(merged))) == PartsSignedVolume(geoms)
  {
    ConcatenatedSignedVolume(geoms);
  }

  /**
   * The geometry handed to `processGeometry`: the STL geometry, or the
   * merge of the OBJ's mesh geometries; None when the loader threw or an OBJ
   * has no mesh ("No meshes in OBJ" is thrown and caught).
   */
  function SourceGeometry(format: Format, parsed: Parsed): (g: Option<BufferGeometry>)
    requires ParsedWellFormed(parsed)
    ensures g.Some? ==> WellFormed(g.value)
  {
    match format
    case Stl => parsed.stl
    case Obj =>
      if parsed.obj.Some? && |MeshGeometries(parsed.obj.value)| > 0 then
        Some(BufferGeometry(Concatenated(MeshGeometries(parsed.obj.value)), None, {}))
      else None
  }

  /** The notice a load ends with. */
  datatype LoadOutcome =
    | Unsupported            // "Only STL and OBJ files supported"
    | ParseFailed            // "Failed to parse STL" / "Failed to parse OBJ"
    | Loaded(info: ModelInfo)

  /** The statistics `processGeometry` reports: measured on the geometry as loaded, before `translate`. */
  function ReportedStats(sqrt: real -> real, g: BufferGeometry): ModelInfo
    requires WellFormed(g)
  {
    Stats(sqrt, NonIndexed(g), Size(BoundingBox(g.position)))
  }

  class Viewer {
    /** The geometry of the mesh in the scene, if any. */
    var mesh: Option<BufferGeometry>
    /** Every value passed to `onModelParsed`, oldest first. */
    var emitted: seq<ModelInfo>

    constructor ()
      ensures mesh == None && emitted == []
    {
      mesh := None;
      emitted := [];
    }

    /** `processGeometry`: measure, then centre, then show and report. */
    method ProcessGeometry(sqrt: real -> real, geom: BufferGeometry) returns (stats: ModelInfo)
      requires WellFormed(geom)
      modifies this
      ensures stats == ReportedStats(sqrt, geom)
      ensures mesh == Some(CenterGeometry(geom)) && emitted == old(emitted) + [stats]
    {
      var bbox := BoundingBox(geom.position);
      var size := Size(bbox);
      var positions := NonIndexed(geom);
      stats := ComputeStats(sqrt, positions, size);
      var centred := Translate(geom, Neg(Center(bbox)));
      mesh := Some(centred);
      emitted := emitted + [stats];
    }

    /** The load effect for a file called name, whose loader output is parsed. */
    method Load(sqrt: real -> real, name: string, parsed: Parsed) returns (outcome: LoadOutcome)
      requires ParsedWellFormed(parsed)
      modifies this
      ensures ViewerFormat(name).None? ==> outcome == Unsupported
      ensures ViewerFormat(name).Some? ==>
        match SourceGeometry(ViewerFormat(name).value, parsed)
        case None => outcome == ParseFailed
        case Some(g) => outcome == Loaded(ReportedStats(sqrt, g)) && mesh == Some(CenterGeometry(g))
      ensures outcome.Loaded? ==> emitted == old(emitted) + [outcome.info]
      ensures !outcome.Loaded? ==> emitted == old(emitted) && mesh == None
    {
      mesh := None;
      var ext := ViewerFormat(name);
      if ext.None? {
        return Unsupported;
      }
      match ext.value
      case Stl =>
        if parsed.stl.None? {
          return ParseFailed;
        }
        var stats := ProcessGeometry(sqrt, parsed.stl.value);
        outcome := Loaded(stats);
      case Obj =>
        if parsed.obj.None? {
          return ParseFailed;
        }
        var geoms := MeshGeometries(parsed.obj.value);
        if |geoms| == 0 {
          return ParseFailed;
        }
        var merged := MergeGeoms(geoms);
        var stats := ProcessGeometry(sqrt, merged);
        outcome := Loaded(stats);
    }
  }

  /**
   * For a closed surface (zero vector area) the order does not matter:
   * statistics of the centred geometry equal those of the loaded one.
   */
  lemma ClosedStatsIgnoreCentring(sqrt: real -> real, g: BufferGeometry)
    requires WellFormed(g) && VectorArea(Triangles(NonIndexed(g))) == Origin
    ensures WellFormed(CenterGeometry(g))
    ensures ReportedStats(sqrt, CenterGeometry(g)) == ReportedStats(sqrt, g)
  {
    var c := CenterGeometry(g);
    var d := Neg(Center(BoundingBox(g.position)));
    var p, q := NonIndexed(g), NonIndexed(c);
    var ts := Triangles(p);
    CenterGeometryTriangles(g);
    assert Triangles(q) == TranslateAll(ts, d);
    ClosedVolumeOriginInvariant(ts, d);
    TranslateKeepsArea(sqrt, ts, d);
    CenterGeometryBox(g);
    var s := Size(BoundingBox(g.position));
    assert Size(BoundingBox(c.position)) == s;
    StatsDependOnSums(sqrt, q, p, s);
  }

  /** The triangle (1,0,0), (0,1,0), (0,0,1), as an STL geometry. */
  const Corner := BufferGeometry([Vec3(1.0, 0.0, 0.0), Vec3(0.0, 1.0, 0.0), Vec3(0.0, 0.0, 1.0)], None, {})

  lemma CornerBox()
    ensures BoundingBox(Corner.position) == Box3(Origin, Vec3(1.0, 1.0, 1.0))
  {
    var vs := Corner.position;
    assert BoundingBox(vs[..1]) == Box3(vs[0], vs[0]);
    assert vs[..2][..1] == vs[..1];
    assert BoundingBox(vs[..2]) == Box3(Vec3(0.0, 0.0, 0.0), Vec3(1.0, 1.0, 0.0));
    assert vs[..2] == vs[..|vs| - 1];
  }

  const CornerTriangle := Triangle(Vec3(1.0, 0.0, 0.0), Vec3(0.0, 1.0, 0.0), Vec3(0.0, 0.0, 1.0))

  /** `center()` moves the corner triangle by (−½, −½, −½). */
  lemma CornerTriangles()
    ensures WellFormed(Corner) && WellFormed(CenterGeometry(Corner))
    ensures Triangles(NonIndexed(Corner)) == [CornerTriangle]
    ensures Triangles(NonIndexed(CenterGeometry(Corner))) == [TranslateTriangle(CornerTriangle, Vec3(-0.5, -0.5, -0.5))]
  {
    TrianglesOfFlatten(Corner.position, 0);
    CornerBox();
    assert Neg(Center(BoundingBox(Corner.position))) == Vec3(-0.5, -0.5, -0.5);
    CenterGeometryTriangles(Corner);
  }

  /**
   * The signed volume of an open surface does depend on centring: centring
   * moves the corner triangle by (−½, −½, −½), which turns its signed volume
   * 1/6 mm³ into −1/12 mm³.
   */
  lemma CornerSignedVolumes()
    ensures SignedVol(CornerTriangle) == 1.0 / 6.0
    ensures SignedVol(TranslateTriangle(CornerTriangle, Vec3(-0.5, -0.5, -0.5))) == -1.0 / 12.0
  {
    var t := TranslateTriangle(CornerTriangle, Vec3(-0.5, -0.5, -0.5));
    assert t == Triangle(Vec3(0.5, -0.5, -0.5), Vec3(-0.5, 0.5, -0.5), Vec3(-0.5, -0.5, 0.5));
  }
}
