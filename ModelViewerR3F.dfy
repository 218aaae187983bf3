/**
 * The react-three-fiber viewer of `ModelViewerR3F.tsx`: `ObjModel` measures
 * every mesh of an OBJ group in world space with one pair of running sums,
 * `StlModel` measures the expanded STL geometry, and the component keeps an
 * object URL for the current file.
 */
module ModelViewerR3F {
  import opened Wrappers
  import opened Geometry
  import opened MeshStats
  import opened Three
  import opened FileNames
  import ModelViewer3D

  /** The vertices `ObjModel` measures: each mesh expanded, then moved by its world matrix, in traversal order. */
  function WorldVertices(group: seq<Object3D>): (vs: seq<Vec3>)
    requires MeshesWellFormed(group)
    ensures |vs| % 3 == 0
  {
    if |group| == 0 then []
    else
      var last := group[|group| - 1];
      WorldVertices(group[..|group| - 1]) +
        (if last.isMesh then TransformVertices(last.matrixWorld, NonIndexedVertices(last.geometry)) else [])
  }

  /** Expanding then transforming each mesh gives what transforming then expanding gives. */
  lemma {:induction false} WorldVerticesConcatenated(group: seq<Object3D>)
    requires MeshesWellFormed(group)
    ensures WorldVertices(group) == Concatenated(WorldGeometries(group))
  {
    if |group| > 0 {
      var n := |group| - 1;
      WorldVerticesConcatenated(group[..n]);
      var last := group[n];
      if last.isMesh {
        ApplyMatrix4CommutesWithNonIndexed(last.matrixWorld, last.geometry);
        var gs := WorldGeometries(group);
        assert gs[..|gs| - 1] == WorldGeometries(group[..n]);
      } else {
        assert WorldGeometries(group) == WorldGeometries(group[..n]);
      }
    }
  }

  lemma WorldVerticesStep(group: seq<Object3D>, k: nat)
    requires MeshesWellFormed(group) && k < |group|
    ensures MeshesWellFormed(group[..k]) && MeshesWellFormed(group[..k + 1])
    ensures group[k].isMesh ==>
      WorldVertices(group[..k + 1]) ==
        WorldVertices(group[..k]) + TransformVertices(group[k].matrixWorld, NonIndexedVertices(group[k].geometry))
    ensures !group[k].isMesh ==> WorldVertices(group[..k + 1]) == WorldVertices(group[..k])
  {
    assert group[..k + 1][..k] == group[..k];
  }

  /** The statistics `ObjModel` reports for a group whose `Box3.setFromObject` size is size. */
  function ObjStats(sqrt: real -> real, group: seq<Object3D>, size: Vec3): ModelInfo
    requires MeshesWellFormed(group)
  {
    FlattenNine(WorldVertices(group));
    Stats(sqrt, Flatten(WorldVertices(group)), size)
  }

  /** The traversal of `ObjModel`'s effect: one pair of running sums, and a count of positions, across all meshes. */
  method ObjSums(sqrt: real -> real, group: seq<Object3D>) returns (totalPositions: nat, volumeMm3: real, areaMm2: real)
    requires MeshesWellFormed(group)
    ensures totalPositions == 3 * |WorldVertices(group)|
    ensures volumeMm3 == SignedVolume(VertexTriangles(WorldVertices(group)))
    ensures areaMm2 == SurfaceArea(sqrt, VertexTriangles(WorldVertices(group)))
  {
    totalPositions := 0;
    volumeMm3 := 0.0;
    areaMm2 := 0.0;
    for k := 0 to |group|
      invariant totalPositions == 3 * |WorldVertices(group[..k])|
      invariant volumeMm3 == SignedVolume(VertexTriangles(WorldVertices(group[..k])))
      invariant areaMm2 == SurfaceArea(sqrt, VertexTriangles(WorldVertices(group[..k])))
    {
      var child := group[k];
      WorldVerticesStep(group, k);
      if child.isMesh {
        var geo := ToNonIndexed(child.geometry);
        geo := ApplyMatrix4(child.matrixWorld, geo);
        FlattenNine(geo.position);
        var arr := Flatten(geo.position);
        totalPositions := totalPositions + |arr|;
        volumeMm3, areaMm2 := Accumulate(sqrt, arr, volumeMm3, areaMm2);
        VertexTrianglesAppend(sqrt, WorldVertices(group[..k]), geo.position);
      }
    }
    assert group[..|group|] == group;
  }

  /** `ObjModel`'s effect: the sums of the traversal, reported once. */
  method ObjModelStats(sqrt: real -> real, group: seq<Object3D>, size: Vec3) returns (info: ModelInfo)
    requires MeshesWellFormed(group)
    ensures info == ObjStats(sqrt, group, size)
  {
    var totalPositions, volumeMm3, areaMm2 := ObjSums(sqrt, group);
    FlattenNine(WorldVertices(group));
    info := ModelInfo(
      Abs(volumeMm3) / 1000.0,
      areaMm2 / 100.0,
      (size.x * size.y * size.z) / 1000.0,
      totalPositions / 9,
      Vec3(size.x / 10.0, size.y / 10.0, size.z / 10.0));
  }

  /** `ObjModel`'s signed volume is the sum of the meshes' signed volumes: |·| is taken once. */
  lemma ObjSignedVolumeIsSumOfParts(group: seq<Object3D>)
    requires MeshesWellFormed(group)
    ensures |Flatten(WorldVertices(group))| % 9 == 0
    ensures SignedVolume(Triangles(Flatten(WorldVertices(group)))) == PartsSignedVolume(WorldGeometries(group))
  {
    WorldVerticesConcatenated(group);
    ConcatenatedSignedVolume(WorldGeometries(group));
  }

  /**
   * Two meshes of opposite winding cancel: their combined volume is zero,
   * however large each one is.
   */
  lemma OppositeWindingsCancel(sqrt: real -> real, group: seq<Object3D>, size: Vec3)
    requires MeshesWellFormed(group) && |WorldGeometries(group)| == 2
    requires var gs := WorldGeometries(group);
      Triangles(NonIndexed(gs[1])) == Reversed(Triangles(NonIndexed(gs[0])))
    ensures ObjStats(sqrt, group, size).volumeCm3 == 0.0
  {
    var gs := WorldGeometries(group);
    ObjSignedVolumeIsSumOfParts(group);
    ReversedWinding(sqrt, Triangles(NonIndexed(gs[0])));
    assert gs[..1][..0] == [];
    assert gs[..|gs| - 1] == gs[..1];
    assert PartsSignedVolume(gs) == PartsSignedVolume(gs[..1]) + SignedVolume(Triangles(NonIndexed(gs[1])));
    assert PartsSignedVolume(gs[..1]) == SignedVolume(Triangles(NonIndexed(gs[0])));
  }

  /**
   * When every mesh is of the first one's kind, `ObjModel` measures exactly
   * the buffer `ModelViewer3D` merges and expands.
   */
  lemma ObjViewersAgree(group: seq<Object3D>)
    requires MeshesWellFormed(group)
    requires var gs := WorldGeometries(group);
      |gs| > 0 && forall i :: 0 <= i < |gs| ==> Mergeable(gs[0], gs[i])
    ensures var gs := WorldGeometries(group);
      WellFormed(ModelViewer3D.FoldMerge(gs[0], gs[1..]))
    ensures var gs := WorldGeometries(group);
      NonIndexedVertices(ModelViewer3D.FoldMerge(gs[0], gs[1..])) == WorldVertices(group)
  {
    var gs := WorldGeometries(group);
    ModelViewer3D.UniformTail(gs);
    ModelViewer3D.FoldMergeUniform(gs[0], gs[1..]);
    ConcatenatedCons(gs[0], gs[1..]);
    assert [gs[0]] + gs[1..] == gs;
    WorldVerticesConcatenated(group);
  }

  /** `StlModel`'s statistics: the expanded geometry and its own bounding box. */
  method StlModelStats(sqrt: real -> real, geometry: BufferGeometry) returns (stats: ModelInfo)
    requires WellFormed(geometry)
    ensures stats == ModelViewer3D.ReportedStats(sqrt, geometry)
  {
    var geom := ToNonIndexed(geometry);
    var size := Size(BoundingBox(geom.position));
    var positions := NonIndexed(geom);
    stats := ComputeStats(sqrt, positions, size);
  }

  /** The notice a file change ends with. */
  datatype FileOutcome = Cleared | Unsupported | Showing(format: Format)

  /**
   * `R3FModelViewer`'s URL state. Object URLs are numbered in creation
   * order; live is the set created and not yet revoked, and pending is the
   * one the last effect run revokes in its cleanup.
   */
  class UrlState {
    var url: Option<nat>
    var ext: Option<Format>
    var pending: Option<nat>
    var live: set<nat>
    var created: nat

    /** At most one URL is live: the one the pending cleanup revokes, which is the one shown. */
    ghost predicate Valid()
      reads this
    {
      && live == (if pending.Some? then {pending.value} else {})
      && (pending.Some? ==> url == pending && ext.Some? && pending.value < created)
    }

    /** Between file changes at most one object URL is alive. */
    lemma AtMostOneLive()
      requires Valid()
      ensures |live| <= 1
    {
    }

    constructor ()
      ensures Valid() && url == None && ext == None && live == {}
    {
      url := None;
      ext := None;
      pending := None;
      live := {};
      created := 0;
    }

    /** Whether the canvas is shown: `url && ext`. */
    function Shown(): bool
      reads this
    {
      url.Some? && ext.Some?
    }

    /** The previous effect run's cleanup: revoke the URL it created. */
    method Cleanup()
      requires Valid()
      modifies this
      ensures Valid() && live == {} && pending == None
      ensures url == old(url) && ext == old(ext) && created == old(created)
    {
      if pending.Some? {
        live := live - {pending.value};
        pending := None;
      }
    }

    /** A new value of the file prop: the old effect's cleanup runs, then the effect. */
    method FileChanged(file: Option<string>) returns (outcome: FileOutcome)
      requires Valid()
      modifies this
      ensures Valid()
      ensures file.None? ==> outcome == Cleared && url == None && ext == None && live == {}
      ensures file.Some? && ViewerFormat(file.value).None? ==>
        outcome == Unsupported && url == old(url) && ext == old(ext) && live == {}
      ensures file.Some? && ViewerFormat(file.value).Some? ==>
        && outcome == Showing(ViewerFormat(file.value).value)
        && url == Some(old(created)) && ext == ViewerFormat(file.value)
        && live == {old(created)} && old(created) !in old(live)
    {
      Cleanup();
      if file.None? {
        if url.Some? {
          live := live - {url.value};
        }
        url := None;
        ext := None;
        return Cleared;
      }
      var extension := ViewerFormat(file.value);
      if extension.None? {
        return Unsupported;
      }
      var objectUrl := created;
      created := created + 1;
      live := live + {objectUrl};
      url := Some(objectUrl);
      ext := extension;
      pending := Some(objectUrl);
      outcome := Showing(extension.value);
    }

    /** Unmounting runs the last cleanup: no URL stays live. */
    method Unmount()
      requires Valid()
      modifies this
      ensures Valid() && live == {}
    {
      Cleanup();
    }
  }
}
