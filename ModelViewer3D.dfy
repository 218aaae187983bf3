/**
 * The viewer of `ModelViewer3D.tsx`. Its load effect resets the
 * "loaded" flag, removes the previous mesh, gates the extension, reads the
 * file, moves every OBJ mesh into world space, folds the meshes together
 * with `mergeGeometries`, expands the index, measures the result, reports it
 * and only then centres it.
 */
module ModelViewer3D {
  import opened Wrappers
  import opened Geometry
  import opened MeshStats
  import opened Three
  import opened FileNames

  /**
   * The left-to-right fold `geometry = mergeGeometries([geometry, g]) ||
   * geometry`: a geometry the merge refuses is dropped.
   */
  function FoldMerge(first: BufferGeometry, rest: seq<BufferGeometry>): BufferGeometry {
    if |rest| == 0 then first
    else
      var acc := FoldMerge(first, rest[..|rest| - 1]);
      MergeGeometries(acc, rest[|rest| - 1]).GetOr(acc)
  }

  /** The vertices of the geometries of rest that are mergeable with first, in order. */
  function KeptVertices(first: BufferGeometry, rest: seq<BufferGeometry>): (vs: seq<Vec3>)
    requires AllWellFormed(rest)
    ensures |vs| % 3 == 0
  {
    if |rest| == 0 then []
    else
      var last := rest[|rest| - 1];
      KeptVertices(first, rest[..|rest| - 1]) + (if Mergeable(first, last) then NonIndexedVertices(last) else [])
  }

  /** The fold keeps the first geometry's kind: indexed or not, and its attributes. */
  lemma {:induction false} FoldMergeKind(first: BufferGeometry, rest: seq<BufferGeometry>)
    requires WellFormed(first) && AllWellFormed(rest)
    ensures WellFormed(FoldMerge(first, rest))
    ensures Mergeable(FoldMerge(first, rest), first) && Mergeable(first, FoldMerge(first, rest))
  {
    if |rest| > 0 {
      var n := |rest| - 1;
      var init, last := rest[..n], rest[n];
      assert AllWellFormed(init) && WellFormed(last);
      var acc := FoldMerge(first, init);
      FoldMergeKind(first, init);
      if Mergeable(acc, last) {
        MergeGeometriesNonIndexed(acc, last);
      }
    }
  }

  /**
   * The fold's vertices are the first geometry's followed by those of
   * every later geometry of the same kind; the others are lost.
   */
  lemma {:induction false} FoldMergeKeeps(first: BufferGeometry, rest: seq<BufferGeometry>)
    requires WellFormed(first) && AllWellFormed(rest)
    ensures WellFormed(FoldMerge(first, rest))
    ensures NonIndexedVertices(FoldMerge(first, rest)) == NonIndexedVertices(first) + KeptVertices(first, rest)
  {
    FoldMergeKind(first, rest);
    if |rest| > 0 {
      var n := |rest| - 1;
      var init, last := rest[..n], rest[n];
      assert AllWellFormed(init) && WellFormed(last);
      var acc := FoldMerge(first, init);
      FoldMergeKeeps(first, init);
      FoldMergeKind(first, init);
      var kept := if Mergeable(first, last) then NonIndexedVertices(last) else [];
      assert KeptVertices(first, rest) == KeptVertices(first, init) + kept;
      if Mergeable(acc, last) {
        MergeGeometriesNonIndexed(acc, last);
        assert FoldMerge(first, rest) == MergeGeometries(acc, last).value;
      } else {
        assert FoldMerge(first, rest) == acc;
      }
    }
  }

  /** When every geometry is of the first one's kind, nothing is lost: the fold concatenates them all. */
  lemma {:induction false} KeptAllWhenMergeable(first: BufferGeometry, rest: seq<BufferGeometry>)
    requires AllWellFormed(rest)
    requires forall i :: 0 <= i < |rest| ==> Mergeable(first, rest[i])
    ensures KeptVertices(first, rest) == Concatenated(rest)
  {
    if |rest| > 0 {
      KeptAllWhenMergeable(first, rest[..|rest| - 1]);
    }
  }

  /** Merging geometries all of the first one's kind keeps every vertex, in order. */
  lemma FoldMergeUniform(first: BufferGeometry, rest: seq<BufferGeometry>)
    requires WellFormed(first) && AllWellFormed(rest)
    requires forall i :: 0 <= i < |rest| ==> Mergeable(first, rest[i])
    ensures WellFormed(FoldMerge(first, rest))
    ensures NonIndexedVertices(FoldMerge(first, rest)) == NonIndexedVertices(first) + Concatenated(rest)
  {
    FoldMergeKeeps(first, rest);
    KeptAllWhenMergeable(first, rest);
  }

  /** The geometries after the first of a uniform list are well formed and of the first one's kind. */
  lemma UniformTail(gs: seq<BufferGeometry>)
    requires |gs| > 0 && AllWellFormed(gs)
    requires forall i :: 0 <= i < |gs| ==> Mergeable(gs[0], gs[i])
    ensures WellFormed(gs[0]) && AllWellFormed(gs[1..])
    ensures forall i :: 0 <= i < |gs| - 1 ==> Mergeable(gs[0], gs[1..][i])
  {
    var rest := gs[1..];
    forall i | 0 <= i < |rest| ensures WellFormed(rest[i]) && Mergeable(gs[0], rest[i]) {
      assert rest[i] == gs[i + 1];
    }
  }

  /** The merge loop of the OBJ branch. */
  method MergeAll(geometries: seq<BufferGeometry>) returns (geometry: BufferGeometry)
    requires |geometries| > 0
    ensures geometry == FoldMerge(geometries[0], geometries[1..])
  {
    geometry := geometries[0];
    if |geometries| > 1 {
      for i := 1 to |geometries|
        invariant geometry == FoldMerge(geometries[0], geometries[1..i])
      {
        assert geometries[1..i + 1][..i - 1] == geometries[1..i];
        geometry := MergeGeometries(geometry, geometries[i]).GetOr(geometry);
      }
    }
    assert geometries[1..|geometries|] == geometries[1..];
  }

  /** The geometry the statistics are taken from: the loaded one, expanded if it has an index. */
  function Measured(g: BufferGeometry): (r: BufferGeometry)
    requires WellFormed(g)
    ensures WellFormed(r) && r.index.None?
  {
    ToNonIndexed(g)
  }

  /** What is reported for a loaded geometry: the statistics of its expansion, box included. */
  function ReportedStats(sqrt: real -> real, g: BufferGeometry): ModelInfo
    requires WellFormed(g)
  {
    var m := Measured(g);
    Stats(sqrt, NonIndexed(m), Size(BoundingBox(m.position)))
  }

  /** The geometry built from the loader's output; None when parsing threw. */
  datatype Source = ParseError | NoMeshes | Geometry(geometry: BufferGeometry)

  function SourceOf(format: Format, parsed: Parsed): (s: Source)
    requires ParsedWellFormed(parsed)
    ensures s.Geometry? ==> WellFormed(s.geometry)
  {
    match format
    case Stl => if parsed.stl.None? then ParseError else Geometry(parsed.stl.value)
    case Obj =>
      if parsed.obj.None? then ParseError
      else
        var gs := WorldGeometries(parsed.obj.value);
        if |gs| == 0 then NoMeshes
        else
          FoldMergeKeeps(gs[0], gs[1..]);
          Geometry(FoldMerge(gs[0], gs[1..]))
  }

  /** The try block up to the merged geometry: the loader's output, each OBJ mesh moved by its world matrix and merged in order. */
  method BuildSource(format: Format, parsed: Parsed) returns (source: Source)
    requires ParsedWellFormed(parsed)
    ensures source == SourceOf(format, parsed)
  {
    match format {
      case Stl =>
        if parsed.stl.None? {
          return ParseError;
        }
        source := Geometry(parsed.stl.value);
      case Obj =>
        if parsed.obj.None? {
          return ParseError;
        }
        var geometries := WorldGeometries(parsed.obj.value);
        if |geometries| == 0 {
          return NoMeshes;
        }
        FoldMergeKeeps(geometries[0], geometries[1..]);
        var merged := MergeAll(geometries);
        source := Geometry(merged);
    }
  }

  /** The expansion, the statistics loop and `center()`: what is emitted, and the mesh then shown. */
  method Measure(sqrt: real -> real, geometry: BufferGeometry) returns (info: ModelInfo, centred: BufferGeometry)
    requires WellFormed(geometry)
    ensures info == ReportedStats(sqrt, geometry)
    ensures centred == CenterGeometry(Measured(geometry))
  {
    var expanded := ToNonIndexed(geometry);
    var size := Size(BoundingBox(expanded.position));
    info := ComputeStats(sqrt, NonIndexed(expanded), size);
    centred := CenterGeometry(expanded);
  }

  /** The notice a load ends with; a file that cannot be read ends silently. */
  datatype LoadOutcome =
    | Unsupported            // "Only STL and OBJ files are supported"
    | NotRead
    | NoGeometry             // "No valid geometry found in OBJ file"
    | LoadFailed             // "Failed to load model"
    | Loaded(info: ModelInfo) // "Model loaded successfully"

  /** How a load that got past the gate and the reader ends, for the geometry source built from the loader's output. */
  ghost predicate Finished(sqrt: real -> real, source: Source, outcome: LoadOutcome, shown: Option<BufferGeometry>) {
    match source
    case ParseError => outcome == LoadFailed
    case NoMeshes => outcome == NoGeometry
    case Geometry(g) => WellFormed(g) && outcome == Loaded(ReportedStats(sqrt, g)) && shown == Some(CenterGeometry(Measured(g)))
  }

  /**
   * The body of the load-model effect after the old mesh is removed: the
   * gate, the reader, the try block and the measurement; shown is the
   * mesh it adds to the scene.
   */
  method RunLoad(sqrt: real -> real, name: string, read: bool, parsed: Parsed) returns (outcome: LoadOutcome, shown: Option<BufferGeometry>)
    requires ParsedWellFormed(parsed)
    ensures ViewerFormat(name).None? ==> outcome == Unsupported
    ensures ViewerFormat(name).Some? && !read ==> outcome == NotRead
    ensures ViewerFormat(name).Some? && read ==> Finished(sqrt, SourceOf(ViewerFormat(name).value, parsed), outcome, shown)
    ensures shown.Some? <==> outcome.Loaded?
  {
    shown := None;
    var extension := ViewerFormat(name);
    if extension.None? {
      return Unsupported, None;
    }
    if !read {
      return NotRead, None;
    }
    var source := BuildSource(extension.value, parsed);
    if source.ParseError? {
      return LoadFailed, None;
    }
    if source.NoMeshes? {
      return NoGeometry, None;
    }
    var info, centred := Measure(sqrt, source.geometry);
    outcome, shown := Loaded(info), Some(centred);
  }

  class Viewer3D {
    /** The geometry of the mesh in the scene, if any. */
    var mesh: Option<BufferGeometry>
    /** `modelLoadedRef`: whether the current load has shown its success notice. */
    var modelLoaded: bool
    /** Every value passed to `onModelParsed`, oldest first. */
    var emitted: seq<ModelInfo>
    /** How many "Model loaded successfully" notices were shown. */
    var successNotices: nat

    constructor ()
      ensures mesh == None && !modelLoaded && emitted == [] && successNotices == 0
    {
      mesh := None;
      modelLoaded := false;
      emitted := [];
      successNotices := 0;
    }

    /**
     * The load-model effect for a file called name; read says whether the
     * reader produced data. The previous mesh goes first, whatever follows;
     * the statistics are emitted before the mesh is centred and shown.
     */
    method LoadModel(sqrt: real -> real, name: string, read: bool, parsed: Parsed) returns (outcome: LoadOutcome)
      requires ParsedWellFormed(parsed)
      modifies this
      ensures ViewerFormat(name).None? ==> outcome == Unsupported
      ensures ViewerFormat(name).Some? && !read ==> outcome == NotRead
      ensures ViewerFormat(name).Some? && read ==> Finished(sqrt, SourceOf(ViewerFormat(name).value, parsed), outcome, mesh)
      ensures emitted == old(emitted) + (if outcome.Loaded? then [outcome.info] else [])
      ensures successNotices == old(successNotices) + (if outcome.Loaded? then 1 else 0)
      ensures mesh.Some? <==> outcome.Loaded?
      ensures modelLoaded <==> outcome.Loaded?
    {
      modelLoaded := false;
      mesh := None;
      var shown;
      outcome, shown := RunLoad(sqrt, name, read, parsed);
      Show(outcome, shown);
    }

    /**
     * The end of a load that cleared the scene: a loaded model's
     * statistics are emitted, its mesh is added and the first success of
     * the load is announced.
     */
    method Show(outcome: LoadOutcome, shown: Option<BufferGeometry>)
      requires shown.Some? <==> outcome.Loaded?
      requires !modelLoaded && mesh == None
      modifies this
      ensures emitted == old(emitted) + (if outcome.Loaded? then [outcome.info] else [])
      ensures successNotices == old(successNotices) + (if outcome.Loaded? then 1 else 0)
      ensures mesh == shown
      ensures modelLoaded <==> outcome.Loaded?
    {
      if outcome.Loaded? {
        emitted := emitted + [outcome.info];
        mesh := shown;
        if !modelLoaded {
          successNotices := successNotices + 1;
          modelLoaded := true;
        }
      }
    }
  }
}
