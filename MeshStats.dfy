/**
 * The statistics loop shared by the three viewers: a flat, non-indexed
 * position buffer (nine numbers per triangle, in millimetres) is turned into
 * a volume in cm³, a surface area in cm², a polygon count and the bounding
 * box figures. `Stats` is the definition; `ComputeStats` is the loop with its
 * two running sums, proved to compute it.
 */
module MeshStats {
  import opened Geometry

  /** A flat, non-indexed position buffer: triangle k occupies p[9k..9k+9]. */
  type Positions = p: seq<real> | |p| % 9 == 0

  function TriangleAt(p: seq<real>, i: nat): Triangle
    requires i + 9 <= |p|
  {
    Triangle(Vec3(p[i], p[i + 1], p[i + 2]), Vec3(p[i + 3], p[i + 4], p[i + 5]), Vec3(p[i + 6], p[i + 7], p[i + 8]))
  }

  /** The triangles of a buffer, in buffer order. */
  function Triangles(p: Positions): (ts: seq<Triangle>)
    ensures |ts| * 9 == |p|
  {
    seq(|p| / 9, k requires 0 <= k < |p| / 9 => TriangleAt(p, 9 * k))
  }

  function TriangleCoords(t: Triangle): seq<real> {
    [t.a.x, t.a.y, t.a.z, t.b.x, t.b.y, t.b.z, t.c.x, t.c.y, t.c.z]
  }

  /** The buffer that stores the given triangles one after another. */
  function Encode(ts: seq<Triangle>): (p: Positions)
    ensures |p| == 9 * |ts|
  {
    if |ts| == 0 then [] else Encode(ts[..|ts| - 1]) + TriangleCoords(ts[|ts| - 1])
  }

  lemma {:induction false} EncodeAt(ts: seq<Triangle>, k: nat)
    requires k < |ts|
    ensures TriangleAt(Encode(ts), 9 * k) == ts[k]
  {
    var n := |ts| - 1;
    var p := Encode(ts[..n]);
    assert Encode(ts) == p + TriangleCoords(ts[n]);
    assert |p| == 9 * n;
    if k < n {
      EncodeAt(ts[..n], k);
      assert 9 * k + 9 <= 9 * n;
      TriangleAtPrefix(p, TriangleCoords(ts[n]), 9 * k);
    } else {
      TriangleAtCoords(p, ts[n]);
    }
  }

  /** Appending to a buffer leaves the triangles already in it. */
  lemma TriangleAtPrefix(p: seq<real>, q: seq<real>, i: nat)
    requires i + 9 <= |p|
    ensures TriangleAt(p + q, i) == TriangleAt(p, i)
  {
  }

  /** The coordinates of a triangle appended to a buffer read back as that triangle. */
  lemma TriangleAtCoords(p: seq<real>, t: Triangle)
    ensures TriangleAt(p + TriangleCoords(t), |p|) == t
  {
  }

  /** Decoding an encoded triangle list gives it back. */
  lemma DecodeEncode(ts: seq<Triangle>)
    ensures Triangles(Encode(ts)) == ts
  {
    forall k | 0 <= k < |ts| ensures Triangles(Encode(ts))[k] == ts[k] {
      EncodeAt(ts, k);
    }
  }

  /** Encoding the triangles of a buffer gives the buffer back. */
  lemma EncodeDecode(p: Positions)
    ensures Encode(Triangles(p)) == p
  {
    var ts := Triangles(p);
    var q := Encode(ts);
    forall j | 0 <= j < |p| ensures q[j] == p[j] {
      var k := j / 9;
      EncodeAt(ts, k);
      assert TriangleAt(q, 9 * k) == TriangleAt(p, 9 * k);
      assert 9 * k <= j < 9 * k + 9;
    }
  }

  lemma TrianglesAppend(p: Positions, q: Positions)
    ensures Triangles(p + q) == Triangles(p) + Triangles(q)
  {
    var l, r := Triangles(p + q), Triangles(p) + Triangles(q);
    forall k | 0 <= k < |l| ensures l[k] == r[k] {
      if k < |p| / 9 {
        assert p[9 * k..9 * k + 9] == (p + q)[9 * k..9 * k + 9];
      } else {
        var k' := k - |p| / 9;
        assert q[9 * k'..9 * k' + 9] == (p + q)[9 * k..9 * k + 9];
      }
    }
  }

  /** Σ f over the triangles, accumulated front to back like the viewers' loops. */
  function Sum(f: Triangle -> real, ts: seq<Triangle>): real {
    if |ts| == 0 then 0.0 else Sum(f, ts[..|ts| - 1]) + f(ts[|ts| - 1])
  }

  /** Σ of the signed tetrahedron volumes, in mm³. */
  function SignedVolume(ts: seq<Triangle>): real {
    Sum(SignedVol, ts)
  }

  /** Σ of the triangle areas, in mm². */
  function SurfaceArea(sqrt: real -> real, ts: seq<Triangle>): real {
    Sum(t => TriArea(sqrt, t), ts)
  }

  lemma {:induction false} SumAppend(f: Triangle -> real, a: seq<Triangle>, b: seq<Triangle>)
    ensures Sum(f, a + b) == Sum(f, a) + Sum(f, b)
  {
    if |b| > 0 {
      var n := |b| - 1;
      assert (a + b)[..|a + b| - 1] == a + b[..n];
      SumAppend(f, a, b[..n]);
    } else {
      assert a + b == a;
    }
  }

  /** A sum does not depend on the order of the triangles. */
  lemma {:induction false} SumPermutation(f: Triangle -> real, a: seq<Triangle>, b: seq<Triangle>)
    requires multiset(a) == multiset(b)
    ensures Sum(f, a) == Sum(f, b)
    decreases |a|
  {
    if |a| == 0 {
      assert |b| == |multiset(b)| == 0;
    } else {
      var n := |a| - 1;
      var x := a[n];
      assert a == a[..n] + [x];
      assert x in multiset(b);
      var j :| 0 <= j < |b| && b[j] == x;
      var rest := b[..j] + b[j + 1..];
      assert b == b[..j] + [x] + b[j + 1..];
      assert multiset(a) == multiset(a[..n]) + multiset{x};
      assert multiset(b) == multiset(b[..j]) + multiset{x} + multiset(b[j + 1..]);
      assert multiset(rest) == multiset(b[..j]) + multiset(b[j + 1..]);
      assert multiset(a[..n]) == multiset(a) - multiset{x};
      assert multiset(rest) == multiset(b) - multiset{x};
      SumPermutation(f, a[..n], rest);
      SumAppend(f, b[..j] + [x], b[j + 1..]);
      SumAppend(f, b[..j], [x]);
      SumAppend(f, b[..j], b[j + 1..]);
      assert Sum(f, [x]) == f(x) by { assert [x][..0] == []; }
    }
  }

  lemma {:induction false} SumNonNegative(f: Triangle -> real, ts: seq<Triangle>)
    requires forall t :: t in ts ==> f(t) >= 0.0
    ensures Sum(f, ts) >= 0.0
  {
    if |ts| > 0 {
      var n := |ts| - 1;
      assert forall t :: t in ts[..n] ==> t in ts;
      SumNonNegative(f, ts[..n]);
    }
  }

  /** The surface area is a sum of non-negative terms. */
  lemma SurfaceAreaNonNegative(sqrt: real -> real, ts: seq<Triangle>)
    requires IsSqrt(sqrt)
    ensures SurfaceArea(sqrt, ts) >= 0.0
  {
    forall t | t in ts ensures TriArea(sqrt, t) >= 0.0 {
      TriAreaNonNegative(sqrt, t);
    }
    SumNonNegative(t => TriArea(sqrt, t), ts);
  }

  /** Reordering the triangles changes neither the signed volume nor the area. */
  lemma ReorderInvariant(sqrt: real -> real, a: seq<Triangle>, b: seq<Triangle>)
    requires multiset(a) == multiset(b)
    ensures SignedVolume(a) == SignedVolume(b)
    ensures SurfaceArea(sqrt, a) == SurfaceArea(sqrt, b)
  {
    SumPermutation(SignedVol, a, b);
    SumPermutation(t => TriArea(sqrt, t), a, b);
  }

  /** Both sums of a concatenation are the sums of the parts. */
  lemma MeasuresAppend(sqrt: real -> real, a: seq<Triangle>, b: seq<Triangle>)
    ensures SignedVolume(a + b) == SignedVolume(a) + SignedVolume(b)
    ensures SurfaceArea(sqrt, a + b) == SurfaceArea(sqrt, a) + SurfaceArea(sqrt, b)
  {
    SumAppend(SignedVol, a, b);
    SumAppend(t => TriArea(sqrt, t), a, b);
  }

  function Reversed(ts: seq<Triangle>): (rs: seq<Triangle>)
    ensures |rs| == |ts|
  {
    seq(|ts|, k requires 0 <= k < |ts| => SwapVertices(ts[k], SwapBC))
  }

  /** Reversing the winding of every triangle negates the signed volume and keeps the area. */
  lemma {:induction false} ReversedWinding(sqrt: real -> real, ts: seq<Triangle>)
    ensures SignedVolume(Reversed(ts)) == -SignedVolume(ts)
    ensures SurfaceArea(sqrt, Reversed(ts)) == SurfaceArea(sqrt, ts)
  {
    if |ts| > 0 {
      var n := |ts| - 1;
      assert Reversed(ts)[..n] == Reversed(ts[..n]);
      ReversedWinding(sqrt, ts[..n]);
      SwapNegatesSignedVol(ts[n], SwapBC);
      SwapKeepsTriArea(sqrt, ts[n], SwapBC);
    }
  }

  function TranslateAll(ts: seq<Triangle>, d: Vec3): (rs: seq<Triangle>)
    ensures |rs| == |ts|
  {
    seq(|ts|, k requires 0 <= k < |ts| => TranslateTriangle(ts[k], d))
  }

  /** Σ (B−A)×(C−A): twice the vector area of the surface; zero for a closed surface. */
  function VectorArea(ts: seq<Triangle>): Vec3 {
    if |ts| == 0 then Origin else Add(VectorArea(ts[..|ts| - 1]), EdgeCross(ts[|ts| - 1]))
  }

  /** Translating a mesh keeps its surface area. */
  lemma {:induction false} TranslateKeepsArea(sqrt: real -> real, ts: seq<Triangle>, d: Vec3)
    ensures SurfaceArea(sqrt, TranslateAll(ts, d)) == SurfaceArea(sqrt, ts)
  {
    if |ts| > 0 {
      var n := |ts| - 1;
      assert TranslateAll(ts, d)[..n] == TranslateAll(ts[..n], d);
      TranslateKeepsArea(sqrt, ts[..n], d);
      TranslateKeepsTriArea(sqrt, ts[n], d);
    }
  }

  /**
   * Translating a mesh by d shifts its signed volume by d·VectorArea/6: the
   * reported volume depends on the origin unless the vector area is
   * perpendicular to d, as it is (being zero) for a closed surface.
   */
  lemma {:induction false} TranslateSignedVolume(ts: seq<Triangle>, d: Vec3)
    ensures SignedVolume(TranslateAll(ts, d)) == SignedVolume(ts) + Dot(d, VectorArea(ts)) / 6.0
  {
    if |ts| > 0 {
      var n := |ts| - 1;
      assert TranslateAll(ts, d)[..n] == TranslateAll(ts[..n], d);
      TranslateSignedVolume(ts[..n], d);
      TranslateSignedVol(ts[n], d);
      DotAddRight(d, VectorArea(ts[..n]), EdgeCross(ts[n]));
    }
  }

  /** For a closed surface (zero vector area) the signed volume is origin-invariant. */
  lemma ClosedVolumeOriginInvariant(ts: seq<Triangle>, d: Vec3)
    requires VectorArea(ts) == Origin
    ensures SignedVolume(TranslateAll(ts, d)) == SignedVolume(ts)
  {
    TranslateSignedVolume(ts, d);
  }

  function Abs(x: real): real {
    if x < 0.0 then -x else x
  }

  /** The record the viewers hand to `onModelParsed`. */
  datatype ModelInfo = ModelInfo(
    volumeCm3: real,
    surfaceAreaCm2: real,
    bboxVolumeCm3: real,
    polygons: nat,
    dimensionsCm: Vec3)

  /**
   * The statistics of a buffer, for a bounding-box size given in mm:
   * |Σ signed volume|/1000 cm³, Σ area/100 cm², one polygon per nine numbers,
   * the box extents /10 cm and their product /1000 cm³.
   */
  function Stats(sqrt: real -> real, positions: Positions, bboxSize: Vec3): (info: ModelInfo)
    ensures info.volumeCm3 >= 0.0
    ensures info.volumeCm3 * 1000.0 == Abs(SignedVolume(Triangles(positions)))
    ensures info.surfaceAreaCm2 * 100.0 == SurfaceArea(sqrt, Triangles(positions))
    ensures info.polygons * 9 == |positions|
    ensures Scale(10.0, info.dimensionsCm) == bboxSize
    ensures info.bboxVolumeCm3 * 1000.0 == bboxSize.x * bboxSize.y * bboxSize.z
  {
    var ts := Triangles(positions);
    ModelInfo(
      Abs(SignedVolume(ts)) / 1000.0,
      SurfaceArea(sqrt, ts) / 100.0,
      (bboxSize.x * bboxSize.y * bboxSize.z) / 1000.0,
      |positions| / 9,
      Vec3(bboxSize.x / 10.0, bboxSize.y / 10.0, bboxSize.z / 10.0))
  }

  /** With a real square root and a non-negative box, every statistic is non-negative. */
  lemma StatsNonNegative(sqrt: real -> real, positions: Positions, bboxSize: Vec3)
    requires IsSqrt(sqrt) && NonNegative(bboxSize)
    ensures var info := Stats(sqrt, positions, bboxSize);
      info.volumeCm3 >= 0.0 && info.surfaceAreaCm2 >= 0.0 && info.bboxVolumeCm3 >= 0.0 &&
      NonNegative(info.dimensionsCm)
  {
    SurfaceAreaNonNegative(sqrt, Triangles(positions));
    var s := bboxSize;
    assert s.x * s.y >= 0.0;
    assert (s.x * s.y) * s.z >= 0.0;
  }

  /** An empty buffer measures zero volume, zero area and zero polygons. */
  lemma EmptyStats(sqrt: real -> real, bboxSize: Vec3)
    ensures var info := Stats(sqrt, [], bboxSize);
      info.volumeCm3 == 0.0 && info.surfaceAreaCm2 == 0.0 && info.polygons == 0
  {
  }

  lemma SingleTriangle(sqrt: real -> real, t: Triangle)
    ensures SignedVolume([t]) == SignedVol(t)
    ensures SurfaceArea(sqrt, [t]) == TriArea(sqrt, t)
  {
    assert [t][..0] == [];
    assert Sum(SignedVol, [t]) == Sum(SignedVol, []) + SignedVol(t);
    assert Sum(u => TriArea(sqrt, u), [t]) == Sum(u => TriArea(sqrt, u), []) + TriArea(sqrt, t);
  }

  /** The statistics depend on the buffer only through the two sums and its length. */
  lemma StatsDependOnSums(sqrt: real -> real, p: Positions, q: Positions, bboxSize: Vec3)
    requires |p| == |q|
    requires SignedVolume(Triangles(p)) == SignedVolume(Triangles(q))
    requires SurfaceArea(sqrt, Triangles(p)) == SurfaceArea(sqrt, Triangles(q))
    ensures Stats(sqrt, p, bboxSize) == Stats(sqrt, q, bboxSize)
  {
  }

  /** Reordering whole triangles of the buffer leaves every statistic unchanged. */
  lemma StatsReorderInvariant(sqrt: real -> real, p: Positions, q: Positions, bboxSize: Vec3)
    requires multiset(Triangles(p)) == multiset(Triangles(q))
    ensures Stats(sqrt, p, bboxSize) == Stats(sqrt, q, bboxSize)
  {
    ReorderInvariant(sqrt, Triangles(p), Triangles(q));
    assert |Triangles(p)| == |Triangles(q)| by {
      assert |multiset(Triangles(p))| == |multiset(Triangles(q))|;
    }
  }

  /** The body of the viewers' stepping loop: the area and signed-volume terms of the triangle at i. */
  method TriangleTerms(sqrt: real -> real, positions: seq<real>, i: nat) returns (triArea: real, signedVol: real)
    requires i + 9 <= |positions|
    ensures triArea == TriArea(sqrt, TriangleAt(positions, i))
    ensures signedVol == SignedVol(TriangleAt(positions, i))
  {
    var ax, ay, az := positions[i], positions[i + 1], positions[i + 2];
    // `by` is a Dafny keyword, so the source's `by` is spelt `bY`
    var bx, bY, bz := positions[i + 3], positions[i + 4], positions[i + 5];
    var cx, cy, cz := positions[i + 6], positions[i + 7], positions[i + 8];

    var abx, aby, abz := bx - ax, bY - ay, bz - az;
    var acx, acy, acz := cx - ax, cy - ay, cz - az;
    var crossX := aby * acz - abz * acy;
    var crossY := abz * acx - abx * acz;
    var crossZ := abx * acy - aby * acx;
    triArea := sqrt(crossX * crossX + crossY * crossY + crossZ * crossZ) * 0.5;

    signedVol := (ax * (bY * cz - bz * cy) + ay * (bz * cx - bx * cz) + az * (bx * cy - bY * cx)) / 6.0;

    ghost var t := TriangleAt(positions, i);
    assert EdgeCross(t) == Vec3(crossX, crossY, crossZ);
    assert NormSq(EdgeCross(t)) == crossX * crossX + crossY * crossY + crossZ * crossZ;
  }

  /**
   * The stepping loop of the viewers: nine numbers per step, each triangle's
   * area and signed volume added to the running sums it starts from.
   */
  method Accumulate(sqrt: real -> real, positions: Positions, volumeMm3In: real, areaMm2In: real)
    returns (volumeMm3: real, areaMm2: real)
    ensures volumeMm3 == volumeMm3In + SignedVolume(Triangles(positions))
    ensures areaMm2 == areaMm2In + SurfaceArea(sqrt, Triangles(positions))
  {
    volumeMm3 := volumeMm3In;
    areaMm2 := areaMm2In;
    ghost var ts := Triangles(positions);
    var i := 0;
    while i < |positions|
      invariant i % 9 == 0 && i <= |positions|
      invariant volumeMm3 == volumeMm3In + SignedVolume(ts[..i / 9])
      invariant areaMm2 == areaMm2In + SurfaceArea(sqrt, ts[..i / 9])
    {
      var triArea, signedVol := TriangleTerms(sqrt, positions, i);
      areaMm2 := areaMm2 + triArea;
      volumeMm3 := volumeMm3 + signedVol;
      ghost var k := i / 9;
      assert 9 * k == i && (i + 9) / 9 == k + 1;
      assert ts[k] == TriangleAt(positions, i);
      assert ts[..k + 1][..k] == ts[..k];
      assert SignedVolume(ts[..k + 1]) == SignedVolume(ts[..k]) + signedVol;
      assert SurfaceArea(sqrt, ts[..k + 1]) == SurfaceArea(sqrt, ts[..k]) + triArea;
      i := i + 9;
    }
    assert ts[..i / 9] == ts;
  }

  /** `computeStats`: the stepping loop from zero, then the record. */
  method ComputeStats(sqrt: real -> real, positions: Positions, bboxSize: Vec3) returns (info: ModelInfo)
    ensures info == Stats(sqrt, positions, bboxSize)
  {
    var volumeMm3, areaMm2 := Accumulate(sqrt, positions, 0.0, 0.0);
    info := ModelInfo(
      Abs(volumeMm3) / 1000.0,
      areaMm2 / 100.0,
      (bboxSize.x * bboxSize.y * bboxSize.z) / 1000.0,
      |positions| / 9,
      Vec3(bboxSize.x / 10.0, bboxSize.y / 10.0, bboxSize.z / 10.0));
  }
}
