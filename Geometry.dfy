/**
 * Points, triangles and the two per-triangle quantities the viewers sum:
 * the area term ½‖(B−A)×(C−A)‖ and the signed volume A·(B×C)/6 of the
 * tetrahedron the triangle spans with the origin.
 *
 * Coordinates are `real`: float32 storage and float64 rounding are not
 * modelled. The host's `Math.sqrt` is a parameter; `IsSqrt` says what the
 * lemmas assume of it.
 */
module Geometry {

  datatype Vec3 = Vec3(x: real, y: real, z: real)

  const Origin := Vec3(0.0, 0.0, 0.0)

  function Add(u: Vec3, v: Vec3): Vec3 {
    Vec3(u.x + v.x, u.y + v.y, u.z + v.z)
  }

  function Sub(u: Vec3, v: Vec3): Vec3 {
    Vec3(u.x - v.x, u.y - v.y, u.z - v.z)
  }

  function Neg(v: Vec3): Vec3 {
    Vec3(-v.x, -v.y, -v.z)
  }

  function Scale(k: real, v: Vec3): Vec3 {
    Vec3(k * v.x, k * v.y, k * v.z)
  }

  function Cross(u: Vec3, v: Vec3): Vec3 {
    Vec3(u.y * v.z - u.z * v.y, u.z * v.x - u.x * v.z, u.x * v.y - u.y * v.x)
  }

  function Dot(u: Vec3, v: Vec3): real {
    u.x * v.x + u.y * v.y + u.z * v.z
  }

  function NormSq(v: Vec3): real {
    v.x * v.x + v.y * v.y + v.z * v.z
  }

  /** Every coordinate is at least zero (a bounding-box size, say). */
  predicate NonNegative(v: Vec3) {
    0.0 <= v.x && 0.0 <= v.y && 0.0 <= v.z
  }

  /** A triangle as its three vertices, in winding order. */
  datatype Triangle = Triangle(a: Vec3, b: Vec3, c: Vec3)

  function Square(r: real): real {
    r * r
  }

  /**
   * `sqrt` is the square root: it is non-negative on non-negative arguments and
   * undoes squaring there (every x ≥ 0 is the square of some r ≥ 0).
   */
  ghost predicate IsSqrt(sqrt: real -> real) {
    && (forall x :: 0.0 <= x ==> 0.0 <= sqrt(x))
    && (forall r :: 0.0 <= r ==> sqrt(Square(r)) == r)
  }

  /** The cross product (B−A)×(C−A): twice the triangle's vector area. */
  function EdgeCross(t: Triangle): Vec3 {
    Cross(Sub(t.b, t.a), Sub(t.c, t.a))
  }

  /** The per-triangle area term of the viewers' loop. */
  function TriArea(sqrt: real -> real, t: Triangle): real {
    sqrt(NormSq(EdgeCross(t))) * 0.5
  }

  /** The per-triangle signed volume term of the viewers' loop, written as the source writes it. */
  function SignedVol(t: Triangle): real {
    var a, b, c := t.a, t.b, t.c;
    (a.x * (b.y * c.z - b.z * c.y) + a.y * (b.z * c.x - b.x * c.z) + a.z * (b.x * c.y - b.y * c.x)) / 6.0
  }

  function TranslateTriangle(t: Triangle, d: Vec3): Triangle {
    Triangle(Add(t.a, d), Add(t.b, d), Add(t.c, d))
  }

  /** The three ways of exchanging two vertices of a triangle. */
  datatype Swap = SwapAB | SwapBC | SwapCA

  function SwapVertices(t: Triangle, s: Swap): Triangle {
    match s
    case SwapAB => Triangle(t.b, t.a, t.c)
    case SwapBC => Triangle(t.a, t.c, t.b)
    case SwapCA => Triangle(t.c, t.b, t.a)
  }

  lemma NormSqNonNegative(v: Vec3)
    ensures NormSq(v) >= 0.0
  {
    assert v.x * v.x >= 0.0 && v.y * v.y >= 0.0 && v.z * v.z >= 0.0;
  }

  /** The square root of zero is zero. */
  lemma SqrtZero(sqrt: real -> real)
    requires IsSqrt(sqrt)
    ensures sqrt(0.0) == 0.0
  {
    assert Square(0.0) == 0.0;
  }

  /** Every area term is non-negative, whatever the winding. */
  lemma TriAreaNonNegative(sqrt: real -> real, t: Triangle)
    requires IsSqrt(sqrt)
    ensures TriArea(sqrt, t) >= 0.0
  {
    NormSqNonNegative(EdgeCross(t));
  }

  /** A degenerate triangle (zero edge cross product: coincident or collinear vertices) has area term zero. */
  lemma DegenerateTriArea(sqrt: real -> real, t: Triangle)
    requires IsSqrt(sqrt) && EdgeCross(t) == Origin
    ensures TriArea(sqrt, t) == 0.0
  {
    SqrtZero(sqrt);
  }

  /** The signed volume term is the triple product A·(B×C) over six. */
  lemma SignedVolIsTripleProduct(t: Triangle)
    ensures SignedVol(t) * 6.0 == Dot(t.a, Cross(t.b, t.c))
  {
  }

  /** Exchanging two vertices reverses the winding: the signed volume term changes sign. */
  lemma SwapNegatesSignedVol(t: Triangle, s: Swap)
    ensures SignedVol(SwapVertices(t, s)) == -SignedVol(t)
  {
  }

  /** Exchanging two vertices negates the edge cross product. */
  lemma SwapNegatesEdgeCross(t: Triangle, s: Swap)
    ensures EdgeCross(SwapVertices(t, s)) == Neg(EdgeCross(t))
  {
  }

  /** Exchanging two vertices leaves the area term unchanged. */
  lemma SwapKeepsTriArea(sqrt: real -> real, t: Triangle, s: Swap)
    ensures TriArea(sqrt, SwapVertices(t, s)) == TriArea(sqrt, t)
  {
    SwapNegatesEdgeCross(t, s);
    var n := EdgeCross(t);
    assert NormSq(Neg(n)) == NormSq(n);
  }

  /** Only edge differences enter the cross product, so a translation keeps the area term. */
  lemma TranslateKeepsTriArea(sqrt: real -> real, t: Triangle, d: Vec3)
    ensures EdgeCross(TranslateTriangle(t, d)) == EdgeCross(t)
    ensures TriArea(sqrt, TranslateTriangle(t, d)) == TriArea(sqrt, t)
  {
  }

  lemma CrossAddLeft(u: Vec3, v: Vec3, w: Vec3)
    ensures Cross(Add(u, v), w) == Add(Cross(u, w), Cross(v, w))
  {
  }

  lemma CrossAddRight(u: Vec3, v: Vec3, w: Vec3)
    ensures Cross(u, Add(v, w)) == Add(Cross(u, v), Cross(u, w))
  {
  }

  lemma DotAddLeft(u: Vec3, v: Vec3, w: Vec3)
    ensures Dot(Add(u, v), w) == Dot(u, w) + Dot(v, w)
  {
  }

  lemma DotAddRight(u: Vec3, v: Vec3, w: Vec3)
    ensures Dot(u, Add(v, w)) == Dot(u, v) + Dot(u, w)
  {
  }

  /** The triple product is invariant under cyclic rotation of its arguments. */
  lemma TripleRotate(a: Vec3, b: Vec3, c: Vec3)
    ensures Dot(a, Cross(b, c)) == Dot(b, Cross(c, a))
  {
    var m := a.x * b.y * c.z - a.x * b.z * c.y + a.y * b.z * c.x - a.y * b.x * c.z + a.z * b.x * c.y - a.z * b.y * c.x;
    assert Dot(a, Cross(b, c)) == m;
    assert Dot(b, Cross(c, a)) == m;
  }

  /** The triple product vanishes when a vector repeats. */
  lemma TripleRepeat(a: Vec3, b: Vec3)
    ensures Dot(a, Cross(a, b)) == 0.0 && Dot(a, Cross(b, a)) == 0.0
    ensures Cross(a, a) == Origin
  {
    assert Dot(a, Cross(a, b)) == a.x * a.y * b.z - a.x * a.z * b.y + a.y * a.z * b.x - a.y * a.x * b.z + a.z * a.x * b.y - a.z * a.y * b.x;
    assert Dot(a, Cross(b, a)) == a.x * b.y * a.z - a.x * b.z * a.y + a.y * b.z * a.x - a.y * b.x * a.z + a.z * b.x * a.y - a.z * b.y * a.x;
  }

  /** (B−A)×(C−A) = B×C + A×B + C×A. */
  lemma EdgeCrossExpanded(t: Triangle)
    ensures EdgeCross(t) == Add(Add(Cross(t.b, t.c), Cross(t.a, t.b)), Cross(t.c, t.a))
  {
    var a, b, c := t.a, t.b, t.c;
    CrossSubLeft(b, a, Sub(c, a));
    CrossSubRight(b, c, a);
    CrossSubRight(a, c, a);
    CrossAntiCommutes(b, a);
    CrossAntiCommutes(a, c);
    TripleRepeat(a, c);
    var bc, ab, ca := Cross(b, c), Cross(a, b), Cross(c, a);
    assert EdgeCross(t) == Sub(Sub(bc, Neg(ab)), Sub(Neg(ca), Origin));
  }

  lemma CrossSubLeft(u: Vec3, v: Vec3, w: Vec3)
    ensures Cross(Sub(u, v), w) == Sub(Cross(u, w), Cross(v, w))
  {
  }

  lemma CrossSubRight(u: Vec3, v: Vec3, w: Vec3)
    ensures Cross(u, Sub(v, w)) == Sub(Cross(u, v), Cross(u, w))
  {
  }

  lemma CrossAntiCommutes(u: Vec3, v: Vec3)
    ensures Cross(v, u) == Neg(Cross(u, v))
  {
  }

  /**
   * Translating a triangle by d changes its signed volume term by d·((B−A)×(C−A))/6.
   * Summed over a closed surface the cross products cancel, which is why the
   * volume integral does not depend on the origin for closed meshes only.
   */
  lemma TranslateSignedVol(t: Triangle, d: Vec3)
    ensures SignedVol(TranslateTriangle(t, d)) == SignedVol(t) + Dot(d, EdgeCross(t)) / 6.0
  {
    var a, b, c := t.a, t.b, t.c;
    var bc, bd, dc := Cross(b, c), Cross(b, d), Cross(d, c);
    var x := Cross(Add(b, d), Add(c, d));
    assert x == Add(Add(bc, bd), dc) by { CrossOfTranslated(b, c, d); }
    assert Dot(Add(a, d), x) == Dot(a, x) + Dot(d, x) by { DotAddLeft(a, d, x); }
    assert Dot(a, x) == Dot(a, bc) + Dot(a, bd) + Dot(a, dc) by { DotOfSum3(a, bc, bd, dc); }
    assert Dot(d, x) == Dot(d, bc) + Dot(d, bd) + Dot(d, dc) by { DotOfSum3(d, bc, bd, dc); }
    assert Dot(d, bd) == 0.0 && Dot(d, dc) == 0.0 by { TripleRepeat(d, b); TripleRepeat(d, c); }
    assert Dot(a, bd) == Dot(d, Cross(a, b)) by { TripleRotate(a, b, d); TripleRotate(b, d, a); }
    assert Dot(a, dc) == Dot(d, Cross(c, a)) by { TripleRotate(a, d, c); }
    assert Dot(d, EdgeCross(t)) == Dot(d, bc) + Dot(d, Cross(a, b)) + Dot(d, Cross(c, a)) by {
      EdgeCrossExpanded(t);
      DotOfSum3(d, bc, Cross(a, b), Cross(c, a));
    }
    assert SignedVol(t) * 6.0 == Dot(a, bc) by { SignedVolIsTripleProduct(t); }
    assert SignedVol(TranslateTriangle(t, d)) * 6.0 == Dot(Add(a, d), x) by {
      SignedVolIsTripleProduct(TranslateTriangle(t, d));
    }
  }

  /** The cross product of two translated vectors, expanded by bilinearity. */
  lemma CrossOfTranslated(b: Vec3, c: Vec3, d: Vec3)
    ensures Cross(Add(b, d), Add(c, d)) == Add(Add(Cross(b, c), Cross(b, d)), Cross(d, c))
  {
    CrossAddLeft(b, d, Add(c, d));
    CrossAddRight(b, c, d);
    CrossAddRight(d, c, d);
    TripleRepeat(d, c);
    var bc, bd, dc := Cross(b, c), Cross(b, d), Cross(d, c);
    assert Cross(Add(b, d), Add(c, d)) == Add(Add(bc, bd), Add(dc, Origin));
  }

  lemma DotOfSum3(u: Vec3, p: Vec3, q: Vec3, r: Vec3)
    ensures Dot(u, Add(Add(p, q), r)) == Dot(u, p) + Dot(u, q) + Dot(u, r)
  {
  }
}
