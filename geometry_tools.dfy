/** `GeometryTools::getDistance`: the signed distance of a point to the plane of a
    triangle, measured in units of the triangle's un-normalised normal. */
module GeometryTools {
  import opened Vectors

  /** Un-normalised normal n = (v1 - v0) x (v2 - v0) of the triangle's plane:
      it is orthogonal to both edges leaving v0. */
  function Normal(t: Triangle): (n: Vec3)
    ensures Dot(n, Sub(t.v1, t.v0)) == 0.0 && Dot(n, Sub(t.v2, t.v0)) == 0.0
  {
    CrossOrthogonal(Sub(t.v1, t.v0), Sub(t.v2, t.v0));
    Cross(Sub(t.v1, t.v0), Sub(t.v2, t.v0))
  }

  /** Collinear or coincident vertices: the normal has zero length and
      `getDistance` divides by zero. */
  predicate Degenerate(t: Triangle)
  {
    Dot(Normal(t), Normal(t)) == 0.0
  }

  /** getDistance: d = -n.(p - v0) / (n.n), the step d that solves the plane
      equation n.(p - v0) + d (n.n) = 0. */
  function Distance(t: Triangle, p: Vec3): (d: real)
    requires !Degenerate(t)
    ensures Dot(Normal(t), Sub(p, t.v0)) + d * Dot(Normal(t), Normal(t)) == 0.0
  {
    var n := Normal(t);
    var sn := -Dot(n, Sub(p, t.v0));
    var sd := Dot(n, n);
    QuotientTimesDivisor(sn, sd);
    sn / sd
  }

  /** d is zero exactly for points of the plane, and positive exactly for points on
      the side opposite to n. */
  lemma DistanceSign(t: Triangle, p: Vec3)
    requires !Degenerate(t)
    ensures Distance(t, p) == 0.0 <==> Dot(Normal(t), Sub(p, t.v0)) == 0.0
    ensures Distance(t, p) > 0.0 <==> Dot(Normal(t), Sub(p, t.v0)) < 0.0
  {
    var n := Normal(t);
    DotSelfNonNegative(n);
    QuotientSign(-Dot(n, Sub(p, t.v0)), Dot(n, n));
  }

  lemma QuotientSign(a: real, b: real)
    requires b > 0.0
    ensures a / b == 0.0 <==> a == 0.0
    ensures a / b > 0.0 <==> a > 0.0
  {
  }

  /** The point p + d.n that the commented-out tail of getDistance builds:
      moving p by d along the normal lands on the triangle's plane. */
  function Foot(t: Triangle, p: Vec3): (f: Vec3)
    requires !Degenerate(t)
    ensures Dot(Normal(t), Sub(f, t.v0)) == 0.0
  {
    var n, q, d := Normal(t), Sub(p, t.v0), Distance(t, p);
    assert Sub(Add(p, Scale(d, n)), t.v0) == Add(q, Scale(d, n));
    DotAlongNormal(n, q, d);
    Add(p, Scale(d, n))
  }

  /** Stepping k along n changes n.q by k (n.n). */
  lemma DotAlongNormal(n: Vec3, q: Vec3, k: real)
    ensures Dot(n, Add(q, Scale(k, n))) == Dot(n, q) + k * Dot(n, n)
  {
  }

  lemma QuotientTimesDivisor(a: real, b: real)
    requires b != 0.0
    ensures (a / b) * b == a
  {
  }

  lemma SolveForFactor(k: real, a: real, b: real)
    requires b != 0.0 && k * b == a
    ensures k == a / b
  {
  }

  /** d is the only step along the normal that reaches the plane. */
  lemma FootUnique(t: Triangle, p: Vec3, k: real)
    requires !Degenerate(t)
    requires Dot(Normal(t), Sub(Add(p, Scale(k, Normal(t))), t.v0)) == 0.0
    ensures k == Distance(t, p)
  {
    var n, q := Normal(t), Sub(p, t.v0);
    assert Sub(Add(p, Scale(k, n)), t.v0) == Add(q, Scale(k, n));
    DotAlongNormal(n, q, k);
    SolveForFactor(k, -Dot(n, q), Dot(n, n));
    DistanceUnfold(t, p);
  }

  /** Each vertex of the triangle lies on its plane. */
  lemma VerticesOnPlane(t: Triangle)
    requires !Degenerate(t)
    ensures Distance(t, t.v0) == 0.0 && Distance(t, t.v1) == 0.0 && Distance(t, t.v2) == 0.0
  {
    assert Sub(t.v0, t.v0) == Vec3(0.0, 0.0, 0.0);
    DistanceSign(t, t.v0);
    DistanceSign(t, t.v1);
    DistanceSign(t, t.v2);
  }

  /** d written out, so that proofs about it need not unfold the normal. */
  lemma DistanceUnfold(t: Triangle, p: Vec3)
    requires !Degenerate(t)
    ensures Distance(t, p) == -Dot(Normal(t), Sub(p, t.v0)) / Dot(Normal(t), Normal(t))
  {
  }

  lemma NegatedQuotient(a: real, b: real, c: real)
    requires b != 0.0 && c == -a
    ensures c / b == -(a / b)
  {
  }

  /** Swapping v1 and v2 reverses the normal and negates the distance. */
  lemma SwapLastTwoNegates(t: Triangle, p: Vec3)
    requires !Degenerate(t)
    ensures !Degenerate(Triangle(t.v0, t.v2, t.v1))
    ensures Distance(Triangle(t.v0, t.v2, t.v1), p) == -Distance(t, p)
  {
    var s := Triangle(t.v0, t.v2, t.v1);
    var n, m, q := Normal(t), Normal(s), Sub(p, t.v0);
    assert m == Neg(n);
    NegPreservesSquare(n);
    NegFlipsDot(n, q);
    DistanceUnfold(t, p);
    DistanceUnfold(s, p);
    NegatedQuotient(-Dot(n, q), Dot(n, n), -Dot(m, q));
  }

  lemma QuotientByOne(a: real, b: real)
    requires b == 1.0
    ensures a / b == a
  {
  }

  lemma NegPreservesSquare(a: Vec3)
    ensures Dot(Neg(a), Neg(a)) == Dot(a, a)
  {
  }

  lemma NegFlipsDot(a: Vec3, b: Vec3)
    ensures Dot(Neg(a), b) == -Dot(a, b)
  {
  }

  /** Swapping v0 and v1 also negates the distance: the normal reverses, and the
      reference vertex moves within the plane. */
  lemma SwapFirstTwoNegates(t: Triangle, p: Vec3)
    requires !Degenerate(t)
    ensures !Degenerate(Triangle(t.v1, t.v0, t.v2))
    ensures Distance(Triangle(t.v1, t.v0, t.v2), p) == -Distance(t, p)
  {
    var s := Triangle(t.v1, t.v0, t.v2);
    var n, m := Normal(t), Normal(s);
    CrossOfSwappedBase(t.v0, t.v1, t.v2);
    NegPreservesSquare(n);
    ShiftWithinPlane(n, p, t.v0, t.v1);
    NegFlipsDot(n, Sub(p, t.v1));
    DistanceUnfold(t, p);
    DistanceUnfold(s, p);
    NegatedQuotient(-Dot(n, Sub(p, t.v0)), Dot(n, n), -Dot(m, Sub(p, s.v0)));
  }

  lemma CrossOfSwappedBase(a: Vec3, b: Vec3, c: Vec3)
    ensures Cross(Sub(a, b), Sub(c, b)) == Neg(Cross(Sub(b, a), Sub(c, a)))
  {
    var u, w := Sub(b, a), Sub(c, a);
    assert Sub(a, b) == Neg(u);
    assert Sub(c, b) == Sub(w, u);
  }

  lemma ShiftWithinPlane(n: Vec3, p: Vec3, a: Vec3, b: Vec3)
    requires Dot(n, Sub(b, a)) == 0.0
    ensures Dot(n, Sub(p, b)) == Dot(n, Sub(p, a))
  {
  }

  lemma ExampleNormal(t: Triangle)
    requires t == Triangle(Vec3(0.0, 0.0, 0.0), Vec3(1.0, 0.0, 0.0), Vec3(0.0, 1.0, 0.0))
    ensures Normal(t) == Vec3(0.0, 0.0, 1.0)
  {
    assert Sub(t.v1, t.v0) == Vec3(1.0, 0.0, 0.0);
    assert Sub(t.v2, t.v0) == Vec3(0.0, 1.0, 0.0);
  }

  lemma DistanceFromParts(t: Triangle, p: Vec3, n: Vec3, q: Vec3)
    requires Normal(t) == n && Sub(p, t.v0) == q && Dot(n, n) != 0.0
    ensures !Degenerate(t) && Distance(t, p) == -Dot(n, q) / Dot(n, n)
  {
  }

  lemma ExampleDistance(t: Triangle, p: Vec3)
    requires Normal(t) == Vec3(0.0, 0.0, 1.0)
    requires Sub(p, t.v0) == Vec3(0.0, 0.0, 5.0)
    ensures !Degenerate(t) && Distance(t, p) == -5.0
  {
    var n, q := Vec3(0.0, 0.0, 1.0), Vec3(0.0, 0.0, 5.0);
    assert Dot(n, n) == 1.0 && Dot(n, q) == 5.0;
    DistanceFromParts(t, p, n, q);
    QuotientByOne(-5.0, 1.0);
  }

  /** The unit right triangle in the z = 0 plane and the point (0,0,5): n = (0,0,1),
      d = -5 and the foot is the origin. */
  lemma WorkedExample(t: Triangle, p: Vec3)
    requires t == Triangle(Vec3(0.0, 0.0, 0.0), Vec3(1.0, 0.0, 0.0), Vec3(0.0, 1.0, 0.0))
    requires p == Vec3(0.0, 0.0, 5.0)
    ensures Normal(t) == Vec3(0.0, 0.0, 1.0) && !Degenerate(t)
    ensures Distance(t, p) == -5.0
    ensures Foot(t, p) == Vec3(0.0, 0.0, 0.0)
  {
    ExampleNormal(t);
    assert Sub(p, t.v0) == Vec3(0.0, 0.0, 5.0);
    ExampleFoot(t, p);
  }

  /** The second half of the worked example, for any triangle with that normal
      and reference vertex. */
  lemma ExampleFoot(t: Triangle, p: Vec3)
    requires Normal(t) == Vec3(0.0, 0.0, 1.0)
    requires Sub(p, t.v0) == Vec3(0.0, 0.0, 5.0) && p == Vec3(0.0, 0.0, 5.0)
    ensures !Degenerate(t) && Distance(t, p) == -5.0
    ensures Foot(t, p) == Vec3(0.0, 0.0, 0.0)
  {
    var n, d, o := Vec3(0.0, 0.0, 1.0), -5.0, Vec3(0.0, 0.0, 0.0);
    ExampleDistance(t, p);
    assert Normal(t) == n && Distance(t, p) == d;
    StepDown(p);
    FootFromParts(t, p, n, d, o);
  }

  /** Moving (0,0,5) by -5 along (0,0,1) reaches the origin. */
  lemma StepDown(p: Vec3)
    requires p == Vec3(0.0, 0.0, 5.0)
    ensures Add(p, Scale(-5.0, Vec3(0.0, 0.0, 1.0))) == Vec3(0.0, 0.0, 0.0)
  {
    ScaleUnitZ(-5.0);
  }

  lemma ScaleUnitZ(k: real)
    ensures Scale(k, Vec3(0.0, 0.0, 1.0)) == Vec3(0.0, 0.0, k)
  {
  }

  /** The foot point from the values of d and n. */
  lemma FootFromParts(t: Triangle, p: Vec3, n: Vec3, d: real, f: Vec3)
    requires !Degenerate(t) && Normal(t) == n && Distance(t, p) == d && Add(p, Scale(d, n)) == f
    ensures Foot(t, p) == f
  {
  }
}
