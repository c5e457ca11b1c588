/**
 * miniRT's triangle routines: the plane-crossing test used to bound a triangle on
 * screen, the determinant and barycentric ray test used to draw it, the shadow-ray
 * test, and barycentric interpolation of normals and colours.
 *
 * Each routine reads the vertex buffer's planes; here they take the position plane
 * `pos` (and the normal or colour plane) as a sequence.
 */
module Triangles {
  import opened VecMath

  /** Every routine asserts that its three vertex indices name vertices of the buffer. */
  predicate Corners(n: int, v0: int, v1: int, v2: int)
  {
    0 <= v0 < n && 0 <= v1 < n && 0 <= v2 < n
  }

  /** The signed distance of q from the plane through p with normal n: `(q - p) * n`. */
  function Distance(q: Vec3, p: Vec3, n: Vec3): real
  {
    Dot3(Sub3(q, p), n)
  }

  // ---------------------------------------------------------------
  // intersect_plane
  // ---------------------------------------------------------------

  predicate Below(d: real) { d < -Epsilon }
  predicate Above(d: real) { d > Epsilon }

  /**
   * `intersect_plane`: whether the triangle crosses the plane (p, n). With d_k the
   * signed distances of the corners, it holds exactly when some corner is strictly
   * below, and either some corner is strictly above or the first corner is not below.
   * So a first corner on the plane plus one below counts as crossing, while a first
   * corner on the plane plus one above does not.
   */
  function IntersectPlane(pos: seq<Vec3>, v0: int, v1: int, v2: int, p: Vec3, n: Vec3): bool
    requires Corners(|pos|, v0, v1, v2)
  {
    if Distance(pos[v0], p, n) < -Epsilon then
      if Distance(pos[v1], p, n) > Epsilon then true
      else if Distance(pos[v2], p, n) > Epsilon then true
      else false
    else
      if Distance(pos[v1], p, n) < -Epsilon then true
      else if Distance(pos[v2], p, n) < -Epsilon then true
      else false
  }

  /** The crossing condition of `intersect_plane`, stated on the three signed distances. */
  lemma IntersectPlaneMeaning(pos: seq<Vec3>, v0: int, v1: int, v2: int, p: Vec3, n: Vec3)
    requires Corners(|pos|, v0, v1, v2)
    ensures var d0, d1, d2 := Distance(pos[v0], p, n), Distance(pos[v1], p, n), Distance(pos[v2], p, n);
      IntersectPlane(pos, v0, v1, v2, p, n) <==>
        (Below(d0) || Below(d1) || Below(d2)) && (Above(d0) || Above(d1) || Above(d2) || !Below(d0))
  {
  }

  /**
   * The test never reports a triangle lying within epsilon of the plane, and always
   * reports one with a corner strictly on each side.
   */
  lemma IntersectPlaneBand(pos: seq<Vec3>, v0: int, v1: int, v2: int, p: Vec3, n: Vec3)
    requires Corners(|pos|, v0, v1, v2)
    ensures var d0, d1, d2 := Distance(pos[v0], p, n), Distance(pos[v1], p, n), Distance(pos[v2], p, n);
      var inBand := !Below(d0) && !Above(d0) && !Below(d1) && !Above(d1) && !Below(d2) && !Above(d2);
      var straddles := (Below(d0) || Below(d1) || Below(d2)) && (Above(d0) || Above(d1) || Above(d2));
      (inBand ==> !IntersectPlane(pos, v0, v1, v2, p, n)) && (straddles ==> IntersectPlane(pos, v0, v1, v2, p, n))
  {
  }

  /**
   * The test is not symmetric in the two sides: with the first two corners on the
   * plane, a third corner below is a crossing and a third corner above is not.
   */
  lemma IntersectPlaneFavoursBelow()
    ensures IntersectPlane([Zero3, Zero3, Vec3(0.0, 0.0, -1.0)], 0, 1, 2, Zero3, Vec3(0.0, 0.0, 1.0))
    ensures !IntersectPlane([Zero3, Zero3, Vec3(0.0, 0.0, 1.0)], 0, 1, 2, Zero3, Vec3(0.0, 0.0, 1.0))
  {
    assert Distance(Vec3(0.0, 0.0, -1.0), Zero3, Vec3(0.0, 0.0, 1.0)) == -1.0;
    assert Distance(Vec3(0.0, 0.0, 1.0), Zero3, Vec3(0.0, 0.0, 1.0)) == 1.0;
    assert Distance(Zero3, Zero3, Vec3(0.0, 0.0, 1.0)) == 0.0;
  }

  // ---------------------------------------------------------------
  // intersect_det, intersect_ray, intersect_barycentric
  // ---------------------------------------------------------------

  /** The scalar triple product a . (b x c): the determinant of the rows a, b, c. */
  function Triple(a: Vec3, b: Vec3, c: Vec3): real
  {
    Dot3(a, Cross3(b, c))
  }

  /**
   * `intersect_det` with the corrected `%` (the SSE path's product): pvec = d x (p2 - p0)
   * in the first three lanes, det = (p1 - p0) . pvec in the fourth. pvec is orthogonal to
   * the ray and to the second edge, and det is the determinant of (-d, p1 - p0, p2 - p0),
   * the matrix of the ray/triangle system.
   */
  function IntersectDet(pos: seq<Vec3>, v0: int, v1: int, v2: int, d: Vec3): Vec4
    requires Corners(|pos|, v0, v1, v2)
  {
    var e1 := Sub3(pos[v1], pos[v0]);
    var e2 := Sub3(pos[v2], pos[v0]);
    var pvec := Cross3(d, e2);
    Vec4(pvec.x, pvec.y, pvec.z, Dot3(e1, pvec))
  }

  /** pvec is orthogonal to the ray and to the second edge; det is minus the triple product. */
  lemma IntersectDetMeaning(pos: seq<Vec3>, v0: int, v1: int, v2: int, d: Vec3)
    requires Corners(|pos|, v0, v1, v2)
    ensures var pvd, e1, e2 := IntersectDet(pos, v0, v1, v2, d), Sub3(pos[v1], pos[v0]), Sub3(pos[v2], pos[v0]);
      Dot3(Xyz(pvd), d) == 0.0 && Dot3(Xyz(pvd), e2) == 0.0 &&
      pvd.w == -Triple(d, e1, e2)
  {
    var e1, e2 := Sub3(pos[v1], pos[v0]), Sub3(pos[v2], pos[v0]);
    CrossOrthogonal(d, e2);
    TripleRotates(e1, d, e2);
  }

  lemma TripleRotates(a: Vec3, b: Vec3, c: Vec3)
    ensures Triple(a, b, c) == Triple(b, c, a) == -Triple(b, a, c)
  {
  }

  /** `intersect_det` with the portable `%` as written, whose y lane has the wrong sign. */
  function IntersectDetAsWritten(pos: seq<Vec3>, v0: int, v1: int, v2: int, d: Vec3): Vec4
    requires Corners(|pos|, v0, v1, v2)
  {
    var e1 := Sub3(pos[v1], pos[v0]);
    var e2 := Sub3(pos[v2], pos[v0]);
    var pvec := Cross3AsWritten(d, e2);
    Vec4(pvec.x, pvec.y, pvec.z, Dot3(e1, pvec))
  }

  /**
   * As written, det loses the y term's sign: it is the corrected det minus twice the
   * y-lane product.
   */
  lemma IntersectDetAsWrittenFlipsY(pos: seq<Vec3>, v0: int, v1: int, v2: int, d: Vec3)
    requires Corners(|pos|, v0, v1, v2)
    ensures var pvd, e1 := IntersectDet(pos, v0, v1, v2, d), Sub3(pos[v1], pos[v0]);
      IntersectDetAsWritten(pos, v0, v1, v2, d) == pvd.(y := -pvd.y, w := pvd.w - 2.0 * e1.y * pvd.y)
  {
    var e2 := Sub3(pos[v2], pos[v0]);
    Cross3AsWrittenFlipsY(d, e2);
  }

  /**
   * Counterexample: for the triangle (0,0,0), (0,1,0), (1,0,0) seen along +z, the source's
   * det is -1, which the draw loop's `det > epsilon` test rejects, while the corrected det
   * is +1 and the triangle goes on to the barycentric test.
   */
  lemma IntersectDetAsWrittenFlipsSign()
    ensures IntersectDetAsWritten([Zero3, Vec3(0.0, 1.0, 0.0), Vec3(1.0, 0.0, 0.0)], 0, 1, 2, Vec3(0.0, 0.0, 1.0)).w == -1.0
    ensures IntersectDet([Zero3, Vec3(0.0, 1.0, 0.0), Vec3(1.0, 0.0, 0.0)], 0, 1, 2, Vec3(0.0, 0.0, 1.0)).w == 1.0
  {
    assert Cross3AsWritten(Vec3(0.0, 0.0, 1.0), Vec3(1.0, 0.0, 0.0)) == Vec3(0.0, -1.0, 0.0);
    assert Cross3(Vec3(0.0, 0.0, 1.0), Vec3(1.0, 0.0, 0.0)) == Vec3(0.0, 1.0, 0.0);
  }

  /**
   * `intersect_ray`: rejects when det > epsilon; otherwise accepts exactly when
   * u = (o - p0) . pvec lies in [-epsilon, det] and v = d . ((o - p0) x e1) is at least
   * -epsilon with u + v <= det. An accepted ray therefore has |det| <= epsilon.
   */
  function IntersectRay(pos: seq<Vec3>, v0: int, v1: int, v2: int, pvd: Vec4, o: Vec3, d: Vec3): (r: bool)
    requires Corners(|pos|, v0, v1, v2)
    ensures pvd.w > Epsilon ==> !r
    ensures r ==> -Epsilon <= pvd.w <= Epsilon
    ensures var tvec := Sub3(o, pos[v0]);
      var u, v := Dot3(tvec, Xyz(pvd)), Dot3(d, Cross3(tvec, Sub3(pos[v1], pos[v0])));
      r <==> pvd.w <= Epsilon && -Epsilon <= u <= pvd.w && -Epsilon <= v && u + v <= pvd.w
  {
    var det := pvd.w;
    if det > Epsilon then false
    else
      var tvec := Sub3(o, pos[v0]);
      var u := Dot3(tvec, Xyz(pvd));
      if u < -Epsilon || u > det then false
      else
        var qvec := Cross3(tvec, Sub3(pos[v1], pos[v0]));
        var v := Dot3(d, qvec);
        if v < -Epsilon || u + v > det then false
        else true
  }

  /** The outcome of `intersect_barycentric`: the verdict and the final contents of *tuv. */
  datatype BaryResult = BaryResult(hit: bool, tuv: Vec4)

  /**
   * The decision ladder of `intersect_barycentric` on its three raw numerators
   * u = tvec . pvec, v = d . qvec and t = e2 . qvec. Lane y receives u before the first
   * test and lane z receives v before the second, so a rejected call leaves them
   * behind; an accepted one divides t, u, v by det and hits exactly when t / det > 0.
   * On a hit the scaled weights satisfy u >= -epsilon/det, v >= -epsilon/det and
   * u + v <= 1.
   */
  function BarycentricLadder(det: real, u: real, v: real, t: real, tuvIn: Vec4): BaryResult
    requires det > Epsilon
  {
    var afterU := tuvIn.(y := u);
    if u < -Epsilon || u > det then BaryResult(false, afterU)
    else
      var afterV := afterU.(z := v);
      if v < -Epsilon || v + u > det then BaryResult(false, afterV)
      else
        var scaled := Vec4(t / det, u / det, v / det, tuvIn.w);
        BaryResult(scaled.x > 0.0, scaled)
  }

  /**
   * What the ladder leaves: the partial writes of a rejection, and on a hit the scaled
   * weights, which lie in the triangle up to epsilon / det, at a positive distance.
   */
  lemma {:induction false} BarycentricLadderMeaning(det: real, u: real, v: real, t: real, tuvIn: Vec4)
    requires det > Epsilon
    ensures var r := BarycentricLadder(det, u, v, t, tuvIn);
      (u < -Epsilon || u > det ==> r == BaryResult(false, tuvIn.(y := u))) &&
      ((-Epsilon <= u <= det && (v < -Epsilon || v + u > det)) ==> r == BaryResult(false, tuvIn.(y := u, z := v))) &&
      (r.hit ==> r.tuv.x > 0.0 && r.tuv.y + r.tuv.z <= 1.0) &&
      (r.hit ==> r.tuv.y * det >= -Epsilon && r.tuv.z * det >= -Epsilon) &&
      (r.hit ==> r.tuv == Vec4(t / det, u / det, v / det, tuvIn.w)) &&
      (r.hit <==> -Epsilon <= u <= det && -Epsilon <= v && v + u <= det && t / det > 0.0)
  {
    if -Epsilon <= u <= det && -Epsilon <= v && v + u <= det {
      assert u / det + v / det == (u + v) / det;
    }
  }

  /** The three numerators `intersect_barycentric` computes from the ray and pvd. */
  function BaryU(pos: seq<Vec3>, v0: int, pvd: Vec4, o: Vec3): real
    requires 0 <= v0 < |pos|
  {
    Dot3(Sub3(o, pos[v0]), Xyz(pvd))
  }

  function BaryQ(pos: seq<Vec3>, v0: int, v1: int, o: Vec3): Vec3
    requires 0 <= v0 < |pos| && 0 <= v1 < |pos|
  {
    Cross3(Sub3(o, pos[v0]), Sub3(pos[v1], pos[v0]))
  }

  /**
   * `intersect_barycentric` as a value: requires det > epsilon, and decides on the
   * numerators computed from the triangle, the ray and pvd.
   */
  function Barycentric(pos: seq<Vec3>, v0: int, v1: int, v2: int, pvd: Vec4, o: Vec3, d: Vec3, tuvIn: Vec4)
    : (r: BaryResult)
    requires Corners(|pos|, v0, v1, v2) && pvd.w > Epsilon
    ensures r.hit ==> r.tuv.x > 0.0 && r.tuv.y + r.tuv.z <= 1.0
  {
    var q := BaryQ(pos, v0, v1, o);
    BarycentricLadderMeaning(pvd.w, BaryU(pos, v0, pvd, o), Dot3(d, q), Dot3(Sub3(pos[v2], pos[v0]), q), tuvIn);
    BarycentricLadder(pvd.w, BaryU(pos, v0, pvd, o), Dot3(d, q), Dot3(Sub3(pos[v2], pos[v0]), q), tuvIn)
  }

  /**
   * Whether `intersect_barycentric` hits, and where, does not depend on what *tuv held
   * before the call: a hit overwrites lanes x, y and z and keeps only lane w.
   */
  lemma {:induction false} BarycentricOverwrites(pos: seq<Vec3>, v0: int, v1: int, v2: int, pvd: Vec4, o: Vec3,
                                                 d: Vec3, tuvIn: Vec4, tuvIn': Vec4)
    requires Corners(|pos|, v0, v1, v2) && pvd.w > Epsilon
    ensures var r, r' := Barycentric(pos, v0, v1, v2, pvd, o, d, tuvIn), Barycentric(pos, v0, v1, v2, pvd, o, d, tuvIn');
      r.hit == r'.hit && (r.hit ==> r.tuv == r'.tuv.(w := tuvIn.w))
  {
  }

  /**
   * `intersect_barycentric` step by step: lane y, then lane z, then lane x are written
   * through the out-parameter, and on acceptance the three are scaled by 1/det.
   */
  method IntersectBarycentric(pos: seq<Vec3>, v0: int, v1: int, v2: int, pvd: Vec4, o: Vec3, d: Vec3, tuvIn: Vec4)
    returns (hit: bool, tuv: Vec4)
    requires Corners(|pos|, v0, v1, v2) && pvd.w > Epsilon
    ensures BaryResult(hit, tuv) == Barycentric(pos, v0, v1, v2, pvd, o, d, tuvIn)
  {
    var pv := Xyz(pvd);
    var det := pvd.w;
    ghost var spec := Barycentric(pos, v0, v1, v2, pvd, o, d, tuvIn);
    tuv := tuvIn;
    var tvec := Sub3(o, pos[v0]);
    tuv := tuv.(y := Dot3(tvec, pv));
    ghost var u := tuv.y;
    assert u == BaryU(pos, v0, pvd, o);
    if tuv.y < -Epsilon || tuv.y > det {
      return false, tuv;
    }
    var qvec := Cross3(tvec, Sub3(pos[v1], pos[v0]));
    assert qvec == BaryQ(pos, v0, v1, o);
    tuv := tuv.(z := Dot3(d, qvec));
    ghost var v := tuv.z;
    if tuv.z < -Epsilon || tuv.z + tuv.y > det {
      return false, tuv;
    }
    tuv := tuv.(x := Dot3(Sub3(pos[v2], pos[v0]), qvec));
    ghost var t := tuv.x;
    assert spec == BarycentricLadder(det, u, v, t, tuvIn);
    var invDet := 1.0 / det;
    ScaleIsDivide(t, det);
    ScaleIsDivide(u, det);
    ScaleIsDivide(v, det);
    tuv := tuv.(x := tuv.x * invDet);
    tuv := tuv.(y := tuv.y * invDet);
    tuv := tuv.(z := tuv.z * invDet);
    assert tuv == Vec4(t / det, u / det, v / det, tuvIn.w);
    hit := tuv.x > 0.0;
  }

  lemma ScaleIsDivide(a: real, det: real)
    requires det != 0.0
    ensures a * (1.0 / det) == a / det
  {
  }

  // ---------------------------------------------------------------
  // shadow_hit
  // ---------------------------------------------------------------

  /** The quantities `shadow_hit` computes before its ladder. */
  datatype ShadowTerms = ShadowTerms(denom: real, betaNum: real, gammaNum: real, tNum: real)

  function ShadowTermsOf(p0: Vec3, p1: Vec3, p2: Vec3, o: Vec3, d: Vec3): ShadowTerms
  {
    var abc := Sub3(p0, p1);
    var def := Sub3(p0, p2);
    var jkl := Sub3(p0, o);
    var smat := Cross3(def, d);
    var smat2 := Cross3(abc, jkl);
    ShadowTerms(Dot3(abc, smat), Dot3(jkl, smat), Dot3(d, smat2), -Dot3(def, smat2))
  }

  /**
   * `shadow_hit`: Cramer's rule for o + t d = p0 + beta (p1 - p0) + gamma (p2 - p0).
   * It rejects unless 0 < beta < 1, gamma > 0 and beta + gamma < 1, and then accepts
   * exactly when tmin <= t <= tmax. A zero denominator makes the three ratios infinite
   * or not-a-number under IEEE arithmetic, and every comparison then rejects.
   */
  function ShadowHit(pos: seq<Vec3>, v0: int, v1: int, v2: int, o: Vec3, d: Vec3, tmin: real, tmax: real): bool
    requires Corners(|pos|, v0, v1, v2)
  {
    var s := ShadowTermsOf(pos[v0], pos[v1], pos[v2], o, d);
    if s.denom == 0.0 then false
    else
      var beta := s.betaNum / s.denom;
      if beta <= 0.0 || beta >= 1.0 then false
      else
        var gamma := s.gammaNum / s.denom;
        if gamma <= 0.0 || beta + gamma >= 1.0 then false
        else
          var t := s.tNum / s.denom;
          t >= tmin && t <= tmax
  }

  /** The acceptance condition of `shadow_hit` on its three ratios. */
  lemma ShadowHitMeaning(pos: seq<Vec3>, v0: int, v1: int, v2: int, o: Vec3, d: Vec3, tmin: real, tmax: real)
    requires Corners(|pos|, v0, v1, v2)
    ensures var s := ShadowTermsOf(pos[v0], pos[v1], pos[v2], o, d);
      ShadowHit(pos, v0, v1, v2, o, d, tmin, tmax) <==>
        s.denom != 0.0 &&
        0.0 < s.betaNum / s.denom < 1.0 && s.gammaNum / s.denom > 0.0 &&
        s.betaNum / s.denom + s.gammaNum / s.denom < 1.0 &&
        tmin <= s.tNum / s.denom <= tmax
  {
  }

  /**
   * The shadow test and the barycentric test solve the same system: the shadow
   * denominator is -det, and beta, gamma and t are the barycentric u, v and t over det.
   */
  lemma {:induction false} ShadowTermsAreBarycentric(p0: Vec3, p1: Vec3, p2: Vec3, o: Vec3, d: Vec3)
    ensures var s := ShadowTermsOf(p0, p1, p2, o, d);
      var e1, e2, tvec := Sub3(p1, p0), Sub3(p2, p0), Sub3(o, p0);
      var pvec := Cross3(d, e2);
      var qvec := Cross3(tvec, e1);
      s.denom == -Dot3(e1, pvec) && s.betaNum == -Dot3(tvec, pvec) &&
      s.gammaNum == -Dot3(d, qvec) && s.tNum == -Dot3(e2, qvec)
  {
    var e1, e2, tvec := Sub3(p1, p0), Sub3(p2, p0), Sub3(o, p0);
    var abc, def, jkl := Sub3(p0, p1), Sub3(p0, p2), Sub3(p0, o);
    assert abc == Neg3(e1) && def == Neg3(e2) && jkl == Neg3(tvec);
    NegatedCross(e2, d);
    CrossAntiCommutes(e2, d);
    assert Cross3(def, d) == Cross3(d, e2);
    NegatedCrossBoth(e1, tvec);
    CrossAntiCommutes(tvec, e1);
    assert Cross3(abc, jkl) == Neg3(Cross3(tvec, e1));
    DotNeg(e1, Cross3(d, e2));
    DotNeg(tvec, Cross3(d, e2));
    DotNegRight(d, Cross3(tvec, e1));
    DotNegBoth(e2, Cross3(tvec, e1));
  }

  lemma NegatedCross(a: Vec3, b: Vec3)
    ensures Cross3(Neg3(a), b) == Neg3(Cross3(a, b))
  {
  }

  lemma NegatedCrossBoth(a: Vec3, b: Vec3)
    ensures Cross3(Neg3(a), Neg3(b)) == Cross3(a, b)
  {
  }

  lemma DotNeg(a: Vec3, b: Vec3)
    ensures Dot3(Neg3(a), b) == -Dot3(a, b)
  {
  }

  lemma DotNegRight(a: Vec3, b: Vec3)
    ensures Dot3(a, Neg3(b)) == -Dot3(a, b)
  {
  }

  lemma DotNegBoth(a: Vec3, b: Vec3)
    ensures Dot3(Neg3(a), Neg3(b)) == Dot3(a, b)
  {
  }

  /**
   * For a front-facing triangle (det > epsilon, the only kind drawn), a shadow ray the
   * shadow test accepts over [tmin, tmax] with tmin > 0 is also a hit of the
   * barycentric test, at the same distance and weights; and conversely a barycentric
   * hit whose weights lie strictly inside the triangle is a shadow hit over any
   * interval containing its distance.
   */
  lemma {:induction false} ShadowAgreesWithBarycentric(pos: seq<Vec3>, v0: int, v1: int, v2: int,
                                                      o: Vec3, d: Vec3, tmin: real, tmax: real, tuvIn: Vec4)
    requires Corners(|pos|, v0, v1, v2)
    requires IntersectDet(pos, v0, v1, v2, d).w > Epsilon
    ensures var b := Barycentric(pos, v0, v1, v2, IntersectDet(pos, v0, v1, v2, d), o, d, tuvIn);
      var inside := b.tuv.y > 0.0 && b.tuv.z > 0.0 && b.tuv.y + b.tuv.z < 1.0;
      (ShadowHit(pos, v0, v1, v2, o, d, tmin, tmax) && tmin > 0.0 ==> b.hit && tmin <= b.tuv.x <= tmax) &&
      (b.hit && inside && tmin <= b.tuv.x <= tmax ==> ShadowHit(pos, v0, v1, v2, o, d, tmin, tmax))
  {
    var p0, p1, p2 := pos[v0], pos[v1], pos[v2];
    var pvd := IntersectDet(pos, v0, v1, v2, d);
    var det := pvd.w;
    var e1, e2, tvec := Sub3(p1, p0), Sub3(p2, p0), Sub3(o, p0);
    var q := Cross3(tvec, e1);
    var u, v, t := Dot3(tvec, Xyz(pvd)), Dot3(d, q), Dot3(e2, q);
    assert Xyz(pvd) == Cross3(d, e2);
    assert det == Dot3(e1, Cross3(d, e2));
    ShadowTermsAreBarycentric(p0, p1, p2, o, d);
    var s := ShadowTermsOf(p0, p1, p2, o, d);
    assert s.denom == -det && s.betaNum == -u && s.gammaNum == -v && s.tNum == -t;
    NegOverNeg(u, det);
    NegOverNeg(v, det);
    NegOverNeg(t, det);
    var b := Barycentric(pos, v0, v1, v2, pvd, o, d, tuvIn);
    assert b == BarycentricLadder(det, u, v, t, tuvIn);
    if ShadowHit(pos, v0, v1, v2, o, d, tmin, tmax) && tmin > 0.0 {
      assert 0.0 < u / det < 1.0 && v / det > 0.0 && u / det + v / det < 1.0;
      RatioBounds(u, v, det);
      assert t / det >= tmin > 0.0;
    }
  }

  lemma NegOverNeg(a: real, det: real)
    requires det != 0.0
    ensures (-a) / (-det) == a / det
  {
  }

  /** Ratio bounds over a positive denominator translate to bounds on the numerators. */
  lemma RatioBounds(u: real, v: real, det: real)
    requires det > 0.0 && 0.0 < u / det < 1.0 && v / det > 0.0 && u / det + v / det < 1.0
    ensures 0.0 < u < det && v > 0.0 && u + v < det
  {
    var a, b := u / det, v / det;
    assert u == a * det && v == b * det && u + v == (a + b) * det;
    MulPositive(a, det);
    MulPositive(b, det);
    MulPositive(1.0 - a, det);
    MulPositive(1.0 - (a + b), det);
    assert (1.0 - a) * det == det - u;
    assert (1.0 - (a + b)) * det == det - (u + v);
  }

  lemma MulPositive(x: real, y: real)
    requires x > 0.0 && y > 0.0
    ensures x * y > 0.0
  {
  }

  // ---------------------------------------------------------------
  // intersect_normal, intersect_col
  // ---------------------------------------------------------------

  /**
   * `intersect_normal`: the normals of the three corners weighted by 1 - (u + v), u and
   * v, with u = tuv.y and v = tuv.z.
   */
  function IntersectNormal(normals: seq<Vec3>, v0: int, v1: int, v2: int, tuv: Vec4): (n: Vec3)
    requires Corners(|normals|, v0, v1, v2)
  {
    Add3(Add3(Scale3(normals[v0], 1.0 - (tuv.y + tuv.z)), Scale3(normals[v1], tuv.y)), Scale3(normals[v2], tuv.z))
  }

  /**
   * The weights sum to one: at u = v = 0 the result is the first corner's normal, at
   * (u, v) = (1, 0) the second's, at (0, 1) the third's, and three equal normals are
   * reproduced everywhere.
   */
  lemma InterpolateNormalCorners(normals: seq<Vec3>, v0: int, v1: int, v2: int, tuv: Vec4)
    requires Corners(|normals|, v0, v1, v2)
    ensures tuv.y == 0.0 && tuv.z == 0.0 ==> IntersectNormal(normals, v0, v1, v2, tuv) == normals[v0]
    ensures tuv.y == 1.0 && tuv.z == 0.0 ==> IntersectNormal(normals, v0, v1, v2, tuv) == normals[v1]
    ensures tuv.y == 0.0 && tuv.z == 1.0 ==> IntersectNormal(normals, v0, v1, v2, tuv) == normals[v2]
    ensures normals[v0] == normals[v1] == normals[v2] ==> IntersectNormal(normals, v0, v1, v2, tuv) == normals[v0]
  {
  }

  /**
   * `intersect_normal` as written with the portable `vector3 * float`, which returns
   * its vector unscaled: the weights are lost and the result is the plain sum.
   */
  function IntersectNormalAsWritten(normals: seq<Vec3>, v0: int, v1: int, v2: int, tuv: Vec4): Vec3
    requires Corners(|normals|, v0, v1, v2)
  {
    Add3(Add3(Scale3AsWritten(normals[v0], 1.0 - (tuv.y + tuv.z)), Scale3AsWritten(normals[v1], tuv.y)),
         Scale3AsWritten(normals[v2], tuv.z))
  }

  /** As written, the weights are ignored: the result is the plain sum of the three normals. */
  lemma IntersectNormalAsWrittenSums(normals: seq<Vec3>, v0: int, v1: int, v2: int, tuv: Vec4)
    requires Corners(|normals|, v0, v1, v2)
    ensures IntersectNormalAsWritten(normals, v0, v1, v2, tuv) == Add3(Add3(normals[v0], normals[v1]), normals[v2])
  {
  }

  /**
   * On a triangle whose three normals are (0,0,1), the code as written yields (0,0,3)
   * at every point, where the interpolation gives (0,0,1).
   */
  lemma IntersectNormalAsWrittenUnitNormals(normals: seq<Vec3>, v0: int, v1: int, v2: int, tuv: Vec4)
    requires Corners(|normals|, v0, v1, v2)
    requires normals[v0] == Vec3(0.0, 0.0, 1.0) && normals[v1] == Vec3(0.0, 0.0, 1.0) && normals[v2] == Vec3(0.0, 0.0, 1.0)
    ensures IntersectNormalAsWritten(normals, v0, v1, v2, tuv) == Vec3(0.0, 0.0, 3.0)
    ensures IntersectNormal(normals, v0, v1, v2, tuv) == Vec3(0.0, 0.0, 1.0)
  {
    InterpolateNormalCorners(normals, v0, v1, v2, tuv);
  }

  /**
   * `intersect_col`: the corner colours weighted by 1 - (u + v), u and v. The source casts
   * each 3-float colour to a 4-vector without saying what lane w becomes; the model widens
   * it with w = 1, as `vector = vector3` does.
   */
  function IntersectCol(colors: seq<Vec3>, v0: int, v1: int, v2: int, tuv: Vec4): (c: Vec4)
    requires Corners(|colors|, v0, v1, v2)
  {
    Add4(Add4(Scale4(Widen(colors[v0]), 1.0 - (tuv.y + tuv.z)), Scale4(Widen(colors[v1]), tuv.y)),
         Scale4(Widen(colors[v2]), tuv.z))
  }

  /**
   * The interpolated colour always has w = 1 (the weights sum to one), equals the first
   * corner's colour at u = v = 0, and reproduces a uniformly coloured triangle.
   */
  lemma InterpolateColorCorners(colors: seq<Vec3>, v0: int, v1: int, v2: int, tuv: Vec4)
    requires Corners(|colors|, v0, v1, v2)
    ensures IntersectCol(colors, v0, v1, v2, tuv).w == 1.0
    ensures tuv.y == 0.0 && tuv.z == 0.0 ==> IntersectCol(colors, v0, v1, v2, tuv) == Widen(colors[v0])
    ensures colors[v0] == colors[v1] == colors[v2] ==> IntersectCol(colors, v0, v1, v2, tuv) == Widen(colors[v0])
  {
  }
}
