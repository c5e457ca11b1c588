/**
 * miniRT's renderer: the `lock` protocol, the per-triangle screen bounds computed by
 * `begin`, the bounded draw loop with its depth test, the light array, the background
 * clear and `phong` with its per-light occluder cache.
 *
 * The scan-plane normals and the per-pixel ray directions come from the camera through
 * `tanf`, cross products and normalisation; they are taken as a `Projection` value. The
 * numeric routines `phong` calls are taken as a `Numerics` value.
 */
module Render {
  import opened VecMath
  import opened IndexBuffers
  import opened VertexBuffers
  import opened ScreenBuffers
  import opened Lights
  import opened Triangles
  import opened Sweep
  import opened Shading

  /** `unsigned int`, the type of a colour-buffer cell. */
  newtype Word32 = x: int | 0 <= x < 0x1_0000_0000

  /** The camera the renderer copies: up, to, position, right and field of view. */
  datatype Camera = Camera(up: Vec3, to: Vec3, pos: Vec3, right: Vec3, fov: real)

  /**
   * What `begin` and `draw_indexed_triangles` derive from the camera: the normal of the
   * plane through the eye and screen column x, the normal of the plane through the eye
   * and screen row y, and the normalised direction of the ray through pixel (x, y).
   */
  datatype Projection = Projection(columnNormal: int -> Vec3, rowNormal: int -> Vec3, rayDir: (int, int) -> Vec3)

  /**
   * A triangle's entry of `bound_tri`: it is drawn over columns [xmin, xmax) and rows
   * [ymin, ymax). The source keeps these integers in a float 4-vector (x, y, z, w).
   */
  datatype Bound = Bound(xmin: int, ymin: int, xmax: int, ymax: int)

  /** The reset value `vector4(-1)`. */
  const NoBound := Bound(-1, -1, -1, -1)

  /** A non-empty column or row range of the bound lies on the screen. */
  predicate Fits(b: Bound, dx: int, dy: int)
  {
    (b.xmin < b.xmax ==> 0 <= b.xmin && b.xmax <= dx) && (b.ymin < b.ymax ==> 0 <= b.ymin && b.ymax <= dy)
  }

  /** Whether the draw loop visits pixel (x, y) for a triangle with bound b. */
  predicate Covers(b: Bound, x: int, y: int)
  {
    b.xmin <= x < b.xmax && b.ymin <= y < b.ymax
  }

  // ---------------------------------------------------------------
  // The bounds of begin
  // ---------------------------------------------------------------

  /** `intersect_plane` for triangle t and the plane through the eye with normal nrm. */
  function Crossed(g: Geometry, t: int, eye: Vec3, nrm: Vec3): bool
    requires WellFormed(g) && 0 <= t < TriCount(g)
  {
    CornersOf(g, t);
    IntersectPlane(g.pos, g.idx[3 * t], g.idx[3 * t + 1], g.idx[3 * t + 2], eye, nrm)
  }

  /**
   * For scan lines 0 .. n - 1 with plane normals `normal(0)`, ..., whether triangle t
   * crosses the plane of each: entry k is the plane test of scan line k.
   */
  function Crossings(g: Geometry, t: int, eye: Vec3, normal: int -> Vec3, n: nat): (s: seq<bool>)
    requires WellFormed(g) && 0 <= t < TriCount(g)
    ensures |s| == n
    ensures forall k :: 0 <= k < n ==> s[k] == Crossed(g, t, eye, normal(k))
  {
    if n == 0 then [] else Crossings(g, t, eye, normal, n - 1) + [Crossed(g, t, eye, normal(n - 1))]
  }

  /** The tracker of `begin` for triangle t after scan lines 0 .. x - 1 of n. */
  function ScanTrack(g: Geometry, t: int, eye: Vec3, normal: int -> Vec3, x: nat, n: int): (r: Tracker)
    requires WellFormed(g) && 0 <= t < TriCount(g)
    ensures r.found <==> x > 0 && Crossed(g, t, eye, normal(x - 1))
    ensures -1 <= r.lo < x && -1 <= r.hi < x
  {
    if x == 0 then Start
    else Advance(ScanTrack(g, t, eye, normal, x - 1, n), x - 1, n, Crossed(g, t, eye, normal(x - 1)))
  }

  /** The tracker stays in step with the crossings of the lines it has seen. */
  lemma {:induction false} ScanTrackTracks(g: Geometry, t: int, eye: Vec3, normal: int -> Vec3, x: nat, n: int)
    requires WellFormed(g) && 0 <= t < TriCount(g) && x <= n
    ensures Tracks(Crossings(g, t, eye, normal, x), ScanTrack(g, t, eye, normal, x, n), n)
    decreases x
  {
    if x == 0 {
      StartTracks(n);
    } else {
      ScanTrackTracks(g, t, eye, normal, x - 1, n);
      AdvanceTracks(Crossings(g, t, eye, normal, x - 1), Crossed(g, t, eye, normal(x - 1)),
                    ScanTrack(g, t, eye, normal, x - 1, n), n);
    }
  }

  /**
   * After all n lines the tracker holds the run bound of the crossings, so the meaning
   * of `RunBound` (the last run of crossed lines) carries over to the scan.
   */
  lemma {:induction false} ScanBoundIsRunBound(g: Geometry, t: int, eye: Vec3, normal: int -> Vec3, n: nat)
    requires WellFormed(g) && 0 <= t < TriCount(g)
    ensures var st := ScanTrack(g, t, eye, normal, n, n); (st.lo, st.hi) == RunBound(Crossings(g, t, eye, normal, n))
  {
    ScanTrackTracks(g, t, eye, normal, n, n);
    TracksFinal(Crossings(g, t, eye, normal, n), ScanTrack(g, t, eye, normal, n, n));
  }

  /**
   * The scan bound is the sentinel (-1, -1) exactly when the triangle crosses none of
   * the n lines, and otherwise a range of line numbers below n.
   */
  lemma {:induction false} ScanBoundRange(g: Geometry, t: int, eye: Vec3, normal: int -> Vec3, n: nat)
    requires WellFormed(g) && 0 <= t < TriCount(g)
    ensures var st := ScanTrack(g, t, eye, normal, n, n);
      ((st.lo == -1 && st.hi == -1) || 0 <= st.lo <= st.hi < n) &&
      ((forall x :: 0 <= x < n ==> !Crossed(g, t, eye, normal(x))) <==> st.lo == -1 && st.hi == -1)
  {
    var s := Crossings(g, t, eye, normal, n);
    ScanBoundIsRunBound(g, t, eye, normal, n);
    RunBoundMeaning(s);
  }

  /**
   * The scan of one triangle in `begin`: the lines are visited in order, each tested
   * with `intersect_plane`, and the tracker updated; the result is `ScanTrack`'s bound.
   */
  method ScanLines(g: Geometry, t: int, eye: Vec3, normal: int -> Vec3, n: nat) returns (lo: int, hi: int)
    requires WellFormed(g) && 0 <= t < TriCount(g)
    ensures (lo, hi) == (ScanTrack(g, t, eye, normal, n, n).lo, ScanTrack(g, t, eye, normal, n, n).hi)
  {
    CornersOf(g, t);
    var v0, v1, v2 := g.idx[3 * t], g.idx[3 * t + 1], g.idx[3 * t + 2];
    var found := false;
    lo, hi := -1, -1;
    var x := 0;
    while x < n
      invariant 0 <= x <= n
      invariant Tracker(found, lo, hi) == ScanTrack(g, t, eye, normal, x, n)
    {
      if IntersectPlane(g.pos, v0, v1, v2, eye, normal(x)) {
        if !found {
          found := true;
          lo := x;
        }
      } else {
        if found {
          found := false;
          hi := x;
        }
      }
      if x == n - 1 && found {
        hi := x;
      }
      x := x + 1;
    }
  }

  /** The column bound `begin` leaves for triangle t. */
  function ColumnBound(g: Geometry, t: int, eye: Vec3, proj: Projection, dx: nat): (int, int)
    requires WellFormed(g) && 0 <= t < TriCount(g)
  {
    var st := ScanTrack(g, t, eye, proj.columnNormal, dx, dx);
    (st.lo, st.hi)
  }

  /** The row bound `begin` leaves for triangle t. */
  function RowBound(g: Geometry, t: int, eye: Vec3, proj: Projection, dy: nat): (int, int)
    requires WellFormed(g) && 0 <= t < TriCount(g)
  {
    var st := ScanTrack(g, t, eye, proj.rowNormal, dy, dy);
    (st.lo, st.hi)
  }

  /** Triangle t's entry after the column pass of `begin`: its column bound, rows still -1. */
  function ColumnsOnly(g: Geometry, t: int, eye: Vec3, proj: Projection, dx: nat): Bound
    requires WellFormed(g) && 0 <= t < TriCount(g)
  {
    var cols := ColumnBound(g, t, eye, proj, dx);
    Bound(cols.0, -1, cols.1, -1)
  }

  /** The bound `begin` leaves for triangle t: the column pass's entry with its row bound. */
  function BoundOf(g: Geometry, t: int, eye: Vec3, proj: Projection, dx: nat, dy: nat): Bound
    requires WellFormed(g) && 0 <= t < TriCount(g)
  {
    var rows := RowBound(g, t, eye, proj, dy);
    ColumnsOnly(g, t, eye, proj, dx).(ymin := rows.0, ymax := rows.1)
  }

  /** A bound lies on the screen, and a bound that is the sentinel on one axis covers no pixel. */
  lemma {:induction false} BoundFits(g: Geometry, t: int, eye: Vec3, proj: Projection, dx: nat, dy: nat)
    requires WellFormed(g) && 0 <= t < TriCount(g)
    ensures var b := BoundOf(g, t, eye, proj, dx, dy);
      Fits(b, dx, dy) && ((b.xmin == -1 || b.ymin == -1) ==> forall x, y :: !Covers(b, x, y))
  {
    ScanBoundRange(g, t, eye, proj.columnNormal, dx);
    ScanBoundRange(g, t, eye, proj.rowNormal, dy);
  }

  /**
   * A bound lies on the screen, is the sentinel in x exactly when the triangle crosses
   * no column and in y exactly when it crosses no row, and then covers no pixel.
   */
  lemma {:induction false} BoundOfMeaning(g: Geometry, t: int, eye: Vec3, proj: Projection, dx: nat, dy: nat)
    requires WellFormed(g) && 0 <= t < TriCount(g)
    ensures var b := BoundOf(g, t, eye, proj, dx, dy);
      Fits(b, dx, dy) &&
      ((forall x :: 0 <= x < dx ==> !Crossed(g, t, eye, proj.columnNormal(x))) <==> b.xmin == -1 && b.xmax == -1) &&
      ((forall y :: 0 <= y < dy ==> !Crossed(g, t, eye, proj.rowNormal(y))) <==> b.ymin == -1 && b.ymax == -1) &&
      ((b.xmin == -1 || b.ymin == -1) ==> forall x, y :: !Covers(b, x, y))
  {
    ScanBoundRange(g, t, eye, proj.columnNormal, dx);
    ScanBoundRange(g, t, eye, proj.rowNormal, dy);
  }

  // ---------------------------------------------------------------
  // The depth test of draw_indexed_triangles
  // ---------------------------------------------------------------

  /**
   * The test of triangle t on the ray from eye along dir: `intersect_det`, then
   * `intersect_barycentric` when det > epsilon. The result says whether it hits, and at
   * which depth t (always positive on a hit).
   */
  function PixelHit(g: Geometry, t: int, eye: Vec3, dir: Vec3): (r: (bool, real))
    requires WellFormed(g) && 0 <= t < TriCount(g)
    ensures r.0 ==> r.1 > 0.0
  {
    CornersOf(g, t);
    var v0, v1, v2 := g.idx[3 * t], g.idx[3 * t + 1], g.idx[3 * t + 2];
    var pvd := IntersectDet(g.pos, v0, v1, v2, dir);
    if pvd.w > Epsilon then
      var b := Barycentric(g.pos, v0, v1, v2, pvd, eye, dir, Zero4);
      (b.hit, b.tuv.x)
    else (false, 0.0)
  }

  /** The hit record `tuvi` that the draw loop hands to `phong` for triangle t on the ray from eye along dir. */
  function HitRecord(g: Geometry, t: int, eye: Vec3, dir: Vec3): Vec4
    requires WellFormed(g) && 0 <= t < TriCount(g)
  {
    CornersOf(g, t);
    var v0, v1, v2 := g.idx[3 * t], g.idx[3 * t + 1], g.idx[3 * t + 2];
    var pvd := IntersectDet(g.pos, v0, v1, v2, dir);
    if pvd.w > Epsilon then Barycentric(g.pos, v0, v1, v2, pvd, eye, dir, Zero4).tuv else Zero4
  }

  /** The depth of pixel (x, y) after the draw loop has visited it for triangle t, from z. */
  function DepthStep(g: Geometry, bounds: seq<Bound>, proj: Projection, eye: Vec3, t: int, x: int, y: int, z: real)
    : real
    requires WellFormed(g) && 0 <= t < TriCount(g) && t < |bounds|
  {
    var h := PixelHit(g, t, eye, proj.rayDir(x, y));
    if Covers(bounds[t], x, y) && h.0 && z > h.1 then h.1 else z
  }

  /**
   * The strict depth test: the depth only ever goes down, and it goes down exactly when
   * the pixel is covered and hit strictly nearer than before. A hit at the same depth
   * keeps the earlier one.
   */
  lemma {:induction false} DepthStepMeaning(g: Geometry, bounds: seq<Bound>, proj: Projection, eye: Vec3, t: int,
                                            x: int, y: int, z: real)
    requires WellFormed(g) && 0 <= t < TriCount(g) && t < |bounds|
    ensures var h, z' := PixelHit(g, t, eye, proj.rayDir(x, y)), DepthStep(g, bounds, proj, eye, t, x, y, z);
      z' <= z &&
      (z' < z <==> Covers(bounds[t], x, y) && h.0 && h.1 < z) &&
      (Covers(bounds[t], x, y) && h.0 ==> z' <= h.1) &&
      (z' < z ==> z' == h.1)
  {
  }

  /** The depth of pixel (x, y) after triangles first .. upto - 1 have been drawn, from z. */
  function DepthAfter(g: Geometry, bounds: seq<Bound>, proj: Projection, eye: Vec3, first: int, upto: int,
                      x: int, y: int, z: real): real
    requires WellFormed(g) && 0 <= first <= upto <= TriCount(g) && TriCount(g) <= |bounds|
    decreases upto - first
  {
    if upto == first then z
    else DepthStep(g, bounds, proj, eye, upto - 1, x, y, DepthAfter(g, bounds, proj, eye, first, upto - 1, x, y, z))
  }

  /** Triangle t of [first, upto) covers pixel (x, y) and is hit there at depth d. */
  predicate HitsAt(g: Geometry, bounds: seq<Bound>, proj: Projection, eye: Vec3, t: int, first: int, upto: int,
                   x: int, y: int, d: real)
    requires WellFormed(g) && TriCount(g) <= |bounds|
  {
    first <= t < upto && 0 <= t < TriCount(g) && Covers(bounds[t], x, y) &&
    PixelHit(g, t, eye, proj.rayDir(x, y)).0 && PixelHit(g, t, eye, proj.rayDir(x, y)).1 == d
  }

  /**
   * The depth left at a pixel is no larger than the depth it had nor than the depth of
   * any triangle of [first, upto) that covers and hits it.
   */
  lemma {:induction false} DepthAfterIsLowerBound(g: Geometry, bounds: seq<Bound>, proj: Projection, eye: Vec3,
                                                  first: int, upto: int, x: int, y: int, z: real)
    requires WellFormed(g) && 0 <= first <= upto <= TriCount(g) && TriCount(g) <= |bounds|
    ensures var d := DepthAfter(g, bounds, proj, eye, first, upto, x, y, z);
      d <= z &&
      forall t :: first <= t < upto && Covers(bounds[t], x, y) && PixelHit(g, t, eye, proj.rayDir(x, y)).0 ==> d <= PixelHit(g, t, eye, proj.rayDir(x, y)).1
    decreases upto - first
  {
    if upto > first {
      var d' := DepthAfter(g, bounds, proj, eye, first, upto - 1, x, y, z);
      var d := DepthAfter(g, bounds, proj, eye, first, upto, x, y, z);
      DepthAfterIsLowerBound(g, bounds, proj, eye, first, upto - 1, x, y, z);
      DepthStepMeaning(g, bounds, proj, eye, upto - 1, x, y, d');
      assert d <= d';
      forall t | first <= t < upto && Covers(bounds[t], x, y) && PixelHit(g, t, eye, proj.rayDir(x, y)).0
        ensures d <= PixelHit(g, t, eye, proj.rayDir(x, y)).1
      {
        if t < upto - 1 {
          assert d' <= PixelHit(g, t, eye, proj.rayDir(x, y)).1;
        }
      }
    }
  }

  /**
   * The depth left at a pixel is attained: it is the depth the pixel had or the depth of
   * a triangle of [first, upto) that covers and hits it. With the lower bound above, it
   * is the minimum of those.
   */
  lemma {:induction false} DepthAfterIsAttained(g: Geometry, bounds: seq<Bound>, proj: Projection, eye: Vec3,
                                                first: int, upto: int, x: int, y: int, z: real)
    requires WellFormed(g) && 0 <= first <= upto <= TriCount(g) && TriCount(g) <= |bounds|
    ensures var d := DepthAfter(g, bounds, proj, eye, first, upto, x, y, z);
      d == z || exists t :: HitsAt(g, bounds, proj, eye, t, first, upto, x, y, d)
    decreases upto - first
  {
    if upto > first {
      var d' := DepthAfter(g, bounds, proj, eye, first, upto - 1, x, y, z);
      var d := DepthAfter(g, bounds, proj, eye, first, upto, x, y, z);
      DepthAfterIsAttained(g, bounds, proj, eye, first, upto - 1, x, y, z);
      DepthStepMeaning(g, bounds, proj, eye, upto - 1, x, y, d');
      if d != d' {
        assert HitsAt(g, bounds, proj, eye, upto - 1, first, upto, x, y, d);
      } else if d' != z {
        var t :| HitsAt(g, bounds, proj, eye, t, first, upto - 1, x, y, d');
        assert HitsAt(g, bounds, proj, eye, t, first, upto, x, y, d);
      }
    }
  }

  /**
   * What `phong` computes once per call from the hit triangle: the interpolated
   * normal, the hit point on the ray and the interpolated surface colour.
   */
  ghost predicate AtSurface(g: Geometry, i: int, tuv: Vec4, eye: Vec3, dir: Vec3, normal: Vec3, hit: Vec3, surf: Vec4)
    requires WellFormed(g) && 0 <= i < TriCount(g)
  {
    CornersOf(g, i);
    var v0, v1, v2 := g.idx[3 * i], g.idx[3 * i + 1], g.idx[3 * i + 2];
    normal == IntersectNormal(g.normals, v0, v1, v2, tuv) && hit == HitPoint(eye, dir, tuv) &&
    surf == IntersectCol(g.colors, v0, v1, v2, tuv)
  }

  /**
   * Whether the scan of bound b, now at row y and column x, has passed pixel (x', y'):
   * the pixel is covered and comes earlier in row-major order.
   */
  predicate Passed(b: Bound, x': int, y': int, y: int, x: int)
  {
    Covers(b, x', y') && (y' < y || (y' == y && x' < x))
  }

  /**
   * The depth image z (dx by dy, flat) after triangles [first, upto) have been drawn over
   * the image z0 it was before.
   */
  ghost predicate DrawnUpTo(z: seq<real>, z0: seq<real>, dx: int, dy: int, g: Geometry, bounds: seq<Bound>,
                            proj: Projection, eye: Vec3, first: int, upto: int)
    requires WellFormed(g) && 0 <= first <= upto <= TriCount(g) <= |bounds|
  {
    |z| == dx * dy && |z0| == dx * dy &&
    forall x, y :: 0 <= x < dx && 0 <= y < dy ==>
      At(z, dx, dy, x, y) == DepthAfter(g, bounds, proj, eye, first, upto, x, y, At(z0, dx, dy, x, y))
  }

  /**
   * The depth image in the middle of drawing triangle t, the scan of its bound at row y
   * and column x: the pixels passed have been drawn for triangles [first, t], the others
   * for [first, t).
   */
  ghost predicate DrawnWithin(z: seq<real>, z0: seq<real>, dx: int, dy: int, g: Geometry, bounds: seq<Bound>,
                              proj: Projection, eye: Vec3, first: int, t: int, y: int, x: int)
    requires WellFormed(g) && 0 <= first <= t < TriCount(g) <= |bounds|
  {
    |z| == dx * dy && |z0| == dx * dy &&
    forall x', y' :: 0 <= x' < dx && 0 <= y' < dy ==>
      At(z, dx, dy, x', y') ==
        DepthAfter(g, bounds, proj, eye, first, if Passed(bounds[t], x', y', y, x) then t + 1 else t, x', y',
                   At(z0, dx, dy, x', y'))
  }

  /** Drawing triangle t starts with no pixel passed. */
  lemma {:induction false} DrawnWithinStarts(z: seq<real>, z0: seq<real>, dx: int, dy: int, g: Geometry,
                                             bounds: seq<Bound>, proj: Projection, eye: Vec3, first: int, t: int)
    requires WellFormed(g) && 0 <= first <= t < TriCount(g) <= |bounds|
    requires DrawnUpTo(z, z0, dx, dy, g, bounds, proj, eye, first, t)
    ensures DrawnWithin(z, z0, dx, dy, g, bounds, proj, eye, first, t, bounds[t].ymin, bounds[t].xmin)
  {
    forall x', y' | 0 <= x' < dx && 0 <= y' < dy
      ensures !Passed(bounds[t], x', y', bounds[t].ymin, bounds[t].xmin)
    {
    }
  }

  /** Drawing pixel (x, y) of triangle t's bound passes it and leaves every other pixel as it was. */
  lemma {:induction false} DrawnWithinStep(z: seq<real>, z': seq<real>, z0: seq<real>, dx: int, dy: int, g: Geometry,
                                           bounds: seq<Bound>, proj: Projection, eye: Vec3, first: int, t: int,
                                           y: int, x: int)
    requires WellFormed(g) && 0 <= first <= t < TriCount(g) <= |bounds| && Covers(bounds[t], x, y)
    requires DrawnWithin(z, z0, dx, dy, g, bounds, proj, eye, first, t, y, x)
    requires SameElsewhere(z, z', dx, dy, x, y)
    requires At(z', dx, dy, x, y) == DepthStep(g, bounds, proj, eye, t, x, y, At(z, dx, dy, x, y))
    ensures DrawnWithin(z', z0, dx, dy, g, bounds, proj, eye, first, t, y, x + 1)
  {
    forall x', y' | 0 <= x' < dx && 0 <= y' < dy
      ensures At(z', dx, dy, x', y') ==
        DepthAfter(g, bounds, proj, eye, first, if Passed(bounds[t], x', y', y, x + 1) then t + 1 else t, x', y',
                   At(z0, dx, dy, x', y'))
    {
      if x' == x && y' == y {
        assert !Passed(bounds[t], x', y', y, x) && Passed(bounds[t], x', y', y, x + 1);
      } else {
        assert Passed(bounds[t], x', y', y, x) == Passed(bounds[t], x', y', y, x + 1);
      }
    }
  }

  /** The end of row y of the bound is the start of row y + 1. */
  lemma {:induction false} DrawnWithinNextRow(z: seq<real>, z0: seq<real>, dx: int, dy: int, g: Geometry,
                                              bounds: seq<Bound>, proj: Projection, eye: Vec3, first: int, t: int,
                                              y: int)
    requires WellFormed(g) && 0 <= first <= t < TriCount(g) <= |bounds|
    requires DrawnWithin(z, z0, dx, dy, g, bounds, proj, eye, first, t, y, bounds[t].xmax)
    ensures DrawnWithin(z, z0, dx, dy, g, bounds, proj, eye, first, t, y + 1, bounds[t].xmin)
  {
    forall x', y' | 0 <= x' < dx && 0 <= y' < dy
      ensures Passed(bounds[t], x', y', y, bounds[t].xmax) == Passed(bounds[t], x', y', y + 1, bounds[t].xmin)
    {
    }
  }

  /** A row of an empty column range passes nothing. */
  lemma {:induction false} DrawnWithinEmptyRow(z: seq<real>, z0: seq<real>, dx: int, dy: int, g: Geometry,
                                               bounds: seq<Bound>, proj: Projection, eye: Vec3, first: int, t: int,
                                               y: int)
    requires WellFormed(g) && 0 <= first <= t < TriCount(g) <= |bounds| && bounds[t].xmax <= bounds[t].xmin
    requires DrawnWithin(z, z0, dx, dy, g, bounds, proj, eye, first, t, y, bounds[t].xmin)
    ensures DrawnWithin(z, z0, dx, dy, g, bounds, proj, eye, first, t, y, bounds[t].xmax)
  {
    forall x', y' | 0 <= x' < dx && 0 <= y' < dy
      ensures Passed(bounds[t], x', y', y, bounds[t].xmin) == Passed(bounds[t], x', y', y, bounds[t].xmax)
    {
    }
  }

  /**
   * Once the scan is past the last row of the bound, every pixel holds its depth after
   * triangle t: the covered ones were drawn, and t leaves the others alone.
   */
  lemma {:induction false} DrawnWithinEnds(z: seq<real>, z0: seq<real>, dx: int, dy: int, g: Geometry,
                                           bounds: seq<Bound>, proj: Projection, eye: Vec3, first: int, t: int,
                                           y: int)
    requires WellFormed(g) && 0 <= first <= t < TriCount(g) <= |bounds| && y >= bounds[t].ymax
    requires DrawnWithin(z, z0, dx, dy, g, bounds, proj, eye, first, t, y, bounds[t].xmin)
    ensures DrawnUpTo(z, z0, dx, dy, g, bounds, proj, eye, first, t + 1)
  {
    forall x', y' | 0 <= x' < dx && 0 <= y' < dy
      ensures At(z, dx, dy, x', y') == DepthAfter(g, bounds, proj, eye, first, t + 1, x', y', At(z0, dx, dy, x', y'))
    {
      var before := DepthAfter(g, bounds, proj, eye, first, t, x', y', At(z0, dx, dy, x', y'));
      if !Covers(bounds[t], x', y') {
        assert DepthStep(g, bounds, proj, eye, t, x', y', before) == before;
      } else {
        assert Passed(bounds[t], x', y', y, bounds[t].xmin);
      }
    }
  }

  /**
   * The colour image p against the depths z0 and colours p0 from before drawing: no
   * depth went up, and a colour that changed sits on a pixel whose depth went down and
   * fits in 24 bits.
   */
  ghost predicate ColoursFollowDepth(z: seq<real>, p: seq<Word32>, z0: seq<real>, p0: seq<Word32>, dx: int, dy: int)
  {
    |z| == dx * dy && |p| == dx * dy && |z0| == dx * dy && |p0| == dx * dy &&
    forall x, y :: 0 <= x < dx && 0 <= y < dy ==>
      At(z, dx, dy, x, y) <= At(z0, dx, dy, x, y) &&
      (At(p, dx, dy, x, y) == At(p0, dx, dy, x, y) ||
       (At(z, dx, dy, x, y) < At(z0, dx, dy, x, y) && At(p, dx, dy, x, y) as int < 0x100_0000))
  }

  /**
   * Drawing one pixel keeps the colours following the depths: its depth does not go up,
   * and its colour changes only to a 24-bit word together with a lower depth.
   */
  lemma {:induction false} ColoursFollowStep(z: seq<real>, p: seq<Word32>, z': seq<real>, p': seq<Word32>,
                                             z0: seq<real>, p0: seq<Word32>, dx: int, dy: int, x: int, y: int)
    requires ColoursFollowDepth(z, p, z0, p0, dx, dy)
    requires SameElsewhere(z, z', dx, dy, x, y) && At(z', dx, dy, x, y) <= At(z, dx, dy, x, y)
    requires p' == p ||
      (SameElsewhere(p, p', dx, dy, x, y) &&
       At(z', dx, dy, x, y) < At(z, dx, dy, x, y) && At(p', dx, dy, x, y) as int < 0x100_0000)
    ensures ColoursFollowDepth(z', p', z0, p0, dx, dy)
  {
    forall x', y' | 0 <= x' < dx && 0 <= y' < dy
      ensures At(z', dx, dy, x', y') <= At(z0, dx, dy, x', y') &&
        (At(p', dx, dy, x', y') == At(p0, dx, dy, x', y') ||
         (At(z', dx, dy, x', y') < At(z0, dx, dy, x', y') && At(p', dx, dy, x', y') as int < 0x100_0000))
    {
    }
  }

  /** Every cache of ls is -1 or names one of m triangles. */
  predicate CachesBelow(ls: seq<Light>, m: int)
  {
    forall j :: 0 <= j < |ls| ==> -1 <= ls[j].lastHit < m
  }

  /** Every light of a is the one of ls at the same place with, at most, a new cache. */
  predicate SameLights(a: seq<Light>, ls: seq<Light>)
  {
    |a| == |ls| && forall j :: 0 <= j < |ls| ==> a[j] == WithLastHit(ls[j], a[j].lastHit)
  }

  // ---------------------------------------------------------------
  // The renderer
  // ---------------------------------------------------------------

  class Renderer {
    var dx: int
    var dy: int
    var maxobj: int
    var lock: bool
    var cam: Camera
    var vb: VertexBuffer?
    var ib: IndexBuffer?
    var boundTri: array<Bound>
    var zBuffer: ScreenBuffer<real>
    var pixels: ScreenBuffer<Word32>
    var lights: array<Light>
    var lcount: int

    /** The sizes agree: the screen buffers are dx by dy and `bound_tri` holds maxobj entries. */
    ghost predicate Valid()
      reads this, zBuffer, pixels
    {
      dx > 0 && dy > 0 && maxobj > 0 && boundTri.Length == maxobj &&
      zBuffer.Valid() && zBuffer.dx == dx && zBuffer.dy == dy &&
      pixels.Valid() && pixels.dx == dx && pixels.dy == dy &&
      0 <= lcount <= lights.Length
    }

    /** Every entry of `bound_tri` lies on the screen, so the draw loop stays inside the buffers. */
    ghost predicate BoundsFit()
      reads this, boundTri
    {
      forall t :: 0 <= t < boundTri.Length ==> Fits(boundTri[t], dx, dy)
    }

    /** Both buffers are set. */
    ghost predicate HasBuffers()
      reads this, vb, ib
    {
      vb != null && ib != null && vb.Valid() && ib.Valid()
    }

    /** The geometry the renderer reads through its buffers. */
    function Scene(): (g: Geometry)
      reads this, vb, ib, (if vb != null then {vb.popt} else {}), (if ib != null then {ib.pi} else {})
      requires HasBuffers()
      ensures TriCount(g) == ib.Size() / 3 && |g.pos| == vb.nb
    {
      Geometry(vb.Plane(0), vb.Plane(1), vb.Plane(2), ib.Contents())
    }

    /** The buffers are set and every index names a vertex (what each triangle routine asserts). */
    ghost predicate SceneReady()
      reads this, vb, ib, (if vb != null then {vb.popt} else {}), (if ib != null then {ib.pi} else {})
    {
      HasBuffers() && WellFormed(Scene())
    }

    /** Every light's cached occluder is -1 or names a triangle of the scene. */
    ghost predicate CachesInRange()
      reads this, lights, vb, ib, (if vb != null then {vb.popt} else {}), (if ib != null then {ib.pi} else {})
    {
      SceneReady() && 0 <= lcount <= lights.Length &&
      forall j :: 0 <= j < lcount ==> -1 <= lights[j].lastHit < TriCount(Scene())
    }

    /**
     * `render(w, x, y, obj)`: requires a positive screen size and object count; starts
     * unlocked with no buffers and no lights, `bound_tri` zeroed. The camera starts as
     * given (its default constructor is not part of this model).
     */
    constructor (x: int, y: int, obj: int, c: Camera)
      requires x > 0 && y > 0 && obj > 0
      ensures Valid() && BoundsFit() && !lock && lcount == 0 && vb == null && ib == null && cam == c
      ensures dx == x && dy == y && maxobj == obj
      ensures fresh(boundTri) && fresh(zBuffer) && fresh(pixels) && fresh(lights)
      ensures fresh(zBuffer.pv) && fresh(pixels.pv)
    {
      boundTri := new Bound[obj](_ => Bound(0, 0, 0, 0));
      zBuffer := new ScreenBuffer<real>(x, y);
      pixels := new ScreenBuffer<Word32>(x, y);
      vb := null;
      ib := null;
      lights := new Light[0];
      lcount := 0;
      cam := c;
      dx := x;
      dy := y;
      maxobj := obj;
      lock := false;
    }

    /** `is_locked()`: whether the renderer is between `begin` and `end`. */
    function IsLocked(): (b: bool)
      reads this
      ensures b <==> lock
    {
      lock
    }

    /** `end()`: unlocks; nothing else changes. */
    method End()
      modifies this`lock
      ensures !lock
    {
      lock := false;
    }

    /** `set_camera(c)`: replaces the camera, locked or not. */
    method SetCamera(c: Camera)
      modifies this`cam
      ensures cam == c
    {
      cam := c;
    }

    /** `set_vertex_buffer(vb)`: requires the renderer unlocked and a buffer. */
    method SetVertexBuffer(v: VertexBuffer)
      requires !lock && v.Valid()
      modifies this`vb
      ensures vb == v
    {
      vb := v;
    }

    /** `set_index_buffer(ib)`: requires the renderer unlocked and a size divisible by 3. */
    method SetIndexBuffer(b: IndexBuffer)
      requires !lock && b.Valid() && b.Size() % 3 == 0
      modifies this`ib
      ensures ib == b
    {
      ib := b;
    }

    /**
     * `begin()`: requires the renderer unlocked with both buffers set, and (unchecked in
     * the source) no more triangles than `bound_tri` holds. Every triangle's bound is
     * reset to -1 and then set from the column sweep and the row sweep; the renderer
     * locks and reports it.
     */
    method Begin(proj: Projection) returns (locked: bool)
      requires Valid() && BoundsFit() && !lock && SceneReady() && TriCount(Scene()) <= maxobj
      modifies this`lock, boundTri
      ensures Valid() && BoundsFit() && lock && locked
      ensures forall t :: 0 <= t < TriCount(Scene()) ==> boundTri[t] == BoundOf(Scene(), t, cam.pos, proj, dx, dy)
      ensures forall t :: TriCount(Scene()) <= t < boundTri.Length ==> boundTri[t] == old(boundTri[t])
    {
      var g := Scene();
      var n := ib.Size() / 3;
      SweepBounds(boundTri, g, n, cam.pos, proj, dx, dy);
      lock := true;
      locked := lock;
      assert Scene() == g;
    }

    /**
     * The two passes of `begin` over `bound_tri`: every triangle of [0, n) gets its
     * bound, which lies on the screen; the other entries are kept.
     */
    static method SweepBounds(a: array<Bound>, g: Geometry, n: int, eye: Vec3, proj: Projection, dx: nat, dy: nat)
      requires WellFormed(g) && n == TriCount(g) <= a.Length
      modifies a
      ensures forall t :: 0 <= t < n ==> a[t] == BoundOf(g, t, eye, proj, dx, dy) && Fits(a[t], dx, dy)
      ensures forall t :: n <= t < a.Length ==> a[t] == old(a[t])
    {
      SweepColumns(a, g, n, eye, proj, dx);
      SweepRows(a, g, n, eye, proj, dx, dy);
      forall t | 0 <= t < n
        ensures Fits(a[t], dx, dy)
      {
        BoundFits(g, t, eye, proj, dx, dy);
      }
    }

    /** The column pass of `begin`: triangles [0, n) get their column bounds and rows -1. */
    static method SweepColumns(a: array<Bound>, g: Geometry, n: int, eye: Vec3, proj: Projection, dx: nat)
      requires WellFormed(g) && n == TriCount(g) <= a.Length
      modifies a
      ensures forall t :: 0 <= t < n ==> a[t] == ColumnsOnly(g, t, eye, proj, dx)
      ensures forall t :: n <= t < a.Length ==> a[t] == old(a[t])
    {
      var i := 0;
      while i < n
        invariant 0 <= i <= n
        invariant forall t :: 0 <= t < i ==> a[t] == ColumnsOnly(g, t, eye, proj, dx)
        invariant forall t :: i <= t < a.Length ==> a[t] == old(a[t])
      {
        a[i] := NoBound;
        var lo, hi := ScanLines(g, i, eye, proj.columnNormal, dx);
        a[i] := a[i].(xmin := lo, xmax := hi);
        i := i + 1;
      }
    }

    /** The row pass of `begin`: triangles [0, n) get their row bounds. */
    static method SweepRows(a: array<Bound>, g: Geometry, n: int, eye: Vec3, proj: Projection, dx: nat, dy: nat)
      requires WellFormed(g) && n == TriCount(g) <= a.Length
      requires forall t :: 0 <= t < n ==> a[t] == ColumnsOnly(g, t, eye, proj, dx)
      modifies a
      ensures forall t :: 0 <= t < n ==> a[t] == BoundOf(g, t, eye, proj, dx, dy)
      ensures forall t :: n <= t < a.Length ==> a[t] == old(a[t])
    {
      var i := 0;
      while i < n
        invariant 0 <= i <= n
        invariant forall t :: 0 <= t < i ==> a[t] == BoundOf(g, t, eye, proj, dx, dy)
        invariant forall t :: i <= t < n ==> a[t] == ColumnsOnly(g, t, eye, proj, dx)
        invariant forall t :: n <= t < a.Length ==> a[t] == old(a[t])
      {
        var lo, hi := ScanLines(g, i, eye, proj.rowNormal, dy);
        a[i] := a[i].(ymin := lo, ymax := hi);
        i := i + 1;
      }
    }

    /**
     * `draw_indexed_triangles(first, last)`: requires the lock and 0 <= first <= last <
     * the triangle count; draws triangles first .. last in order over their bounds. Every
     * depth cell ends as `DepthAfter` over those triangles (the nearest strictly better
     * hit in their bounds, see `DepthAfterIsLowerBound` and `DepthAfterIsAttained`); a
     * colour cell changes only where the depth went down, and then to a 24-bit word;
     * lights keep everything but their caches, which stay in range.
     */
    method Draw(first: int, last: int, proj: Projection, num: Numerics) returns (ok: bool)
      requires Valid() && BoundsFit() && CachesInRange() && lock && lcount > 0
      requires 0 <= first <= last < TriCount(Scene()) <= boundTri.Length
      modifies zBuffer.pv, pixels.pv, lights
      ensures ok && CachesInRange()
      ensures DrawnUpTo(zBuffer.pv[..], old(zBuffer.pv[..]), dx, dy, Scene(), boundTri[..], proj, cam.pos, first, last + 1)
      ensures ColoursFollowDepth(zBuffer.pv[..], pixels.pv[..], old(zBuffer.pv[..]), old(pixels.pv[..]), dx, dy)
      ensures SameLights(lights[..lcount], old(lights[..lcount]))
    {
      var g := Scene();
      DrawRange(zBuffer, pixels, lights, lcount, boundTri, g, cam.pos, proj, num, first, last);
      ok := true;
    }

    /** The triangle loop of `draw_indexed_triangles` over the scene's values. */
    static method DrawRange(zb: ScreenBuffer<real>, pb: ScreenBuffer<Word32>, a: array<Light>, n: int,
                            bt: array<Bound>, g: Geometry, eye: Vec3, proj: Projection, num: Numerics,
                            first: int, last: int)
      requires zb.Valid() && pb.Valid() && pb.dx == zb.dx && pb.dy == zb.dy
      requires WellFormed(g) && 0 <= first <= last < TriCount(g) <= bt.Length
      requires forall t :: 0 <= t < bt.Length ==> Fits(bt[t], zb.dx, zb.dy)
      requires 0 < n <= a.Length && CachesBelow(a[..n], TriCount(g))
      modifies zb.pv, pb.pv, a
      ensures CachesBelow(a[..n], TriCount(g)) && SameLights(a[..n], old(a[..n]))
      ensures DrawnUpTo(zb.pv[..], old(zb.pv[..]), zb.dx, zb.dy, g, bt[..], proj, eye, first, last + 1)
      ensures ColoursFollowDepth(zb.pv[..], pb.pv[..], old(zb.pv[..]), old(pb.pv[..]), zb.dx, zb.dy)
    {
      ghost var z0, p0, ls := zb.pv[..], pb.pv[..], a[..n];
      var obji := first;
      while obji <= last
        invariant first <= obji <= last + 1
        invariant CachesBelow(a[..n], TriCount(g)) && SameLights(a[..n], ls)
        invariant DrawnUpTo(zb.pv[..], z0, zb.dx, zb.dy, g, bt[..], proj, eye, first, obji)
        invariant ColoursFollowDepth(zb.pv[..], pb.pv[..], z0, p0, zb.dx, zb.dy)
      {
        DrawTriangle(zb, pb, a, n, bt, g, eye, proj, num, first, obji, z0, p0, ls);
        obji := obji + 1;
      }
    }

    /** Triangle t: the rows [ymin, ymax) of its bound, in ascending order. */
    static method DrawTriangle(zb: ScreenBuffer<real>, pb: ScreenBuffer<Word32>, a: array<Light>, n: int,
                               bt: array<Bound>, g: Geometry, eye: Vec3, proj: Projection, num: Numerics,
                               ghost first: int, t: int, ghost z0: seq<real>, ghost p0: seq<Word32>,
                               ghost ls: seq<Light>)
      requires zb.Valid() && pb.Valid() && pb.dx == zb.dx && pb.dy == zb.dy
      requires WellFormed(g) && 0 <= first <= t < TriCount(g) <= bt.Length && Fits(bt[t], zb.dx, zb.dy)
      requires 0 < n <= a.Length && CachesBelow(a[..n], TriCount(g)) && SameLights(a[..n], ls)
      requires DrawnUpTo(zb.pv[..], z0, zb.dx, zb.dy, g, bt[..], proj, eye, first, t)
      requires ColoursFollowDepth(zb.pv[..], pb.pv[..], z0, p0, zb.dx, zb.dy)
      modifies zb.pv, pb.pv, a
      ensures CachesBelow(a[..n], TriCount(g)) && SameLights(a[..n], ls)
      ensures DrawnUpTo(zb.pv[..], z0, zb.dx, zb.dy, g, bt[..], proj, eye, first, t + 1)
      ensures ColoursFollowDepth(zb.pv[..], pb.pv[..], z0, p0, zb.dx, zb.dy)
    {
      ghost var bounds := bt[..];
      var b := bt[t];
      DrawnWithinStarts(zb.pv[..], z0, zb.dx, zb.dy, g, bounds, proj, eye, first, t);
      var y := b.ymin;
      while y < b.ymax
        invariant b.ymin <= y && (b.ymin < b.ymax ==> y <= b.ymax)
        invariant CachesBelow(a[..n], TriCount(g)) && SameLights(a[..n], ls)
        invariant DrawnWithin(zb.pv[..], z0, zb.dx, zb.dy, g, bounds, proj, eye, first, t, y, b.xmin)
        invariant ColoursFollowDepth(zb.pv[..], pb.pv[..], z0, p0, zb.dx, zb.dy)
      {
        DrawRow(zb, pb, a, n, bt, g, eye, proj, num, first, t, y, z0, p0, ls);
        DrawnWithinNextRow(zb.pv[..], z0, zb.dx, zb.dy, g, bounds, proj, eye, first, t, y);
        y := y + 1;
      }
      DrawnWithinEnds(zb.pv[..], z0, zb.dx, zb.dy, g, bounds, proj, eye, first, t, y);
    }

    /** Row y of triangle t's bound: the columns [xmin, xmax), in ascending order. */
    static method DrawRow(zb: ScreenBuffer<real>, pb: ScreenBuffer<Word32>, a: array<Light>, n: int,
                          bt: array<Bound>, g: Geometry, eye: Vec3, proj: Projection, num: Numerics,
                          ghost first: int, t: int, y: int, ghost z0: seq<real>, ghost p0: seq<Word32>,
                          ghost ls: seq<Light>)
      requires zb.Valid() && pb.Valid() && pb.dx == zb.dx && pb.dy == zb.dy
      requires WellFormed(g) && 0 <= first <= t < TriCount(g) <= bt.Length && Fits(bt[t], zb.dx, zb.dy)
      requires bt[t].ymin <= y < bt[t].ymax
      requires 0 < n <= a.Length && CachesBelow(a[..n], TriCount(g)) && SameLights(a[..n], ls)
      requires DrawnWithin(zb.pv[..], z0, zb.dx, zb.dy, g, bt[..], proj, eye, first, t, y, bt[t].xmin)
      requires ColoursFollowDepth(zb.pv[..], pb.pv[..], z0, p0, zb.dx, zb.dy)
      modifies zb.pv, pb.pv, a
      ensures CachesBelow(a[..n], TriCount(g)) && SameLights(a[..n], ls)
      ensures DrawnWithin(zb.pv[..], z0, zb.dx, zb.dy, g, bt[..], proj, eye, first, t, y, bt[t].xmax)
      ensures ColoursFollowDepth(zb.pv[..], pb.pv[..], z0, p0, zb.dx, zb.dy)
    {
      ghost var bounds := bt[..];
      var b := bt[t];
      var x := b.xmin;
      while x < b.xmax
        invariant b.xmin <= x && (b.xmin < b.xmax ==> x <= b.xmax)
        invariant CachesBelow(a[..n], TriCount(g)) && SameLights(a[..n], ls)
        invariant DrawnWithin(zb.pv[..], z0, zb.dx, zb.dy, g, bounds, proj, eye, first, t, y, x)
        invariant ColoursFollowDepth(zb.pv[..], pb.pv[..], z0, p0, zb.dx, zb.dy)
      {
        DrawColumn(zb, pb, a, n, g, bounds, eye, proj, num, first, t, y, x, z0, p0, ls);
        x := x + 1;
      }
      if b.xmax <= b.xmin {
        DrawnWithinEmptyRow(zb.pv[..], z0, zb.dx, zb.dy, g, bounds, proj, eye, first, t, y);
      }
    }

    /** One turn of the column loop: pixel (x, y) of triangle t's bound is drawn and passed. */
    static method DrawColumn(zb: ScreenBuffer<real>, pb: ScreenBuffer<Word32>, a: array<Light>, n: int,
                             g: Geometry, ghost bounds: seq<Bound>, eye: Vec3, proj: Projection, num: Numerics,
                             ghost first: int, t: int, y: int, x: int, ghost z0: seq<real>, ghost p0: seq<Word32>,
                             ghost ls: seq<Light>)
      requires zb.Valid() && pb.Valid() && pb.dx == zb.dx && pb.dy == zb.dy && zb.InRange(x, y)
      requires WellFormed(g) && 0 <= first <= t < TriCount(g) <= |bounds| && Covers(bounds[t], x, y)
      requires 0 < n <= a.Length && CachesBelow(a[..n], TriCount(g)) && SameLights(a[..n], ls)
      requires DrawnWithin(zb.pv[..], z0, zb.dx, zb.dy, g, bounds, proj, eye, first, t, y, x)
      requires ColoursFollowDepth(zb.pv[..], pb.pv[..], z0, p0, zb.dx, zb.dy)
      modifies zb.pv, pb.pv, a
      ensures CachesBelow(a[..n], TriCount(g)) && SameLights(a[..n], ls)
      ensures DrawnWithin(zb.pv[..], z0, zb.dx, zb.dy, g, bounds, proj, eye, first, t, y, x + 1)
      ensures ColoursFollowDepth(zb.pv[..], pb.pv[..], z0, p0, zb.dx, zb.dy)
    {
      ghost var z, p := zb.pv[..], pb.pv[..];
      DrawPixel(zb, pb, a, n, g, bounds, t, x, y, eye, proj, num);
      DrawnWithinStep(z, zb.pv[..], z0, zb.dx, zb.dy, g, bounds, proj, eye, first, t, y, x);
      ColoursFollowStep(z, p, zb.pv[..], pb.pv[..], z0, p0, zb.dx, zb.dy, x, y);
    }

    /**
     * The body of the draw loop at pixel (x, y) for triangle t: the ray through the pixel
     * is tested (`intersect_det`, then `intersect_barycentric` when det > epsilon), and
     * on a hit strictly nearer than the stored depth the depth is overwritten and the
     * colour cell gets `phong`'s word. The hit record starts at zero; its w lane, which
     * the source carries over from earlier pixels, plays no part.
     */
    static method DrawPixel(zb: ScreenBuffer<real>, pb: ScreenBuffer<Word32>, a: array<Light>, n: int, g: Geometry,
                            ghost bounds: seq<Bound>, t: int, x: int, y: int, eye: Vec3, proj: Projection,
                            num: Numerics)
      requires zb.Valid() && pb.Valid() && pb.dx == zb.dx && pb.dy == zb.dy && zb.InRange(x, y)
      requires WellFormed(g) && 0 <= t < TriCount(g) <= |bounds| && Covers(bounds[t], x, y)
      requires 0 < n <= a.Length && CachesBelow(a[..n], TriCount(g))
      modifies zb.pv, pb.pv, a
      ensures CachesBelow(a[..n], TriCount(g)) && SameLights(a[..n], old(a[..n]))
      ensures SameElsewhere(old(zb.pv[..]), zb.pv[..], zb.dx, zb.dy, x, y)
      ensures At(zb.pv[..], zb.dx, zb.dy, x, y) ==
        DepthStep(g, bounds, proj, eye, t, x, y, At(old(zb.pv[..]), zb.dx, zb.dy, x, y))
      ensures pb.pv[..] == old(pb.pv[..]) ||
        (SameElsewhere(old(pb.pv[..]), pb.pv[..], zb.dx, zb.dy, x, y) &&
         At(zb.pv[..], zb.dx, zb.dy, x, y) < At(old(zb.pv[..]), zb.dx, zb.dy, x, y) &&
         At(pb.pv[..], zb.dx, zb.dy, x, y) as int < 0x100_0000)
      ensures var dir := proj.rayDir(x, y);
        var r := Lighting(g, t, HitRecord(g, t, eye, dir), eye, dir, num, old(a[..n]));
        if At(zb.pv[..], zb.dx, zb.dy, x, y) < At(old(zb.pv[..]), zb.dx, zb.dy, x, y)
        then At(pb.pv[..], zb.dx, zb.dy, x, y) as int == ClampRGBA(r.0) && a[..n] == r.1
        else pb.pv[..] == old(pb.pv[..]) && a[..n] == old(a[..n])
    {
      var dir := proj.rayDir(x, y);
      CornersOf(g, t);
      var v0, v1, v2 := g.idx[3 * t], g.idx[3 * t + 1], g.idx[3 * t + 2];
      var pvd := IntersectDet(g.pos, v0, v1, v2, dir);
      if pvd.w > Epsilon {
        var hit, tuv := IntersectBarycentric(g.pos, v0, v1, v2, pvd, eye, dir, Zero4);
        if hit && zb.Get(x, y) > tuv.x {
          zb.Set(x, y, tuv.x);
          PaintPixel(pb, a, n, g, t, tuv, eye, dir, num, x, y);
        }
      }
    }

    /** `(*pisb)(x, y) = phong(tuvi, dir, obji)`: the colour cell gets `phong`'s word, and the lights their new caches. */
    static method PaintPixel(pb: ScreenBuffer<Word32>, a: array<Light>, n: int, g: Geometry, t: int, tuv: Vec4,
                             eye: Vec3, dir: Vec3, num: Numerics, x: int, y: int)
      requires pb.Valid() && pb.InRange(x, y)
      requires WellFormed(g) && 0 <= t < TriCount(g) && 0 < n <= a.Length && CachesBelow(a[..n], TriCount(g))
      modifies pb.pv, a
      ensures CachesBelow(a[..n], TriCount(g)) && SameLights(a[..n], old(a[..n]))
      ensures SameElsewhere(old(pb.pv[..]), pb.pv[..], pb.dx, pb.dy, x, y)
      ensures var r := Lighting(g, t, tuv, eye, dir, num, old(a[..n]));
        At(pb.pv[..], pb.dx, pb.dy, x, y) as int == ClampRGBA(r.0) && a[..n] == r.1
    {
      ghost var ls := a[..n];
      var w := Phong(a, n, g, t, tuv, eye, dir, num);
      pb.Set(x, y, w);
      LightingKeepsLights(g, t, tuv, eye, dir, num, ls);
    }

    /**
     * `add_light(l)`: the light array grows by one (a new array, the old lights copied
     * over in order), l is placed last, and the new count is returned.
     */
    method AddLight(l: Light) returns (n: int)
      requires Valid()
      modifies this`lights, this`lcount
      ensures Valid() && fresh(lights)
      ensures lcount == old(lcount) + 1 && n == lcount
      ensures lights[..lcount] == old(lights[..lcount]) + [l]
    {
      var count, src := lcount, lights;
      var temp: array<Light>;
      if count > 0 {
        temp := new Light[count + 1];
        var k := 0;
        while k < count
          modifies temp
          invariant 0 <= k <= count
          invariant temp[..k] == src[..k]
        {
          temp[k] := src[k];
          k := k + 1;
        }
      } else {
        temp := new Light[1];
      }
      temp[count] := l;
      assert temp[..count + 1] == temp[..count] + [l];
      lights := temp;
      lcount := lcount + 1;
      n := lcount;
    }

    /**
     * `clear_buffer()`: every depth cell is set to `minirt_huge` and every colour cell to
     * the background of the lights (with the channel carry corrected, see `Background`).
     */
    method ClearBuffer()
      requires Valid()
      modifies zBuffer.pv, pixels.pv
      ensures Valid()
      ensures forall x, y :: zBuffer.InRange(x, y) ==> zBuffer.Get(x, y) == Huge
      ensures forall x, y :: pixels.InRange(x, y) ==> pixels.Get(x, y) as int == Background(lights[..lcount])
    {
      var back := Zero4;
      var i := 0;
      while i < lcount
        invariant 0 <= i <= lcount
        invariant back == AmbientSum(lights[..i])
      {
        assert lights[..i + 1][..i] == lights[..i];
        back := AddAssign4(back, lights[i].ambient);
        i := i + 1;
      }
      assert lights[..lcount][..lcount] == lights[..lcount];
      zBuffer.Clear(Huge);
      pixels.Clear(ClampRGBA(back) as Word32);
    }

    /**
     * The visibility part of `phong` for one light l at the hit point: no shadow test when
     * the light faces away (`ndotl < epsilon`); otherwise the cached occluder, when it is
     * neither -1 nor triangle i, is retested up to the light's distance less epsilon, and
     * only if it no longer occludes are the other triangles scanned in ascending order up
     * to 1000, the first occluder becoming the cache. The outcome is `Decide`'s.
     */
    static method Visibility(g: Geometry, i: int, l: Light, hit: Vec3, toLight: Vec3, ndotl: real, num: Numerics)
      returns (visible: bool, cache: int)
      requires WellFormed(g) && 0 <= i < TriCount(g) && -1 <= l.lastHit < TriCount(g)
      ensures var away := Sub3(hit, l.position);
        var occ := CachedOccludes(g, i, l.lastHit, hit, toLight, num.sqrt(Dot3(away, away)) - Epsilon);
        Decision(visible, cache) == Decide(ndotl, l.lastHit, i, occ, FirstOccluder(g, 0, l.lastHit, i, hit, toLight))
    {
      var last := l.lastHit;
      cache := last;
      visible := true;
      if ndotl < Epsilon {
        visible := false;
      }
      if visible {
        if last != i && last != -1 {
          var away := Sub3(hit, l.position);
          if ShadowHitTri(g, last, hit, toLight, Epsilon, num.sqrt(Dot3(away, away)) - Epsilon) {
            visible := false;
          }
        }
        if visible {
          ghost var first := FirstOccluder(g, 0, last, i, hit, toLight);
          var k := 0;
          while k < TriCount(g)
            invariant 0 <= k <= TriCount(g)
            invariant FirstOccluder(g, k, last, i, hit, toLight) == first
          {
            if k != last && k != i {
              if ShadowHitTri(g, k, hit, toLight, Epsilon, ScanReach) {
                visible := false;
                cache := k;
                break;
              }
            }
            k := k + 1;
          }
        }
      }
    }

    /**
     * The colour part of `phong` for one light, with the source's `+=` and `|=` steps:
     * the result is `Shade`.
     */
    static method AddTerms(col: Vec4, l: Light, ndotl: real, visible: bool, surf: Vec4) returns (c: Vec4)
      ensures c == Shade(col, l, ndotl, visible, surf)
    {
      c := col;
      if visible {
        if ndotl > SpecularFrom {
          c := AddAssign4(c, l.ambient);
          c := AddAssign4(c, Scale4(l.diffuse, ndotl));
          c := MulAssign4(c, surf);
          c := AddAssign4(c, Scale4(l.specular, (ndotl - SpecularFrom) * 10.0));
        } else {
          c := AddAssign4(c, l.ambient);
          c := AddAssign4(c, Scale4(l.diffuse, ndotl));
          c := MulAssign4(c, surf);
        }
      } else {
        c := AddAssign4(c, l.ambient);
        c := MulAssign4(c, surf);
      }
    }

    /**
     * One turn of `phong`'s light loop, given the normal, hit point and surface colour
     * computed once before it: the light's visibility and cache (`Visibility`) and the
     * colour with its terms added (`AddTerms`) are those of `LightStep`.
     */
    static method ShadeLight(g: Geometry, i: int, tuv: Vec4, eye: Vec3, dir: Vec3, num: Numerics, col: Vec4, l: Light,
                             normal: Vec3, hit: Vec3, surf: Vec4) returns (c: Vec4, cache: int)
      requires WellFormed(g) && 0 <= i < TriCount(g) && -1 <= l.lastHit < TriCount(g)
      requires AtSurface(g, i, tuv, eye, dir, normal, hit, surf)
      ensures (c, WithLastHit(l, cache)) == LightStep(g, i, tuv, eye, dir, num, col, l)
    {
      var toLight := num.normalize(Sub3(l.position, hit));
      var ndotl := Dot3(normal, toLight);
      var visible;
      visible, cache := Visibility(g, i, l, hit, toLight, ndotl, num);
      c := AddTerms(col, l, ndotl, visible, surf);
    }

    /**
     * `phong`'s light loop over the first n lights of a, from a black colour: each
     * light's cache is written only when it changes.
     */
    static method ShadeLights(a: array<Light>, n: int, g: Geometry, i: int, tuv: Vec4, eye: Vec3, dir: Vec3,
                              num: Numerics, normal: Vec3, hit: Vec3, surf: Vec4) returns (col: Vec4)
      requires WellFormed(g) && 0 <= i < TriCount(g) && 0 <= n <= a.Length
      requires CachesBelow(a[..n], TriCount(g))
      requires AtSurface(g, i, tuv, eye, dir, normal, hit, surf)
      modifies a
      ensures (col, a[..n]) == Lighting(g, i, tuv, eye, dir, num, old(a[..n]))
      ensures forall k :: n <= k < a.Length ==> a[k] == old(a[k])
    {
      ghost var ls := a[..n];
      col := Vec4(0.0, 0.0, 0.0, 0.0);
      var j := 0;
      while j < n
        invariant 0 <= j <= n
        invariant (col, a[..j]) == Lighting(g, i, tuv, eye, dir, num, ls[..j])
        invariant a[j..n] == ls[j..]
        invariant forall k :: n <= k < a.Length ==> a[k] == old(a[k])
      {
        col := ShadeTurn(a, j, n, ls, g, i, tuv, eye, dir, num, normal, hit, surf, col);
        j := j + 1;
      }
      assert ls[..n] == ls;
    }

    /** Turn j of `phong`'s light loop: light j is shaded and its cache written when it changes. */
    static method ShadeTurn(a: array<Light>, j: int, n: int, ghost ls: seq<Light>, g: Geometry, i: int, tuv: Vec4,
                            eye: Vec3, dir: Vec3, num: Numerics, normal: Vec3, hit: Vec3, surf: Vec4, col: Vec4)
      returns (c: Vec4)
      requires WellFormed(g) && 0 <= i < TriCount(g) && 0 <= j < n <= a.Length && |ls| == n
      requires forall k :: 0 <= k < n ==> -1 <= ls[k].lastHit < TriCount(g)
      requires AtSurface(g, i, tuv, eye, dir, normal, hit, surf)
      requires (col, a[..j]) == Lighting(g, i, tuv, eye, dir, num, ls[..j])
      requires a[j..n] == ls[j..]
      modifies a
      ensures (c, a[..j + 1]) == Lighting(g, i, tuv, eye, dir, num, ls[..j + 1])
      ensures a[j + 1..n] == ls[j + 1..]
      ensures forall k :: n <= k < a.Length ==> a[k] == old(a[k])
    {
      var l := a[j];
      assert l == ls[j];
      var cache;
      c, cache := ShadeLight(g, i, tuv, eye, dir, num, col, l, normal, hit, surf);
      if cache != l.lastHit {
        a[j] := WithLastHit(l, cache);
      }
      LightingSnoc(g, i, tuv, eye, dir, num, ls, j);
      assert a[..j + 1] == a[..j] + [a[j]];
    }

    /**
     * `phong(tuvi, dir, i)`, with the renderer's light array a, its count n, the scene g
     * and the camera position eye passed in: requires triangle i of the scene and at
     * least one light. The normal, hit point and surface colour of triangle i at tuv are
     * computed once, then the lights are visited in order; each one's visibility is
     * decided, its cache written when the scan found a new occluder, and its terms added
     * to the colour. The packed colour and the updated lights are those of `Lighting`.
     */
    static method Phong(a: array<Light>, n: int, g: Geometry, i: int, tuv: Vec4, eye: Vec3, dir: Vec3, num: Numerics)
      returns (w: Word32)
      requires WellFormed(g) && 0 <= i < TriCount(g) && 0 < n <= a.Length && CachesBelow(a[..n], TriCount(g))
      modifies a
      ensures var r := Lighting(g, i, tuv, eye, dir, num, old(a[..n]));
        w as int == ClampRGBA(r.0) && a[..n] == r.1
      ensures forall j :: n <= j < a.Length ==> a[j] == old(a[j])
    {
      CornersOf(g, i);
      var v0, v1, v2 := g.idx[3 * i], g.idx[3 * i + 1], g.idx[3 * i + 2];
      var normal := IntersectNormal(g.normals, v0, v1, v2, tuv);
      var hit := HitPoint(eye, dir, tuv);
      var surf := IntersectCol(g.colors, v0, v1, v2, tuv);
      var col := ShadeLights(a, n, g, i, tuv, eye, dir, num, normal, hit, surf);
      w := ClampRGBA(col) as Word32;
    }
  }
}
