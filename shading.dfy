/**
 * The colour side of miniRT's renderer: packing a colour into a pixel word
 * (`clampRGBA`), the background word of `clear_buffer`, and the per-light lighting
 * and shadow-cache policy of `phong`.
 */
module Shading {
  import opened VecMath
  import opened Lights
  import opened Triangles

  // ---------------------------------------------------------------
  // clampRGBA
  // ---------------------------------------------------------------

  /** C's float-to-int conversion: truncation toward zero. */
  function Truncate(x: real): (n: int)
    ensures x >= 0.0 ==> n as real <= x < n as real + 1.0
    ensures x < 0.0 ==> n as real - 1.0 < x <= n as real
  {
    if x >= 0.0 then x.Floor else -((-x).Floor)
  }

  /** One channel of `clampRGBA`: `(int)(c * 256)` clamped to [0, 255]. */
  function Channel(c: real): (n: int)
    ensures 0 <= n <= 255
    ensures c * 256.0 < 1.0 ==> n == 0
    ensures c * 256.0 >= 255.0 ==> n == 255
    ensures 1.0 <= c * 256.0 < 255.0 ==> n as real <= c * 256.0 < n as real + 1.0
  {
    var i := Truncate(c * 256.0);
    if i < 0 then 0 else if i > 255 then 255 else i
  }

  /**
   * `clampRGBA(v)`: the red, green and blue channels packed as `(b<<16)+(g<<8)+r`. The
   * word fits in 24 bits and each byte unpacks to its channel; alpha is converted but
   * never packed.
   */
  function ClampRGBA(v: Vec4): (w: int)
    ensures 0 <= w < 0x100_0000
    ensures w % 256 == Channel(v.x) && (w / 256) % 256 == Channel(v.y) && w / 65536 == Channel(v.z)
  {
    var r := Channel(v.x);
    var g := Channel(v.y);
    var b := Channel(v.z);
    var a := Channel(v.w);
    b * 65536 + g * 256 + r
  }

  /** The packed word does not depend on alpha. */
  lemma {:induction false} ClampIgnoresAlpha(v: Vec4, a: real)
    ensures ClampRGBA(v.(w := a)) == ClampRGBA(v)
  {
    assert Xyz(v.(w := a)) == Xyz(v);
  }

  /** Packing is injective on the colour channels: equal words mean equal channels. */
  lemma {:induction false} ClampRGBAUnpacks(v: Vec4, v': Vec4)
    ensures ClampRGBA(v) == ClampRGBA(v') <==>
      Channel(v.x) == Channel(v'.x) && Channel(v.y) == Channel(v'.y) && Channel(v.z) == Channel(v'.z)
  {
  }

  // ---------------------------------------------------------------
  // clear_buffer's background word
  // ---------------------------------------------------------------

  /** 2^32: `unsigned int` arithmetic wraps modulo this. */
  const Word: int := 0x1_0000_0000

  /** The sum of the packed ambient words of lights[..n]. */
  function SumOfPackedAmbients(lights: seq<Light>): int
  {
    if |lights| == 0 then 0
    else SumOfPackedAmbients(lights[..|lights| - 1]) + ClampRGBA(lights[|lights| - 1].ambient)
  }

  /**
   * `clear_buffer` as written: the packed ambient words of the lights added up in an
   * `unsigned int`, so a channel that overflows carries into the next one.
   */
  function BackgroundAsWritten(lights: seq<Light>): int
  {
    SumOfPackedAmbients(lights) % Word
  }

  /** The channels the carry example below uses. */
  lemma ChannelSamples()
    ensures Channel(0.0) == 0 && Channel(0.8) == 204 && Channel(1.6) == 255
  {
    assert Truncate(0.8 * 256.0) == 204;
    assert Truncate(1.6 * 256.0) == 409;
  }

  /**
   * Two lights whose ambient red is 0.8 (204 each) give red 408: as written the word
   * is 0x198, that is red 0x98 = 152 and green 1, where the saturated sum has red 255
   * and green 0.
   */
  lemma BackgroundAsWrittenCarries(l: Light)
    requires l.ambient == Vec4(0.8, 0.0, 0.0, 0.0)
    ensures BackgroundAsWritten([l, l]) == 0x198
    ensures Background([l, l]) == 255
  {
    PackedSamples();
    assert [l, l][..1] == [l];
    assert [l][..0] == [];
    assert SumOfPackedAmbients([l]) == 204;
    assert SumOfPackedAmbients([l, l]) == 408;
    assert AmbientSum([l]) == Vec4(0.8, 0.0, 0.0, 0.0);
    assert AmbientSum([l, l]) == Vec4(1.6, 0.0, 0.0, 0.0);
  }

  lemma PackedSamples()
    ensures ClampRGBA(Vec4(0.8, 0.0, 0.0, 0.0)) == 204
    ensures ClampRGBA(Vec4(1.6, 0.0, 0.0, 0.0)) == 255
  {
    ChannelSamples();
  }

  /** The sum of the ambient colours of the lights. */
  function AmbientSum(lights: seq<Light>): Vec4
  {
    if |lights| == 0 then Zero4
    else Add4(AmbientSum(lights[..|lights| - 1]), lights[|lights| - 1].ambient)
  }

  /**
   * The background word meant by `clear_buffer`: the summed ambient light, clamped
   * channel by channel, the colour `phong` would give a white surface lit only by
   * ambient light. Every channel saturates instead of carrying.
   */
  function Background(lights: seq<Light>): (w: int)
    ensures 0 <= w < 0x100_0000
    ensures w % 256 == Channel(AmbientSum(lights).x)
  {
    ClampRGBA(AmbientSum(lights))
  }

  /** With one light the two readings agree: no carry can happen. */
  lemma {:induction false} BackgroundSingleLight(l: Light)
    ensures BackgroundAsWritten([l]) == Background([l])
  {
    assert [l][..0] == [];
    assert SumOfPackedAmbients([l]) == SumOfPackedAmbients([]) + ClampRGBA(l.ambient);
    assert AmbientSum([l]) == Add4(Zero4, l.ambient) == l.ambient;
  }

  // ---------------------------------------------------------------
  // The scene and the shadow-cache policy of phong
  // ---------------------------------------------------------------

  /**
   * The geometry the renderer reads: the position, normal and colour planes of the
   * vertex buffer and the index buffer, three indices per triangle.
   */
  datatype Geometry = Geometry(pos: seq<Vec3>, normals: seq<Vec3>, colors: seq<Vec3>, idx: seq<int>)

  ghost predicate WellFormed(g: Geometry)
  {
    |g.normals| == |g.pos| && |g.colors| == |g.pos| && |g.idx| % 3 == 0 &&
    forall k :: 0 <= k < |g.idx| ==> 0 <= g.idx[k] < |g.pos|
  }

  /** The number of triangles: `pib->size() / 3`. */
  function TriCount(g: Geometry): nat
  {
    |g.idx| / 3
  }

  /** Triangle k's corners name vertices (what every triangle routine asserts). */
  lemma {:induction false} CornersOf(g: Geometry, k: int)
    requires WellFormed(g) && 0 <= k < TriCount(g)
    ensures 3 * k + 2 < |g.idx|
    ensures Corners(|g.pos|, g.idx[3 * k], g.idx[3 * k + 1], g.idx[3 * k + 2])
  {
  }

  /** `shadow_hit` for triangle k of the index buffer. */
  function ShadowHitTri(g: Geometry, k: int, o: Vec3, d: Vec3, tmin: real, tmax: real): bool
    requires WellFormed(g) && 0 <= k < TriCount(g)
  {
    CornersOf(g, k);
    ShadowHit(g.pos, g.idx[3 * k], g.idx[3 * k + 1], g.idx[3 * k + 2], o, d, tmin, tmax)
  }

  /** The far end of the full shadow scan (a fixed 1000 instead of the light's distance). */
  const ScanReach: real := 1000.0

  /** Whether the full scan counts triangle k as an occluder of the ray (o, d). */
  predicate ScanOccludes(g: Geometry, k: int, cached: int, i: int, o: Vec3, d: Vec3)
    requires WellFormed(g) && 0 <= k < TriCount(g)
  {
    k != cached && k != i && ShadowHitTri(g, k, o, d, Epsilon, ScanReach)
  }

  /**
   * The first occluder the full scan meets from triangle `from` on, in ascending
   * order, or -1 when there is none.
   */
  function FirstOccluder(g: Geometry, from: int, cached: int, i: int, o: Vec3, d: Vec3): (k: int)
    requires WellFormed(g) && 0 <= from <= TriCount(g)
    ensures k == -1 || from <= k < TriCount(g)
    decreases TriCount(g) - from
  {
    if from == TriCount(g) then -1
    else if ScanOccludes(g, from, cached, i, o, d) then from
    else FirstOccluder(g, from + 1, cached, i, o, d)
  }

  /**
   * The first occluder is one, and no triangle between `from` and it (or the end, when
   * there is none) occludes.
   */
  lemma {:induction false} FirstOccluderMeaning(g: Geometry, from: int, cached: int, i: int, o: Vec3, d: Vec3)
    requires WellFormed(g) && 0 <= from <= TriCount(g)
    ensures var k := FirstOccluder(g, from, cached, i, o, d);
      (k == -1 || (from <= k < TriCount(g) && ScanOccludes(g, k, cached, i, o, d))) &&
      forall k' :: from <= k' < TriCount(g) && (k == -1 || k' < k) ==> !ScanOccludes(g, k', cached, i, o, d)
    decreases TriCount(g) - from
  {
    if from < TriCount(g) && !ScanOccludes(g, from, cached, i, o, d) {
      FirstOccluderMeaning(g, from + 1, cached, i, o, d);
    }
  }

  /** The outcome of the visibility test of one light: visible, and the new `last_hit`. */
  datatype Decision = Decision(visible: bool, cache: int)

  /**
   * The visibility decision of `phong` for one light, given the light's facing term
   * `ndotl`, its cached occluder, whether that cached triangle still occludes, and the
   * first occluder of the full scan:
   * a light facing away is not visible and no shadow test runs; a usable cached
   * occluder that still occludes shadows the point with the cache kept; otherwise the
   * scan's first occluder shadows the point and becomes the cache; with no occluder
   * the light is visible. The cache changes only in the third case.
   */
  function Decide(ndotl: real, cached: int, i: int, cachedStillOccludes: bool, firstOccluder: int): Decision
  {
    if ndotl < Epsilon then Decision(false, cached)
    else if cached != i && cached != NoHit && cachedStillOccludes then Decision(false, cached)
    else if firstOccluder != -1 then Decision(false, firstOccluder)
    else Decision(true, cached)
  }

  /**
   * What the decision means: facing away shadows with the cache kept; visible only when
   * facing and the scan found nothing; a cache changes only to the scan's occluder when
   * the old cache did not (or could not) shadow; a usable cache that still occludes
   * shadows with the cache kept.
   */
  lemma DecideMeaning(ndotl: real, cached: int, i: int, cachedStillOccludes: bool, firstOccluder: int)
    ensures var r := Decide(ndotl, cached, i, cachedStillOccludes, firstOccluder);
      (ndotl < Epsilon ==> r == Decision(false, cached)) &&
      (r.visible ==> ndotl >= Epsilon && firstOccluder == -1) &&
      (r.cache != cached ==>
         ndotl >= Epsilon && r.cache == firstOccluder != -1 && !r.visible &&
         !(cached != i && cached != NoHit && cachedStillOccludes)) &&
      (ndotl >= Epsilon && cached != i && cached != NoHit && cachedStillOccludes ==> r == Decision(false, cached))
  {
  }

  /**
   * The decision keeps a cache that names a triangle (or -1) naming a triangle
   * (or -1).
   */
  lemma DecideKeepsCacheInRange(ndotl: real, cached: int, i: int, occ: bool, first: int, n: int)
    requires -1 <= cached < n && -1 <= first < n
    ensures -1 <= Decide(ndotl, cached, i, occ, first).cache < n
  {
  }

  // ---------------------------------------------------------------
  // The lighting terms of phong
  // ---------------------------------------------------------------

  /** The facing threshold above which the specular term is added. */
  const SpecularFrom: real := 0.9

  /**
   * The colour after adding one light to `col`: ambient always; diffuse scaled by
   * `ndotl` when the light is visible; the whole then multiplied lane by lane by the
   * surface colour (`|=`); and, when visible and `ndotl > 0.9`, the specular colour
   * scaled by `(ndotl - 0.9) * 10` added after the multiplication.
   */
  function Shade(col: Vec4, l: Light, ndotl: real, visible: bool, surf: Vec4): Vec4
  {
    var lit := if visible then Add4(Add4(col, l.ambient), Scale4(l.diffuse, ndotl)) else Add4(col, l.ambient);
    var surfaced := Mul4(lit, surf);
    if visible && ndotl > SpecularFrom then Add4(surfaced, Scale4(l.specular, (ndotl - SpecularFrom) * 10.0))
    else surfaced
  }

  /** A shadowed light contributes its ambient colour only: diffuse, specular and facing do not matter. */
  lemma {:induction false} ShadeShadowedIsAmbientOnly(col: Vec4, l: Light, l': Light, ndotl: real, ndotl': real, surf: Vec4)
    requires l'.ambient == l.ambient
    ensures Shade(col, l, ndotl, false, surf) == Shade(col, l', ndotl', false, surf)
  {
  }

  /** Below the threshold the specular colour plays no part. */
  lemma {:induction false} ShadeSpecularOnlyAbove(col: Vec4, l: Light, ndotl: real, visible: bool, surf: Vec4, s: Vec4)
    requires ndotl <= SpecularFrom
    ensures Shade(col, l, ndotl, visible, surf) == Shade(col, l.(specular := s), ndotl, visible, surf)
  {
  }

  /**
   * The surface colour multiplies the whole accumulated colour, so the contribution of
   * every earlier light is multiplied by it again: a shadowed light yields
   * col * surf + ambient * surf.
   */
  lemma {:induction false} ShadeMultipliesEarlierLights(col: Vec4, l: Light, ndotl: real, surf: Vec4)
    ensures Shade(col, l, ndotl, false, surf) == Add4(Mul4(col, surf), Mul4(l.ambient, surf))
  {
    var r := Shade(col, l, ndotl, false, surf);
    assert r.x == (col.x + l.ambient.x) * surf.x;
    assert r.y == (col.y + l.ambient.y) * surf.y;
    assert r.z == (col.z + l.ambient.z) * surf.z;
    assert r.w == (col.w + l.ambient.w) * surf.w;
  }

  const White: Vec4 := Vec4(1.0, 1.0, 1.0, 1.0)

  /** The colour `phong` accumulates on a white surface when every light is shadowed. */
  function ShadowedOnWhite(lights: seq<Light>): Vec4
  {
    if |lights| == 0 then Zero4
    else Shade(ShadowedOnWhite(lights[..|lights| - 1]), lights[|lights| - 1], 0.0, false, White)
  }

  /**
   * The corrected background is what `phong` gives a white surface in the shadow of
   * every light: the clamped sum of the ambient colours.
   */
  lemma {:induction false} BackgroundIsShadowedWhite(lights: seq<Light>)
    ensures ShadowedOnWhite(lights) == AmbientSum(lights)
    ensures Background(lights) == ClampRGBA(ShadowedOnWhite(lights))
    decreases |lights|
  {
    if |lights| > 0 {
      BackgroundIsShadowedWhite(lights[..|lights| - 1]);
      var c := ShadowedOnWhite(lights[..|lights| - 1]);
      var a := lights[|lights| - 1].ambient;
      assert Mul4(Add4(c, a), White) == Add4(c, a);
    }
  }

  // ---------------------------------------------------------------
  // phong
  // ---------------------------------------------------------------

  /**
   * The numeric routines `phong` calls that the model does not compute: vector
   * normalisation and the square root.
   */
  datatype Numerics = Numerics(normalize: Vec3 -> Vec3, sqrt: real -> real)

  /** The hit point `eye + dir * t`, with t = tuv.x. */
  function HitPoint(eye: Vec3, dir: Vec3, tuv: Vec4): (h: Vec3)
    ensures tuv.x == 0.0 ==> h == eye
  {
    Add3(eye, Scale3(dir, tuv.x))
  }

  /**
   * Whether the cached occluder of a light still shadows the hit point: it must name
   * a triangle other than the one being shaded, and block the ray towards the light
   * between epsilon and the light's distance less epsilon.
   */
  predicate CachedOccludes(g: Geometry, i: int, cached: int, hit: Vec3, toLight: Vec3, reach: real)
    requires WellFormed(g) && -1 <= cached < TriCount(g)
  {
    cached != i && cached != NoHit && ShadowHitTri(g, cached, hit, toLight, Epsilon, reach)
  }

  /**
   * One turn of `phong`'s light loop for light l at the hit point of triangle i: the
   * new colour and the light with its new `last_hit`.
   */
  function LightStep(g: Geometry, i: int, tuv: Vec4, eye: Vec3, dir: Vec3, num: Numerics, col: Vec4, l: Light)
    : (r: (Vec4, Light))
    requires WellFormed(g) && 0 <= i < TriCount(g) && -1 <= l.lastHit < TriCount(g)
    ensures -1 <= r.1.lastHit < TriCount(g)
    ensures r.1 == WithLastHit(l, r.1.lastHit)
  {
    CornersOf(g, i);
    var v0, v1, v2 := g.idx[3 * i], g.idx[3 * i + 1], g.idx[3 * i + 2];
    var hit := HitPoint(eye, dir, tuv);
    var toLight := num.normalize(Sub3(l.position, hit));
    var ndotl := Dot3(IntersectNormal(g.normals, v0, v1, v2, tuv), toLight);
    var away := Sub3(hit, l.position);
    var occ := CachedOccludes(g, i, l.lastHit, hit, toLight, num.sqrt(Dot3(away, away)) - Epsilon);
    var first := FirstOccluder(g, 0, l.lastHit, i, hit, toLight);
    var d := Decide(ndotl, l.lastHit, i, occ, first);
    DecideKeepsCacheInRange(ndotl, l.lastHit, i, occ, first, TriCount(g));
    (Shade(col, l, ndotl, d.visible, IntersectCol(g.colors, v0, v1, v2, tuv)), WithLastHit(l, d.cache))
  }

  /**
   * A light's cache changes only to the first triangle, in ascending order, that
   * shadows the hit point for the full scan: every triangle before it lets the light
   * through.
   */
  lemma {:induction false} LightStepCacheIsFirstOccluder(g: Geometry, i: int, tuv: Vec4, eye: Vec3, dir: Vec3,
                                                         num: Numerics, col: Vec4, l: Light)
    requires WellFormed(g) && 0 <= i < TriCount(g) && -1 <= l.lastHit < TriCount(g)
    ensures var k := LightStep(g, i, tuv, eye, dir, num, col, l).1.lastHit;
      var hit := HitPoint(eye, dir, tuv);
      var toLight := num.normalize(Sub3(l.position, hit));
      k != l.lastHit ==>
        0 <= k < TriCount(g) && ScanOccludes(g, k, l.lastHit, i, hit, toLight) &&
        forall k' :: 0 <= k' < k ==> !ScanOccludes(g, k', l.lastHit, i, hit, toLight)
  {
    var hit := HitPoint(eye, dir, tuv);
    var toLight := num.normalize(Sub3(l.position, hit));
    FirstOccluderMeaning(g, 0, l.lastHit, i, hit, toLight);
  }

  /**
   * `phong`'s light loop over the lights in order, from a black colour: the colour
   * accumulated and the lights with their updated caches.
   */
  function Lighting(g: Geometry, i: int, tuv: Vec4, eye: Vec3, dir: Vec3, num: Numerics, lights: seq<Light>)
    : (r: (Vec4, seq<Light>))
    requires WellFormed(g) && 0 <= i < TriCount(g)
    requires forall j :: 0 <= j < |lights| ==> -1 <= lights[j].lastHit < TriCount(g)
    decreases |lights|
  {
    if |lights| == 0 then (Zero4, [])
    else
      var prev := Lighting(g, i, tuv, eye, dir, num, lights[..|lights| - 1]);
      var step := LightStep(g, i, tuv, eye, dir, num, prev.0, lights[|lights| - 1]);
      (step.0, prev.1 + [step.1])
  }

  /** `Lighting` of one more light is one more `LightStep` after the others. */
  lemma {:induction false} LightingSnoc(g: Geometry, i: int, tuv: Vec4, eye: Vec3, dir: Vec3, num: Numerics,
                                        lights: seq<Light>, j: int)
    requires WellFormed(g) && 0 <= i < TriCount(g) && 0 <= j < |lights|
    requires forall k :: 0 <= k < |lights| ==> -1 <= lights[k].lastHit < TriCount(g)
    ensures var prev := Lighting(g, i, tuv, eye, dir, num, lights[..j]);
      var step := LightStep(g, i, tuv, eye, dir, num, prev.0, lights[j]);
      Lighting(g, i, tuv, eye, dir, num, lights[..j + 1]) == (step.0, prev.1 + [step.1])
  {
    assert lights[..j + 1][..j] == lights[..j];
  }

  /**
   * `phong` changes nothing of a light but its cache, and every cache it leaves names
   * a triangle or is -1.
   */
  lemma {:induction false} LightingKeepsLights(g: Geometry, i: int, tuv: Vec4, eye: Vec3, dir: Vec3, num: Numerics,
                                               lights: seq<Light>)
    requires WellFormed(g) && 0 <= i < TriCount(g)
    requires forall j :: 0 <= j < |lights| ==> -1 <= lights[j].lastHit < TriCount(g)
    ensures var r := Lighting(g, i, tuv, eye, dir, num, lights).1;
      |r| == |lights| &&
      (forall j :: 0 <= j < |lights| ==> r[j] == WithLastHit(lights[j], r[j].lastHit)) &&
      (forall j :: 0 <= j < |lights| ==> -1 <= r[j].lastHit < TriCount(g))
    decreases |lights|
  {
    if |lights| > 0 {
      var n := |lights| - 1;
      LightingKeepsLights(g, i, tuv, eye, dir, num, lights[..n]);
      var prev := Lighting(g, i, tuv, eye, dir, num, lights[..n]);
      var step := LightStep(g, i, tuv, eye, dir, num, prev.0, lights[n]);
      var r := prev.1 + [step.1];
      assert Lighting(g, i, tuv, eye, dir, num, lights).1 == r;
      forall j | 0 <= j < |lights|
        ensures r[j] == WithLastHit(lights[j], r[j].lastHit) && -1 <= r[j].lastHit < TriCount(g)
      {
        if j < n {
          assert r[j] == prev.1[j] && lights[..n][j] == lights[j];
        }
      }
    }
  }

  /** `phong(tuvi, dir, i)`: the accumulated colour of all lights, packed. */
  function Phong(g: Geometry, i: int, tuv: Vec4, eye: Vec3, dir: Vec3, num: Numerics, lights: seq<Light>): (w: int)
    requires WellFormed(g) && 0 <= i < TriCount(g)
    requires forall j :: 0 <= j < |lights| ==> -1 <= lights[j].lastHit < TriCount(g)
    ensures 0 <= w < 0x100_0000
  {
    ClampRGBA(Lighting(g, i, tuv, eye, dir, num, lights).0)
  }
}
