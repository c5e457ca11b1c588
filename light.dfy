/**
 * miniRT's point light: a position, three colour terms and `last_hit`, the index of
 * the triangle that last shadowed a point from this light (-1 for none).
 */
module Lights {
  import opened VecMath

  /** No cached occluder. */
  const NoHit: int := -1

  /** A light value. The accessors `position()`, `specular()`, ... are its fields. */
  datatype Light = Light(position: Vec3, specular: Vec4, diffuse: Vec4, ambient: Vec4, lastHit: int)

  /**
   * `light()`: at the origin, white specular, half-grey diffuse, 0.2 grey ambient, all
   * with alpha 0, and no cached occluder.
   */
  function DefaultLight(): (l: Light)
    ensures l.position == Zero3 && l.lastHit == NoHit
    ensures l.specular == Vec4(1.0, 1.0, 1.0, 0.0)
    ensures l.diffuse == Vec4(0.5, 0.5, 0.5, 0.0)
    ensures l.ambient == Vec4(0.2, 0.2, 0.2, 0.0)
  {
    Light(Vec3(0.0, 0.0, 0.0), Vec4(1.0, 1.0, 1.0, 0.0), Vec4(0.5, 0.5, 0.5, 0.0), Vec4(0.2, 0.2, 0.2, 0.0), -1)
  }

  /** `light(p, s, d, a)`: stores the four terms as given and starts with no cached occluder. */
  function NewLight(p: Vec3, s: Vec4, d: Vec4, a: Vec4): (l: Light)
    ensures l.position == p && l.specular == s && l.diffuse == d && l.ambient == a
    ensures l.lastHit == NoHit
  {
    Light(p, s, d, a, NoHit)
  }

  /** A write through the reference `last_hit()` returns: only the cache changes. */
  function WithLastHit(l: Light, k: int): (r: Light)
    ensures r.lastHit == k
    ensures r.position == l.position && r.specular == l.specular
    ensures r.diffuse == l.diffuse && r.ambient == l.ambient
  {
    l.(lastHit := k)
  }

  /**
   * `l.position() = p`: `position()` returns a copy, so the assignment writes to a
   * temporary and the light keeps its position.
   */
  method AssignToPositionCopy(l: Light, p: Vec3) returns (r: Light)
    ensures r == l
  {
    var copy := l.position;
    copy := p;
    r := l;
  }
}
