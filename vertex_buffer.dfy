/**
 * miniRT's vertex buffer: the attributes of nb vertices stored as four planes of nb
 * 3-vectors (positions, normals, colours, texture coordinates), so that attribute k of
 * vertex i sits in slot k*nb+i.
 */
module VertexBuffers {
  import opened VecMath

  /**
   * A vertex as the application builds it: position, normal, RGBA colour and texture
   * coordinate. `uvLane2` is the third float lane of the 16-byte vector2 that holds the
   * texture coordinate; its constructor leaves that lane unset, and the 12-byte copy
   * into the buffer picks it up.
   */
  datatype Vertex = Vertex(pos: Vec3, norm: Vec3, rgba: Vec4, uv: Vec2, uvLane2: real)

  /** The defaults of `vertex()`: origin, zero normal, opaque white, uv (0,0). */
  function DefaultVertex(uvLane2: real): (v: Vertex)
    ensures v.pos == Zero3 && v.norm == Zero3 && v.rgba == Vec4(1.0, 1.0, 1.0, 1.0)
    ensures v.uv == Vec2(0.0, 0.0)
  {
    Vertex(Zero3, Zero3, Vec4(1.0, 1.0, 1.0, 1.0), Vec2(0.0, 0.0), uvLane2)
  }

  /** The slot of attribute plane k (0 position, 1 normal, 2 colour, 3 uv) for vertex i. */
  function Slot(nb: int, k: int, i: int): int
  {
    k * nb + i
  }

  /**
   * The four planes tile the 4*nb slots without overlap: every (plane, vertex) pair
   * has its own slot inside the buffer.
   */
  lemma {:induction false} SlotsDisjoint(nb: int, k: int, i: int, k': int, i': int)
    requires 0 <= k < 4 && 0 <= i < nb && 0 <= k' < 4 && 0 <= i' < nb
    ensures 0 <= Slot(nb, k, i) < 4 * nb
    ensures Slot(nb, k, i) == Slot(nb, k', i') <==> k == k' && i == i'
  {
    if k < k' {
      assert Slot(nb, k', i') - Slot(nb, k, i) == (k' - k) * nb + (i' - i);
      assert (k' - k) * nb >= nb;
    } else if k' < k {
      assert Slot(nb, k, i) - Slot(nb, k', i') == (k - k') * nb + (i - i');
      assert (k - k') * nb >= nb;
    }
    assert k * nb <= 3 * nb;
  }

  /** What one vertex puts into its four slots: each memcpy copies three floats. */
  function Lanes(v: Vertex, k: int): Vec3
    requires 0 <= k < 4
  {
    if k == 0 then v.pos
    else if k == 1 then v.norm
    else if k == 2 then Xyz(v.rgba)
    else Vec3(v.uv.x, v.uv.y, v.uvLane2)
  }

  class VertexBuffer {
    var popt: array<Vec3>
    var nb: int

    ghost predicate Valid()
      reads this
    {
      nb > 0 && popt.Length == 4 * nb
    }

    /** Attribute plane k (0 position, 1 normal, 2 colour, 3 uv) as stored. */
    function Plane(k: int): (s: seq<Vec3>)
      reads this, popt
      requires Valid() && 0 <= k < 4
      ensures |s| == nb
    {
      popt[k * nb .. k * nb + nb]
    }

    /** `vertex_buffer(size)`: requires size > 0; allocates four planes of size slots. */
    constructor (size: int)
      requires size > 0
      ensures Valid() && fresh(popt) && Size() == size
    {
      nb := size;
      popt := new Vec3[4 * size];
    }

    /** `size()`. */
    function Size(): (n: int)
      reads this
      requires Valid()
      ensures n > 0 && 4 * n == popt.Length
    {
      nb
    }

    /** `get_pos(i)`: requires 0 <= i < nb; entry i of the position plane. */
    function GetPos(i: int): (v: Vec3)
      reads this, popt
      requires Valid() && 0 <= i < nb
      ensures v == Plane(0)[i]
    {
      popt[i]
    }

    /** `get_normal(i)`: requires 0 <= i < nb; entry i of the normal plane. */
    function GetNormal(i: int): (v: Vec3)
      reads this, popt
      requires Valid() && 0 <= i < nb
      ensures v == Plane(1)[i]
    {
      popt[nb + i]
    }

    /** `get_color(i)`: requires 0 <= i < nb; entry i of the colour plane. */
    function GetColor(i: int): (v: Vec3)
      reads this, popt
      requires Valid() && 0 <= i < nb
      ensures v == Plane(2)[i]
    {
      popt[2 * nb + i]
    }

    /** `get_UV(i)`: requires 0 <= i < nb; entry i of the uv plane. */
    function GetUV(i: int): (v: Vec3)
      reads this, popt
      requires Valid() && 0 <= i < nb
      ensures v == Plane(3)[i]
    {
      popt[3 * nb + i]
    }

    /** The loop of `set_optimized`: vertex i's attributes go to its four slots, for every i. */
    method StoreVertices(p: seq<Vertex>)
      requires Valid() && |p| == nb
      modifies popt
      ensures Valid()
      ensures forall j, k :: 0 <= j < nb && 0 <= k < 4 ==> popt[Slot(nb, k, j)] == Lanes(p[j], k)
    {
      var i := 0;
      while i < nb
        invariant 0 <= i <= nb && Valid()
        invariant forall j, k :: 0 <= j < i && 0 <= k < 4 ==> popt[Slot(nb, k, j)] == Lanes(p[j], k)
      {
        forall j, k | 0 <= j < i && 0 <= k < 4
          ensures Slot(nb, k, j) != i && Slot(nb, k, j) != nb + i
          ensures Slot(nb, k, j) != 2 * nb + i && Slot(nb, k, j) != 3 * nb + i
        {
          SlotsDisjoint(nb, k, j, 0, i);
          SlotsDisjoint(nb, k, j, 1, i);
          SlotsDisjoint(nb, k, j, 2, i);
          SlotsDisjoint(nb, k, j, 3, i);
        }
        StoreVertex(i, p[i]);
        i := i + 1;
      }
    }

    /**
     * One iteration of `set_optimized`: vertex i's four slots receive its attributes
     * and every other slot keeps its value.
     */
    method StoreVertex(i: int, v: Vertex)
      requires Valid() && 0 <= i < nb
      modifies popt
      ensures Valid()
      ensures forall k :: 0 <= k < 4 ==> popt[Slot(nb, k, i)] == Lanes(v, k)
      ensures forall s :: 0 <= s < popt.Length && s != i && s != nb + i && s != 2 * nb + i && s != 3 * nb + i
                ==> popt[s] == old(popt[s])
    {
      var pos := i;
      popt[pos] := v.pos;
      pos := pos + nb;
      popt[pos] := v.norm;
      pos := pos + nb;
      popt[pos] := Xyz(v.rgba);
      pos := pos + nb;
      popt[pos] := Vec3(v.uv.x, v.uv.y, v.uvLane2);
    }

    /**
     * `set_optimized(p)`: for every vertex i < nb, its position, normal, colour and uv
     * land in slots i, nb+i, 2nb+i and 3nb+i, and each getter returns what was stored:
     * the colour getter gives the first three channels, the uv getter the two
     * coordinates followed by the unset third lane.
     */
    method SetOptimized(p: seq<Vertex>)
      requires Valid() && |p| == nb
      modifies popt
      ensures Valid()
      ensures forall i, k :: 0 <= i < nb && 0 <= k < 4 ==> Plane(k)[i] == Lanes(p[i], k)
      ensures forall i :: 0 <= i < nb ==>
                GetPos(i) == p[i].pos && GetNormal(i) == p[i].norm && GetColor(i) == Xyz(p[i].rgba)
      ensures forall i :: 0 <= i < nb ==> GetUV(i).x == p[i].uv.x && GetUV(i).y == p[i].uv.y
    {
      StoreVertices(p);
      forall j, k | 0 <= j < nb && 0 <= k < 4 ensures Plane(k)[j] == Lanes(p[j], k) {
        SlotsDisjoint(nb, k, j, k, j);
        assert Plane(k)[j] == popt[Slot(nb, k, j)];
      }
      forall j | 0 <= j < nb
        ensures GetPos(j) == p[j].pos && GetNormal(j) == p[j].norm && GetColor(j) == Xyz(p[j].rgba)
        ensures GetUV(j).x == p[j].uv.x && GetUV(j).y == p[j].uv.y
      {
        assert popt[Slot(nb, 0, j)] == Lanes(p[j], 0);
        assert popt[Slot(nb, 1, j)] == Lanes(p[j], 1);
        assert popt[Slot(nb, 2, j)] == Lanes(p[j], 2);
        assert popt[Slot(nb, 3, j)] == Lanes(p[j], 3);
      }
    }
  }
}
