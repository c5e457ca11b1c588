/**
 * miniRT's screen buffer: a dx-by-dy image over one flat array of dx*dy cells, with
 * row y = 0 (the bottom of the screen) stored last.
 */
module ScreenBuffers {

  /** The flat index of pixel (x, y): `x + ((dy-1)-y)*dx`. */
  function Offset(dx: int, dy: int, x: int, y: int): int
  {
    x + ((dy - 1) - y) * dx
  }

  /** An in-range pixel addresses a cell of the buffer. */
  lemma {:induction false} OffsetInRange(dx: int, dy: int, x: int, y: int)
    requires 0 <= x < dx && 0 <= y < dy
    ensures 0 <= Offset(dx, dy, x, y) < dx * dy
  {
    var r := (dy - 1) - y;
    assert 0 <= r <= dy - 1;
    assert r * dx <= (dy - 1) * dx;
    assert (dy - 1) * dx + dx == dy * dx;
  }

  /**
   * The cell of pixel (x, y) lies in storage row dy-1-y at column x: the image is
   * flipped vertically, so row 0 is the last storage row and row dy-1 the first.
   */
  lemma {:induction false} OffsetFlipsRows(dx: int, dy: int, x: int, y: int)
    requires 0 <= x < dx && 0 <= y < dy
    ensures Offset(dx, dy, x, y) / dx == dy - 1 - y
    ensures Offset(dx, dy, x, y) % dx == x
    ensures y == 0 ==> Offset(dx, dy, x, y) == (dy - 1) * dx + x
    ensures y == dy - 1 ==> Offset(dx, dy, x, y) == x
  {
    var r := (dy - 1) - y;
    assert Offset(dx, dy, x, y) == r * dx + x;
    DivModUnique(r * dx + x, dx, r, x);
  }

  /** Division by d has a unique quotient and remainder. */
  lemma {:induction false} DivModUnique(n: int, d: int, q: int, m: int)
    requires d > 0 && 0 <= m < d && n == q * d + m
    ensures n / d == q && n % d == m
  {
    var q', m' := n / d, n % d;
    assert n == q' * d + m' && 0 <= m' < d;
    var k := q - q';
    assert k * d == q * d - q' * d;
    assert k * d == m' - m;
    if k > 0 {
      MulAtLeast(k, d);
    } else if k < 0 {
      MulAtLeast(-k, d);
    }
  }

  lemma MulAtLeast(k: int, d: int)
    requires k >= 1 && d > 0
    ensures k * d >= d
  {
    assert k * d == (k - 1) * d + d;
  }

  /** Distinct in-range pixels address distinct cells. */
  lemma {:induction false} OffsetInjective(dx: int, dy: int, x: int, y: int, x': int, y': int)
    requires 0 <= x < dx && 0 <= y < dy && 0 <= x' < dx && 0 <= y' < dy
    ensures Offset(dx, dy, x, y) == Offset(dx, dy, x', y') <==> x == x' && y == y'
  {
    OffsetFlipsRows(dx, dy, x, y);
    OffsetFlipsRows(dx, dy, x', y');
  }

  /** The cell of pixel (x, y) in a flat copy s of a dx-by-dy buffer. */
  function At<T>(s: seq<T>, dx: int, dy: int, x: int, y: int): T
    requires |s| == dx * dy && 0 <= x < dx && 0 <= y < dy
  {
    OffsetInRange(dx, dy, x, y);
    s[Offset(dx, dy, x, y)]
  }

  /** Two flat dx-by-dy images that agree on every pixel except possibly (x, y). */
  ghost predicate SameElsewhere<T>(s: seq<T>, s': seq<T>, dx: int, dy: int, x: int, y: int)
  {
    |s| == dx * dy && |s'| == dx * dy && 0 <= x < dx && 0 <= y < dy &&
    forall x', y' :: 0 <= x' < dx && 0 <= y' < dy && (x', y') != (x, y) ==> At(s', dx, dy, x', y') == At(s, dx, dy, x', y')
  }

  class ScreenBuffer<T(0)> {
    var dx: int
    var dy: int
    var pv: array<T>

    ghost predicate Valid()
      reads this
    {
      dx > 0 && dy > 0 && pv.Length == dx * dy
    }

    ghost predicate InRange(x: int, y: int)
      reads this
    {
      0 <= x < dx && 0 <= y < dy
    }

    /** `screen_buffer(x, y)`: requires x > 0 and y > 0; allocates x*y cells. */
    constructor (x: int, y: int)
      requires x > 0 && y > 0
      ensures Valid() && fresh(pv) && dx == x && dy == y
    {
      pv := new T[x * y];
      dx := x;
      dy := y;
    }

    /**
     * `operator()(x, y)` read: no bounds check in the source, so the pixel being in
     * range is the caller's obligation.
     */
    function Get(x: int, y: int): (v: T)
      reads this, pv
      requires Valid() && InRange(x, y)
      ensures 0 <= Offset(dx, dy, x, y) < pv.Length && v == pv[Offset(dx, dy, x, y)]
    {
      OffsetInRange(dx, dy, x, y);
      pv[x + ((dy - 1) - y) * dx]
    }

    /** A write through `operator()(x, y)`: exactly one cell, the one of (x, y), changes. */
    method Set(x: int, y: int, v: T)
      requires Valid() && InRange(x, y)
      modifies pv
      ensures Valid() && Get(x, y) == v
      ensures forall x', y' :: InRange(x', y') && (x', y') != (x, y) ==> Get(x', y') == old(Get(x', y'))
      ensures pv[..] == old(pv[..])[Offset(dx, dy, x, y) := v]
      ensures SameElsewhere(old(pv[..]), pv[..], dx, dy, x, y) && At(pv[..], dx, dy, x, y) == v
    {
      OffsetInRange(dx, dy, x, y);
      pv[x + ((dy - 1) - y) * dx] := v;
      forall x', y' | InRange(x', y') && (x', y') != (x, y)
        ensures Get(x', y') == old(Get(x', y'))
      {
        OffsetInjective(dx, dy, x, y, x', y');
      }
    }

    /** `clear(v)`: every one of the dx*dy cells, and so every in-range pixel, reads v. */
    method Clear(v: T)
      requires Valid()
      modifies pv
      ensures Valid()
      ensures forall i :: 0 <= i < pv.Length ==> pv[i] == v
      ensures forall x, y :: InRange(x, y) ==> Get(x, y) == v
    {
      var i := 0;
      while i < dx * dy
        invariant 0 <= i <= dx * dy
        invariant forall j :: 0 <= j < i ==> pv[j] == v
      {
        pv[i] := v;
        i := i + 1;
      }
    }
  }
}
