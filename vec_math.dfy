/**
 * The portable (non-SIMD) vector and matrix algebra of miniRT.
 * Floats are modelled as mathematical reals: rounding is not modelled.
 */
module VecMath {

  /** minirt_epsilon */
  const Epsilon: real := 0.00001
  /** minirt_huge (the largest finite float), the "infinity" of the depth buffer */
  const Huge: real := 340282346600000000000000000000000000000.0

  datatype Vec2 = Vec2(x: real, y: real)
  datatype Vec3 = Vec3(x: real, y: real, z: real)
  datatype Vec4 = Vec4(x: real, y: real, z: real, w: real)

  const Zero3: Vec3 := Vec3(0.0, 0.0, 0.0)
  const Zero4: Vec4 := Vec4(0.0, 0.0, 0.0, 0.0)

  // ---------------------------------------------------------------
  // Element access: operator[] / operator() assert the index range.
  // ---------------------------------------------------------------

  function At4(v: Vec4, i: int): real
    requires 0 <= i <= 3
  {
    if i == 0 then v.x else if i == 1 then v.y else if i == 2 then v.z else v.w
  }

  function At3(v: Vec3, i: int): real
    requires 0 <= i <= 2
  {
    if i == 0 then v.x else if i == 1 then v.y else v.z
  }

  function At2(v: Vec2, i: int): real
    requires 0 <= i <= 1
  {
    if i == 0 then v.x else v.y
  }

  /** Two 4-vectors that agree at every index are equal: the four indices name the four lanes. */
  lemma At4Extensional(a: Vec4, b: Vec4)
    requires forall i :: 0 <= i <= 3 ==> At4(a, i) == At4(b, i)
    ensures a == b
  {
    assert At4(a, 0) == At4(b, 0) && At4(a, 1) == At4(b, 1);
    assert At4(a, 2) == At4(b, 2) && At4(a, 3) == At4(b, 3);
  }

  /** Two 3-vectors that agree at every index are equal. */
  lemma At3Extensional(a: Vec3, b: Vec3)
    requires forall i :: 0 <= i <= 2 ==> At3(a, i) == At3(b, i)
    ensures a == b
  {
    assert At3(a, 0) == At3(b, 0) && At3(a, 1) == At3(b, 1) && At3(a, 2) == At3(b, 2);
  }

  /** Two 2-vectors that agree at both indices are equal. */
  lemma At2Extensional(a: Vec2, b: Vec2)
    requires forall i :: 0 <= i <= 1 ==> At2(a, i) == At2(b, i)
    ensures a == b
  {
    assert At2(a, 0) == At2(b, 0) && At2(a, 1) == At2(b, 1);
  }

  // ---------------------------------------------------------------
  // vector (4 components)
  // ---------------------------------------------------------------

  function Add4(a: Vec4, b: Vec4): Vec4
  {
    Vec4(a.x + b.x, a.y + b.y, a.z + b.z, a.w + b.w)
  }

  function Neg4(a: Vec4): Vec4
  {
    Vec4(-a.x, -a.y, -a.z, -a.w)
  }

  function Sub4(a: Vec4, b: Vec4): Vec4
  {
    Vec4(a.x - b.x, a.y - b.y, a.z - b.z, a.w - b.w)
  }

  /**
   * `+` adds lane by lane, is commutative and associative with identity zero; `-`
   * undoes it and is the addition of the negation.
   */
  lemma Add4Laws(a: Vec4, b: Vec4, c: Vec4)
    ensures forall i :: 0 <= i <= 3 ==> At4(Add4(a, b), i) == At4(a, i) + At4(b, i)
    ensures Add4(a, b) == Add4(b, a) && Add4(Add4(a, b), c) == Add4(a, Add4(b, c)) && Add4(a, Zero4) == a
    ensures Add4(Sub4(a, b), b) == a && Sub4(a, b) == Add4(a, Neg4(b)) && Add4(a, Neg4(a)) == Zero4
  {
  }

  /** vector * float and float * vector (both scale every lane). */
  function Scale4(v: Vec4, s: real): Vec4
  {
    Vec4(v.x * s, v.y * s, v.z * s, v.w * s)
  }

  /** Scaling multiplies every lane, and scaling by 1 changes nothing. */
  lemma Scale4Laws(v: Vec4, s: real)
    ensures forall i :: 0 <= i <= 3 ==> At4(Scale4(v, s), i) == s * At4(v, i)
    ensures Scale4(v, 1.0) == v && Scale4(v, 0.0) == Zero4
  {
  }

  /** Element product `|`. */
  function Mul4(a: Vec4, b: Vec4): Vec4
  {
    Vec4(a.x * b.x, a.y * b.y, a.z * b.z, a.w * b.w)
  }

  /** The element product multiplies lane by lane and distributes over `+`. */
  lemma Mul4Laws(a: Vec4, b: Vec4, c: Vec4)
    ensures forall i :: 0 <= i <= 3 ==> At4(Mul4(a, b), i) == At4(a, i) * At4(b, i)
    ensures Mul4(Add4(a, b), c) == Add4(Mul4(a, c), Mul4(b, c))
  {
  }

  /** Dot product `*`: the sum of the four lane products. */
  function Dot4(a: Vec4, b: Vec4): real
  {
    a.x * b.x + a.y * b.y + a.z * b.z + a.w * b.w
  }

  /** The sum of the first n lane products. */
  function LaneProducts4(a: Vec4, b: Vec4, n: nat): real
    requires n <= 4
  {
    if n == 0 then 0.0 else LaneProducts4(a, b, n - 1) + At4(a, n - 1) * At4(b, n - 1)
  }

  lemma {:induction false} Dot4IsLaneSum(a: Vec4, b: Vec4)
    ensures Dot4(a, b) == LaneProducts4(a, b, 4)
    ensures Dot4(a, b) == Dot4(b, a)
  {
    assert LaneProducts4(a, b, 1) == a.x * b.x;
    assert LaneProducts4(a, b, 2) == a.x * b.x + a.y * b.y;
    assert LaneProducts4(a, b, 3) == a.x * b.x + a.y * b.y + a.z * b.z;
  }

  /**
   * `vector += B` updates the four lanes one after the other; the result is the binary `+`.
   */
  method AddAssign4(a: Vec4, b: Vec4) returns (r: Vec4)
    ensures r == Add4(a, b)
  {
    r := a;
    r := r.(x := r.x + b.x);
    r := r.(y := r.y + b.y);
    r := r.(z := r.z + b.z);
    r := r.(w := r.w + b.w);
  }

  /** `vector -= B`, lane by lane; the result is the binary `-`. */
  method SubAssign4(a: Vec4, b: Vec4) returns (r: Vec4)
    ensures r == Sub4(a, b)
  {
    r := a;
    r := r.(x := r.x - b.x);
    r := r.(y := r.y - b.y);
    r := r.(z := r.z - b.z);
    r := r.(w := r.w - b.w);
  }

  /** `vector |= B`, lane by lane; the result is the binary `|`. */
  method MulAssign4(a: Vec4, b: Vec4) returns (r: Vec4)
    ensures r == Mul4(a, b)
  {
    r := a;
    r := r.(x := r.x * b.x);
    r := r.(y := r.y * b.y);
    r := r.(z := r.z * b.z);
    r := r.(w := r.w * b.w);
  }

  /**
   * Portable `vector % vector` AS WRITTEN: its y lane is the negation of the cross
   * product's y lane, and w is set to 1.
   */
  function Cross4AsWritten(a: Vec4, b: Vec4): Vec4
  {
    Vec4(a.y * b.z - a.z * b.y, a.x * b.z - a.z * b.x, a.x * b.y - a.y * b.x, 1.0)
  }

  /** As written, the 4-vector product agrees with the cross product except for the sign of y. */
  lemma Cross4AsWrittenFlipsY(a: Vec4, b: Vec4)
    ensures Cross4AsWritten(a, b) == Cross4(a, b).(y := -Cross4(a, b).y)
  {
  }

  /** The x axis crossed with the z axis gives y = +1 as written, where the cross product is -1. */
  lemma Cross4AsWrittenWrongSign()
    ensures Cross4AsWritten(Vec4(1.0, 0.0, 0.0, 0.0), Vec4(0.0, 0.0, 1.0, 0.0)).y == 1.0
    ensures Cross4(Vec4(1.0, 0.0, 0.0, 0.0), Vec4(0.0, 0.0, 1.0, 0.0)).y == -1.0
  {
    assert Cross4AsWritten(Vec4(1.0, 0.0, 0.0, 0.0), Vec4(0.0, 0.0, 1.0, 0.0)) == Vec4(0.0, 1.0, 0.0, 1.0);
    assert Cross3(Vec3(1.0, 0.0, 0.0), Vec3(0.0, 0.0, 1.0)) == Vec3(0.0, -1.0, 0.0);
  }

  /**
   * `vector % vector` corrected: the 3-D cross product of the xyz lanes, w = 1 as in the
   * source. Its xyz part is orthogonal to both operands.
   */
  function Cross4(a: Vec4, b: Vec4): Vec4
  {
    var c := Cross3(Xyz(a), Xyz(b));
    Vec4(c.x, c.y, c.z, 1.0)
  }

  /** The corrected 4-vector product is the widened cross product, orthogonal to both operands. */
  lemma Cross4Orthogonal(a: Vec4, b: Vec4)
    ensures Cross4(a, b) == Widen(Cross3(Xyz(a), Xyz(b)))
    ensures Dot3(Xyz(a), Xyz(Cross4(a, b))) == 0.0 && Dot3(Xyz(b), Xyz(Cross4(a, b))) == 0.0
  {
    CrossOrthogonal(Xyz(a), Xyz(b));
  }

  /** The first three lanes of a 4-vector (what a vec3-sized memcpy copies). */
  function Xyz(v: Vec4): Vec3
  {
    Vec3(v.x, v.y, v.z)
  }

  /** `vector = vector3`: copies three lanes and sets w to 1. */
  function Widen(v: Vec3): Vec4
  {
    Vec4(v.x, v.y, v.z, 1.0)
  }

  /** Widening keeps the three lanes, which Xyz gives back, and sets w to 1. */
  lemma WidenXyz(v: Vec3)
    ensures Xyz(Widen(v)) == v && Widen(v).w == 1.0
  {
  }

  // ---------------------------------------------------------------
  // vector3
  // ---------------------------------------------------------------

  function Add3(a: Vec3, b: Vec3): Vec3
  {
    Vec3(a.x + b.x, a.y + b.y, a.z + b.z)
  }

  function Neg3(a: Vec3): Vec3
  {
    Vec3(-a.x, -a.y, -a.z)
  }

  function Sub3(a: Vec3, b: Vec3): Vec3
  {
    Vec3(a.x - b.x, a.y - b.y, a.z - b.z)
  }

  /** The vector3 `+` and `-` obey the same laws as on 4-vectors. */
  lemma Add3Laws(a: Vec3, b: Vec3, c: Vec3)
    ensures forall i :: 0 <= i <= 2 ==> At3(Add3(a, b), i) == At3(a, i) + At3(b, i)
    ensures Add3(a, b) == Add3(b, a) && Add3(Add3(a, b), c) == Add3(a, Add3(b, c)) && Add3(a, Zero3) == a
    ensures Add3(Sub3(a, b), b) == a && Sub3(a, b) == Add3(a, Neg3(b)) && Add3(a, Neg3(a)) == Zero3
  {
  }

  /** Element product `|` on vector3. */
  function Mul3(a: Vec3, b: Vec3): Vec3
  {
    Vec3(a.x * b.x, a.y * b.y, a.z * b.z)
  }

  /** The vector3 element product multiplies lane by lane and distributes over `+`. */
  lemma Mul3Laws(a: Vec3, b: Vec3, c: Vec3)
    ensures forall i :: 0 <= i <= 2 ==> At3(Mul3(a, b), i) == At3(a, i) * At3(b, i)
    ensures Mul3(Add3(a, b), c) == Add3(Mul3(a, c), Mul3(b, c))
  {
  }

  /** Dot product `*` on vector3: three lane products. */
  function Dot3(a: Vec3, b: Vec3): real
  {
    a.x * b.x + a.y * b.y + a.z * b.z
  }

  lemma Dot3Symmetric(a: Vec3, b: Vec3)
    ensures Dot3(a, b) == Dot3(b, a)
    ensures Dot3(a, b) == Dot4(Widen(a), Widen(b)) - 1.0
  {
  }

  /** `vector3 += B`. */
  method AddAssign3(a: Vec3, b: Vec3) returns (r: Vec3)
    ensures r == Add3(a, b)
  {
    r := a;
    r := r.(x := r.x + b.x);
    r := r.(y := r.y + b.y);
    r := r.(z := r.z + b.z);
  }

  /** `vector3 -= B`. */
  method SubAssign3(a: Vec3, b: Vec3) returns (r: Vec3)
    ensures r == Sub3(a, b)
  {
    r := a;
    r := r.(x := r.x - b.x);
    r := r.(y := r.y - b.y);
    r := r.(z := r.z - b.z);
  }

  /** `vector3 |= B`. */
  method MulAssign3(a: Vec3, b: Vec3) returns (r: Vec3)
    ensures r == Mul3(a, b)
  {
    r := a;
    r := r.(x := r.x * b.x);
    r := r.(y := r.y * b.y);
    r := r.(z := r.z * b.z);
  }

  /** Portable `vector3 % vector3` AS WRITTEN: the y lane has the wrong sign. */
  function Cross3AsWritten(a: Vec3, b: Vec3): Vec3
  {
    Vec3(a.y * b.z - a.z * b.y, a.x * b.z - a.z * b.x, a.x * b.y - a.y * b.x)
  }

  /**
   * As written, the product agrees with the cross product except for the sign of y,
   * and A % A is still the zero vector.
   */
  lemma Cross3AsWrittenFlipsY(a: Vec3, b: Vec3)
    ensures Cross3AsWritten(a, b) == Cross3(a, b).(y := -Cross3(a, b).y)
    ensures Cross3AsWritten(a, a) == Zero3
  {
  }

  /**
   * As written, A % B is not orthogonal to A: with A = (1,1,0) and B = (0,0,1) it gives
   * (1,1,0), whose dot product with A is 2.
   */
  lemma Cross3AsWrittenNotOrthogonal()
    ensures Cross3AsWritten(Vec3(1.0, 1.0, 0.0), Vec3(0.0, 0.0, 1.0)) == Vec3(1.0, 1.0, 0.0)
    ensures Dot3(Vec3(1.0, 1.0, 0.0), Cross3AsWritten(Vec3(1.0, 1.0, 0.0), Vec3(0.0, 0.0, 1.0))) == 2.0
  {
    assert Cross3AsWritten(Vec3(1.0, 1.0, 0.0), Vec3(0.0, 0.0, 1.0)) == Vec3(1.0, 1.0, 0.0);
  }

  /** `vector3 % vector3` corrected (the SIMD path's result): the right-handed cross product. */
  function Cross3(a: Vec3, b: Vec3): Vec3
  {
    Vec3(a.y * b.z - a.z * b.y, a.z * b.x - a.x * b.z, a.x * b.y - a.y * b.x)
  }

  /** The corrected product is orthogonal to both operands. */
  lemma CrossOrthogonal(a: Vec3, b: Vec3)
    ensures Dot3(a, Cross3(a, b)) == 0.0 && Dot3(b, Cross3(a, b)) == 0.0
  {
  }

  /** A % A is the zero vector, and swapping the operands negates the product. */
  lemma CrossAntiCommutes(a: Vec3, b: Vec3)
    ensures Cross3(a, a) == Zero3
    ensures Cross3(b, a) == Neg3(Cross3(a, b))
  {
  }

  /** The cross product of the axes x and y is the axis z (right-handed). */
  lemma CrossRightHanded()
    ensures Cross3(Vec3(1.0, 0.0, 0.0), Vec3(0.0, 1.0, 0.0)) == Vec3(0.0, 0.0, 1.0)
    ensures Cross3(Vec3(0.0, 0.0, 1.0), Vec3(1.0, 0.0, 0.0)) == Vec3(0.0, 1.0, 0.0)
  {
    assert Cross3(Vec3(1.0, 0.0, 0.0), Vec3(0.0, 1.0, 0.0)) == Vec3(0.0, 0.0, 1.0);
  }

  /**
   * Portable `vector3 * float` (and `float * vector3`) AS WRITTEN: it fills a scaled
   * copy and then returns V, so the factor has no effect.
   */
  function Scale3AsWritten(v: Vec3, s: real): (r: Vec3)
  {
    v
  }

  /** As written, scaling (1,0,0) by 2 yields (1,0,0). */
  lemma Scale3AsWrittenIgnoresFactor()
    ensures Scale3AsWritten(Vec3(1.0, 0.0, 0.0), 2.0) == Vec3(1.0, 0.0, 0.0)
    ensures Scale3(Vec3(1.0, 0.0, 0.0), 2.0) == Vec3(2.0, 0.0, 0.0)
  {
  }

  /** `vector3 * float` corrected: every lane multiplied by s. */
  function Scale3(v: Vec3, s: real): Vec3
  {
    Vec3(v.x * s, v.y * s, v.z * s)
  }

  /** Corrected scaling multiplies every lane, and scaling by 1 changes nothing. */
  lemma Scale3Laws(v: Vec3, s: real)
    ensures forall i :: 0 <= i <= 2 ==> At3(Scale3(v, s), i) == s * At3(v, i)
    ensures Scale3(v, 1.0) == v && Scale3(v, 0.0) == Zero3
  {
  }

  // ---------------------------------------------------------------
  // matrix: sixteen floats _11 .. _44, also seen as four rows _L1 .. _L4
  // ---------------------------------------------------------------

  /** A matrix value: its four rows. Element (i, j) is lane j of row i. */
  datatype Mat = Mat(l1: Vec4, l2: Vec4, l3: Vec4, l4: Vec4)

  function RowOf(m: Mat, i: int): Vec4
    requires 0 <= i <= 3
  {
    if i == 0 then m.l1 else if i == 1 then m.l2 else if i == 2 then m.l3 else m.l4
  }

  /** Element (i, j), the value `operator()(i, j)` reads. */
  function Entry(m: Mat, i: int, j: int): real
    requires 0 <= i <= 3 && 0 <= j <= 3
  {
    At4(RowOf(m, i), j)
  }

  function ColumnOf(m: Mat, j: int): Vec4
    requires 0 <= j <= 3
  {
    Vec4(At4(m.l1, j), At4(m.l2, j), At4(m.l3, j), At4(m.l4, j))
  }

  /** Two matrices with the same elements are the same matrix. */
  lemma {:induction false} MatExtensional(a: Mat, b: Mat)
    requires forall i, j :: 0 <= i <= 3 && 0 <= j <= 3 ==> Entry(a, i, j) == Entry(b, i, j)
    ensures a == b
  {
    forall i | 0 <= i <= 3 ensures RowOf(a, i) == RowOf(b, i) {
      assert Entry(a, i, 0) == Entry(b, i, 0) && Entry(a, i, 1) == Entry(b, i, 1);
      assert Entry(a, i, 2) == Entry(b, i, 2) && Entry(a, i, 3) == Entry(b, i, 3);
    }
    assert RowOf(a, 0) == RowOf(b, 0) && RowOf(a, 1) == RowOf(b, 1);
    assert RowOf(a, 2) == RowOf(b, 2) && RowOf(a, 3) == RowOf(b, 3);
  }

  /** The flat offset of element (i, j): `(i<<2)+j` floats after `_11`. */
  function Offset(i: int, j: int): (k: int)
    requires 0 <= i <= 3 && 0 <= j <= 3
    ensures 0 <= k < 16
  {
    4 * i + j
  }

  /** The sixteen floats of a matrix in memory order (the `_11 .. _44` view of the union). */
  function Flat(m: Mat): (f: seq<real>)
    ensures |f| == 16
  {
    [m.l1.x, m.l1.y, m.l1.z, m.l1.w,
     m.l2.x, m.l2.y, m.l2.z, m.l2.w,
     m.l3.x, m.l3.y, m.l3.z, m.l3.w,
     m.l4.x, m.l4.y, m.l4.z, m.l4.w]
  }

  /**
   * The flat addressing of `operator()(i, j)` reaches element (i, j), and distinct
   * index pairs reach distinct floats.
   */
  lemma {:induction false} OffsetAddressesEntry(m: Mat, i: int, j: int)
    requires 0 <= i <= 3 && 0 <= j <= 3
    ensures Flat(m)[Offset(i, j)] == Entry(m, i, j)
    ensures Offset(i, j) / 4 == i && Offset(i, j) % 4 == j
  {
    if i == 0 {
    } else if i == 1 {
    } else if i == 2 {
    } else {
    }
  }

  /** The transposed matrix, element by element. */
  function Transposed(m: Mat): (t: Mat)
    ensures forall i, j :: 0 <= i <= 3 && 0 <= j <= 3 ==> Entry(t, i, j) == Entry(m, j, i)
  {
    Mat(ColumnOf(m, 0), ColumnOf(m, 1), ColumnOf(m, 2), ColumnOf(m, 3))
  }

  /** Transposing twice restores the matrix, and the diagonal is left where it is. */
  lemma TransposeInvolutive(m: Mat)
    ensures Transposed(Transposed(m)) == m
    ensures forall i :: 0 <= i <= 3 ==> Entry(Transposed(m), i, i) == Entry(m, i, i)
  {
    MatExtensional(Transposed(Transposed(m)), m);
  }

  const ZeroMat: Mat := Mat(Zero4, Zero4, Zero4, Zero4)

  const IdentityMat: Mat :=
    Mat(Vec4(1.0, 0.0, 0.0, 0.0), Vec4(0.0, 1.0, 0.0, 0.0), Vec4(0.0, 0.0, 1.0, 0.0), Vec4(0.0, 0.0, 0.0, 1.0))

  lemma IdentityEntries(i: int, j: int)
    requires 0 <= i <= 3 && 0 <= j <= 3
    ensures Entry(IdentityMat, i, j) == if i == j then 1.0 else 0.0
    ensures Entry(ZeroMat, i, j) == 0.0
  {
  }

  /** Portable MatrixMult: the sixteen sums written out entry by entry. */
  function MatrixMult(a: Mat, b: Mat): Mat
  {
    Mat(
    Vec4(a.l1.x * b.l1.x + a.l1.y * b.l2.x + a.l1.z * b.l3.x + a.l1.w * b.l4.x,
         a.l1.x * b.l1.y + a.l1.y * b.l2.y + a.l1.z * b.l3.y + a.l1.w * b.l4.y,
         a.l1.x * b.l1.z + a.l1.y * b.l2.z + a.l1.z * b.l3.z + a.l1.w * b.l4.z,
         a.l1.x * b.l1.w + a.l1.y * b.l2.w + a.l1.z * b.l3.w + a.l1.w * b.l4.w),
    Vec4(a.l2.x * b.l1.x + a.l2.y * b.l2.x + a.l2.z * b.l3.x + a.l2.w * b.l4.x,
         a.l2.x * b.l1.y + a.l2.y * b.l2.y + a.l2.z * b.l3.y + a.l2.w * b.l4.y,
         a.l2.x * b.l1.z + a.l2.y * b.l2.z + a.l2.z * b.l3.z + a.l2.w * b.l4.z,
         a.l2.x * b.l1.w + a.l2.y * b.l2.w + a.l2.z * b.l3.w + a.l2.w * b.l4.w),
    Vec4(a.l3.x * b.l1.x + a.l3.y * b.l2.x + a.l3.z * b.l3.x + a.l3.w * b.l4.x,
         a.l3.x * b.l1.y + a.l3.y * b.l2.y + a.l3.z * b.l3.y + a.l3.w * b.l4.y,
         a.l3.x * b.l1.z + a.l3.y * b.l2.z + a.l3.z * b.l3.z + a.l3.w * b.l4.z,
         a.l3.x * b.l1.w + a.l3.y * b.l2.w + a.l3.z * b.l3.w + a.l3.w * b.l4.w),
    Vec4(a.l4.x * b.l1.x + a.l4.y * b.l2.x + a.l4.z * b.l3.x + a.l4.w * b.l4.x,
         a.l4.x * b.l1.y + a.l4.y * b.l2.y + a.l4.z * b.l3.y + a.l4.w * b.l4.y,
         a.l4.x * b.l1.z + a.l4.y * b.l2.z + a.l4.z * b.l3.z + a.l4.w * b.l4.z,
         a.l4.x * b.l1.w + a.l4.y * b.l2.w + a.l4.z * b.l3.w + a.l4.w * b.l4.w))
  }

  lemma MatrixMultRow0(a: Mat, b: Mat, j: int)
    requires 0 <= j <= 3
    ensures Entry(MatrixMult(a, b), 0, j) == Dot4(RowOf(a, 0), ColumnOf(b, j))
  {
  }

  lemma MatrixMultRow1(a: Mat, b: Mat, j: int)
    requires 0 <= j <= 3
    ensures Entry(MatrixMult(a, b), 1, j) == Dot4(RowOf(a, 1), ColumnOf(b, j))
  {
  }

  lemma MatrixMultRow2(a: Mat, b: Mat, j: int)
    requires 0 <= j <= 3
    ensures Entry(MatrixMult(a, b), 2, j) == Dot4(RowOf(a, 2), ColumnOf(b, j))
  {
  }

  lemma MatrixMultRow3(a: Mat, b: Mat, j: int)
    requires 0 <= j <= 3
    ensures Entry(MatrixMult(a, b), 3, j) == Dot4(RowOf(a, 3), ColumnOf(b, j))
  {
  }

  /** Element (i, j) of MatrixMult(A, B) is row i of A dotted with column j of B. */
  lemma {:induction false} MatrixMultEntry(a: Mat, b: Mat, i: int, j: int)
    requires 0 <= i <= 3 && 0 <= j <= 3
    ensures Entry(MatrixMult(a, b), i, j) == Dot4(RowOf(a, i), ColumnOf(b, j))
  {
    if i == 0 {
      MatrixMultRow0(a, b, j);
    } else if i == 1 {
      MatrixMultRow1(a, b, j);
    } else if i == 2 {
      MatrixMultRow2(a, b, j);
    } else {
      MatrixMultRow3(a, b, j);
    }
  }

  /** The identity matrix is neutral for MatrixMult on both sides. */
  lemma IdentityNeutral(a: Mat)
    ensures MatrixMult(IdentityMat, a) == a
    ensures MatrixMult(a, IdentityMat) == a
  {
  }

  /**
   * A matrix object: `_L1 .. _L4`, updated in place by `operator()`, ZeroMatrix,
   * IdentityMatrix and Transpose.
   */
  class Matrix {
    var l1: Vec4
    var l2: Vec4
    var l3: Vec4
    var l4: Vec4

    /** The matrix value the object currently holds. */
    function Value(): Mat
      reads this
    {
      Mat(l1, l2, l3, l4)
    }

    /** `matrix(f11, ..., f44)`: the object holds the sixteen given entries, row by row. */
    constructor (m: Mat)
      ensures Value() == m
    {
      l1, l2, l3, l4 := m.l1, m.l2, m.l3, m.l4;
    }

    /** `operator()(i, j)` read. */
    function Get(i: int, j: int): (v: real)
      reads this
      requires 0 <= i <= 3 && 0 <= j <= 3
      ensures v == Flat(Value())[Offset(i, j)]
    {
      OffsetAddressesEntry(Value(), i, j);
      Entry(Value(), i, j)
    }

    /** `operator()(i, j) = v`: element (i, j) becomes v and no other element changes. */
    method Set(i: int, j: int, v: real)
      requires 0 <= i <= 3 && 0 <= j <= 3
      modifies this
      ensures Get(i, j) == v
      ensures forall p, q :: 0 <= p <= 3 && 0 <= q <= 3 && (p, q) != (i, j) ==>
                Entry(Value(), p, q) == Entry(old(Value()), p, q)
    {
      if i == 0 {
        l1 := SetLane(l1, j, v);
      } else if i == 1 {
        l2 := SetLane(l2, j, v);
      } else if i == 2 {
        l3 := SetLane(l3, j, v);
      } else {
        l4 := SetLane(l4, j, v);
      }
      OffsetAddressesEntry(Value(), i, j);
    }

    /** ZeroMatrix: the four rows are cleared. */
    method ZeroMatrix()
      modifies this
      ensures Value() == ZeroMat
    {
      l1 := Zero4;
      l2 := Zero4;
      l3 := Zero4;
      l4 := Zero4;
    }

    /** IdentityMatrix: ZeroMatrix, then `_11 = _22 = _33 = _44 = 1`. */
    method IdentityMatrix()
      modifies this
      ensures Value() == IdentityMat
    {
      ZeroMatrix();
      l1 := l1.(x := 1.0);
      l2 := l2.(y := 1.0);
      l3 := l3.(z := 1.0);
      l4 := l4.(w := 1.0);
    }

    /** Transpose: the six off-diagonal pairs are exchanged in place. */
    method Transpose()
      modifies this
      ensures Value() == Transposed(old(Value()))
    {
      var t := l1.y;  l1 := l1.(y := l2.x);  l2 := l2.(x := t);
      t := l1.z;  l1 := l1.(z := l3.x);  l3 := l3.(x := t);
      t := l1.w;  l1 := l1.(w := l4.x);  l4 := l4.(x := t);
      t := l2.z;  l2 := l2.(z := l3.y);  l3 := l3.(y := t);
      t := l2.w;  l2 := l2.(w := l4.y);  l4 := l4.(y := t);
      t := l3.w;  l3 := l3.(w := l4.z);  l4 := l4.(z := t);
    }
  }

  /** Lane j of v replaced by s. */
  function SetLane(v: Vec4, j: int, s: real): (r: Vec4)
    requires 0 <= j <= 3
    ensures At4(r, j) == s
    ensures forall k :: 0 <= k <= 3 && k != j ==> At4(r, k) == At4(v, k)
  {
    if j == 0 then v.(x := s) else if j == 1 then v.(y := s) else if j == 2 then v.(z := s) else v.(w := s)
  }
}
