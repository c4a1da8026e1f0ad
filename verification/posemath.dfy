/*
 * The algebraic part of the pose-math library (src/lib/_posemath.c):
 * cartesian vectors, quaternions and 3x3 rotation matrices, the status codes
 * the routines return and the sentinel values they write on failure.
 *
 * Doubles are reals. The square root the C code takes from libm is a
 * parameter `sqrt`; the facts that need it hold for any function meeting
 * `IsSqrt`. The library is built without PM_DEBUG, so the extra unit-length
 * checks guarded by that macro are not part of the model.
 */
module PoseMath {
  import opened Status

  // ---------------------------------------------------------------------------
  // Status codes and constants (src/lib/posemath.h)
  // ---------------------------------------------------------------------------

  const PmOk: int := 0
  const PmErr: int := -1
  const PmImplErr: int := -2
  const PmNormErr: int := -3
  const PmDivErr: int := -4

  /** 2.2204460492503131e-16, the smallest d with 1 + d != 1. */
  const DoubleFuzz: real := 22204460492503131.0 / 100000000000000000000000000000000.0

  const VFuzz: real := 0.000001
  const QFuzz: real := 0.000001
  const QsFuzz: real := 0.000001
  const UnitVecFuzz: real := 0.000001
  const UnitQuatFuzz: real := 0.000001

  function Pow10(k: nat): (p: real)
    ensures p >= 1.0
  {
    if k == 0 then 1.0 else 10.0 * Pow10(k - 1)
  }

  /** DBL_MAX = 1.7976931348623157e308, the sentinel written on division by zero. */
  const DblMax: real := 17976931348623157.0 * Pow10(292)

  /** `sqrt` behaves as the square root on the non-negative reals. */
  ghost predicate IsSqrt(sqrt: real -> real)
  {
    forall x: real :: 0.0 <= x ==> 0.0 <= sqrt(x) && sqrt(x) * sqrt(x) == x
  }

  function Abs(x: real): real
  {
    if x < 0.0 then -x else x
  }

  /** pm_double_is_zero: strictly inside (-DOUBLE_FUZZ, DOUBLE_FUZZ). */
  predicate IsZero(d: real)
  {
    -DoubleFuzz < d < DoubleFuzz
  }

  // ---------------------------------------------------------------------------
  // Records
  // ---------------------------------------------------------------------------

  datatype Cart = Cart(x: real, y: real, z: real)

  datatype Quat = Quat(s: real, x: real, y: real, z: real)

  /** PmRotationMatrix: three column vectors x, y, z. */
  datatype Mat = Mat(x: Cart, y: Cart, z: Cart)

  const QuatIdentity: Quat := Quat(1.0, 0.0, 0.0, 0.0)

  const DblMaxCart: Cart := Cart(DblMax, DblMax, DblMax)

  function CartSumSq(v: Cart): real
  {
    v.x * v.x + v.y * v.y + v.z * v.z
  }

  function QuatSumSq(q: Quat): real
  {
    q.s * q.s + q.x * q.x + q.y * q.y + q.z * q.z
  }

  function QuatScale(q: Quat, k: real): Quat
  {
    Quat(q.s * k, q.x * k, q.y * k, q.z * k)
  }

  function QuatNeg(q: Quat): Quat
  {
    Quat(-q.s, -q.x, -q.y, -q.z)
  }

  lemma SumSqNonNeg(v: Cart, q: Quat)
    ensures CartSumSq(v) >= 0.0 && QuatSumSq(q) >= 0.0
  {
  }

  lemma SqrtOfOne(sqrt: real -> real)
    requires IsSqrt(sqrt)
    ensures sqrt(1.0) == 1.0
  {
    PositiveRootOfOne(sqrt(1.0));
  }

  // Real arithmetic facts the solver does not find unaided. Each is small so
  // that the non-linear reasoning stays local.

  lemma ZeroProduct(a: real, b: real)
    requires a * b == 0.0
    ensures a == 0.0 || b == 0.0
  {
  }

  lemma PositiveRootOfOne(r: real)
    requires 0.0 <= r && r * r == 1.0
    ensures r == 1.0
  {
    assert (r - 1.0) * (r + 1.0) == r * r - 1.0;
    ZeroProduct(r - 1.0, r + 1.0);
  }

  lemma SquareOfProduct(i: real, s: real)
    ensures (i * s) * (i * s) == (i * i) * (s * s)
  {
  }

  lemma InverseSquare(i: real, s: real)
    requires i * s == 1.0
    ensures (i * i) * (s * s) == 1.0
  {
    SquareOfProduct(i, s);
  }

  lemma DivAsMul(a: real, k: real)
    requires k != 0.0
    ensures a / k == a * (1.0 / k)
  {
  }

  lemma InvTimes(k: real)
    requires k != 0.0
    ensures (1.0 / k) * k == 1.0
  {
  }

  lemma DivMulCancel(a: real, k: real)
    requires k != 0.0
    ensures (a / k) * k == a && (a * k) / k == a
  {
  }

  lemma MulCancel(a: real, b: real, k: real)
    requires k != 0.0 && a * k == b * k
    ensures a == b
  {
    assert (a - b) * k == 0.0;
    ZeroProduct(a - b, k);
  }

  lemma ScaledSquares(a: real, b: real, c: real, d: real, i: real)
    ensures (a * i) * (a * i) + (b * i) * (b * i) + (c * i) * (c * i) + (d * i) * (d * i)
         == (i * i) * (a * a + b * b + c * c + d * d)
  {
  }

  /** Dividing a 4-vector by its length gives squared length 1. */
  lemma DividedLength(a: real, b: real, c: real, d: real, size: real)
    requires size != 0.0 && size * size == a * a + b * b + c * c + d * d
    ensures (a / size) * (a / size) + (b / size) * (b / size) + (c / size) * (c / size) + (d / size) * (d / size) == 1.0
  {
    var i := 1.0 / size;
    InvTimes(size);
    DivAsMul(a, size);
    DivAsMul(b, size);
    DivAsMul(c, size);
    DivAsMul(d, size);
    ScaledSquares(a, b, c, d, i);
    InverseSquare(i, size);
  }

  // ---------------------------------------------------------------------------
  // PmCartesian
  // ---------------------------------------------------------------------------

  /** pmCartCartCompare: 1 when every component differs by less than V_FUZZ. */
  function CartCartCompare(v1: Cart, v2: Cart): (r: int)
    ensures r == 0 || r == 1
    ensures r == 1 <==> Abs(v1.x - v2.x) < VFuzz && Abs(v1.y - v2.y) < VFuzz && Abs(v1.z - v2.z) < VFuzz
  {
    if Abs(v1.x - v2.x) >= VFuzz || Abs(v1.y - v2.y) >= VFuzz || Abs(v1.z - v2.z) >= VFuzz then 0 else 1
  }

  /** A vector compares equal to itself, and the comparison is symmetric. */
  lemma CartCompareReflexiveSymmetric(v1: Cart, v2: Cart)
    ensures CartCartCompare(v1, v1) == 1
    ensures CartCartCompare(v1, v2) == CartCartCompare(v2, v1)
  {
  }

  function CartCartDot(v1: Cart, v2: Cart): real
  {
    v1.x * v2.x + v1.y * v2.y + v1.z * v2.z
  }

  /** The dot product is symmetric and a vector dotted with itself is its squared length. */
  lemma DotFacts(v1: Cart, v2: Cart)
    ensures CartCartDot(v1, v2) == CartCartDot(v2, v1)
    ensures CartCartDot(v1, v1) == CartSumSq(v1) >= 0.0
  {
  }

  function CartCartCross(v1: Cart, v2: Cart): (c: Cart)
    ensures CartCartDot(c, v1) == 0.0 && CartCartDot(c, v2) == 0.0
  {
    Cart(v1.y * v2.z - v1.z * v2.y, v1.z * v2.x - v1.x * v2.z, v1.x * v2.y - v1.y * v2.x)
  }

  /** The cross product is anti-commutative. */
  lemma CrossAntiCommutes(v1: Cart, v2: Cart)
    ensures CartCartCross(v2, v1) == CartNeg(CartCartCross(v1, v2))
  {
  }

  function CartMag(v: Cart, sqrt: real -> real): (d: real)
    ensures IsSqrt(sqrt) ==> d >= 0.0 && d * d == CartCartDot(v, v)
  {
    sqrt(CartSumSq(v))
  }

  /** pmCartCartDisp: the distance from v1 to v2. */
  function CartCartDisp(v1: Cart, v2: Cart, sqrt: real -> real): (d: real)
    ensures d == CartMag(CartCartSub(v2, v1), sqrt)
  {
    assert CartSumSq(CartCartSub(v2, v1))
        == (v2.x - v1.x) * (v2.x - v1.x) + (v2.y - v1.y) * (v2.y - v1.y) + (v2.z - v1.z) * (v2.z - v1.z);
    sqrt((v2.x - v1.x) * (v2.x - v1.x) + (v2.y - v1.y) * (v2.y - v1.y) + (v2.z - v1.z) * (v2.z - v1.z))
  }

  function CartCartAdd(v1: Cart, v2: Cart): (r: Cart)
    ensures r.x - v1.x == v2.x && r.y - v1.y == v2.y && r.z - v1.z == v2.z
    ensures v2 == Cart(0.0, 0.0, 0.0) ==> r == v1
  {
    Cart(v1.x + v2.x, v1.y + v2.y, v1.z + v2.z)
  }

  lemma AddCommutes(v1: Cart, v2: Cart)
    ensures CartCartAdd(v1, v2) == CartCartAdd(v2, v1)
  {
  }

  function CartCartSub(v1: Cart, v2: Cart): (r: Cart)
    ensures CartCartAdd(r, v2) == v1
  {
    Cart(v1.x - v2.x, v1.y - v2.y, v1.z - v2.z)
  }

  function CartScalMult(v: Cart, d: real): (r: Cart)
    ensures d == 1.0 ==> r == v
    ensures d == 0.0 ==> r == Cart(0.0, 0.0, 0.0)
  {
    Cart(v.x * d, v.y * d, v.z * d)
  }

  /** pmCartScalDiv: DBL_MAX and PM_DIV_ERR for a divisor within DOUBLE_FUZZ of 0. */
  function CartScalDiv(v: Cart, d: real): (r: Ret<Cart>)
    ensures IsZero(d) <==> r.code == PmDivErr
    ensures IsZero(d) ==> r.out == DblMaxCart
    ensures !IsZero(d) ==> r.code == PmOk && CartScalMult(r.out, d) == v
  {
    if IsZero(d) then Ret(PmDivErr, DblMaxCart)
    else Ret(PmOk, Cart(v.x / d, v.y / d, v.z / d))
  }

  /** Dividing undoes multiplying by the same non-negligible scalar. */
  lemma ScalDivUndoesScalMult(v: Cart, d: real)
    requires !IsZero(d)
    ensures CartScalDiv(CartScalMult(v, d), d) == Ret(PmOk, v)
  {
    assert d != 0.0;
    var r := CartScalDiv(CartScalMult(v, d), d).out;
    assert CartScalMult(r, d) == CartScalMult(v, d);
    MulCancel(r.x, v.x, d);
    MulCancel(r.y, v.y, d);
    MulCancel(r.z, v.z, d);
  }

  function CartNeg(v: Cart): (r: Cart)
    ensures CartCartAdd(v, r) == Cart(0.0, 0.0, 0.0)
  {
    Cart(-v.x, -v.y, -v.z)
  }

  lemma CartNegInvolution(v: Cart)
    ensures CartNeg(CartNeg(v)) == v
  {
  }

  /** pmCartInv: v / |v|^2, or DBL_MAX and PM_NORM_ERR for a (near) zero vector. */
  function CartInv(v: Cart): (r: Ret<Cart>)
    ensures IsZero(CartSumSq(v)) <==> r.code == PmNormErr
    ensures r.code == PmNormErr ==> r.out == DblMaxCart
    ensures r.code != PmNormErr ==> r.code == PmOk && CartCartDot(r.out, v) == 1.0
  {
    var sizeSq := CartSumSq(v);
    if IsZero(sizeSq) then Ret(PmNormErr, DblMaxCart)
    else Ret(PmOk, Cart(v.x / sizeSq, v.y / sizeSq, v.z / sizeSq))
  }

  /** pmCartUnit: v / |v|, or DBL_MAX and PM_NORM_ERR when |v| is within DOUBLE_FUZZ of 0. */
  function CartUnit(v: Cart, sqrt: real -> real): (r: Ret<Cart>)
    ensures IsZero(CartMag(v, sqrt)) <==> r.code == PmNormErr
    ensures r.code == PmNormErr ==> r.out == DblMaxCart
    ensures r.code != PmNormErr ==> r.code == PmOk && CartScalMult(r.out, CartMag(v, sqrt)) == v
    ensures IsSqrt(sqrt) && r.code == PmOk ==> CartSumSq(r.out) == 1.0
  {
    var size := sqrt(CartSumSq(v));
    if IsZero(size) then Ret(PmNormErr, DblMaxCart)
    else
      var u := Cart(v.x / size, v.y / size, v.z / size);
      UnitLength(v, size, u, sqrt);
      Ret(PmOk, u)
  }

  lemma UnitLength(v: Cart, size: real, u: Cart, sqrt: real -> real)
    requires size == sqrt(CartSumSq(v)) && size != 0.0
    requires u == Cart(v.x / size, v.y / size, v.z / size)
    ensures CartScalMult(u, size) == v
    ensures IsSqrt(sqrt) ==> CartSumSq(u) == 1.0
  {
    DivMulCancel(v.x, size);
    DivMulCancel(v.y, size);
    DivMulCancel(v.z, size);
    if IsSqrt(sqrt) {
      SumSqNonNeg(v, QuatIdentity);
      assert size * size == v.x * v.x + v.y * v.y + v.z * v.z + 0.0 * 0.0;
      DividedLength(v.x, v.y, v.z, 0.0, size);
    }
  }

  /** pmCartIsNorm: 1 when |v| - 1 is below UNIT_VEC_FUZZ. */
  function CartIsNorm(v: Cart, sqrt: real -> real): (r: int)
    ensures r == 1 <==> CartMag(v, sqrt) < 1.0 + UnitVecFuzz
    ensures r == 0 || r == 1
  {
    if sqrt(CartSumSq(v)) - 1.0 < UnitVecFuzz then 1 else 0
  }

  /** A unit vector produced by pmCartUnit passes pmCartIsNorm. */
  lemma UnitIsNorm(v: Cart, sqrt: real -> real)
    requires IsSqrt(sqrt) && CartUnit(v, sqrt).code == PmOk
    ensures CartIsNorm(CartUnit(v, sqrt).out, sqrt) == 1
  {
    SqrtOfOne(sqrt);
  }

  /**
   * pmCartCartProj: the component of v1 along v2. The unit vector of v2 is used
   * even when pmCartUnit failed (it then holds DBL_MAX); the code reports that.
   */
  function CartCartProj(v1: Cart, v2: Cart, sqrt: real -> real): (r: Ret<Cart>)
    ensures r.code == (if CartUnit(v2, sqrt).code != PmOk then PmNormErr else PmOk)
    ensures var u := CartUnit(v2, sqrt).out; r.out == CartScalMult(u, CartCartDot(v1, u))
  {
    var unit := CartUnit(v2, sqrt);
    var d := CartCartDot(v1, unit.out);
    Ret(if unit.code != PmOk then PmNormErr else PmOk, CartScalMult(unit.out, d))
  }

  /** pmCartPlaneProj: v minus its component along the plane normal. */
  function CartPlaneProj(v: Cart, normal: Cart, sqrt: real -> real): (r: Ret<Cart>)
    ensures r.code == CartCartProj(v, normal, sqrt).code
    ensures CartCartAdd(r.out, CartCartProj(v, normal, sqrt).out) == v
  {
    var par := CartCartProj(v, normal, sqrt);
    Ret(if par.code != PmOk then PmNormErr else PmOk, CartCartSub(v, par.out))
  }

  /** The plane projection is orthogonal to the normal. */
  lemma {:induction false} PlaneProjOrthogonal(v: Cart, normal: Cart, sqrt: real -> real)
    requires IsSqrt(sqrt) && CartPlaneProj(v, normal, sqrt).code == PmOk
    ensures CartCartDot(CartPlaneProj(v, normal, sqrt).out, normal) == 0.0
  {
    var unit := CartUnit(normal, sqrt);
    var u := unit.out;
    var size := CartMag(normal, sqrt);
    assert unit.code == PmOk;
    assert CartSumSq(u) == 1.0;
    assert normal == CartScalMult(u, size);
    var d := CartCartDot(v, u);
    var w := CartPlaneProj(v, normal, sqrt).out;
    assert w == CartCartSub(v, CartScalMult(u, d));
    DotSubScaled(v, u, d);
    DotScaled(w, u, size);
  }

  lemma DotSubScaled(v: Cart, u: Cart, d: real)
    ensures CartCartDot(CartCartSub(v, CartScalMult(u, d)), u) == CartCartDot(v, u) - d * CartSumSq(u)
  {
    var w := CartCartSub(v, CartScalMult(u, d));
    assert w == Cart(v.x - u.x * d, v.y - u.y * d, v.z - u.z * d);
  }

  lemma DotScaled(w: Cart, u: Cart, k: real)
    ensures CartCartDot(w, CartScalMult(u, k)) == k * CartCartDot(w, u)
  {
  }

  // ---------------------------------------------------------------------------
  // PmRotationMatrix
  // ---------------------------------------------------------------------------

  /** pmMatInv: the transpose, the inverse of a rotation. */
  function MatInv(m: Mat): (r: Mat)
    ensures r.x == Cart(m.x.x, m.y.x, m.z.x)
    ensures r.y == Cart(m.x.y, m.y.y, m.z.y)
    ensures r.z == Cart(m.x.z, m.y.z, m.z.z)
  {
    Mat(Cart(m.x.x, m.y.x, m.z.x), Cart(m.x.y, m.y.y, m.z.y), Cart(m.x.z, m.y.z, m.z.z))
  }

  lemma MatInvInvolution(m: Mat)
    ensures MatInv(MatInv(m)) == m
  {
  }

  /** Row k of a matrix stored by columns. */
  function MatRow(m: Mat, k: nat): Cart
    requires k < 3
  {
    if k == 0 then Cart(m.x.x, m.y.x, m.z.x)
    else if k == 1 then Cart(m.x.y, m.y.y, m.z.y)
    else Cart(m.x.z, m.y.z, m.z.z)
  }

  /**
   * pmMatCartMult: the rotation m applied to v. Each component the C code
   * writes out is a row of m dotted with v, with the same products in the
   * same order.
   */
  function MatCartMult(m: Mat, v: Cart): (r: Cart)
    ensures r == CartCartAdd(CartCartAdd(CartScalMult(m.x, v.x), CartScalMult(m.y, v.y)), CartScalMult(m.z, v.z))
  {
    Cart(CartCartDot(MatRow(m, 0), v), CartCartDot(MatRow(m, 1), v), CartCartDot(MatRow(m, 2), v))
  }

  /** m*v is the combination of the columns of m weighted by the components of v. */
  lemma MatCartMultColumns(m: Mat, v: Cart)
    ensures MatCartMult(m, v) == CartCartAdd(CartCartAdd(CartScalMult(m.x, v.x), CartScalMult(m.y, v.y)), CartScalMult(m.z, v.z))
  {
  }

  /** The transpose applied to v dots each column of m with v. */
  lemma MatInvCartMult(m: Mat, v: Cart)
    ensures MatCartMult(MatInv(m), v) == Cart(CartCartDot(m.x, v), CartCartDot(m.y, v), CartCartDot(m.z, v))
  {
  }

  /**
   * pmMatMatMult: the product m1*m2. Each of the nine sums the C code writes
   * out is m1 applied to one column of m2, with the same products in the same
   * order.
   */
  function MatMatMult(m1: Mat, m2: Mat): (r: Mat)
    ensures forall k :: 0 <= k < 3 ==> MatRow(r, k) == RowTimes(MatRow(m1, k), m2)
  {
    Mat(MatCartMult(m1, m2.x), MatCartMult(m1, m2.y), MatCartMult(m1, m2.z))
  }

  /** A row vector times a matrix (the row of a product). */
  function RowTimes(a: Cart, m: Mat): Cart
  {
    Cart(CartCartDot(a, m.x), CartCartDot(a, m.y), CartCartDot(a, m.z))
  }

  lemma MatMatMultByRows(m1: Mat, m2: Mat, k: nat)
    requires k < 3
    ensures MatRow(MatMatMult(m1, m2), k) == RowTimes(MatRow(m1, k), m2)
  {
  }

  /** Associativity for one row, written out over the reals. */
  lemma Assoc(a1: real, a2: real, a3: real,
              b11: real, b12: real, b13: real, b21: real, b22: real, b23: real, b31: real, b32: real, b33: real,
              v1: real, v2: real, v3: real)
    ensures (a1 * b11 + a2 * b21 + a3 * b31) * v1 + (a1 * b12 + a2 * b22 + a3 * b32) * v2 + (a1 * b13 + a2 * b23 + a3 * b33) * v3
         == a1 * (b11 * v1 + b12 * v2 + b13 * v3) + a2 * (b21 * v1 + b22 * v2 + b23 * v3) + a3 * (b31 * v1 + b32 * v2 + b33 * v3)
  {
    assert (a1 * b11 + a2 * b21 + a3 * b31) * v1 == a1 * b11 * v1 + a2 * b21 * v1 + a3 * b31 * v1;
    assert (a1 * b12 + a2 * b22 + a3 * b32) * v2 == a1 * b12 * v2 + a2 * b22 * v2 + a3 * b32 * v2;
    assert (a1 * b13 + a2 * b23 + a3 * b33) * v3 == a1 * b13 * v3 + a2 * b23 * v3 + a3 * b33 * v3;
  }

  /** m*v entry by entry. */
  lemma MatCartMultEntries(m: Mat, v: Cart)
    ensures MatCartMult(m, v)
      == Cart(m.x.x * v.x + m.y.x * v.y + m.z.x * v.z,
              m.x.y * v.x + m.y.y * v.y + m.z.y * v.z,
              m.x.z * v.x + m.y.z * v.y + m.z.z * v.z)
  {
  }

  /** (a * m) . v == a . (m * v). */
  lemma RowAssoc(a: Cart, m: Mat, v: Cart)
    ensures CartCartDot(RowTimes(a, m), v) == CartCartDot(a, MatCartMult(m, v))
  {
    var r := RowTimes(a, m);
    var w := MatCartMult(m, v);
    assert r.x == a.x * m.x.x + a.y * m.x.y + a.z * m.x.z;
    assert r.y == a.x * m.y.x + a.y * m.y.y + a.z * m.y.z;
    assert r.z == a.x * m.z.x + a.y * m.z.y + a.z * m.z.z;
    MatCartMultEntries(m, v);
    Assoc(a.x, a.y, a.z, m.x.x, m.y.x, m.z.x, m.x.y, m.y.y, m.z.y, m.x.z, m.y.z, m.z.z, v.x, v.y, v.z);
  }

  /** Applying a product is applying its factors in turn. */
  lemma {:induction false} MatMatMultComposes(m1: Mat, m2: Mat, v: Cart)
    ensures MatCartMult(MatMatMult(m1, m2), v) == MatCartMult(m1, MatCartMult(m2, v))
  {
    MatMatMultByRows(m1, m2, 0);
    MatMatMultByRows(m1, m2, 1);
    MatMatMultByRows(m1, m2, 2);
    RowAssoc(MatRow(m1, 0), m2, v);
    RowAssoc(MatRow(m1, 1), m2, v);
    RowAssoc(MatRow(m1, 2), m2, v);
  }

  /** A rotation matrix: orthonormal columns, so its transpose is its inverse. */
  predicate IsOrthonormal(m: Mat)
  {
    CartSumSq(m.x) == 1.0 && CartSumSq(m.y) == 1.0 && CartSumSq(m.z) == 1.0 &&
    CartCartDot(m.x, m.y) == 0.0 && CartCartDot(m.x, m.z) == 0.0 && CartCartDot(m.y, m.z) == 0.0
  }

  const MatIdentity: Mat := Mat(Cart(1.0, 0.0, 0.0), Cart(0.0, 1.0, 0.0), Cart(0.0, 0.0, 1.0))

  /** For a rotation, pmMatInv(m) * m is the identity. */
  lemma MatInvIsInverse(m: Mat)
    requires IsOrthonormal(m)
    ensures MatMatMult(MatInv(m), m) == MatIdentity
  {
    MatInvCartMult(m, m.x);
    MatInvCartMult(m, m.y);
    MatInvCartMult(m, m.z);
    DotFacts(m.x, m.y);
    DotFacts(m.x, m.z);
    DotFacts(m.y, m.z);
    DotFacts(m.x, m.x);
    DotFacts(m.y, m.y);
    DotFacts(m.z, m.z);
  }

  // ---------------------------------------------------------------------------
  // PmQuaternion
  // ---------------------------------------------------------------------------

  /** pmQuatQuatAdd: PM_ERR on a NULL output, else the componentwise sum. */
  function QuatQuatAdd(q1: Quat, q2: Quat, dest: Dest<Quat>): (r: Ret<Dest<Quat>>)
    ensures dest.Null? <==> r.code == PmErr
    ensures dest.Null? ==> r.out == dest
    ensures dest.Out? ==> r.code == PmOk && r.out.Out? && QuatQuatSub(r.out.value, q2) == q1
  {
    if dest.Null? then Ret(PmErr, dest)
    else Ret(PmOk, Out(Quat(q1.s + q2.s, q1.x + q2.x, q1.y + q2.y, q1.z + q2.z)))
  }

  function QuatQuatSub(q1: Quat, q2: Quat): (r: Quat)
    ensures Quat(r.s + q2.s, r.x + q2.x, r.y + q2.y, r.z + q2.z) == q1
  {
    Quat(q1.s - q2.s, q1.x - q2.x, q1.y - q2.y, q1.z - q2.z)
  }

  /** Quaternion addition commutes. */
  lemma QuatAddCommutes(q1: Quat, q2: Quat, dest: Dest<Quat>)
    ensures QuatQuatAdd(q1, q2, dest) == QuatQuatAdd(q2, q1, dest)
  {
  }

  /**
   * pmQuatQuatCompare: 1 when the quaternions agree within Q_FUZZ, or when q1
   * has a negligible scalar part and the vector parts are opposite (a pure
   * vector quaternion and its negation are the same rotation).
   */
  function QuatQuatCompare(q1: Quat, q2: Quat): (r: int)
    ensures r == 0 || r == 1
    ensures r == 1 <==>
      (Abs(q1.s - q2.s) < QFuzz && Abs(q1.x - q2.x) < QFuzz && Abs(q1.y - q2.y) < QFuzz && Abs(q1.z - q2.z) < QFuzz) ||
      (Abs(q1.s) < QsFuzz && Abs(q1.x + q2.x) < QFuzz && Abs(q1.y + q2.y) < QFuzz && Abs(q1.z + q2.z) < QFuzz)
  {
    if Abs(q1.s - q2.s) < QFuzz && Abs(q1.x - q2.x) < QFuzz && Abs(q1.y - q2.y) < QFuzz && Abs(q1.z - q2.z) < QFuzz then 1
    else if Abs(q1.s) >= QsFuzz || Abs(q1.x + q2.x) >= QFuzz || Abs(q1.y + q2.y) >= QFuzz || Abs(q1.z + q2.z) >= QFuzz then 0
    else 1
  }

  /** Every quaternion matches itself, and a pure vector quaternion matches its negation. */
  lemma QuatCompareFacts(q: Quat)
    ensures QuatQuatCompare(q, q) == 1
    ensures q.s == 0.0 ==> QuatQuatCompare(q, QuatNeg(q)) == 1
  {
  }

  function QuatQuatDotProduct(q1: Quat, q2: Quat): (d: real)
    ensures d == q2.s * q1.s + q2.x * q1.x + q2.y * q1.y + q2.z * q1.z
    ensures q1 == q2 ==> d == QuatSumSq(q1) && d >= 0.0
  {
    q1.s * q2.s + q1.x * q2.x + q1.y * q2.y + q1.z * q2.z
  }

  lemma QuatDotFacts(q1: Quat, q2: Quat)
    ensures QuatQuatDotProduct(q1, q2) == QuatQuatDotProduct(q2, q1)
    ensures QuatQuatDotProduct(q1, q1) == QuatSumSq(q1)
  {
  }

  /** pmQuatScalMult: every component times s. */
  function QuatScalMult(q: Quat, s: real): (r: Quat)
    ensures s == 1.0 ==> r == q
    ensures s == 0.0 ==> r == Quat(0.0, 0.0, 0.0, 0.0)
  {
    Quat(q.s * s, q.x * s, q.y * s, q.z * s)
  }

  /** Scaling by s scales the squared length by s*s. */
  lemma ScalMultScalesLength(q: Quat, s: real)
    ensures QuatSumSq(QuatScalMult(q, s)) == s * s * QuatSumSq(q)
  {
    ScaledSquares(q.s, q.x, q.y, q.z, s);
  }

  /**
   * pmQuatNorm: ±q/|q| with the sign chosen so that the scalar part is not
   * negative, or (1, 0, 0, 0) and PM_NORM_ERR when |q| is within DOUBLE_FUZZ of 0.
   */
  function QuatNorm(q: Quat, sqrt: real -> real): (r: Ret<Quat>)
    ensures r.code == PmOk || r.code == PmNormErr
    ensures r.code == PmNormErr <==> IsZero(sqrt(QuatSumSq(q)))
    ensures r.code == PmNormErr ==> r.out == QuatIdentity
    ensures r.code == PmOk ==> QuatScale(r.out, sqrt(QuatSumSq(q))) == (if q.s >= 0.0 then q else QuatNeg(q))
    ensures IsSqrt(sqrt) ==> r.out.s >= 0.0
    ensures IsSqrt(sqrt) ==> QuatSumSq(r.out) == 1.0
  {
    var size := sqrt(QuatSumSq(q));
    if IsZero(size) then Ret(PmNormErr, QuatIdentity)
    else
      var p := if q.s >= 0.0 then q else QuatNeg(q);
      var u := Quat(p.s / size, p.x / size, p.y / size, p.z / size);
      NormLength(q, p, size, u, sqrt);
      Ret(PmOk, u)
  }

  lemma NormLength(q: Quat, p: Quat, size: real, u: Quat, sqrt: real -> real)
    requires size == sqrt(QuatSumSq(q)) && !IsZero(size)
    requires p == (if q.s >= 0.0 then q else QuatNeg(q))
    requires u == Quat(p.s / size, p.x / size, p.y / size, p.z / size)
    ensures QuatScale(u, size) == p
    ensures IsSqrt(sqrt) ==> u.s >= 0.0 && QuatSumSq(u) == 1.0
  {
    assert size != 0.0;
    ScaleBack(p, size, u);
    if IsSqrt(sqrt) {
      SumSqNonNeg(Cart(0.0, 0.0, 0.0), q);
      assert QuatSumSq(p) == QuatSumSq(q);
      DividedLength(p.s, p.x, p.y, p.z, size);
      assert size > 0.0;
      DivAsMul(p.s, size);
      InvPositive(size);
      NonNegTimesPositive(p.s, 1.0 / size);
    }
  }

  /** Multiplying the quotients by the divisor gives back the dividends. */
  lemma ScaleBack(p: Quat, size: real, u: Quat)
    requires size != 0.0
    requires u == Quat(p.s / size, p.x / size, p.y / size, p.z / size)
    ensures QuatScale(u, size) == p
  {
    DivMulCancel(p.s, size);
    DivMulCancel(p.x, size);
    DivMulCancel(p.y, size);
    DivMulCancel(p.z, size);
  }

  lemma InvPositive(k: real)
    requires k > 0.0
    ensures 1.0 / k > 0.0
  {
  }

  lemma NonNegTimesPositive(a: real, b: real)
    requires a >= 0.0 && b > 0.0
    ensures a * b >= 0.0
  {
  }

  /** Normalising twice is normalising once. */
  lemma {:induction false} QuatNormIdempotent(q: Quat, sqrt: real -> real)
    requires IsSqrt(sqrt)
    ensures QuatNorm(QuatNorm(q, sqrt).out, sqrt) == Ret(PmOk, QuatNorm(q, sqrt).out)
  {
    var u := QuatNorm(q, sqrt).out;
    assert QuatSumSq(u) == 1.0 && u.s >= 0.0;
    SqrtOfOne(sqrt);
    assert !IsZero(1.0);
  }

  function QuatConj(q: Quat): Quat
  {
    Quat(q.s, -1.0 * q.x, -1.0 * q.y, -1.0 * q.z)
  }

  /** pmQuatConjugate: PM_ERR on a NULL output, else (s, -x, -y, -z). */
  function QuatConjugate(q: Quat, dest: Dest<Quat>): (r: Ret<Dest<Quat>>)
    ensures dest.Null? <==> r.code == PmErr
    ensures dest.Null? ==> r.out == dest
    ensures dest.Out? ==> (r.code == PmOk && r.out.Out? &&
      r.out.value.s == q.s && r.out.value.x == -q.x && r.out.value.y == -q.y && r.out.value.z == -q.z)
  {
    if dest.Null? then Ret(PmErr, dest) else Ret(PmOk, Out(QuatConj(q)))
  }

  /**
   * pmQuatInv: the conjugate, which is the inverse for unit quaternions only;
   * the source makes no correction for other lengths.
   */
  function QuatInv(q: Quat, dest: Dest<Quat>): (r: Ret<Dest<Quat>>)
    ensures r == QuatConjugate(q, dest)
  {
    if dest.Null? then Ret(PmErr, dest) else Ret(PmOk, Out(QuatConj(q)))
  }

  /** Conjugating (or inverting) twice returns the input. */
  lemma ConjugateInvolution(q: Quat, d1: Quat, d2: Quat)
    ensures QuatConjugate(QuatConjugate(q, Out(d1)).out.value, Out(d2)) == Ret(PmOk, Out(q))
    ensures QuatInv(QuatInv(q, Out(d1)).out.value, Out(d2)) == Ret(PmOk, Out(q))
  {
  }

  /** q times its conjugate is |q|^2 with zero vector part. */
  lemma TimesConjugate(q: Quat, d: Quat)
    ensures QuatQuatMult(q, QuatConj(q), Out(d)) == Ret(PmOk, Out(Quat(QuatSumSq(q), 0.0, 0.0, 0.0)))
  {
    var h := Hamilton(q, QuatConj(q));
    assert h.s == QuatSumSq(q);
    assert h.x == 0.0 && h.y == 0.0 && h.z == 0.0;
  }

  /** pmQuatIsNorm: 1 when | |q|^2 - 1 | is below UNIT_QUAT_FUZZ. */
  function QuatIsNorm(q: Quat): (r: int)
    ensures r == 0 || r == 1
    ensures r == 1 <==> 1.0 - UnitQuatFuzz < QuatSumSq(q) < 1.0 + UnitQuatFuzz
  {
    if Abs(QuatSumSq(q) - 1.0) < UnitQuatFuzz then 1 else 0
  }

  /** Whatever pmQuatNorm returns passes pmQuatIsNorm. */
  lemma NormIsNorm(q: Quat, sqrt: real -> real)
    requires IsSqrt(sqrt)
    ensures QuatIsNorm(QuatNorm(q, sqrt).out) == 1
  {
  }

  /** The Hamilton product. */
  function Hamilton(q1: Quat, q2: Quat): Quat
  {
    Quat(q1.s * q2.s - q1.x * q2.x - q1.y * q2.y - q1.z * q2.z,
         q1.s * q2.x + q1.x * q2.s + q1.y * q2.z - q1.z * q2.y,
         q1.s * q2.y - q1.x * q2.z + q1.y * q2.s + q1.z * q2.x,
         q1.s * q2.z + q1.x * q2.y - q1.y * q2.x + q1.z * q2.s)
  }

  /**
   * pmQuatQuatMult: PM_ERR on a NULL output; otherwise the Hamilton product,
   * negated when its scalar part is negative (q and -q are the same rotation).
   * The components the C code writes in the negative case are exactly the
   * negated Hamilton components.
   */
  function QuatQuatMult(q1: Quat, q2: Quat, dest: Dest<Quat>): (r: Ret<Dest<Quat>>)
    ensures dest.Null? <==> r.code == PmErr
    ensures dest.Null? ==> r.out == dest
    ensures dest.Out? ==> r.code == PmOk && r.out.Out?
    ensures dest.Out? ==> r.out.value.s >= 0.0
    ensures dest.Out? ==> r.out.value == Hamilton(q1, q2) || r.out.value == QuatNeg(Hamilton(q1, q2))
    // a zero scalar part passes the test, so the product is kept unnegated
    ensures dest.Out? ==>
      r.out.value == (if Hamilton(q1, q2).s >= 0.0 then Hamilton(q1, q2) else QuatNeg(Hamilton(q1, q2)))
  {
    if dest.Null? then Ret(PmErr, dest)
    else
      var h := Hamilton(q1, q2);
      if h.s >= 0.0 then Ret(PmOk, Out(h))
      else Ret(PmOk, Out(Quat(h.s * -1.0, -h.x, -h.y, -h.z)))
  }

  /** Multiplying by the identity returns q with its sign made canonical. */
  lemma MultByIdentity(q: Quat, d: Quat)
    ensures QuatQuatMult(QuatIdentity, q, Out(d)).out == Out(if q.s >= 0.0 then q else QuatNeg(q))
  {
  }

  // ---------------------------------------------------------------------------
  // Interpolation
  // ---------------------------------------------------------------------------

  /** The blending-factor guard shared by Lerp, Slerp and Squad. */
  predicate BlendInRange(h: real)
  {
    !(h > 1.0 || h < 0.0)
  }

  /**
   * pmQuatQuatLerp: PM_ERR without writing when the output is NULL or h lies
   * outside [0, 1]; otherwise (1-h)*q1 + h*q2 divided by its length.
   */
  function QuatQuatLerp(q1: Quat, q2: Quat, dest: Dest<Quat>, h: real, sqrt: real -> real): (r: Ret<Dest<Quat>>)
    ensures dest.Null? || !BlendInRange(h) <==> r.code == PmErr
    ensures r.code == PmErr ==> r.out == dest
    ensures r.code != PmErr ==> r == Ret(PmOk, Out(LerpNormalize(LerpSum(q1, q2, h), sqrt)))
  {
    if dest.Null? then Ret(PmErr, dest)
    else if h > 1.0 || h < 0.0 then Ret(PmErr, dest)
    else Ret(PmOk, Out(LerpNormalize(LerpSum(q1, q2, h), sqrt)))
  }

  /**
   * The last step of pmQuatQuatLerp: the blend divided by its length. A blend
   * of length 0 is returned as it is (the C code divides 0 by 0 there).
   */
  function LerpNormalize(sum: Quat, sqrt: real -> real): (u: Quat)
    ensures IsSqrt(sqrt) && QuatSumSq(sum) != 0.0 ==> QuatSumSq(u) == 1.0
    ensures IsSqrt(sqrt) && QuatSumSq(sum) == 1.0 ==> u == sum
  {
    var absval := sqrt(QuatSumSq(sum));
    if absval == 0.0 then sum
    else
      var u := Quat(sum.s / absval, sum.x / absval, sum.y / absval, sum.z / absval);
      LerpLength(sum, absval, u, sqrt);
      u
  }

  function LerpSum(q1: Quat, q2: Quat, h: real): Quat
  {
    var b1 := QuatScalMult(q1, 1.0 - h);
    var b2 := QuatScalMult(q2, h);
    Quat(b1.s + b2.s, b1.x + b2.x, b1.y + b2.y, b1.z + b2.z)
  }

  lemma LerpLength(sum: Quat, absval: real, u: Quat, sqrt: real -> real)
    requires absval == sqrt(QuatSumSq(sum)) && absval != 0.0
    requires u == Quat(sum.s / absval, sum.x / absval, sum.y / absval, sum.z / absval)
    ensures IsSqrt(sqrt) ==> QuatSumSq(u) == 1.0
    ensures IsSqrt(sqrt) && QuatSumSq(sum) == 1.0 ==> u == sum
  {
    if IsSqrt(sqrt) {
      SumSqNonNeg(Cart(0.0, 0.0, 0.0), sum);
      DividedLength(sum.s, sum.x, sum.y, sum.z, absval);
      if QuatSumSq(sum) == 1.0 {
        SqrtOfOne(sqrt);
      }
    }
  }

  /** At the ends of the range Lerp returns its unit end points unchanged. */
  lemma LerpEndPoints(q1: Quat, q2: Quat, d: Quat, sqrt: real -> real)
    requires IsSqrt(sqrt)
    ensures QuatSumSq(q1) == 1.0 ==> QuatQuatLerp(q1, q2, Out(d), 0.0, sqrt) == Ret(PmOk, Out(q1))
    ensures QuatSumSq(q2) == 1.0 ==> QuatQuatLerp(q1, q2, Out(d), 1.0, sqrt) == Ret(PmOk, Out(q2))
  {
    assert LerpSum(q1, q2, 0.0) == q1;
    assert LerpSum(q1, q2, 1.0) == q2;
  }

  /**
   * pmQuatQuatSlerp: the same guards as Lerp. The trigonometric body (acos,
   * sin) is not part of this model and is supplied as `body`.
   */
  function QuatQuatSlerp(q1: Quat, q2: Quat, dest: Dest<Quat>, h: real, body: (Quat, Quat, real) -> Quat): (r: Ret<Dest<Quat>>)
    ensures dest.Null? || !BlendInRange(h) <==> r.code == PmErr
    ensures r.code == PmErr ==> r.out == dest
    ensures r.code != PmErr ==> r == Ret(PmOk, Out(body(q1, q2, h)))
  {
    if dest.Null? then Ret(PmErr, dest)
    else if h > 1.0 || h < 0.0 then Ret(PmErr, dest)
    else Ret(PmOk, Out(body(q1, q2, h)))
  }

  /**
   * pmQuatQuatSquad: the guards, then Slerp between Slerp(q1, q2, h) and
   * Slerp(q3, q4, h) with blending factor 2h(1-h). The statuses of the inner
   * calls are discarded.
   */
  function QuatQuatSquad(q1: Quat, q2: Quat, q3: Quat, q4: Quat, dest: Dest<Quat>, h: real,
                         body: (Quat, Quat, real) -> Quat): (r: Ret<Dest<Quat>>)
    ensures dest.Null? || !BlendInRange(h) <==> r.code == PmErr
    ensures r.code == PmErr ==> r.out == dest
    ensures r.code != PmErr ==> r == Ret(PmOk, Out(body(body(q1, q2, h), body(q3, q4, h), 2.0 * h * (1.0 - h))))
  {
    if dest.Null? then Ret(PmErr, dest)
    else if h > 1.0 || h < 0.0 then Ret(PmErr, dest)
    else
      var qa := QuatQuatSlerp(q1, q2, Out(q1), h, body).out.value;
      var qb := QuatQuatSlerp(q3, q4, Out(q3), h, body).out.value;
      SquadBlendInRange(h);
      var outer := QuatQuatSlerp(qa, qb, dest, 2.0 * h * (1.0 - h), body);
      Ret(PmOk, outer.out)
  }

  /** The inner blending factor 2h(1-h) lies in [0, 1/2], so the final Slerp never refuses it. */
  lemma SquadBlendInRange(h: real)
    requires BlendInRange(h)
    ensures 0.0 <= 2.0 * h * (1.0 - h) <= 0.5
  {
    assert 2.0 * h * (1.0 - h) == 0.5 - 2.0 * (h - 0.5) * (h - 0.5);
  }

  // ---------------------------------------------------------------------------
  // Angle conversion
  // ---------------------------------------------------------------------------

  /** C division of ints: the quotient truncated toward zero. */
  function CIntDiv(a: int, b: int): int
    requires b != 0
  {
    var q := IntAbs(a) / IntAbs(b);
    if (a < 0) == (b < 0) then q else -q
  }

  function IntAbs(a: int): nat
  {
    if a < 0 then -a else a
  }

  /**
   * pmDMSDecimalAngleConvert as written: the seconds are scaled by the int
   * quotient 1/60, which is 0, so they never reach the result.
   */
  function DMSDecimalAngleConvert(degrees: real, minutes: real, seconds: real): (r: Ret<real>)
    ensures r.code == 0 && r.out == degrees + minutes / 60.0
  {
    assert CIntDiv(1, 60) == 0;
    var temp := seconds / 60.0 * (CIntDiv(1, 60) as real);
    var temp := temp + minutes / 60.0;
    var temp := temp + degrees;
    Ret(0, temp)
  }

  /** The conversion the comment promises: 1/3600 degree per second. */
  function DMSDecimalAngleConvertIntended(degrees: real, minutes: real, seconds: real): (r: Ret<real>)
    ensures r.code == 0
    ensures r.out * 3600.0 == degrees * 3600.0 + minutes * 60.0 + seconds
  {
    Ret(0, seconds / 60.0 * (1.0 / 60.0) + minutes / 60.0 + degrees)
  }

  /** 10 degrees 30 minutes 36 seconds: 10.51 intended, 10.5 as written. */
  lemma DMSDropsSeconds()
    ensures DMSDecimalAngleConvert(10.0, 30.0, 36.0).out == 10.5
    ensures DMSDecimalAngleConvertIntended(10.0, 30.0, 36.0).out == 10.51
    ensures forall d, m, s :: s != 0.0 ==>
      (DMSDecimalAngleConvert(d, m, s).out != DMSDecimalAngleConvertIntended(d, m, s).out)
  {
    assert CIntDiv(1, 60) == 0;
  }
}
