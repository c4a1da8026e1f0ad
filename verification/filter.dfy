/*
 * The discrete Kalman filter each sensor runs over its channels: its
 * allocation guard, its reset, its size-checked setters, and the four
 * update steps (gain, a-priori estimate, covariance, a-posteriori estimate).
 *
 * Matrices are flat sequences of n*n reals. The BLAS products are called
 * with row-major layout, so they are modelled by Matrix.Mul and Matrix.Tr;
 * MultiplyMatrixVector reads its matrix column-major and is modelled by
 * Matrix.MulVec; the setters store values[i*n + j] at [i + n*j]. The
 * mixture is kept as the code has it.
 */
module KFilter {
  import opened Status
  import opened Matrix

  /** sizeof(double) on the target. */
  const DoubleSize: nat := 8

  /**
   * clapack_dgesv as the gain step calls it, a foreign routine: `inverse` is
   * what it leaves in its right-hand side (the identity on entry) and
   * `factors` what it leaves in the matrix it was handed (the LU factors).
   */
  datatype Solver = Solver(inverse: seq<real> -> seq<real>, factors: seq<real> -> seq<real>)

  /** The matrices a SetKFilter*Matrix routine can write. */
  datatype MatrixName = A | B | C | G | K | P | Q | R

  /**
   * The k_filter record. xHatPrior and yHatPrior are the C fields x_hat_ and
   * y_hat_; ax and bu are Ax and Bu; cpcR is CPC_R; pivot is pivot_table.
   */
  datatype Filter = Filter(
    n: nat,
    xHat: seq<real>, xHatPrior: seq<real>, y: seq<real>, yHat: seq<real>, yHatPrior: seq<real>,
    u: seq<real>, pivot: seq<int>, ax: seq<real>, bu: seq<real>,
    a: seq<real>, b: seq<real>, c: seq<real>, g: seq<real>, k: seq<real>,
    p: seq<real>, q: seq<real>, r: seq<real>,
    cpc: seq<real>, i: seq<real>, cpcR: seq<real>, pc: seq<real>, qg: seq<real>,
    gqg: seq<real>, cp: seq<real>, ak: seq<real>)

  /** Every vector holds n entries and every matrix n*n, for some n > 0. */
  predicate Valid(f: Filter)
  {
    && f.n > 0
    && |f.xHat| == f.n && |f.xHatPrior| == f.n && |f.y| == f.n && |f.yHat| == f.n
    && |f.yHatPrior| == f.n && |f.u| == f.n && |f.pivot| == f.n && |f.ax| == f.n && |f.bu| == f.n
    && |f.a| == f.n * f.n && |f.b| == f.n * f.n && |f.c| == f.n * f.n && |f.g| == f.n * f.n
    && |f.k| == f.n * f.n && |f.p| == f.n * f.n && |f.q| == f.n * f.n && |f.r| == f.n * f.n
    && |f.cpc| == f.n * f.n && |f.i| == f.n * f.n && |f.cpcR| == f.n * f.n && |f.pc| == f.n * f.n
    && |f.qg| == f.n * f.n && |f.gqg| == f.n * f.n && |f.cp| == f.n * f.n && |f.ak| == f.n * f.n
  }

  function Ones(n: nat): (v: seq<int>)
    ensures |v| == n && forall k :: 0 <= k < n ==> v[k] == 1
  {
    seq(n, _ => 1)
  }

  // ---------------------------------------------------------------------------
  // Reset and allocation
  // ---------------------------------------------------------------------------

  /**
   * ZeroKFilter: A, B, C, G, K, P, Q, R and I become the identity; the work
   * vectors and work matrices become 0 and the pivots 1. x_hat and y (which
   * point into the owning sensor) and QG are not touched.
   */
  function ZeroKFilter(f: Filter): (z: Filter)
    requires Valid(f)
    ensures Valid(z) && z.n == f.n
    ensures z.xHat == f.xHat && z.y == f.y && z.qg == f.qg
    ensures forall m <- [z.a, z.b, z.c, z.g, z.k, z.p, z.q, z.r, z.i] :: m == Identity(f.n)
    ensures forall v <- [z.xHatPrior, z.yHat, z.yHatPrior, z.u, z.ax, z.bu] :: v == Zeros(f.n)
    ensures forall m <- [z.cpc, z.cpcR, z.pc, z.gqg, z.cp, z.ak] :: m == Zeros(f.n * f.n)
    ensures z.pivot == Ones(f.n)
  {
    var n := f.n;
    var id := Identity(n);
    var zm := Zeros(n * n);
    f.(xHatPrior := Zeros(n), yHat := Zeros(n), yHatPrior := Zeros(n), u := Zeros(n),
       pivot := Ones(n), ax := Zeros(n), bu := Zeros(n),
       a := id, b := id, c := id, g := id, k := id, p := id, q := id, r := id,
       cpc := zm, i := id, cpcR := zm, pc := zm, gqg := zm, cp := zm, ak := zm)
  }

  /** Resetting twice is resetting once. */
  lemma ZeroKFilterIdempotent(f: Filter)
    requires Valid(f)
    ensures ZeroKFilter(ZeroKFilter(f)) == ZeroKFilter(f)
  {
  }

  /** A freshly allocated filter; malloc'd contents are taken to be 0. */
  function Allocate(n: nat, measurement: seq<real>, filtered: seq<real>): (f: Filter)
    requires n > 0 && |measurement| == n && |filtered| == n
    ensures Valid(f)
  {
    var zv := Zeros(n);
    var zm := Zeros(n * n);
    Filter(n, filtered, zv, measurement, zv, zv, zv, Ones(n), zv, zv,
           zm, zm, zm, zm, zm, zm, zm, zm, zm, zm, zm, zm, zm, zm, zm, zm)
  }

  /**
   * InitKFilter2: -1 when the size is not positive; otherwise a filter whose
   * estimate and measurement are the caller's buffers, reset by ZeroKFilter.
   */
  function InitKFilter2(size: int, measurement: seq<real>, filtered: seq<real>): (r: Ret<Option<Filter>>)
    requires size > 0 ==> |measurement| == size && |filtered| == size
    ensures size <= 0 <==> r.code == -1
    ensures size <= 0 ==> r.out == None
    ensures size > 0 ==> r.code == 0 && r.out.Some? && Valid(r.out.value) && r.out.value.n == size
    ensures size > 0 ==> r.out.value.xHat == filtered && r.out.value.y == measurement
    ensures size > 0 ==> r.out.value.p == Identity(size) && r.out.value.k == Identity(size)
  {
    if size <= 0 then Ret(-1, None)
    else Ret(0, Some(ZeroKFilter(Allocate(size, measurement, filtered))))
  }

  /** InitKFilter: the same guard, with estimate and measurement allocated by the filter. */
  function InitKFilter(size: int): (r: Ret<Option<Filter>>)
    ensures size <= 0 <==> r.code == -1
    ensures size > 0 ==> r.out.Some? && Valid(r.out.value) && r.out.value.n == size
    ensures size > 0 ==> r == InitKFilter2(size, Zeros(size), Zeros(size))
  {
    if size <= 0 then Ret(-1, None)
    else Ret(0, Some(ZeroKFilter(Allocate(size, Zeros(size), Zeros(size)))))
  }

  // ---------------------------------------------------------------------------
  // Setters
  // ---------------------------------------------------------------------------

  function GetMatrix(f: Filter, which: MatrixName): (m: seq<real>)
    requires Valid(f)
    ensures |m| == f.n * f.n
  {
    match which
    case A => f.a
    case B => f.b
    case C => f.c
    case G => f.g
    case K => f.k
    case P => f.p
    case Q => f.q
    case R => f.r
  }

  function WithMatrix(f: Filter, which: MatrixName, m: seq<real>): Filter
  {
    match which
    case A => f.(a := m)
    case B => f.(b := m)
    case C => f.(c := m)
    case G => f.(g := m)
    case K => f.(k := m)
    case P => f.(p := m)
    case Q => f.(q := m)
    case R => f.(r := m)
  }

  /**
   * SetKFilterAMatrix .. SetKFilterRMatrix. `values` holds `sizeArray` bytes.
   * Unless that is exactly n*n doubles the call returns -1 and changes
   * nothing; otherwise values[i*n + j] is stored at [i + n*j] and no other
   * matrix changes.
   */
  function SetKFilterMatrix(f: Filter, which: MatrixName, values: seq<real>, sizeArray: nat): (r: Ret<Filter>)
    requires Valid(f) && |values| * DoubleSize == sizeArray
    ensures |values| != f.n * f.n ==> r == Ret(-1, f)
    ensures Valid(r.out) && r.out.n == f.n
    ensures |values| == f.n * f.n ==> r.code == 0
    ensures |values| == f.n * f.n ==>
      forall i, j :: 0 <= i < f.n && 0 <= j < f.n ==>
        ColMajorAt(GetMatrix(r.out, which), f.n, i, j) == At(values, f.n, i, j)
    ensures WithMatrix(r.out, which, GetMatrix(f, which)) == f
  {
    BytesMatch(|values|, f.n * f.n);
    if sizeArray == f.n * f.n * DoubleSize then
      var m := Tr(values, f.n);
      StoredTransposed(values, f.n);
      Ret(0, WithMatrix(f, which, m))
    else Ret(-1, f)
  }

  /** A byte count matches n doubles exactly when the element count is n. */
  lemma BytesMatch(count: nat, n: nat)
    ensures count * DoubleSize == n * DoubleSize <==> count == n
  {
  }

  lemma StoredTransposed(values: seq<real>, n: nat)
    requires |values| == n * n
    ensures forall i, j :: 0 <= i < n && 0 <= j < n ==> ColMajorAt(Tr(values, n), n, i, j) == At(values, n, i, j)
  {
    forall i, j | 0 <= i < n && 0 <= j < n
      ensures ColMajorAt(Tr(values, n), n, i, j) == At(values, n, i, j)
    {
      ColMajorIsTransposed(Tr(values, n), n, i, j);
      AtOfTr(values, n, j, i);
    }
  }

  /** Setting a matrix to what it holds in storage order changes nothing. */
  lemma SetBackIsIdentity(f: Filter, which: MatrixName)
    requires Valid(f)
    ensures SetKFilterMatrix(f, which, Tr(GetMatrix(f, which), f.n), f.n * f.n * DoubleSize) == Ret(0, f)
  {
    TrTr(GetMatrix(f, which), f.n);
  }

  /**
   * SetKFilterMeasured: copies n measurements into y when `sizeArray` is
   * exactly n doubles; -1 and no change otherwise.
   */
  function SetKFilterMeasured(f: Filter, values: seq<real>, sizeArray: nat): (r: Ret<Filter>)
    requires Valid(f) && |values| * DoubleSize == sizeArray
    ensures sizeArray != f.n * DoubleSize <==> r.code == -1
    ensures r.code == -1 ==> r.out == f
    ensures r.code == 0 ==> Valid(r.out) && r.out.y == values && r.out.(y := f.y) == f
  {
    if sizeArray == f.n * DoubleSize then Ret(0, f.(y := values)) else Ret(-1, f)
  }

  // ---------------------------------------------------------------------------
  // The four steps
  // ---------------------------------------------------------------------------

  /** The solver's output, taken as n*n entries. */
  function Fit(s: seq<real>, len: nat): (t: seq<real>)
    ensures |t| == len && (|s| == len ==> t == s)
  {
    if |s| == len then s else Zeros(len)
  }

  /** The solver returned a right inverse of m. */
  ghost predicate Inverts(solve: Solver, m: seq<real>, n: nat)
    requires |m| == n * n
  {
    |solve.inverse(m)| == n * n && Mul(m, solve.inverse(m), n) == Identity(n)
  }

  /** R + C·P·Cᵀ, the matrix handed to the solver (times I, as the code does). */
  function Innovation(f: Filter): (s: seq<real>)
    requires Valid(f)
    ensures |s| == f.n * f.n
  {
    var n := f.n;
    Mul(Add(Mul(f.r, f.i, n), Mul(f.c, Mul(f.p, Tr(f.c, n), n), n)), f.i, n)
  }

  /**
   * ComputeKFilterKMatrix: PC := P·Cᵀ; CPC := R·I + C·PC; CPC_R := CPC·I;
   * CPC := I; the solver then overwrites CPC with the inverse of CPC_R and
   * CPC_R with its LU factors, and K := PC·CPC.
   */
  function ComputeKFilterKMatrix(f: Filter, solve: Solver): (r: Filter)
    requires Valid(f)
    ensures Valid(r) && r.n == f.n
    ensures r.cpcR == Fit(solve.factors(Innovation(f)), f.n * f.n)
    ensures Inverts(solve, Innovation(f), f.n) ==> Mul(Innovation(f), r.cpc, f.n) == Identity(f.n)
    ensures r.k == Mul(Mul(f.p, Tr(f.c, f.n), f.n), r.cpc, f.n)
    ensures r.(k := f.k, pc := f.pc, cpc := f.cpc, cpcR := f.cpcR) == f
  {
    var n := f.n;
    var pc := Mul(f.p, Tr(f.c, n), n);
    var cpc := Add(Mul(f.r, f.i, n), Mul(f.c, pc, n));
    var cpcR := Mul(cpc, f.i, n);
    var inv := Fit(solve.inverse(cpcR), n * n);
    f.(pc := pc, cpc := inv, cpcR := Fit(solve.factors(cpcR), n * n), k := Mul(pc, inv, n))
  }

  /**
   * ComputeKFilterAPrioriEstimate: x̂_ := x̂, then
   * x̂ := (A·K)·(y - x̂_) + (A·x̂_ + B·u). C·x̂_ is computed into x̂ and
   * overwritten before it is read.
   */
  function ComputeKFilterAPrioriEstimate(f: Filter): (r: Filter)
    requires Valid(f)
    ensures Valid(r) && r.n == f.n
    ensures r.xHatPrior == f.xHat
    ensures r.xHat == Add(MulVec(Mul(f.a, f.k, f.n), Sub(f.y, f.xHat), f.n),
                          Add(MulVec(f.a, f.xHat, f.n), MulVec(f.b, f.u, f.n)))
    ensures r.(xHat := f.xHat, xHatPrior := f.xHatPrior, ak := f.ak, ax := f.ax, bu := f.bu) == f
  {
    var n := f.n;
    var prior := f.xHat;
    var overwritten := MulVec(f.c, prior, n);
    var diff := Sub(f.y, prior);
    var ak := Mul(f.a, f.k, n);
    var gain := MulVec(ak, diff, n);
    var bu := MulVec(f.b, f.u, n);
    var ax := Add(MulVec(f.a, prior, n), bu);
    f.(xHatPrior := prior, xHat := Add(gain, ax), ak := ak, ax := ax, bu := bu)
  }

  /** The output matrix C plays no part in the a-priori estimate. */
  lemma APrioriIgnoresC(f: Filter, c: seq<real>)
    requires Valid(f) && |c| == f.n * f.n
    ensures ComputeKFilterAPrioriEstimate(f.(c := c)).xHat == ComputeKFilterAPrioriEstimate(f).xHat
  {
  }

  /**
   * ComputeKFilterPMatrix: GQG := G·(Q·Gᵀ) (QG keeps Q·Gᵀ), then
   * P := G·Q·Gᵀ·I + A·((P·I - K·(C·P))·Aᵀ), through the CP and CPC_R scratch
   * matrices.
   */
  function ComputeKFilterPMatrix(f: Filter): (r: Filter)
    requires Valid(f)
    ensures Valid(r) && r.n == f.n
    ensures f.i == Identity(f.n) ==>
      r.p == Add(Mul(f.g, Mul(f.q, Tr(f.g, f.n), f.n), f.n),
                 Mul(f.a, Mul(Sub(f.p, Mul(f.k, Mul(f.c, f.p, f.n), f.n)), Tr(f.a, f.n), f.n), f.n))
    ensures r.(p := f.p, qg := f.qg, gqg := f.gqg, cp := f.cp, cpcR := f.cpcR) == f
  {
    var n := f.n;
    var qg := Mul(f.q, Tr(f.g, n), n);
    var gqg := Mul(f.g, qg, n);
    var kcp := Mul(f.k, Mul(f.c, f.p, n), n);
    var reduced := Sub(Mul(f.p, f.i, n), kcp);
    var right := Mul(reduced, Tr(f.a, n), n);
    var cp := Add(Mul(gqg, f.i, n), Mul(f.a, right, n));
    if f.i == Identity(n) then
      MulIdentityRight(f.p, n);
      MulIdentityRight(gqg, n);
      f.(qg := qg, gqg := gqg, cpcR := right, cp := cp, p := cp)
    else
      f.(qg := qg, gqg := gqg, cpcR := right, cp := cp, p := cp)
  }

  /**
   * ComputeKFilterAPosterioriEstimate: ŷ := C·x̂ - y, ŷ_ := ŷ, ŷ := K·ŷ_,
   * x̂ := x̂ + ŷ.
   */
  function ComputeKFilterAPosterioriEstimate(f: Filter): (r: Filter)
    requires Valid(f)
    ensures Valid(r) && r.n == f.n
    ensures r.yHatPrior == Sub(MulVec(f.c, f.xHat, f.n), f.y)
    ensures r.xHat == Add(f.xHat, MulVec(f.k, r.yHatPrior, f.n))
    ensures r.(xHat := f.xHat, yHat := f.yHat, yHatPrior := f.yHatPrior) == f
  {
    var n := f.n;
    var residual := Sub(MulVec(f.c, f.xHat, n), f.y);
    var correction := MulVec(f.k, residual, n);
    f.(yHat := correction, yHatPrior := residual, xHat := Add(f.xHat, correction))
  }

  lemma {:induction false} DotZeros(a: seq<real>)
    ensures Dot(a, Zeros(|a|)) == 0.0
  {
    if |a| > 0 {
      assert Zeros(|a|)[..|a| - 1] == Zeros(|a| - 1);
      DotZeros(a[..|a| - 1]);
    }
  }

  lemma MulVecZeros(m: seq<real>, n: nat)
    requires |m| == n * n
    ensures MulVec(m, Zeros(n), n) == Zeros(n)
  {
    forall i | 0 <= i < n ensures MulVec(m, Zeros(n), n)[i] == 0.0 {
      DotZeros(ColMajorRow(m, n, i));
    }
  }

  /** When the estimate already reproduces the measurement, the a-posteriori step keeps it. */
  lemma PosterioriFixedPoint(f: Filter)
    requires Valid(f) && MulVec(f.c, f.xHat, f.n) == f.y
    ensures ComputeKFilterAPosterioriEstimate(f).xHat == f.xHat
  {
    var n := f.n;
    assert Sub(f.y, f.y) == Zeros(n);
    MulVecZeros(f.k, n);
    assert Add(f.xHat, Zeros(n)) == f.xHat;
  }

  /** ComputeKFilter: gain, a-priori estimate, covariance, a-posteriori estimate, in that order. */
  function ComputeKFilter(f: Filter, solve: Solver): (r: Filter)
    requires Valid(f)
    ensures Valid(r) && r.n == f.n
    ensures r.y == f.y && r.i == f.i && r.a == f.a && r.c == f.c && r.r == f.r
    ensures r.k == ComputeKFilterKMatrix(f, solve).k
    ensures r.xHatPrior == f.xHat
  {
    var gained := ComputeKFilterKMatrix(f, solve);
    var predicted := ComputeKFilterAPrioriEstimate(gained);
    var covariance := ComputeKFilterPMatrix(predicted);
    ComputeKFilterAPosterioriEstimate(covariance)
  }

  // ---------------------------------------------------------------------------
  // The scalar case
  // ---------------------------------------------------------------------------

  lemma Reciprocal(s: real, x: real)
    requires s * x == 1.0
    ensures s != 0.0 && x == 1.0 / s
  {
  }

  /** The solver's answer for a 1x1 matrix [s] is [1/s]. */
  lemma ScalarInverse(solve: Solver, m: seq<real>)
    requires |m| == 1 && Inverts(solve, m, 1)
    ensures m[0] != 0.0 && solve.inverse(m)[0] == 1.0 / m[0]
  {
    MulOf1(m, solve.inverse(m));
    IdentityOf1();
    Reciprocal(m[0], solve.inverse(m)[0]);
  }

  /**
   * For n = 1 the gain is K = P·C / (C·P·C + R) (with I the identity): the
   * solver is handed R + C·P·C.
   */
  lemma ScalarGain(f: Filter, solve: Solver)
    requires Valid(f) && f.n == 1 && f.i == Identity(1)
    requires Inverts(solve, Innovation(f), 1)
    ensures var p, c, r := f.p[0], f.c[0], f.r[0];
      c * p * c + r != 0.0 && ComputeKFilterKMatrix(f, solve).k[0] == p * c / (c * p * c + r)
  {
    var p, c, r := f.p[0], f.c[0], f.r[0];
    IdentityOf1();
    TrOf1(f.c);
    var pc := Mul(f.p, Tr(f.c, 1), 1);
    MulOf1(f.p, f.c);
    var cpc := Mul(f.c, pc, 1);
    MulOf1(f.c, pc);
    var ri := Mul(f.r, f.i, 1);
    MulOf1(f.r, f.i);
    var sum := Add(ri, cpc);
    var inn := Innovation(f);
    MulOf1(sum, f.i);
    assert inn[0] == c * p * c + r;
    ScalarInverse(solve, inn);
    var inv := Fit(solve.inverse(inn), 1);
    MulOf1(pc, inv);
    assert p * c * (1.0 / inn[0]) == p * c / inn[0];
  }

  /** For n = 1 the a-priori estimate is a·k·(y - x) + a·x + b·u. */
  lemma ScalarAPriori(f: Filter)
    requires Valid(f) && f.n == 1
    ensures var a, b, k, x, y, u := f.a[0], f.b[0], f.k[0], f.xHat[0], f.y[0], f.u[0];
      ComputeKFilterAPrioriEstimate(f).xHat[0] == a * k * (y - x) + (a * x + b * u)
  {
    var ak := Mul(f.a, f.k, 1);
    MulOf1(f.a, f.k);
    MulVecOf1(ak, Sub(f.y, f.xHat));
    MulVecOf1(f.a, f.xHat);
    MulVecOf1(f.b, f.u);
  }

  /** For n = 1 (and I the identity) the covariance becomes g·q·g + a·(p - k·c·p)·a. */
  lemma ScalarCovariance(f: Filter)
    requires Valid(f) && f.n == 1 && f.i == Identity(1)
    ensures var a, c, g, k, p, q := f.a[0], f.c[0], f.g[0], f.k[0], f.p[0], f.q[0];
      ComputeKFilterPMatrix(f).p[0] == g * (q * g) + a * ((p - k * (c * p)) * a)
  {
    TrOf1(f.a);
    TrOf1(f.g);
    var qg := Mul(f.q, f.g, 1);
    MulOf1(f.q, f.g);
    MulOf1(f.g, qg);
    var cp := Mul(f.c, f.p, 1);
    MulOf1(f.c, f.p);
    var kcp := Mul(f.k, cp, 1);
    MulOf1(f.k, cp);
    var reduced := Sub(f.p, kcp);
    var right := Mul(reduced, f.a, 1);
    MulOf1(reduced, f.a);
    MulOf1(f.a, right);
  }

  /** For n = 1 the a-posteriori estimate is x + k·(c·x - y). */
  lemma ScalarAPosteriori(f: Filter)
    requires Valid(f) && f.n == 1
    ensures var c, k, x, y := f.c[0], f.k[0], f.xHat[0], f.y[0];
      ComputeKFilterAPosterioriEstimate(f).xHat[0] == x + k * (c * x - y)
  {
    MulVecOf1(f.c, f.xHat);
    MulVecOf1(f.k, Sub(MulVec(f.c, f.xHat, 1), f.y));
  }

  /** A size-1 filter as ZeroKFilter leaves it: every parameter is 1. */
  predicate ScalarReset(f: Filter)
  {
    && Valid(f) && f.n == 1 && f.i == Identity(1)
    && f.a[0] == 1.0 && f.b[0] == 1.0 && f.c[0] == 1.0 && f.g[0] == 1.0 && f.k[0] == 1.0
    && f.p[0] == 1.0 && f.q[0] == 1.0 && f.r[0] == 1.0
  }

  lemma ResetIsScalarReset(f: Filter)
    requires Valid(f) && f.n == 1
    ensures ScalarReset(ZeroKFilter(f))
  {
    IdentityOf1();
  }

  /**
   * One ComputeKFilter call on a reset size-1 filter with x̂ = 0 and u = 0,
   * measuring y: K = 1/2, P goes from 1 to 3/2, and x̂ = y/4.
   */
  lemma ScalarDefaultsStep(f: Filter, solve: Solver)
    requires ScalarReset(f) && f.xHat[0] == 0.0 && f.u[0] == 0.0
    requires Inverts(solve, Innovation(f), 1)
    ensures var g := ComputeKFilter(f, solve);
      g.k[0] == 0.5 && g.p[0] == 1.5 && g.xHat[0] == f.y[0] / 4.0
  {
    ScalarGain(f, solve);
    var g1 := ComputeKFilterKMatrix(f, solve);
    assert g1 == f.(k := g1.k, pc := g1.pc, cpc := g1.cpc, cpcR := g1.cpcR);
    DefaultsAfterGain(g1);
  }

  /** The last three steps of ScalarDefaultsStep, once the gain is 1/2. */
  lemma DefaultsAfterGain(g1: Filter)
    requires Valid(g1) && g1.n == 1 && g1.i == Identity(1)
    requires g1.a[0] == 1.0 && g1.b[0] == 1.0 && g1.c[0] == 1.0 && g1.g[0] == 1.0
    requires g1.p[0] == 1.0 && g1.q[0] == 1.0 && g1.k[0] == 0.5
    requires g1.xHat[0] == 0.0 && g1.u[0] == 0.0
    ensures var g := ComputeKFilterAPosterioriEstimate(ComputeKFilterPMatrix(ComputeKFilterAPrioriEstimate(g1)));
      g.k[0] == 0.5 && g.p[0] == 1.5 && g.xHat[0] == g1.y[0] / 4.0
  {
    var y := g1.y[0];
    ScalarAPriori(g1);
    var g2 := ComputeKFilterAPrioriEstimate(g1);
    assert g2.xHat[0] == y / 2.0;
    ScalarCovariance(g2);
    var g3 := ComputeKFilterPMatrix(g2);
    ScalarAPosteriori(g3);
  }

  // ---------------------------------------------------------------------------
  // The two estimate steps as their comments describe them
  // ---------------------------------------------------------------------------

  /**
   * The a-priori estimate with the innovation y - C·x̂_ that the code's
   * comment names: x̂ := A·K·(y - C·x̂_) + A·x̂_ + B·u.
   */
  function ComputeKFilterAPrioriEstimateIntended(f: Filter): (r: Filter)
    requires Valid(f)
    ensures Valid(r) && r.n == f.n
    ensures r.xHatPrior == f.xHat
    ensures r.xHat == Add(MulVec(Mul(f.a, f.k, f.n), Sub(f.y, MulVec(f.c, f.xHat, f.n)), f.n),
                          Add(MulVec(f.a, f.xHat, f.n), MulVec(f.b, f.u, f.n)))
    ensures r.(xHat := f.xHat, xHatPrior := f.xHatPrior, ak := f.ak, ax := f.ax, bu := f.bu) == f
  {
    var n := f.n;
    var prior := f.xHat;
    var diff := Sub(f.y, MulVec(f.c, prior, n));
    var ak := Mul(f.a, f.k, n);
    var gain := MulVec(ak, diff, n);
    var bu := MulVec(f.b, f.u, n);
    var ax := Add(MulVec(f.a, prior, n), bu);
    f.(xHatPrior := prior, xHat := Add(gain, ax), ak := ak, ax := ax, bu := bu)
  }

  /** A measurement the estimate already explains adds no correction: x̂ := A·x̂ + B·u. */
  lemma APrioriIntendedWithoutInnovation(f: Filter)
    requires Valid(f) && MulVec(f.c, f.xHat, f.n) == f.y
    ensures ComputeKFilterAPrioriEstimateIntended(f).xHat == Add(MulVec(f.a, f.xHat, f.n), MulVec(f.b, f.u, f.n))
  {
    var n := f.n;
    assert Sub(f.y, f.y) == Zeros(n);
    MulVecZeros(Mul(f.a, f.k, n), n);
    var rest := Add(MulVec(f.a, f.xHat, n), MulVec(f.b, f.u, n));
    assert Add(Zeros(n), rest) == rest;
  }

  /** As written, the same situation with C = [2] still applies a correction. */
  lemma APrioriIgnoresOutputMatrix(f: Filter)
    requires Valid(f) && f.n == 1
    requires f.a[0] == 1.0 && f.b[0] == 0.0 && f.c[0] == 2.0 && f.k[0] == 1.0
    requires f.xHat[0] == 1.0 && f.y[0] == 2.0
    ensures MulVec(f.c, f.xHat, f.n) == f.y
    ensures ComputeKFilterAPrioriEstimate(f).xHat[0] == 2.0
    ensures ComputeKFilterAPrioriEstimateIntended(f).xHat[0] == 1.0
  {
    MulVecOf1(f.c, f.xHat);
    assert MulVec(f.c, f.xHat, 1) == f.y;
    ScalarAPriori(f);
    APrioriIntendedWithoutInnovation(f);
    MulVecOf1(f.a, f.xHat);
    MulVecOf1(f.b, f.u);
  }

  /** The a-posteriori estimate as the comment states it: x̂ := x̂ + K·(y - C·x̂). */
  function ComputeKFilterAPosterioriEstimateIntended(f: Filter): (r: Filter)
    requires Valid(f)
    ensures Valid(r) && r.n == f.n
    ensures r.yHatPrior == Sub(f.y, MulVec(f.c, f.xHat, f.n))
    ensures r.yHat == MulVec(f.k, r.yHatPrior, f.n) && r.xHat == Add(f.xHat, r.yHat)
    ensures r.(xHat := f.xHat, yHat := f.yHat, yHatPrior := f.yHatPrior) == f
  {
    var n := f.n;
    var residual := Sub(f.y, MulVec(f.c, f.xHat, n));
    var correction := MulVec(f.k, residual, n);
    f.(yHat := correction, yHatPrior := residual, xHat := Add(f.xHat, correction))
  }

  /** For n = 1 the corrected step is x + k·(y - c·x). */
  lemma ScalarAPosterioriIntended(f: Filter)
    requires Valid(f) && f.n == 1
    ensures var c, k, x, y := f.c[0], f.k[0], f.xHat[0], f.y[0];
      ComputeKFilterAPosterioriEstimateIntended(f).xHat[0] == x + k * (y - c * x)
  {
    MulVecOf1(f.c, f.xHat);
    MulVecOf1(f.k, Sub(f.y, MulVec(f.c, f.xHat, 1)));
  }

  /**
   * With C = 1 and a gain between 0 and 1, the corrected estimate moves
   * from x̂ towards the measurement and stays between the two.
   */
  lemma PosterioriIntendedMovesTowardMeasurement(f: Filter)
    requires Valid(f) && f.n == 1 && f.c[0] == 1.0 && 0.0 <= f.k[0] <= 1.0
    ensures var x, y, x' := f.xHat[0], f.y[0], ComputeKFilterAPosterioriEstimateIntended(f).xHat[0];
      (x <= x' <= y) || (y <= x' <= x)
  {
    ScalarAPosterioriIntended(f);
    var x, y, k := f.xHat[0], f.y[0], f.k[0];
    assert x + k * (y - 1.0 * x) == (1.0 - k) * x + k * y;
    Between(1.0 - k, k, x, y);
  }

  lemma Between(w1: real, w2: real, a: real, b: real)
    requires 0.0 <= w1 && 0.0 <= w2 && w1 + w2 == 1.0
    ensures (a <= w1 * a + w2 * b <= b) || (b <= w1 * a + w2 * b <= a)
  {
    assert w1 * a + w2 * b == a + w2 * (b - a) by {
      assert w1 * a == a - w2 * a;
    }
    if a <= b {
      Scaled(w2, b - a);
    } else {
      Scaled(w2, a - b);
      assert w2 * (b - a) == -(w2 * (a - b));
    }
  }

  lemma Scaled(w: real, d: real)
    requires 0.0 <= w <= 1.0 && 0.0 <= d
    ensures 0.0 <= w * d <= d
  {
    assert d - w * d == (1.0 - w) * d;
  }

  /** As written, a gain of 1/2 with x̂ = 0 and y = 1 moves the estimate to -1/2, away from y. */
  lemma PosterioriMovesAwayFromMeasurement(f: Filter)
    requires Valid(f) && f.n == 1 && f.c[0] == 1.0 && f.k[0] == 0.5
    requires f.xHat[0] == 0.0 && f.y[0] == 1.0
    ensures ComputeKFilterAPosterioriEstimate(f).xHat[0] == -0.5
    ensures ComputeKFilterAPosterioriEstimateIntended(f).xHat[0] == 0.5
  {
    ScalarAPosteriori(f);
    ScalarAPosterioriIntended(f);
  }

  /** ComputeKFilter with both estimate steps corrected. */
  function ComputeKFilterIntended(f: Filter, solve: Solver): (r: Filter)
    requires Valid(f)
    ensures Valid(r) && r.n == f.n
    ensures r.y == f.y && r.i == f.i && r.a == f.a && r.c == f.c && r.r == f.r
    ensures r.k == ComputeKFilterKMatrix(f, solve).k
    ensures r.xHatPrior == f.xHat
  {
    var gained := ComputeKFilterKMatrix(f, solve);
    var predicted := ComputeKFilterAPrioriEstimateIntended(gained);
    var covariance := ComputeKFilterPMatrix(predicted);
    ComputeKFilterAPosterioriEstimateIntended(covariance)
  }

  /**
   * The corrected filter on the reset size-1 filter with x̂ = 0 and u = 0:
   * the same gain and covariance, and x̂ = 3y/4 where the code gives y/4.
   */
  lemma ScalarDefaultsStepIntended(f: Filter, solve: Solver)
    requires ScalarReset(f) && f.xHat[0] == 0.0 && f.u[0] == 0.0
    requires Inverts(solve, Innovation(f), 1)
    ensures var g := ComputeKFilterIntended(f, solve);
      g.k[0] == 0.5 && g.p[0] == 1.5 && g.xHat[0] == 3.0 * f.y[0] / 4.0
  {
    ScalarGain(f, solve);
    var g1 := ComputeKFilterKMatrix(f, solve);
    assert g1 == f.(k := g1.k, pc := g1.pc, cpc := g1.cpc, cpcR := g1.cpcR);
    IntendedAfterGain(g1);
  }

  lemma IntendedAfterGain(g1: Filter)
    requires Valid(g1) && g1.n == 1 && g1.i == Identity(1)
    requires g1.a[0] == 1.0 && g1.b[0] == 1.0 && g1.c[0] == 1.0 && g1.g[0] == 1.0
    requires g1.p[0] == 1.0 && g1.q[0] == 1.0 && g1.k[0] == 0.5
    requires g1.xHat[0] == 0.0 && g1.u[0] == 0.0
    ensures var g := ComputeKFilterAPosterioriEstimateIntended(ComputeKFilterPMatrix(ComputeKFilterAPrioriEstimateIntended(g1)));
      g.k[0] == 0.5 && g.p[0] == 1.5 && g.xHat[0] == 3.0 * g1.y[0] / 4.0
  {
    var y := g1.y[0];
    var g2 := ComputeKFilterAPrioriEstimateIntended(g1);
    MulVecOf1(g1.c, g1.xHat);
    var diff := Sub(g1.y, MulVec(g1.c, g1.xHat, 1));
    var ak := Mul(g1.a, g1.k, 1);
    MulOf1(g1.a, g1.k);
    MulVecOf1(ak, diff);
    MulVecOf1(g1.a, g1.xHat);
    MulVecOf1(g1.b, g1.u);
    assert g2.xHat[0] == y / 2.0;
    ScalarCovariance(g2);
    var g3 := ComputeKFilterPMatrix(g2);
    ScalarAPosterioriIntended(g3);
  }
}
