/*
 * Flat n x n matrices of doubles (src/lib/matrix.c) and the dense algebra the
 * Kalman filter performs on them.
 *
 * A matrix is a seq<real> of length n*n. Two readings of the same storage
 * occur in the library: the helpers in matrix.c and the filter setters address
 * cell (i, j) at i + n*j (column-major), while the BLAS products are issued
 * with CblasRowMajor and address it at i*n + j. `At` is the row-major reading;
 * `ColMajorAt` is the column-major one. The products below are the row-major
 * ones BLAS computes.
 */
module Matrix {

  // ---------------------------------------------------------------------------
  // Index arithmetic
  // ---------------------------------------------------------------------------

  lemma MulMono(a: nat, b: int, c: int)
    requires b <= c
    ensures a * b <= a * c
  {
    assert a * c - a * b == a * (c - b);
  }

  /** Both flat layouts of an n x n matrix stay inside the n*n cells. */
  lemma CellInRange(n: nat, i: nat, j: nat)
    requires i < n && j < n
    ensures i + n * j < n * n && i * n + j < n * n
  {
    MulMono(n, j, n - 1);
    MulMono(n, i, n - 1);
    assert n * (n - 1) == n * n - n;
    assert i * n == n * i;
  }

  /** Division by n recovers the row and the column of a row-major index. */
  lemma DivMod(n: nat, i: nat, j: nat)
    requires j < n
    ensures (i * n + j) / n == i && (i * n + j) % n == j
  {
    var x := i * n + j;
    var q := x / n;
    var r := x % n;
    assert x == n * q + r;
    assert n * (q - i) == j - r;
    if q - i >= 1 {
      MulMono(n, 1, q - i);
    } else if q - i <= -1 {
      MulMono(n, q - i, -1);
    }
  }

  /** Every cell index below n*n is i*n + j for one row i and column j. */
  lemma Split(n: nat, idx: nat)
    requires idx < n * n
    ensures n > 0 && idx / n < n && idx % n < n && idx == (idx / n) * n + idx % n
  {
    assert n != 0;
    var q := idx / n;
    if q >= n {
      MulMono(n, n, q);
    }
  }

  /** The row and the column of a row-major index lie below n. */
  lemma RowColInRange(n: nat, idx: nat)
    requires idx < n * n
    ensures n > 0 && idx / n < n && idx % n < n
  {
    Split(n, idx);
  }

  /** Different (row, column) pairs name different column-major cells. */
  lemma ColMajorDistinct(n: nat, r: nat, c: nat, i: nat, j: nat)
    requires r < n && c < n && i < n && j < n
    requires r != i || c != j
    ensures r + n * c != i + n * j
  {
    DivMod(n, c, r);
    DivMod(n, j, i);
    assert r + n * c == c * n + r;
    assert i + n * j == j * n + i;
  }

  // ---------------------------------------------------------------------------
  // Reference algebra
  // ---------------------------------------------------------------------------

  /** Sum of a[k]*b[k], accumulated from k = 0 upwards as the C loops do. */
  function Dot(a: seq<real>, b: seq<real>): real
    requires |a| == |b|
  {
    if |a| == 0 then 0.0 else Dot(a[..|a| - 1], b[..|b| - 1]) + a[|a| - 1] * b[|b| - 1]
  }

  /** Cell (i, j) of a row-major n x n matrix. */
  function At(m: seq<real>, n: nat, i: nat, j: nat): real
    requires |m| == n * n && i < n && j < n
  {
    CellInRange(n, i, j);
    m[i * n + j]
  }

  /** Cell (i, j) of a column-major n x n matrix, the layout of matrix.c. */
  function ColMajorAt(m: seq<real>, n: nat, i: nat, j: nat): real
    requires |m| == n * n && i < n && j < n
  {
    CellInRange(n, i, j);
    m[i + n * j]
  }

  function Row(m: seq<real>, n: nat, i: nat): (r: seq<real>)
    requires |m| == n * n && i < n
    ensures |r| == n
  {
    seq(n, k requires 0 <= k < n => At(m, n, i, k))
  }

  function Col(m: seq<real>, n: nat, j: nat): (c: seq<real>)
    requires |m| == n * n && j < n
    ensures |c| == n
  {
    seq(n, k requires 0 <= k < n => At(m, n, k, j))
  }

  /** Row i of a matrix stored column-major: the cells m[i + n*k]. */
  function ColMajorRow(m: seq<real>, n: nat, i: nat): (r: seq<real>)
    requires |m| == n * n && i < n
    ensures |r| == n
  {
    seq(n, k requires 0 <= k < n => ColMajorAt(m, n, i, k))
  }

  function Unit(n: nat, j: nat): (e: seq<real>)
    ensures |e| == n
  {
    seq(n, k => if k == j then 1.0 else 0.0)
  }

  function Zeros(n: nat): (z: seq<real>)
    ensures |z| == n
    ensures forall k :: 0 <= k < n ==> z[k] == 0.0
  {
    seq(n, k => 0.0)
  }

  /** The n x n identity; its two flat layouts coincide. */
  function Identity(n: nat): (m: seq<real>)
    ensures |m| == n * n
  {
    seq(n * n, idx requires 0 <= idx < n * n => (RowColInRange(n, idx); if idx / n == idx % n then 1.0 else 0.0))
  }

  /** Row-major product x*y (cblas_dgemm with alpha = 1, beta = 0). */
  function Mul(x: seq<real>, y: seq<real>, n: nat): (z: seq<real>)
    requires |x| == n * n && |y| == n * n
    ensures |z| == n * n
  {
    seq(n * n, idx requires 0 <= idx < n * n => (RowColInRange(n, idx); Dot(Row(x, n, idx / n), Col(y, n, idx % n))))
  }

  /** Transpose in the row-major reading. */
  function Tr(x: seq<real>, n: nat): (t: seq<real>)
    requires |x| == n * n
    ensures |t| == n * n
  {
    seq(n * n, idx requires 0 <= idx < n * n => (RowColInRange(n, idx); At(x, n, idx % n, idx / n)))
  }

  function Add(x: seq<real>, y: seq<real>): (z: seq<real>)
    requires |x| == |y|
    ensures |z| == |x|
  {
    seq(|x|, k requires 0 <= k < |x| => x[k] + y[k])
  }

  function Sub(x: seq<real>, y: seq<real>): (z: seq<real>)
    requires |x| == |y|
    ensures |z| == |x|
  {
    seq(|x|, k requires 0 <= k < |x| => x[k] - y[k])
  }

  /** out[i] = sum over k of m[i + n*k] * v[k]: the product MultiplyMatrixVector forms. */
  function MulVec(m: seq<real>, v: seq<real>, n: nat): (r: seq<real>)
    requires |m| == n * n && |v| == n
    ensures |r| == n
  {
    seq(n, i requires 0 <= i < n => Dot(ColMajorRow(m, n, i), v))
  }

  // ---------------------------------------------------------------------------
  // Facts about the reference algebra
  // ---------------------------------------------------------------------------

  lemma {:induction false} DotStep(a: seq<real>, b: seq<real>, k: nat)
    requires |a| == |b| && k < |a|
    ensures Dot(a[..k + 1], b[..k + 1]) == Dot(a[..k], b[..k]) + a[k] * b[k]
  {
    assert a[..k + 1][..k] == a[..k];
    assert b[..k + 1][..k] == b[..k];
  }

  /** Dotting with the j-th unit vector picks out component j. */
  lemma {:induction false} DotUnit(a: seq<real>, j: nat)
    requires j < |a|
    ensures Dot(a, Unit(|a|, j)) == a[j]
    ensures Dot(Unit(|a|, j), a) == a[j]
  {
    var n := |a|;
    var e := Unit(n, j);
    var k := 0;
    while k < n
      invariant 0 <= k <= n
      invariant Dot(a[..k], e[..k]) == (if j < k then a[j] else 0.0)
      invariant Dot(e[..k], a[..k]) == (if j < k then a[j] else 0.0)
    {
      DotStep(a, e, k);
      DotStep(e, a, k);
      k := k + 1;
    }
    assert a[..n] == a && e[..n] == e;
  }

  lemma AtOfIdentity(n: nat, i: nat, j: nat)
    requires i < n && j < n
    ensures At(Identity(n), n, i, j) == (if i == j then 1.0 else 0.0)
    ensures ColMajorAt(Identity(n), n, i, j) == (if i == j then 1.0 else 0.0)
  {
    IdentityCell(n, i, j);
    IdentityCell(n, j, i);
    ColMajorIsTransposed(Identity(n), n, i, j);
  }

  lemma IdentityCell(n: nat, i: nat, j: nat)
    requires i < n && j < n
    ensures At(Identity(n), n, i, j) == (if i == j then 1.0 else 0.0)
  {
    DivMod(n, i, j);
    CellInRange(n, i, j);
    var idx := i * n + j;
    assert Identity(n)[idx] == (if idx / n == idx % n then 1.0 else 0.0);
  }

  lemma AtOfMul(x: seq<real>, y: seq<real>, n: nat, i: nat, j: nat)
    requires |x| == n * n && |y| == n * n && i < n && j < n
    ensures At(Mul(x, y, n), n, i, j) == Dot(Row(x, n, i), Col(y, n, j))
  {
    DivMod(n, i, j);
    CellInRange(n, i, j);
    var idx := i * n + j;
    assert Mul(x, y, n)[idx] == Dot(Row(x, n, idx / n), Col(y, n, idx % n));
  }

  lemma AtOfTr(x: seq<real>, n: nat, i: nat, j: nat)
    requires |x| == n * n && i < n && j < n
    ensures At(Tr(x, n), n, i, j) == At(x, n, j, i)
  {
    DivMod(n, i, j);
    CellInRange(n, i, j);
    var idx := i * n + j;
    assert Tr(x, n)[idx] == At(x, n, idx % n, idx / n);
  }

  /** Two n x n matrices with the same cells are equal. */
  lemma SameCells(x: seq<real>, y: seq<real>, n: nat)
    requires |x| == n * n && |y| == n * n
    requires forall i, j :: 0 <= i < n && 0 <= j < n ==> At(x, n, i, j) == At(y, n, i, j)
    ensures x == y
  {
    forall idx | 0 <= idx < n * n
      ensures x[idx] == y[idx]
    {
      Split(n, idx);
      assert At(x, n, idx / n, idx % n) == At(y, n, idx / n, idx % n);
    }
  }

  /** The column-major and the row-major reading are transposes of each other. */
  lemma ColMajorIsTransposed(m: seq<real>, n: nat, i: nat, j: nat)
    requires |m| == n * n && i < n && j < n
    ensures ColMajorAt(m, n, i, j) == At(m, n, j, i)
  {
    assert i + n * j == j * n + i;
  }

  lemma ColOfIdentity(n: nat, j: nat)
    requires j < n
    ensures Col(Identity(n), n, j) == Unit(n, j)
    ensures Row(Identity(n), n, j) == Unit(n, j)
    ensures ColMajorRow(Identity(n), n, j) == Unit(n, j)
  {
    forall k | 0 <= k < n
      ensures Col(Identity(n), n, j)[k] == Unit(n, j)[k]
      ensures Row(Identity(n), n, j)[k] == Unit(n, j)[k]
      ensures ColMajorRow(Identity(n), n, j)[k] == Unit(n, j)[k]
    {
      AtOfIdentity(n, k, j);
      AtOfIdentity(n, j, k);
    }
  }

  /** x * I == x: a product by the identity on the right changes nothing. */
  lemma {:induction false} MulIdentityRight(x: seq<real>, n: nat)
    requires |x| == n * n
    ensures Mul(x, Identity(n), n) == x
  {
    forall i, j | 0 <= i < n && 0 <= j < n
      ensures At(Mul(x, Identity(n), n), n, i, j) == At(x, n, i, j)
    {
      AtOfMul(x, Identity(n), n, i, j);
      ColOfIdentity(n, j);
      DotUnit(Row(x, n, i), j);
    }
    SameCells(Mul(x, Identity(n), n), x, n);
  }

  /** I * x == x. */
  lemma {:induction false} MulIdentityLeft(x: seq<real>, n: nat)
    requires |x| == n * n
    ensures Mul(Identity(n), x, n) == x
  {
    forall i, j | 0 <= i < n && 0 <= j < n
      ensures At(Mul(Identity(n), x, n), n, i, j) == At(x, n, i, j)
    {
      AtOfMul(Identity(n), x, n, i, j);
      ColOfIdentity(n, i);
      DotUnit(Col(x, n, j), i);
    }
    SameCells(Mul(Identity(n), x, n), x, n);
  }

  /** The identity read column-major leaves a vector unchanged. */
  lemma {:induction false} MulVecIdentity(v: seq<real>, n: nat)
    requires |v| == n
    ensures MulVec(Identity(n), v, n) == v
  {
    forall i | 0 <= i < n
      ensures MulVec(Identity(n), v, n)[i] == v[i]
    {
      ColOfIdentity(n, i);
      DotUnit(v, i);
    }
  }

  /** The transpose is an involution. */
  lemma {:induction false} TrTr(x: seq<real>, n: nat)
    requires |x| == n * n
    ensures Tr(Tr(x, n), n) == x
  {
    forall i, j | 0 <= i < n && 0 <= j < n
      ensures At(Tr(Tr(x, n), n), n, i, j) == At(x, n, i, j)
    {
      AtOfTr(Tr(x, n), n, i, j);
      AtOfTr(x, n, j, i);
    }
    SameCells(Tr(Tr(x, n), n), x, n);
  }

  // For 1 x 1 matrices the algebra is scalar arithmetic (stated cell-wise).

  lemma MulOf1(x: seq<real>, y: seq<real>)
    requires |x| == 1 && |y| == 1
    ensures Mul(x, y, 1)[0] == x[0] * y[0]
  {
    AtOfMul(x, y, 1, 0, 0);
    assert Row(x, 1, 0) == x;
    assert Col(y, 1, 0) == y;
    assert Dot(x, y) == Dot([], []) + x[0] * y[0];
  }

  lemma TrOf1(x: seq<real>)
    requires |x| == 1
    ensures Tr(x, 1) == x
  {
    AtOfTr(x, 1, 0, 0);
  }

  lemma IdentityOf1()
    ensures Identity(1)[0] == 1.0
  {
    AtOfIdentity(1, 0, 0);
  }

  lemma MulVecOf1(m: seq<real>, v: seq<real>)
    requires |m| == 1 && |v| == 1
    ensures MulVec(m, v, 1)[0] == m[0] * v[0]
  {
    assert ColMajorRow(m, 1, 0) == m;
    assert Dot(m, v) == Dot([], []) + m[0] * v[0];
  }

  // ---------------------------------------------------------------------------
  // The three routines of matrix.c
  // ---------------------------------------------------------------------------

  /** Writing cell (i, j) of a column-major matrix leaves every other cell alone. */
  lemma ColMajorWrite(a: seq<real>, n: nat, i: nat, j: nat, v: real, r: nat, c: nat)
    requires |a| == n * n && i < n && j < n && r < n && c < n
    ensures i + n * j < |a|
    ensures ColMajorAt(a[i + n * j := v], n, r, c) == if r == i && c == j then v else ColMajorAt(a, n, r, c)
  {
    CellInRange(n, i, j);
    CellInRange(n, r, c);
    var p := i + n * j;
    var q := r + n * c;
    var b := a[p := v];
    assert ColMajorAt(b, n, r, c) == b[q];
    assert ColMajorAt(a, n, r, c) == a[q];
    if r != i || c != j {
      ColMajorDistinct(n, r, c, i, j);
      assert q != p;
    } else {
      assert q == p;
    }
  }

  /** A matrix whose column-major cells match those of m is m. */
  lemma SameColMajorCells(a: seq<real>, m: seq<real>, n: nat)
    requires |a| == n * n && |m| == n * n
    requires forall r, c :: 0 <= r < n && 0 <= c < n ==> ColMajorAt(a, n, r, c) == ColMajorAt(m, n, r, c)
    ensures a == m
  {
    forall r, c | 0 <= r < n && 0 <= c < n
      ensures At(a, n, r, c) == At(m, n, r, c)
    {
      ColMajorIsTransposed(a, n, c, r);
      ColMajorIsTransposed(m, n, c, r);
    }
    SameCells(a, m, n);
  }

  /** SetIdentityMatrix: out[i + n*j] is 1 on the diagonal and 0 elsewhere. */
  method SetIdentityMatrix(n: nat) returns (out: seq<real>)
    ensures |out| == n * n
    ensures forall i, j :: 0 <= i < n && 0 <= j < n ==>
      ColMajorAt(out, n, i, j) == (if i == j then 1.0 else 0.0)
    ensures out == Identity(n)
  {
    var a := Zeros(n * n);
    var i := 0;
    while i < n
      invariant 0 <= i <= n && |a| == n * n
      invariant forall r, c :: 0 <= r < i && 0 <= c < n ==>
        ColMajorAt(a, n, r, c) == (if r == c then 1.0 else 0.0)
    {
      a := SetIdentityRow(a, n, i);
      i := i + 1;
    }
    out := a;
    forall r, c | 0 <= r < n && 0 <= c < n
      ensures ColMajorAt(out, n, r, c) == ColMajorAt(Identity(n), n, r, c)
    {
      AtOfIdentity(n, r, c);
    }
    SameColMajorCells(out, Identity(n), n);
  }

  /** The inner loop of SetIdentityMatrix: row i becomes the identity's row i. */
  method SetIdentityRow(a0: seq<real>, n: nat, i: nat) returns (a: seq<real>)
    requires |a0| == n * n && i < n
    ensures |a| == n * n
    ensures forall r, c :: 0 <= r < n && r != i && 0 <= c < n ==> ColMajorAt(a, n, r, c) == ColMajorAt(a0, n, r, c)
    ensures forall c :: 0 <= c < n ==> ColMajorAt(a, n, i, c) == (if i == c then 1.0 else 0.0)
  {
    a := a0;
    var j := 0;
    while j < n
      invariant 0 <= j <= n && |a| == n * n
      invariant forall r, c :: 0 <= r < n && r != i && 0 <= c < n ==> ColMajorAt(a, n, r, c) == ColMajorAt(a0, n, r, c)
      invariant forall c :: 0 <= c < j ==> ColMajorAt(a, n, i, c) == (if i == c then 1.0 else 0.0)
    {
      CellInRange(n, i, j);
      var cell := if i == j then 1.0 else 0.0;
      ghost var before := a;
      a := a[i + n * j := cell];
      forall r, c | 0 <= r < n && 0 <= c < n
        ensures ColMajorAt(a, n, r, c) == if r == i && c == j then cell else ColMajorAt(before, n, r, c)
      {
        ColMajorWrite(before, n, i, j, cell, r, c);
      }
      j := j + 1;
    }
  }

  /** CopyMatrix: every cell of the n x n matrix is copied. */
  method CopyMatrix(input: seq<real>, n: nat) returns (out: seq<real>)
    requires |input| == n * n
    ensures |out| == n * n
    ensures forall k :: 0 <= k < n * n ==> out[k] == input[k]
    ensures out == input
  {
    var a := Zeros(n * n);
    var i := 0;
    while i < n
      invariant 0 <= i <= n && |a| == n * n
      invariant forall r, c :: 0 <= r < i && 0 <= c < n ==>
        ColMajorAt(a, n, r, c) == ColMajorAt(input, n, r, c)
    {
      a := CopyRow(a, input, n, i);
      i := i + 1;
    }
    out := a;
    SameColMajorCells(out, input, n);
  }

  /** The inner loop of CopyMatrix: row i of the input is copied. */
  method CopyRow(a0: seq<real>, input: seq<real>, n: nat, i: nat) returns (a: seq<real>)
    requires |a0| == n * n && |input| == n * n && i < n
    ensures |a| == n * n
    ensures forall r, c :: 0 <= r < n && r != i && 0 <= c < n ==> ColMajorAt(a, n, r, c) == ColMajorAt(a0, n, r, c)
    ensures forall c :: 0 <= c < n ==> ColMajorAt(a, n, i, c) == ColMajorAt(input, n, i, c)
  {
    a := a0;
    var j := 0;
    while j < n
      invariant 0 <= j <= n && |a| == n * n
      invariant forall r, c :: 0 <= r < n && r != i && 0 <= c < n ==> ColMajorAt(a, n, r, c) == ColMajorAt(a0, n, r, c)
      invariant forall c :: 0 <= c < j ==> ColMajorAt(a, n, i, c) == ColMajorAt(input, n, i, c)
    {
      CellInRange(n, i, j);
      var cell := input[i + n * j];
      ghost var before := a;
      a := a[i + n * j := cell];
      forall r, c | 0 <= r < n && 0 <= c < n
        ensures ColMajorAt(a, n, r, c) == if r == i && c == j then cell else ColMajorAt(before, n, r, c)
      {
        ColMajorWrite(before, n, i, j, cell, r, c);
      }
      j := j + 1;
    }
  }

  /**
   * MultiplyMatrixVector: out[i] = sum over k of m[i + n*k] * v[k]. The source
   * recomputes each row n times (a redundant middle loop); every pass stores the
   * same sum because `v` is only read.
   */
  method MultiplyMatrixVector(m: seq<real>, v: seq<real>, n: nat) returns (out: seq<real>)
    requires |m| == n * n && |v| == n
    ensures |out| == n
    ensures forall i :: 0 <= i < n ==> out[i] == Dot(ColMajorRow(m, n, i), v)
    ensures out == MulVec(m, v, n)
  {
    var a := Zeros(n);
    var i := 0;
    while i < n
      invariant 0 <= i <= n && |a| == n
      invariant forall r :: 0 <= r < i ==> a[r] == Dot(ColMajorRow(m, n, r), v)
    {
      var j := 0;
      while j < n
        invariant 0 <= j <= n && |a| == n
        invariant forall r :: 0 <= r < i ==> a[r] == Dot(ColMajorRow(m, n, r), v)
        invariant 0 < j ==> a[i] == Dot(ColMajorRow(m, n, i), v)
      {
        var temp := RowTimesVector(m, v, n, i);
        a := a[i := temp];
        j := j + 1;
      }
      i := i + 1;
    }
    out := a;
  }

  /** The innermost loop of MultiplyMatrixVector: one row of the product. */
  method RowTimesVector(m: seq<real>, v: seq<real>, n: nat, i: nat) returns (temp: real)
    requires |m| == n * n && |v| == n && i < n
    ensures temp == Dot(ColMajorRow(m, n, i), v)
  {
    var row := ColMajorRow(m, n, i);
    temp := 0.0;
    var k := 0;
    while k < n
      invariant 0 <= k <= n
      invariant temp == Dot(row[..k], v[..k])
    {
      CellInRange(n, i, k);
      DotStep(row, v, k);
      assert row[k] == m[i + n * k];
      temp := temp + m[i + n * k] * v[k];
      k := k + 1;
    }
    assert row[..n] == row && v[..n] == v;
  }

  // ---------------------------------------------------------------------------
  // Aliasing the output with the input vector
  // ---------------------------------------------------------------------------

  /**
   * What MultiplyMatrixVector computes when `out` and `v` are the same buffer:
   * row i is formed n times, each pass reading the cell it has just written
   * and every row after the first reading the rows already replaced.
   */
  function AliasedMulVec(m: seq<real>, v: seq<real>, n: nat): (r: seq<real>)
    requires |m| == n * n && |v| == n
    ensures |r| == n
  {
    AliasedRows(m, v, n, 0)
  }

  function AliasedRows(m: seq<real>, v: seq<real>, n: nat, i: nat): (r: seq<real>)
    requires |m| == n * n && |v| == n && i <= n
    ensures |r| == n
    decreases n - i
  {
    if i == n then v else AliasedRows(m, AliasedPasses(m, v, n, i, n), n, i + 1)
  }

  function AliasedPasses(m: seq<real>, v: seq<real>, n: nat, i: nat, passes: nat): (r: seq<real>)
    requires |m| == n * n && |v| == n && i < n
    ensures |r| == n
  {
    if passes == 0 then v
    else
      var w := AliasedPasses(m, v, n, i, passes - 1);
      w[i := Dot(ColMajorRow(m, n, i), w)]
  }

  /**
   * With the swap matrix and v = (1, 2), the in-place product yields (2, 2)
   * where the product is (2, 1): the routine needs distinct buffers, which is
   * why the a-priori step of the filter copies its vector first.
   */
  lemma AliasingBreaksProduct()
    ensures MulVec([0.0, 1.0, 1.0, 0.0], [1.0, 2.0], 2) == [2.0, 1.0]
    ensures AliasedMulVec([0.0, 1.0, 1.0, 0.0], [1.0, 2.0], 2) == [2.0, 2.0]
  {
    var m := [0.0, 1.0, 1.0, 0.0];
    assert ColMajorRow(m, 2, 0) == [0.0, 1.0];
    assert ColMajorRow(m, 2, 1) == [1.0, 0.0];
    forall w: seq<real> | |w| == 2
      ensures Dot([0.0, 1.0], w) == w[1] && Dot([1.0, 0.0], w) == w[0]
    {
      assert [0.0, 1.0][..1] == [0.0] && w[..1] == [w[0]];
      assert [1.0, 0.0][..1] == [1.0];
      assert Dot([0.0], [w[0]]) == Dot([], []) + 0.0 * w[0];
      assert Dot([1.0], [w[0]]) == Dot([], []) + 1.0 * w[0];
    }
    var p0 := AliasedPasses(m, [1.0, 2.0], 2, 0, 2);
    assert AliasedPasses(m, [1.0, 2.0], 2, 0, 1) == [2.0, 2.0];
    assert p0 == [2.0, 2.0];
    assert AliasedPasses(m, p0, 2, 1, 1) == [2.0, 2.0];
    assert AliasedPasses(m, p0, 2, 1, 2) == [2.0, 2.0];
    assert MulVec(m, [1.0, 2.0], 2)[0] == 2.0;
    assert MulVec(m, [1.0, 2.0], 2)[1] == 1.0;
  }
}
