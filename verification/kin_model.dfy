/*
 * The quaternion kinematic model: the rotation matrix R(q), the 4x3 matrix
 * U(q) that maps an angular velocity to the rate of change of q, the skew
 * matrix of q's vector part, and the step that pushes a velocity through
 * them into the pose.
 *
 * The C matrices are row-major two-dimensional arrays; here they are flat
 * sequences with entry [i][j] at index i*3 + j (three columns each).
 */
module KinModel {
  import opened Status
  import opened PoseMath
  import opened StateVectors

  const RowSize: nat := 3
  const ColSize: nat := 3
  const RowSizeU: nat := 4

  /** A 3x3 rot_matrix or skew_matrix. */
  type Mat3 = m: seq<real> | |m| == 9 witness [0.0, 0.0, 0.0, 0.0, 0.0, 0.0, 0.0, 0.0, 0.0]

  /** A 4x3 U_matrix. */
  type UMat = m: seq<real> | |m| == 12
    witness [0.0, 0.0, 0.0, 0.0, 0.0, 0.0, 0.0, 0.0, 0.0, 0.0, 0.0, 0.0]

  /** The Jacobian of the pose with respect to the velocity: R over U. */
  datatype Jacobian = Jacobian(R: Mat3, U: UMat)

  /** entry[i][j] of a row-major array with three columns. */
  function Entry(m: seq<real>, i: nat, j: nat): real
    requires j < 3 && i * 3 + j < |m|
  {
    m[i * 3 + j]
  }

  /** km_ZeroSkewMatrix and km_ZeroRotMatrix: all nine entries 0. */
  const ZeroMat3: Mat3 := [0.0, 0.0, 0.0, 0.0, 0.0, 0.0, 0.0, 0.0, 0.0]

  /**
   * km_ZeroUMatrix as written: the loops run i < 3, j < 4 over an array with
   * four rows of three, so they clear entry[i][j] at flat index i*3 + j, that
   * is the flat indices 0..9. The last two entries of row 3 are never cleared.
   */
  function ZeroUMatrix(u: UMat): (r: UMat)
    ensures forall k :: 0 <= k < 10 ==> r[k] == 0.0
    ensures r[10] == u[10] && r[11] == u[11]
  {
    [0.0, 0.0, 0.0, 0.0, 0.0, 0.0, 0.0, 0.0, 0.0, 0.0] + u[10..]
  }

  /** Clearing the whole U matrix, as the routine's name and comment say. */
  function ZeroUMatrixIntended(u: UMat): (r: UMat)
    ensures forall i, j :: 0 <= i < RowSizeU && 0 <= j < ColSize ==> Entry(r, i, j) == 0.0
  {
    [0.0, 0.0, 0.0, 0.0, 0.0, 0.0, 0.0, 0.0, 0.0, 0.0, 0.0, 0.0]
  }

  /** A U matrix whose entry[3][1] is 1 keeps it through km_ZeroUMatrix. */
  lemma ZeroUMatrixMissesLastRow()
    ensures var u: UMat := [0.0, 0.0, 0.0, 0.0, 0.0, 0.0, 0.0, 0.0, 0.0, 0.0, 1.0, 0.0];
      Entry(ZeroUMatrix(u), 3, 1) == 1.0 && Entry(ZeroUMatrixIntended(u), 3, 1) == 0.0
  {
  }

  /**
   * km_ZeroJacobian: R cleared and U cleared, using the whole-matrix clear
   * of ZeroUMatrixIntended in place of the loop of km_ZeroUMatrix.
   */
  function ZeroJacobian(jac: Jacobian): (r: Jacobian)
    ensures forall i, j :: 0 <= i < RowSize && 0 <= j < ColSize ==> Entry(r.R, i, j) == 0.0
    ensures forall i, j :: 0 <= i < RowSizeU && 0 <= j < ColSize ==> Entry(r.U, i, j) == 0.0
  {
    Jacobian(ZeroMat3, ZeroUMatrixIntended(jac.U))
  }

  // ---------------------------------------------------------------------------
  // Matrices built from a quaternion
  // ---------------------------------------------------------------------------

  /** km_UpdateSkewMatrix: the cross-product matrix of q's vector part. */
  function UpdateSkewMatrix(q: Quat): (m: Mat3)
    ensures forall i :: 0 <= i < 3 ==> Entry(m, i, i) == 0.0
    ensures forall i, j :: 0 <= i < 3 && 0 <= j < 3 ==> Entry(m, i, j) == -Entry(m, j, i)
  {
    [0.0, -1.0 * q.z, q.y,
     q.z, 0.0, -1.0 * q.x,
     -1.0 * q.y, q.x, 0.0]
  }

  /** R·(a, b, c) for the i-th row, summed from column 0 as the C loop does. */
  function EntryRowTimes(m: seq<real>, i: nat, a: real, b: real, c: real): real
    requires i * 3 + 2 < |m|
  {
    0.0 + Entry(m, i, 0) * a + Entry(m, i, 1) * b + Entry(m, i, 2) * c
  }

  /** The skew matrix applied to v is the cross product of q's vector part with v. */
  lemma SkewIsCross(q: Quat, v: Cart)
    ensures var m := UpdateSkewMatrix(q);
      Cart(EntryRowTimes(m, 0, v.x, v.y, v.z), EntryRowTimes(m, 1, v.x, v.y, v.z), EntryRowTimes(m, 2, v.x, v.y, v.z))
      == CartCartCross(Cart(q.x, q.y, q.z), v)
  {
  }

  /** The diagonal form a² + b² - c² - d². */
  function Squares(a: real, b: real, c: real, d: real): real
  {
    a * a + b * b - c * c - d * d
  }

  /** The off-diagonal forms 2(ab - cd) and 2(ab + cd). */
  function TwiceDiff(a: real, b: real, c: real, d: real): real
  {
    2.0 * (a * b - c * d)
  }

  function TwiceSum(a: real, b: real, c: real, d: real): real
  {
    2.0 * (a * b + c * d)
  }

  /**
   * km_UpdateRotMatrix: the entries of the rotation matrix of q, row by row;
   * diagonal s²+x²-y²-z², s²-x²+y²-z², s²-x²-y²+z², off-diagonal 2(xy-sz),
   * 2(xz+sy), 2(yx+sz), 2(yz-sx), 2(zx-sy), 2(zy+sx).
   */
  function UpdateRotMatrix(q: Quat): (m: Mat3)
    ensures Entry(m, 0, 0) == q.s * q.s + q.x * q.x - q.y * q.y - q.z * q.z
         && Entry(m, 1, 1) == q.s * q.s - q.x * q.x + q.y * q.y - q.z * q.z
         && Entry(m, 2, 2) == q.s * q.s - q.x * q.x - q.y * q.y + q.z * q.z
    ensures Entry(m, 0, 1) == 2.0 * (q.x * q.y - q.s * q.z) && Entry(m, 0, 2) == 2.0 * (q.x * q.z + q.s * q.y)
         && Entry(m, 1, 0) == 2.0 * (q.y * q.x + q.s * q.z) && Entry(m, 1, 2) == 2.0 * (q.y * q.z - q.s * q.x)
         && Entry(m, 2, 0) == 2.0 * (q.z * q.x - q.s * q.y) && Entry(m, 2, 1) == 2.0 * (q.z * q.y + q.s * q.x)
    // the antisymmetric part carries 4s times the rotation axis
    ensures Entry(m, 2, 1) - Entry(m, 1, 2) == 4.0 * q.s * q.x
         && Entry(m, 0, 2) - Entry(m, 2, 0) == 4.0 * q.s * q.y
         && Entry(m, 1, 0) - Entry(m, 0, 1) == 4.0 * q.s * q.z
  {
    [Squares(q.s, q.x, q.y, q.z), TwiceDiff(q.x, q.y, q.s, q.z), TwiceSum(q.x, q.z, q.s, q.y),
     TwiceSum(q.y, q.x, q.s, q.z), Squares(q.s, q.y, q.x, q.z), TwiceDiff(q.y, q.z, q.s, q.x),
     TwiceDiff(q.z, q.x, q.s, q.y), TwiceSum(q.z, q.y, q.s, q.x), Squares(q.s, q.z, q.x, q.y)]
  }

  /** The identity quaternion gives the 3x3 identity. */
  lemma RotOfIdentity()
    ensures forall i, j :: 0 <= i < 3 && 0 <= j < 3 ==>
      Entry(UpdateRotMatrix(QuatIdentity), i, j) == (if i == j then 1.0 else 0.0)
  {
    assert UpdateRotMatrix(QuatIdentity) == [1.0, 0.0, 0.0, 0.0, 1.0, 0.0, 0.0, 0.0, 1.0];
  }

  lemma FormsUnderNegation(a: real, b: real, c: real, d: real)
    ensures Squares(-a, -b, -c, -d) == Squares(a, b, c, d)
    ensures TwiceDiff(-a, -b, -c, -d) == TwiceDiff(a, b, c, d)
    ensures TwiceSum(-a, -b, -c, -d) == TwiceSum(a, b, c, d)
  {
  }

  lemma FormsUnderConjugation(a: real, b: real, s: real, c: real)
    ensures Squares(s, -1.0 * a, -1.0 * b, -1.0 * c) == Squares(s, a, b, c)
    ensures TwiceDiff(-1.0 * a, -1.0 * b, s, -1.0 * c) == TwiceSum(b, a, s, c)
    ensures TwiceSum(-1.0 * a, -1.0 * b, s, -1.0 * c) == TwiceDiff(b, a, s, c)
  {
  }

  /** q and -q describe the same rotation. */
  lemma RotSignInvariant(q: Quat)
    ensures UpdateRotMatrix(QuatNeg(q)) == UpdateRotMatrix(q)
  {
    FormsUnderNegation(q.s, q.x, q.y, q.z);
    FormsUnderNegation(q.s, q.y, q.x, q.z);
    FormsUnderNegation(q.s, q.z, q.x, q.y);
    FormsUnderNegation(q.x, q.y, q.s, q.z);
    FormsUnderNegation(q.x, q.z, q.s, q.y);
    FormsUnderNegation(q.y, q.x, q.s, q.z);
    FormsUnderNegation(q.y, q.z, q.s, q.x);
    FormsUnderNegation(q.z, q.x, q.s, q.y);
    FormsUnderNegation(q.z, q.y, q.s, q.x);
  }

  /** The conjugate quaternion gives the transposed matrix (the inverse rotation). */
  lemma RotOfConjugate(q: Quat)
    ensures forall i, j :: 0 <= i < 3 && 0 <= j < 3 ==>
      Entry(UpdateRotMatrix(QuatConj(q)), i, j) == Entry(UpdateRotMatrix(q), j, i)
  {
    FormsUnderConjugation(q.x, q.y, q.s, q.z);
    FormsUnderConjugation(q.y, q.x, q.s, q.z);
    FormsUnderConjugation(q.z, q.x, q.s, q.y);
    FormsUnderConjugation(q.x, q.z, q.s, q.y);
    FormsUnderConjugation(q.y, q.z, q.s, q.x);
    FormsUnderConjugation(q.z, q.y, q.s, q.x);
    FormsUnderConjugation(q.x, q.y, q.s, q.z);
    FormsUnderConjugation(q.y, q.x, q.s, q.z);
    FormsUnderConjugation(q.z, q.x, q.s, q.y);
  }

  /** km_UpdateUMatrix: rows (-x, -y, -z), (s, -z, y), (z, s, -x), (-y, x, s). */
  function UpdateUMatrix(q: Quat): (m: UMat)
    ensures Entry(m, 0, 0) == -q.x && Entry(m, 0, 1) == -q.y && Entry(m, 0, 2) == -q.z
    ensures Entry(m, 1, 0) == q.s && Entry(m, 1, 1) == -q.z && Entry(m, 1, 2) == q.y
    ensures Entry(m, 2, 0) == q.z && Entry(m, 2, 1) == q.s && Entry(m, 2, 2) == -q.x
    ensures Entry(m, 3, 0) == -q.y && Entry(m, 3, 1) == q.x && Entry(m, 3, 2) == q.s
    // below the first row: s times the identity plus the skew matrix of q
    ensures forall i, j :: 0 <= i < 3 && 0 <= j < 3 ==>
      Entry(m, i + 1, j) == (if i == j then q.s else 0.0) + Entry(UpdateSkewMatrix(q), i, j)
  {
    [-1.0 * q.x, -1.0 * q.y, -1.0 * q.z,
     q.s, -1.0 * q.z, q.y,
     q.z, q.s, -1.0 * q.x,
     -1.0 * q.y, q.x, q.s]
  }

  /** U(q)·w is the Hamilton product of q with the pure quaternion (0, w). */
  lemma UIsQuaternionProduct(q: Quat, w: Cart)
    ensures var m := UpdateUMatrix(q);
      Quat(EntryRowTimes(m, 0, w.x, w.y, w.z), EntryRowTimes(m, 1, w.x, w.y, w.z),
           EntryRowTimes(m, 2, w.x, w.y, w.z), EntryRowTimes(m, 3, w.x, w.y, w.z))
      == Hamilton(q, Quat(0.0, w.x, w.y, w.z))
  {
    UProductRows(q.s, q.x, q.y, q.z, w.x, w.y, w.z);
  }

  lemma UProductRows(s: real, x: real, y: real, z: real, a: real, b: real, c: real)
    ensures 0.0 + (-1.0 * x) * a + (-1.0 * y) * b + (-1.0 * z) * c == s * 0.0 - x * a - y * b - z * c
    ensures 0.0 + s * a + (-1.0 * z) * b + y * c == s * a + x * 0.0 + y * c - z * b
    ensures 0.0 + z * a + s * b + (-1.0 * x) * c == s * b - x * c + y * 0.0 + z * a
    ensures 0.0 + (-1.0 * y) * a + x * b + s * c == s * c + x * b - y * a + z * 0.0
  {
  }

  /**
   * km_UpdateJacobian: both halves rebuilt from q. (The C routine has no
   * return statement; only the matrices it writes are modelled.)
   */
  function UpdateJacobian(q: Quat): (r: Jacobian)
    ensures r.R == UpdateRotMatrix(q) && r.U == UpdateUMatrix(q)
  {
    Jacobian(UpdateRotMatrix(q), UpdateUMatrix(q))
  }

  // ---------------------------------------------------------------------------
  // Products with the velocity
  // ---------------------------------------------------------------------------

  /** km_MultRotMat_StateVec: loc := R·(v0, v1, v2); the orientation is not written. */
  function MultRotMatStateVec(rot: Mat3, v: VelMatrix, out: StateVector): (r: StateVector)
    ensures r.orient == out.orient
    ensures r.loc.x == EntryRowTimes(rot, 0, v[0], v[1], v[2])
    ensures r.loc.y == EntryRowTimes(rot, 1, v[0], v[1], v[2])
    ensures r.loc.z == EntryRowTimes(rot, 2, v[0], v[1], v[2])
  {
    out.(loc := Cart(EntryRowTimes(rot, 0, v[0], v[1], v[2]),
                     EntryRowTimes(rot, 1, v[0], v[1], v[2]),
                     EntryRowTimes(rot, 2, v[0], v[1], v[2])))
  }

  /** One row of ½·U·ω, with the ½ applied to every product as in the C loop. */
  function HalfRowTimes(m: seq<real>, i: nat, a: real, b: real, c: real): real
    requires i * 3 + 2 < |m|
  {
    0.0 + 0.5 * (Entry(m, i, 0) * a) + 0.5 * (Entry(m, i, 1) * b) + 0.5 * (Entry(m, i, 2) * c)
  }

  /** km_MultUMat_StateVec: orient := ½·U·(v3, v4, v5); the location is not written. */
  function MultUMatStateVec(u: UMat, v: VelMatrix, out: StateVector): (r: StateVector)
    ensures r.loc == out.loc
    ensures r.orient.s == HalfRowTimes(u, 0, v[3], v[4], v[5])
    ensures r.orient.x == HalfRowTimes(u, 1, v[3], v[4], v[5])
    ensures r.orient.y == HalfRowTimes(u, 2, v[3], v[4], v[5])
    ensures r.orient.z == HalfRowTimes(u, 3, v[3], v[4], v[5])
  {
    out.(orient := Quat(HalfRowTimes(u, 0, v[3], v[4], v[5]),
                        HalfRowTimes(u, 1, v[3], v[4], v[5]),
                        HalfRowTimes(u, 2, v[3], v[4], v[5]),
                        HalfRowTimes(u, 3, v[3], v[4], v[5])))
  }

  lemma HalfRow(m: seq<real>, i: nat, a: real, b: real, c: real)
    requires i * 3 + 2 < |m|
    ensures HalfRowTimes(m, i, a, b, c) == EntryRowTimes(m, i, a, b, c) * 0.5
  {
  }

  /**
   * With U built from q, the orientation rate is half the Hamilton product of q
   * with (0, ω): the quaternion kinematic equation dq/dt = ½ q ⊗ ω.
   */
  lemma OrientationRate(q: Quat, v: VelMatrix, out: StateVector)
    ensures MultUMatStateVec(UpdateUMatrix(q), v, out).orient
         == QuatScale(Hamilton(q, Quat(0.0, v[3], v[4], v[5])), 0.5)
  {
    var m := UpdateUMatrix(q);
    UIsQuaternionProduct(q, Cart(v[3], v[4], v[5]));
    HalfRow(m, 0, v[3], v[4], v[5]);
    HalfRow(m, 1, v[3], v[4], v[5]);
    HalfRow(m, 2, v[3], v[4], v[5]);
    HalfRow(m, 3, v[3], v[4], v[5]);
  }

  /**
   * km_ComputeStateVector: the location part from R and the linear velocity,
   * the orientation part from U and the angular velocity; the old contents of
   * the output play no part.
   */
  function ComputeStateVector(jac: Jacobian, v: VelMatrix, out: StateVector): (r: StateVector)
    ensures r.loc == MultRotMatStateVec(jac.R, v, out).loc
    ensures r.orient == MultUMatStateVec(jac.U, v, out).orient
  {
    MultUMatStateVec(jac.U, v, MultRotMatStateVec(jac.R, v, out))
  }

  /** The delta's previous contents are overwritten entirely. */
  lemma ComputeIgnoresOldDelta(jac: Jacobian, v: VelMatrix, a: StateVector, b: StateVector)
    ensures ComputeStateVector(jac, v, a) == ComputeStateVector(jac, v, b)
  {
  }

  /** A zero velocity gives a zero delta, whatever the Jacobian. */
  lemma ZeroVelocityZeroDelta(jac: Jacobian, out: StateVector)
    ensures ComputeStateVector(jac, ZeroVel, out) == StateVector(Cart(0.0, 0.0, 0.0), Quat(0.0, 0.0, 0.0, 0.0))
  {
  }

  /** The result of one km_ComputeKinematicModel call: Jacobian, delta and pose. */
  datatype KinStep = KinStep(jac: Jacobian, delta: StateVector, pose: StateVector)

  /**
   * km_ComputeKinematicModel: the delta is computed from the Jacobian as it
   * stood, integrated into the pose over dt, and only then are R and U
   * rebuilt from the new orientation.
   */
  function ComputeKinematicModel(jac: Jacobian, v: VelMatrix, dt: real, delta: StateVector,
                                 out: StateVector, sqrt: real -> real): (r: KinStep)
    ensures r.delta == ComputeStateVector(jac, v, delta)
    ensures r.pose == UpdateStateVector(r.delta, dt, out, sqrt)
    ensures r.jac == UpdateJacobian(r.pose.orient)
  {
    var d := ComputeStateVector(jac, v, delta);
    var pose := UpdateStateVector(d, dt, out, sqrt);
    KinStep(UpdateJacobian(pose.orient), d, pose)
  }

  /** With zero velocity the position does not move. */
  lemma ZeroVelocityKeepsPosition(jac: Jacobian, dt: real, delta: StateVector,
                                  out: StateVector, sqrt: real -> real)
    ensures ComputeKinematicModel(jac, ZeroVel, dt, delta, out, sqrt).pose.loc == out.loc
  {
    ZeroVelocityZeroDelta(jac, delta);
    UpdateKeepsPosition(ComputeStateVector(jac, ZeroVel, delta), dt, out, sqrt);
  }

  /**
   * With zero velocity a normalised pose inside the rollover band is a fixed
   * point, and the Jacobian becomes the one built from that pose.
   */
  lemma ZeroVelocityIsFixedPoint(jac: Jacobian, dt: real, delta: StateVector,
                                 out: StateVector, sqrt: real -> real)
    requires IsSqrt(sqrt)
    requires QuatSumSq(out.orient) == 1.0 && out.orient.s >= 0.0
    requires -1.0 < out.orient.x < 1.0 && -1.0 < out.orient.y < 1.0 && -1.0 < out.orient.z < 1.0
    ensures var r := ComputeKinematicModel(jac, ZeroVel, dt, delta, out, sqrt);
      r.pose == out && r.jac == UpdateJacobian(out.orient)
  {
    var d := ComputeStateVector(jac, ZeroVel, delta);
    ZeroVelocityZeroDelta(jac, delta);
    UpdateKeepsPosition(d, dt, out, sqrt);
    UpdateKeepsOrientation(d, dt, out, sqrt);
  }
}
