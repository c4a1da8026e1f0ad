/*
 * The pose of the robot (a position and an orientation quaternion), its
 * six-component velocity, and the Euler step that integrates one into the
 * other.
 */
module StateVectors {
  import opened Status
  import opened PoseMath

  /** Number of velocity components: three linear, then three angular. */
  const VelArray: nat := 6

  /**
   * APPROACHING_ONE exactly as the literal reads: 35 nines after the point,
   * so strictly below 1. (As a C double the literal rounds to 1.0; see
   * RolloverAsCompiled.)
   */
  const ApproachingOne: real := 0.99999999999999999999999999999999999

  /** A pose: location and orientation. */
  datatype StateVector = StateVector(loc: Cart, orient: Quat)

  /** vel[0..2] are linear velocities, vel[3..5] angular velocities. */
  type VelMatrix = v: seq<real> | |v| == VelArray witness [0.0, 0.0, 0.0, 0.0, 0.0, 0.0]

  /** km_ZeroStateVector: the origin, facing along the identity quaternion. */
  const ZeroState: StateVector := StateVector(Cart(0.0, 0.0, 0.0), QuatIdentity)

  /** km_ZeroVelocityMatrix: six zeros. */
  const ZeroVel: VelMatrix := [0.0, 0.0, 0.0, 0.0, 0.0, 0.0]

  function SetStateVector(x: real, y: real, z: real, qs: real, qx: real, qy: real, qz: real): (r: StateVector)
    ensures r.loc.x == x && r.loc.y == y && r.loc.z == z
    ensures r.orient.s == qs && r.orient.x == qx && r.orient.y == qy && r.orient.z == qz
  {
    StateVector(Cart(x, y, z), Quat(qs, qx, qy, qz))
  }

  function SetVelMatrix(vx: real, vy: real, vz: real, wx: real, wy: real, wz: real): (r: VelMatrix)
    ensures r[0] == vx && r[1] == vy && r[2] == vz
    ensures r[3] == wx && r[4] == wy && r[5] == wz
  {
    [vx, vy, vz, wx, wy, wz]
  }

  /**
   * km_SetStateVector2, km_SetVelMatrix2 and CopyStateVector copy field by
   * field; on values that is the identity. Setting from the fields of a
   * record rebuilds the record.
   */
  lemma SettersCopy(s: StateVector, v: VelMatrix)
    ensures SetStateVector(s.loc.x, s.loc.y, s.loc.z, s.orient.s, s.orient.x, s.orient.y, s.orient.z) == s
    ensures SetVelMatrix(v[0], v[1], v[2], v[3], v[4], v[5]) == v
  {
  }

  // ---------------------------------------------------------------------------
  // Euler step
  // ---------------------------------------------------------------------------

  /** C's conversion of a double to int: truncation toward zero. */
  function CTruncate(x: real): int
  {
    if x >= 0.0 then x.Floor else -((-x).Floor)
  }

  /**
   * The step km_UpdateStateVector integrates over. A negative time step is
   * passed to the integer abs(), so it is first truncated toward zero: the
   * step is never negative, and a step in (-1, 0) becomes 0.
   */
  function EffectiveStep(dt: real): (h: real)
    ensures 0.0 <= h
    ensures dt >= 0.0 ==> h == dt
    ensures dt < 0.0 ==> h <= -dt < h + 1.0 && h == h.Floor as real
  {
    if dt < 0.0 then IntAbs(CTruncate(dt)) as real else dt
  }

  /**
   * The step the comment asks for ("make positive"): the magnitude of dt.
   */
  function EffectiveStepIntended(dt: real): (h: real)
    ensures 0.0 <= h
    ensures dt >= 0.0 ==> h == dt
    ensures dt < 0.0 ==> h == -dt
  {
    if dt < 0.0 then -dt else dt
  }

  /** A time step of -0.5 s integrates over nothing as written, 0.5 s as intended. */
  lemma NegativeStepTruncates()
    ensures EffectiveStep(-0.5) == 0.0 && EffectiveStepIntended(-0.5) == 0.5
    ensures EffectiveStep(-2.75) == 2.0 && EffectiveStepIntended(-2.75) == 2.75
  {
    assert (0.5).Floor == 0;
    assert (2.75).Floor == 2;
  }

  /**
   * The rollover applied to each vector component of the orientation: a
   * value at or above 1 wraps to -APPROACHING_ONE; then a value at or below
   * -1 wraps to +APPROACHING_ONE. The two tests run one after the other.
   */
  function Rollover(c: real): (r: real)
    ensures -1.0 < r < 1.0
    ensures c >= 1.0 ==> r == -ApproachingOne
    ensures c <= -1.0 ==> r == ApproachingOne
    ensures -1.0 < c < 1.0 ==> r == c
  {
    var a := if c >= 1.0 then -ApproachingOne else c;
    if a <= -1.0 then ApproachingOne else a
  }

  /**
   * The same two tests with the constant the compiler actually stores: the
   * 35-nine literal rounds to the double 1.0.
   */
  function RolloverAsCompiled(c: real): (r: real)
    ensures -1.0 <= r <= 1.0
    ensures -1.0 < c < 1.0 ==> r == c
  {
    var one := 1.0;
    var a := if c >= 1.0 then -one else c;
    if a <= -1.0 then one else a
  }

  /**
   * As compiled, every out-of-range component ends at +1.0: a component that
   * rose past 1 is not wrapped to the negative side, because the first test's
   * -1.0 triggers the second test.
   */
  lemma RolloverAsCompiledNeverFlips(c: real)
    ensures c >= 1.0 ==> RolloverAsCompiled(c) == 1.0 && Rollover(c) < 0.0
    ensures c <= -1.0 ==> RolloverAsCompiled(c) == 1.0 && Rollover(c) > 0.0
  {
  }

  /** The orientation after the Euler step and the rollover, before renormalising. */
  function Integrated(delta: Quat, h: real, q: Quat): (p: Quat)
    ensures -1.0 < p.x < 1.0 && -1.0 < p.y < 1.0 && -1.0 < p.z < 1.0
    ensures p.s == q.s + delta.s * h
    ensures p.x == Rollover(q.x + delta.x * h) && p.y == Rollover(q.y + delta.y * h)
         && p.z == Rollover(q.z + delta.z * h)
  {
    Quat(q.s + delta.s * h, Rollover(q.x + delta.x * h),
         Rollover(q.y + delta.y * h), Rollover(q.z + delta.z * h))
  }

  /**
   * km_UpdateStateVector: the position moves by delta·h, the orientation by
   * delta·h with the rollover on x, y, z, and is then renormalised (the
   * status of pmQuatNorm is ignored). The step h is the magnitude of dt, as
   * EffectiveStepIntended has it; EffectiveStep is the integer abs() of the
   * code.
   */
  function UpdateStateVector(delta: StateVector, dt: real, out: StateVector, sqrt: real -> real): (r: StateVector)
    ensures r.loc == CartCartAdd(out.loc, CartScalMult(delta.loc, EffectiveStepIntended(dt)))
    ensures r.orient == QuatNorm(Integrated(delta.orient, EffectiveStepIntended(dt), out.orient), sqrt).out
    ensures IsSqrt(sqrt) ==> r.orient.s >= 0.0 && QuatSumSq(r.orient) == 1.0
  {
    var h := EffectiveStepIntended(dt);
    var q := QuatNorm(Integrated(delta.orient, h, out.orient), sqrt);
    assert IsSqrt(sqrt) ==> q.out.s >= 0.0 && QuatSumSq(q.out) == 1.0;
    StateVector(CartCartAdd(out.loc, CartScalMult(delta.loc, h)), q.out)
  }

  /** A zero positional delta (or a zero step) leaves the position where it was. */
  lemma UpdateKeepsPosition(delta: StateVector, dt: real, out: StateVector, sqrt: real -> real)
    requires delta.loc == Cart(0.0, 0.0, 0.0) || dt == 0.0
    ensures UpdateStateVector(delta, dt, out, sqrt).loc == out.loc
  {
  }

  /**
   * With a zero orientation delta and a unit orientation with s >= 0 inside
   * the rollover band, the orientation is a fixed point of the step.
   */
  lemma UpdateKeepsOrientation(delta: StateVector, dt: real, out: StateVector, sqrt: real -> real)
    requires IsSqrt(sqrt)
    requires delta.orient == Quat(0.0, 0.0, 0.0, 0.0)
    requires QuatSumSq(out.orient) == 1.0 && out.orient.s >= 0.0
    requires -1.0 < out.orient.x < 1.0 && -1.0 < out.orient.y < 1.0 && -1.0 < out.orient.z < 1.0
    ensures UpdateStateVector(delta, dt, out, sqrt).orient == out.orient
  {
    var h := EffectiveStepIntended(dt);
    assert Integrated(delta.orient, h, out.orient) == out.orient;
    QuatNormIdempotentOnUnit(out.orient, sqrt);
  }

  /** A unit quaternion with a non-negative scalar part is its own normalisation. */
  lemma QuatNormIdempotentOnUnit(q: Quat, sqrt: real -> real)
    requires IsSqrt(sqrt) && QuatSumSq(q) == 1.0 && q.s >= 0.0
    ensures QuatNorm(q, sqrt) == Ret(PmOk, q)
  {
    SqrtOfOne(sqrt);
    assert !IsZero(1.0);
    var u := QuatNorm(q, sqrt).out;
    assert QuatScale(u, 1.0) == q;
  }

  // ---------------------------------------------------------------------------
  // Blends
  // ---------------------------------------------------------------------------

  /** W·a + (1-W)·b, the per-component blend of the three Weigh routines. */
  function Blend(w: real, a: real, b: real): real
  {
    w * a + (1.0 - w) * b
  }

  lemma BlendEnds(w: real, a: real, b: real)
    ensures w == 1.0 ==> Blend(w, a, b) == a
    ensures w == 0.0 ==> Blend(w, a, b) == b
    ensures a == b ==> Blend(w, a, b) == a
  {
    assert w * a + (1.0 - w) * a == a;
  }

  /** WeighStateVectors2: out = W·in + (1-W)·in2, component by component. */
  function WeighStateVectors2(a: StateVector, b: StateVector, w: real): (r: StateVector)
    ensures r.loc.x == w * a.loc.x + (1.0 - w) * b.loc.x
         && r.loc.y == w * a.loc.y + (1.0 - w) * b.loc.y
         && r.loc.z == w * a.loc.z + (1.0 - w) * b.loc.z
    ensures r.orient.s == w * a.orient.s + (1.0 - w) * b.orient.s
         && r.orient.x == w * a.orient.x + (1.0 - w) * b.orient.x
         && r.orient.y == w * a.orient.y + (1.0 - w) * b.orient.y
         && r.orient.z == w * a.orient.z + (1.0 - w) * b.orient.z
    ensures w == 1.0 ==> r == a
    ensures w == 0.0 ==> r == b
    ensures a == b ==> r == a
  {
    BlendEnds(w, a.loc.x, b.loc.x);
    BlendEnds(w, a.loc.y, b.loc.y);
    BlendEnds(w, a.loc.z, b.loc.z);
    BlendEnds(w, a.orient.s, b.orient.s);
    BlendEnds(w, a.orient.x, b.orient.x);
    BlendEnds(w, a.orient.y, b.orient.y);
    BlendEnds(w, a.orient.z, b.orient.z);
    StateVector(
      Cart(Blend(w, a.loc.x, b.loc.x), Blend(w, a.loc.y, b.loc.y), Blend(w, a.loc.z, b.loc.z)),
      Quat(Blend(w, a.orient.s, b.orient.s), Blend(w, a.orient.x, b.orient.x),
           Blend(w, a.orient.y, b.orient.y), Blend(w, a.orient.z, b.orient.z)))
  }

  /** WeighStateVectors: the same blend with the output's own old value as the second operand. */
  function WeighStateVectors(a: StateVector, w: real, out: StateVector): (r: StateVector)
    ensures r == WeighStateVectors2(a, out, w)
    ensures w == 1.0 ==> r == a
    ensures w == 0.0 ==> r == out
  {
    StateVector(
      Cart(Blend(w, a.loc.x, out.loc.x), Blend(w, a.loc.y, out.loc.y), Blend(w, a.loc.z, out.loc.z)),
      Quat(Blend(w, a.orient.s, out.orient.s), Blend(w, a.orient.x, out.orient.x),
           Blend(w, a.orient.y, out.orient.y), Blend(w, a.orient.z, out.orient.z)))
  }

  /** WeighVelocityMatrices: the blend on each of the six components. */
  function WeighVelocityMatrices(a: VelMatrix, b: VelMatrix, w: real): (r: VelMatrix)
    ensures forall i :: 0 <= i < VelArray ==> r[i] == w * a[i] + (1.0 - w) * b[i]
    ensures w == 1.0 ==> r == a
    ensures w == 0.0 ==> r == b
  {
    var r := seq(VelArray, i requires 0 <= i < VelArray => Blend(w, a[i], b[i]));
    assert w == 1.0 ==> r == a by {
      if w == 1.0 {
        forall i | 0 <= i < VelArray ensures r[i] == a[i] { BlendEnds(w, a[i], b[i]); }
      }
    }
    assert w == 0.0 ==> r == b by {
      if w == 0.0 {
        forall i | 0 <= i < VelArray ensures r[i] == b[i] { BlendEnds(w, a[i], b[i]); }
      }
    }
    r
  }

  /** IntegrateAcceleration: v := v + a·dt (uniform acceleration). */
  function IntegrateAcceleration(acc: real, dt: real, v: real): (r: real)
    ensures r == v + acc * dt
    ensures dt == 0.0 || acc == 0.0 ==> r == v
  {
    v + acc * dt
  }

  /** Two consecutive integrations equal one over the summed interval. */
  lemma IntegrationAdds(acc: real, d1: real, d2: real, v: real)
    ensures IntegrateAcceleration(acc, d2, IntegrateAcceleration(acc, d1, v))
         == IntegrateAcceleration(acc, d1 + d2, v)
  {
    assert acc * d1 + acc * d2 == acc * (d1 + d2);
  }
}
