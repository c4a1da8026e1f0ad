# Localizer core in Dafny

A model of the core of the Localizer robot-localisation library (C). The
library fuses three sensors: a GPS receiver, an inertial measurement unit and
wheel odometry. Each sensor keeps a bank of "transducer" channels (value,
previous value, prediction, innovation, population) fed by a size-checked
payload decoder. Each sensor runs a small Kalman filter over its channel
values. It then contributes a state vector (position + orientation
quaternion) and a velocity matrix (three linear and three angular rates). The
localiser takes position from GPS, orientation from the IMU and velocity from
the IMU only. It keeps the previous fused pose in a one-slot history. It pushes
the fused velocity through a quaternion Jacobian (rotation matrix R and U
matrix) and integrates the result into the pose with an Euler step,
a per-component rollover clamp and a renormalisation.

Every C `double` is a Dafny `real` and rounding is not modelled. The one
literal whose double value changes the logic, APPROACHING_ONE, is modelled
twice: the rollover clamp the rest of the model uses (`StateVectors.Rollover`)
takes it as the real just below 1 that the header writes, and
`StateVectors.RolloverAsCompiled` takes it as the 1.0 the compiler stores
(see Findings). Records passed by pointer become immutable datatypes and each
routine becomes a pure function returning the new record. A status code is
returned next to the record as `Status.Ret(code, out)`. Flat C arrays are
`seq<real>`. The two imperative matrix helpers of `matrix.c` are methods with
loop invariants.

Code outside the library becomes a parameter:
- the square root (`sqrt`, specified by `PoseMath.IsSqrt`);
- the LAPACK solver (`solve`, a `KFilter.Solver` pairing what it leaves in
  the right-hand side, the inverse, specified by `KFilter.Inverts` where it
  matters, with what it leaves in the matrix, the LU factors);
- the LLtoUTM / UTMtoLL geodesy;
- `gettimeofday`, as the `Timeval` readings it would return.

Modules, one per source file:
- `Status`: return codes and records shared by all modules.
- `Matrix`: `matrix.c` and the flat-matrix algebra the filter uses.
- `PoseMath`: the algebraic subset of `_posemath.c`.
- `Transducers`: `transducer.c`.
- `StateVectors`: `state_vector.c`.
- `KinModel`: `kin_model.c`.
- `KFilter`: `filter.c`.
- `Sensors`: `sensor.c`.
- `GpsSensor`, `ImuSensor`, `OdomSensor`: the three device files.
- `Localization`: `localize.c`.

## Model

| member | source | states |
|---|---|---|
| `Matrix.SetIdentityMatrix` | src/lib/matrix.c:27-54 | every cell out[i + n*j] is 1 exactly when i == j and 0 otherwise; the result is the n x n identity |
| `Matrix.SetIdentityRow` | src/lib/matrix.c:38-49 | one pass of the outer loop makes row i the identity's row and leaves every other row as it was |
| `Matrix.CopyMatrix` | src/lib/matrix.c:56-77 | every one of the n*n cells of the output equals the input's cell |
| `Matrix.CopyRow` | src/lib/matrix.c:68-72 | one pass of the outer loop copies row i and leaves every other row alone |
| `Matrix.MultiplyMatrixVector` | src/lib/matrix.c:81-109 | out[i] is the dot product of the column-major row m[i + n*k] with v; the repeated middle loop does not change that value |
| `Matrix.RowTimesVector` | src/lib/matrix.c:95-100 | the innermost accumulation equals the dot product of row i with v |
| `Matrix.MulVecIdentity` | src/lib/matrix.c:27-109 | the identity built by SetIdentityMatrix, multiplied with a vector through the column-major product, gives the vector back |
| `Matrix.AliasingBreaksProduct` | src/lib/matrix.c:89-103 | with the swap matrix and v = (1, 2) the in-place product yields (2, 2) while the true product is (2, 1), so callers must not alias the buffers |
| `PoseMath.CartCartCompare` | src/lib/_posemath.c:1022-1032 | 1 exactly when all three components differ by less than V_FUZZ, else 0 |
| `PoseMath.CartCompareReflexiveSymmetric` | src/lib/_posemath.c:1022-1032 | every vector compares equal to itself and the comparison is symmetric |
| `PoseMath.DotFacts` | src/lib/_posemath.c:1034-1039 | the dot product is symmetric and a vector's self-dot is its non-negative squared length |
| `PoseMath.CartCartCross` | src/lib/_posemath.c:1041-1048 | the cross product is orthogonal to both operands |
| `PoseMath.CartMag` | src/lib/_posemath.c:1050-1055 | with a true square root the magnitude is non-negative and its square is the self-dot |
| `PoseMath.CrossAntiCommutes` | src/lib/_posemath.c:1041-1048 | swapping the operands of the cross product negates it |
| `PoseMath.CartCartDisp` | src/lib/_posemath.c:1057-1062 | the displacement is the magnitude of v2 - v1 |
| `PoseMath.CartCartAdd` | src/lib/_posemath.c:1064-1071 | the sum minus v1 is v2, componentwise; adding the zero vector keeps v1 |
| `PoseMath.AddCommutes` | src/lib/_posemath.c:1064-1071 | vector addition commutes |
| `PoseMath.CartCartSub` | src/lib/_posemath.c:1073-1080 | the difference plus v2 gives back v1 |
| `PoseMath.CartScalMult` | src/lib/_posemath.c:1082-1089 | scaling by 1 keeps the vector and scaling by 0 gives the zero vector |
| `PoseMath.CartScalDiv` | src/lib/_posemath.c:1102-1121 | PM_DIV_ERR with all components DBL_MAX exactly when the divisor is within DOUBLE_FUZZ of 0; otherwise PM_OK and the result times the divisor is the input |
| `PoseMath.ScalDivUndoesScalMult` | src/lib/_posemath.c:1082-1121 | dividing by a non-negligible scalar undoes multiplying by it |
| `PoseMath.CartNeg` | src/lib/_posemath.c:1123-1130 | the vector plus its negation is the zero vector |
| `PoseMath.CartNegInvolution` | src/lib/_posemath.c:1123-1130 | negating twice returns the vector |
| `PoseMath.CartInv` | src/lib/_posemath.c:1132-1154 | PM_NORM_ERR and DBL_MAX exactly for a (near) zero vector; otherwise the result dotted with the input is 1 |
| `PoseMath.CartUnit` | src/lib/_posemath.c:1158-1180 | PM_NORM_ERR and DBL_MAX exactly when the magnitude is within DOUBLE_FUZZ of 0; otherwise the result scaled by the magnitude is the input and has length 1 |
| `PoseMath.UnitLength` | src/lib/_posemath.c:1158-1180 | a vector divided by its magnitude has squared length 1 and scales back to the input |
| `PoseMath.CartIsNorm` | src/lib/_posemath.c:1199-1203 | 1 exactly when the magnitude is below 1 + UNIT_VEC_FUZZ, else 0 |
| `PoseMath.UnitIsNorm` | src/lib/_posemath.c:1158-1203 | whatever pmCartUnit returns passes pmCartIsNorm |
| `PoseMath.CartCartProj` | src/lib/_posemath.c:1205-1216 | the component of v1 along the unit vector of v2, reporting PM_NORM_ERR exactly when that unit vector failed |
| `PoseMath.CartPlaneProj` | src/lib/_posemath.c:1218-1227 | the plane projection plus the projection on the normal gives back the vector, with the same status |
| `PoseMath.PlaneProjOrthogonal` | src/lib/_posemath.c:1218-1227 | the plane projection is orthogonal to the normal |
| `PoseMath.MatInv` | src/lib/_posemath.c:1400-1417 | the result's columns are the input's rows: the transpose |
| `PoseMath.MatInvInvolution` | src/lib/_posemath.c:1400-1417 | inverting twice returns the matrix |
| `PoseMath.MatCartMult` | src/lib/_posemath.c:1419-1426 | the product, computed row by row, is the sum of the columns weighted by the vector's components |
| `PoseMath.MatCartMultColumns` | src/lib/_posemath.c:1419-1426 | the matrix times a vector is the sum of the columns weighted by the components |
| `PoseMath.MatInvCartMult` | src/lib/_posemath.c:1400-1426 | the inverse applied to v dots each column of the matrix with v |
| `PoseMath.MatMatMult` | src/lib/_posemath.c:1428-1444 | the product, built column by column, has as row k row k of m1 times m2 |
| `PoseMath.MatMatMultByRows` | src/lib/_posemath.c:1428-1444 | each row of the product is that row of the left factor times the right factor |
| `PoseMath.MatMatMultComposes` | src/lib/_posemath.c:1419-1444 | applying a product to a vector is applying its factors in turn |
| `PoseMath.MatInvIsInverse` | src/lib/_posemath.c:1400-1444 | for an orthonormal matrix, pmMatInv times the matrix is the identity |
| `PoseMath.QuatQuatAdd` | src/lib/_posemath.c:1448-1475 | PM_ERR and no output exactly for a NULL destination; otherwise the sum, from which subtracting q2 gives q1 |
| `PoseMath.QuatQuatSub` | src/lib/_posemath.c:1448-1475 | the partner of pmQuatQuatAdd (the file has no subtraction routine): adding q2 back to the difference gives q1 |
| `PoseMath.QuatAddCommutes` | src/lib/_posemath.c:1448-1475 | quaternion addition commutes |
| `PoseMath.QuatQuatCompare` | src/lib/_posemath.c:1477-1507 | 1 exactly when the components agree within Q_FUZZ, or q1's scalar is negligible and the vector parts are opposite |
| `PoseMath.QuatCompareFacts` | src/lib/_posemath.c:1477-1507 | a quaternion matches itself, and a pure vector quaternion matches its negation |
| `PoseMath.QuatQuatDotProduct` | src/lib/_posemath.c:1509-1517 | the dot product with the operands swapped is the same sum, and a self-dot is the non-negative squared length |
| `PoseMath.QuatDotFacts` | src/lib/_posemath.c:1509-1517 | the quaternion dot product is symmetric and a self-dot is the squared length |
| `PoseMath.QuatScalMult` | src/lib/_posemath.c:1792-1806 | scaling by 1 keeps the quaternion and scaling by 0 gives the zero quaternion |
| `PoseMath.ScalMultScalesLength` | src/lib/_posemath.c:1792-1806 | scaling by s multiplies the squared length by s*s |
| `PoseMath.QuatNorm` | src/lib/_posemath.c:1714-1749 | PM_NORM_ERR and (1, 0, 0, 0) exactly when the length is within DOUBLE_FUZZ of 0; otherwise the result times the length is q or -q, has a non-negative scalar part and unit length |
| `PoseMath.NormLength` | src/lib/_posemath.c:1714-1749 | dividing by the length gives a unit quaternion that scales back to the input |
| `PoseMath.QuatNormIdempotent` | src/lib/_posemath.c:1714-1749 | normalising a normalised quaternion succeeds and changes nothing |
| `PoseMath.QuatConjugate` | src/lib/_posemath.c:1664-1695 | PM_ERR exactly for a NULL destination; otherwise the scalar is kept and the vector part negated |
| `PoseMath.QuatInv` | src/lib/_posemath.c:1751-1784 | the inverse is the conjugate, without any division by the length |
| `PoseMath.ConjugateInvolution` | src/lib/_posemath.c:1664-1784 | conjugating or inverting twice returns the input |
| `PoseMath.TimesConjugate` | src/lib/_posemath.c:1664-1695 | q times its conjugate is its squared length with a zero vector part |
| `PoseMath.QuatIsNorm` | src/lib/_posemath.c:1786-1790 | 1 exactly when the squared length lies within UNIT_QUAT_FUZZ of 1 |
| `PoseMath.NormIsNorm` | src/lib/_posemath.c:1714-1790 | whatever pmQuatNorm returns passes pmQuatIsNorm |
| `PoseMath.QuatQuatMult` | src/lib/_posemath.c:1854-1889 | PM_ERR exactly for a NULL destination; otherwise the Hamilton product when its scalar part is 0 or more (a zero scalar keeps the product unnegated), and its negation otherwise |
| `PoseMath.MultByIdentity` | src/lib/_posemath.c:1854-1889 | multiplying by the identity returns q with its sign made canonical |
| `PoseMath.QuatQuatLerp` | src/lib/_posemath.c:1519-1571 | PM_ERR without writing exactly when the destination is NULL or h lies outside [0, 1]; otherwise the normalised blend (1-h)q1 + h q2 |
| `PoseMath.LerpNormalize` | src/lib/_posemath.c:1552-1561 | a non-zero blend comes out with unit length; a blend already of unit length comes out unchanged |
| `PoseMath.LerpEndPoints` | src/lib/_posemath.c:1519-1571 | at h = 0 and h = 1 Lerp returns its unit end points |
| `PoseMath.QuatQuatSlerp` | src/lib/_posemath.c:1573-1625 | the same refusal conditions as Lerp; otherwise the supplied trigonometric body |
| `PoseMath.QuatQuatSquad` | src/lib/_posemath.c:1628-1662 | the same refusal conditions; otherwise a Slerp of two Slerps with factor 2h(1-h) |
| `PoseMath.SquadBlendInRange` | src/lib/_posemath.c:1644-1656 | the inner factor 2h(1-h) lies in [0, 1/2], so the inner guard never refuses it |
| `PoseMath.DMSDecimalAngleConvert` | src/lib/_posemath.c:2339-2359 | as written: degrees plus minutes/60, status 0; the seconds never reach the result |
| `PoseMath.DMSDecimalAngleConvertIntended` | src/lib/_posemath.c:2339-2359 | the result times 3600 is degrees times 3600 plus minutes times 60 plus seconds |
| `PoseMath.DMSDropsSeconds` | src/lib/_posemath.c:2346 | 10 degrees 30 minutes 36 seconds converts to 10.5 as written and 10.51 as intended; any non-zero seconds make the two differ |
| `Transducers.Label` | src/lib/transducer.c:68-100 | the type string is the id as a character, a dash, then the name, cut to 35 characters |
| `Transducers.ZeroTransducer` | src/lib/transducer.c:31-47 | label blank, id and every running value 0, certainty and probability kept |
| `Transducers.ZeroTransducerValues` | src/lib/transducer.c:49-64 | the same reset with label and id kept |
| `Transducers.SetTransducer` | src/lib/transducer.c:68-87 | every field takes its argument except the population, which is kept |
| `Transducers.SetTransducerType` | src/lib/transducer.c:90-100 | only the label changes, the id field included |
| `Transducers.GetTransducerValue` | src/lib/transducer.c:102-107 | returns the stored value: writing it back leaves the channel unchanged |
| `Transducers.GetTransducerPredicted` | src/lib/transducer.c:109-114 | returns the stored prediction: writing it back leaves the channel unchanged |
| `Transducers.UpdateTransducerValue` | src/lib/transducer.c:119-133 | previous takes the old value, value takes the reading, population grows by one, and nothing else changes |
| `Transducers.UpdateTransducerValue2` | src/lib/transducer.c:135-146 | value takes the prediction; previous and population and every other field are untouched |
| `Transducers.UpdateTransducerPrevious` | src/lib/transducer.c:148-159 | previous takes the value and nothing else changes |
| `Transducers.UpdateTransducerPredicted` | src/lib/transducer.c:161-177 | with population 0 the prediction becomes the value exactly; otherwise it becomes w1 times the old prediction plus w2 times the value; only the prediction changes |
| `Transducers.UpdateTransducerValueWithPredicted` | src/lib/transducer.c:179-189 | the value becomes w1 times the prediction plus w2 times the old value; only the value changes |
| `Transducers.ComputeTransducerInnovation` | src/lib/transducer.c:202-210 | value equals prediction plus innovation afterwards, and only the innovation changes |
| `Transducers.PredictedFixedPoint` | src/lib/transducer.c:161-177 | with weights summing to 1, a prediction equal to the value is left as it is |
| `Transducers.PredictedIdempotentAfterBootstrap` | src/lib/transducer.c:161-177 | after the bootstrap a second update changes nothing |
| `Transducers.PredictedBetween` | src/lib/transducer.c:161-177 | with convex weights the new prediction lies between the old prediction and the value |
| `Transducers.GetAfterUpdate` | src/lib/transducer.c:102-177 | the getters read back what the updates wrote |
| `Transducers.CoastingHasNoInnovation` | src/lib/transducer.c:135-210 | coasting onto the prediction leaves a zero innovation |
| `Transducers.InnovationOfReading` | src/lib/transducer.c:119-210 | a reading followed by an innovation step gives the reading minus the prediction |
| `Transducers.ZeroKeepsQuality` | src/lib/transducer.c:31-64 | the two resets absorb each other and keep the certainty |
| `StateVectors.SetStateVector` | src/lib/state_vector.c:73-88 | each of the seven components takes its argument |
| `StateVectors.SetVelMatrix` | src/lib/state_vector.c:109-121 | each of the six components takes its argument |
| `StateVectors.SettersCopy` | src/lib/state_vector.c:89-157 | setting a record from its own fields rebuilds it, for both state vectors and velocity matrices |
| `StateVectors.EffectiveStep` | src/lib/state_vector.c:171-175 | as written: never negative; a non-negative step is kept; a negative one becomes a whole number within 1 below its magnitude |
| `StateVectors.EffectiveStepIntended` | src/lib/state_vector.c:171-175 | the magnitude of the time step |
| `StateVectors.NegativeStepTruncates` | src/lib/state_vector.c:174 | -0.5 s integrates over 0 s as written and 0.5 s as intended |
| `StateVectors.Rollover` | src/lib/state_vector.c:184-223 | the component ends strictly inside (-1, 1); a component at or above 1 wraps to -APPROACHING_ONE and one at or below -1 to +APPROACHING_ONE; others are kept |
| `StateVectors.RolloverAsCompiled` | src/lib/state_vector.c:184-223 | with APPROACHING_ONE stored as 1.0, the component stays within [-1, 1] and in-range components are kept |
| `StateVectors.RolloverAsCompiledNeverFlips` | src/lib/state_vector.h:24 | as compiled every out-of-range component ends at +1.0, where the intended clamp flips its sign |
| `StateVectors.Integrated` | src/lib/state_vector.c:182-223 | after the Euler step the scalar moves by delta times the step and each vector component is the rollover clamp of its own Euler step, so it lies inside (-1, 1) |
| `StateVectors.UpdateStateVector` | src/lib/state_vector.c:164-230 | the position moves by the positional delta times the step; the orientation is the normalisation of the clamped step, with s >= 0 and unit length |
| `StateVectors.UpdateKeepsPosition` | src/lib/state_vector.c:177-180 | a zero positional delta or a zero step keeps the position |
| `StateVectors.UpdateKeepsOrientation` | src/lib/state_vector.c:182-226 | a zero orientation delta keeps a unit orientation with s >= 0 inside the clamp band |
| `StateVectors.BlendEnds` | src/lib/state_vector.c:242-298 | weight 1 returns the first operand, weight 0 the second, and equal operands are kept |
| `StateVectors.WeighStateVectors2` | src/lib/state_vector.c:263-281 | each of the seven components is W times in's plus (1 - W) times in2's; weight 1 gives in, weight 0 gives in2, and equal inputs are kept |
| `StateVectors.WeighStateVectors` | src/lib/state_vector.c:242-261 | the same componentwise blend as WeighStateVectors2, with the output's own old value as second operand |
| `StateVectors.WeighVelocityMatrices` | src/lib/state_vector.c:283-298 | each of the six components is W times in's plus (1 - W) times in2's; weight 1 gives in, weight 0 gives in2 |
| `StateVectors.IntegrateAcceleration` | src/lib/state_vector.c:301-317 | the velocity grows by acceleration times the step, so a zero step or a zero acceleration keeps it |
| `StateVectors.IntegrationAdds` | src/lib/state_vector.c:301-317 | two integrations equal one over the summed interval |
| `KinModel.ZeroUMatrix` | src/lib/kin_model.c:96-111 | as written: flat entries 0..9 are cleared and the last two entries keep their old values |
| `KinModel.ZeroUMatrixIntended` | src/lib/kin_model.c:96-111 | every entry of the 4 x 3 matrix is 0 |
| `KinModel.ZeroUMatrixMissesLastRow` | src/lib/kin_model.c:101-107 | a U matrix with entry[3][1] = 1 keeps it through the as-written clear |
| `KinModel.ZeroJacobian` | src/lib/kin_model.c:113-126 | every entry of R and of U is 0 |
| `KinModel.UpdateSkewMatrix` | src/lib/kin_model.c:137-158 | the diagonal is 0 and entry[i][j] = -entry[j][i] |
| `KinModel.SkewIsCross` | src/lib/kin_model.c:137-158 | the skew matrix applied to v is the cross product of q's vector part with v |
| `KinModel.UpdateRotMatrix` | src/lib/kin_model.c:160-179 | the nine entries of the rotation matrix of q; its antisymmetric part is 4s times the vector part (x, y, z) |
| `KinModel.RotOfIdentity` | src/lib/kin_model.c:160-179 | the quaternion (1, 0, 0, 0) gives the 3 x 3 identity |
| `KinModel.RotSignInvariant` | src/lib/kin_model.c:160-179 | q and -q give the same rotation matrix |
| `KinModel.RotOfConjugate` | src/lib/kin_model.c:160-179 | the conjugate quaternion gives the transposed matrix |
| `KinModel.UpdateUMatrix` | src/lib/kin_model.c:181-206 | rows (-x, -y, -z), (s, -z, y), (z, s, -x), (-y, x, s); below the first row, s times the identity plus the skew matrix of q |
| `KinModel.UIsQuaternionProduct` | src/lib/kin_model.c:181-206 | U(q) times w is the Hamilton product of q with the pure quaternion (0, w) |
| `KinModel.UpdateJacobian` | src/lib/kin_model.c:208-216 | both halves of the Jacobian are rebuilt from the same quaternion |
| `KinModel.MultRotMatStateVec` | src/lib/kin_model.c:224-264 | the location is R times the linear velocity and the orientation is untouched |
| `KinModel.MultUMatStateVec` | src/lib/kin_model.c:266-317 | the orientation is half of U times the angular velocity and the location is untouched |
| `KinModel.OrientationRate` | src/lib/kin_model.c:266-317 | with U built from q the orientation rate is half the Hamilton product of q with (0, w) |
| `KinModel.ComputeStateVector` | src/lib/kin_model.c:319-328 | the location comes from R and the linear velocity, the orientation from U and the angular velocity |
| `KinModel.ComputeIgnoresOldDelta` | src/lib/kin_model.c:319-328 | the old contents of the delta play no part |
| `KinModel.ZeroVelocityZeroDelta` | src/lib/kin_model.c:319-328 | a zero velocity gives an all-zero delta whatever the Jacobian |
| `KinModel.ComputeKinematicModel` | src/lib/kin_model.c:333-354 | the delta comes from the Jacobian as it stood, is integrated into the pose, and only then is the Jacobian rebuilt from the new orientation |
| `KinModel.ZeroVelocityKeepsPosition` | src/lib/kin_model.c:342-345 | with zero velocity the position does not move |
| `KinModel.ZeroVelocityIsFixedPoint` | src/lib/kin_model.c:333-354 | with zero velocity a unit pose inside the clamp band is kept and the Jacobian becomes the one built from it |
| `KFilter.ZeroKFilter` | src/lib/filter.c:664-834 | A, B, C, G, K, P, Q, R and I become the identity, the work vectors and matrices 0, the pivots 1; x_hat, y and QG are kept |
| `KFilter.ZeroKFilterIdempotent` | src/lib/filter.c:664-834 | resetting twice is resetting once |
| `KFilter.InitKFilter2` | src/lib/filter.c:362-658 | -1 and no filter exactly when the size is not positive; otherwise a valid filter of that size whose estimate and measurement are the caller's buffers, with P and K the identity |
| `KFilter.InitKFilter` | src/lib/filter.c:49-355 | the same guard; on success the filter InitKFilter2 gives for zeroed own buffers |
| `KFilter.SetKFilterMatrix` | src/lib/filter.c:863-1113 | -1 and no change unless the byte count is n*n doubles; otherwise array[i*n + j] is stored at [i + n*j] and no other matrix changes |
| `KFilter.BytesMatch` | src/lib/filter.c:863-893 | a byte count matches n doubles exactly when the element count is n |
| `KFilter.StoredTransposed` | src/lib/filter.c:874-884 | the stored matrix read column-major is the argument read row-major |
| `KFilter.SetBackIsIdentity` | src/lib/filter.c:863-1113 | storing a matrix's own contents back in argument order changes nothing |
| `KFilter.SetKFilterMeasured` | src/lib/filter.c:841-861 | -1 and no change exactly when the byte count is not n doubles; otherwise y becomes the array and nothing else changes |
| `KFilter.ComputeKFilterKMatrix` | src/lib/filter.c:1143-1288 | the solver is handed R + C P C^T; CPC_R ends holding the factors the solver leaves in it; if the solver inverts R + C P C^T, CPC is its inverse; K = P C^T CPC; only K and the scratch matrices change |
| `KFilter.ComputeKFilterAPrioriEstimate` | src/lib/filter.c:1486-1630 | as written: the old estimate is saved and the new one is A K (y - x_hat) + A x_hat + B u |
| `KFilter.APrioriIgnoresC` | src/lib/filter.c:1527-1533 | as written the output matrix C has no effect on the a-priori estimate |
| `KFilter.ComputeKFilterPMatrix` | src/lib/filter.c:1302-1473 | with I the identity, P becomes G Q G^T + A (P - K C P) A^T; only P and the scratch matrices change |
| `KFilter.ComputeKFilterAPosterioriEstimate` | src/lib/filter.c:1642-1711 | as written: y_hat_ = C x_hat - y and x_hat moves by K y_hat_ |
| `KFilter.PosterioriFixedPoint` | src/lib/filter.c:1642-1711 | an estimate that reproduces the measurement is kept |
| `KFilter.ComputeKFilter` | src/lib/filter.c:1717-1736 | the four steps run gain, a-priori, covariance, a-posteriori; y, I, A, C and R are kept and K is the gain step's |
| `KFilter.ScalarInverse` | src/lib/filter.c:1229-1236 | for a 1 x 1 matrix the solver's inverse is the reciprocal |
| `KFilter.ScalarGain` | src/lib/filter.c:1143-1288 | for n = 1 the gain is P C / (C P C + R) |
| `KFilter.ScalarAPriori` | src/lib/filter.c:1486-1630 | for n = 1 the a-priori estimate is a k (y - x) + a x + b u |
| `KFilter.ScalarCovariance` | src/lib/filter.c:1302-1473 | for n = 1 the covariance becomes g q g + a (p - k c p) a |
| `KFilter.ScalarAPosteriori` | src/lib/filter.c:1642-1711 | for n = 1 the a-posteriori estimate is x + k (c x - y) |
| `KFilter.ResetIsScalarReset` | src/lib/filter.c:664-834 | after a reset of a size-1 filter every parameter is 1 |
| `KFilter.ScalarDefaultsStep` | src/lib/filter.c:1717-1736 | one call on a reset size-1 filter with x_hat = 0, u = 0: K = 1/2, P goes from 1 to 3/2 and x_hat = y/4 |
| `KFilter.ComputeKFilterAPrioriEstimateIntended` | src/lib/filter.c:1527-1533 | x_hat_ takes the old estimate and x_hat becomes A K (y - C x_hat_) + A x_hat_ + B u, the innovation the comment names; only x_hat, x_hat_ and the work vectors change |
| `KFilter.APrioriIntendedWithoutInnovation` | src/lib/filter.c:1527-1533 | a measurement the estimate already explains adds no correction |
| `KFilter.APrioriIgnoresOutputMatrix` | src/lib/filter.c:1527-1533 | with C = [2], x_hat = 1, y = 2 the measurement is explained, yet the as-written step gives 2 where the intended one gives 1 |
| `KFilter.ComputeKFilterAPosterioriEstimateIntended` | src/lib/filter.c:1680-1700 | the a-posteriori step as the comment states it: y_hat_ is the residual y - C x_hat, y_hat is K times it and x_hat grows by y_hat; only x_hat and the work vectors change |
| `KFilter.ScalarAPosterioriIntended` | src/lib/filter.c:1680-1700 | for n = 1 the corrected step is x + k (y - c x) |
| `KFilter.PosterioriIntendedMovesTowardMeasurement` | src/lib/filter.c:1680-1700 | with C = 1 and a gain in [0, 1] the corrected estimate lies between the old estimate and the measurement |
| `KFilter.PosterioriMovesAwayFromMeasurement` | src/lib/filter.c:1670-1674 | with gain 1/2, x_hat = 0 and y = 1 the as-written step gives -1/2, the intended one 1/2 |
| `KFilter.ComputeKFilterIntended` | src/lib/filter.c:1717-1736 | the four steps with both estimate steps corrected; same gain, same kept fields |
| `KFilter.ScalarDefaultsStepIntended` | src/lib/filter.c:1717-1736 | the corrected filter on the reset size-1 filter: K = 1/2, P = 3/2 and x_hat = 3y/4 |
| `Sensors.MapUpTo` | src/lib/sensor.c:303-319 | the loop over the first `transducers` channels: those are transformed, the rest kept, the length unchanged |
| `Sensors.WriteValues` | src/lib/sensor_gps.c:143-154 | the listed values go into the leading channels and every other channel is kept |
| `Sensors.Deliver` | src/lib/sensor_gps.c:143-166 | the decoder's accepting branch: values written, every counted channel's population one higher, nothing else touched |
| `Sensors.Measurements` | src/lib/sensor.c:80-85 | the measurement vector holds each channel's value in channel order |
| `Sensors.ElapsedIsMicroseconds` | src/lib/sensor.c:321-337 | the split seconds/microseconds gap equals the gap of whole microsecond counts |
| `Sensors.ElapsedAdds` | src/lib/sensor.c:321-337 | gaps add up along a chain of stamps |
| `Sensors.UpdateSensorTime` | src/lib/sensor.c:321-337 | the current stamp becomes the previous one, the new stamp is stored and the delta is the gap in microseconds times MICROSECOND_CONVERSION; nothing else changes |
| `Sensors.UpdateSensorTime2` | src/lib/sensor.c:343-364 | the same update from a clock reading |
| `Sensors.SuccessiveDeltasAdd` | src/lib/sensor.c:321-364 | two successive deltas add up to the time since the stamp before them |
| `Sensors.ZeroSensor` | src/lib/sensor.c:121-176 | every channel zeroed, filtered all 0, the filter reset; afterwards the previous stamp is the first reading and the delta the gap between the two readings |
| `Sensors.ZeroSensorForgetsTime` | src/lib/sensor.c:165-173 | whatever stamps the sensor held, zeroing with the same readings ends in the same sensor |
| `Sensors.ZeroSensorIdempotent` | src/lib/sensor.c:121-176 | zeroing twice with the same readings is zeroing once |
| `Sensors.ZeroMeasurement` | src/lib/sensor.c:179-200 | -1 exactly without channels; otherwise every counted channel value becomes 0 and nothing else changes |
| `Sensors.InitSensor` | src/lib/sensor.c:32-116 | -1 exactly when the settled count is not positive; otherwise a valid sensor whose channels are all zeroed, filtered all 0, updated 0 and the filter reset; with the argument -1 the arrays are sized by the settled count, the intended behaviour, where the code sizes them by -1 (see Findings) |
| `Sensors.ReinitKeepsCount` | src/lib/sensor.c:48-52 | an argument of -1 re-initialises with the count the sensor already declares |
| `Sensors.MallocBytes` | src/lib/sensor.c:57 | the byte count malloc receives is count times element size reduced into the 64-bit size_t, so a negative count becomes a request near 2^64 |
| `Sensors.ReinitAllocatesNothing` | src/lib/sensor.c:55-116 | with -1 and a declared count of 4 the code passes its test but sizes every array by -1: the pointer array is requested with 2^64 - 8 bytes |
| `Sensors.SetSensorTransducer` | src/lib/sensor.c:204-212 | only value, prediction and variance of channel `snumber` change |
| `Sensors.UpdateSensorTransducerValue` | src/lib/sensor.c:218-228 | previous and value both become the reading and only that channel's population grows |
| `Sensors.UpdateSensorTransducerPredicted` | src/lib/sensor.c:295-301 | the 0.5/0.5 prediction update on one channel, nothing else changes |
| `Sensors.UpdateSensorPredicted` | src/lib/sensor.c:303-319 | the prediction update on every counted channel; only predictions change |
| `Sensors.PredictedAtRest` | src/lib/sensor.c:303-319 | with every prediction equal to its value the update changes nothing |
| `Sensors.Settle` | src/lib/sensor.c:250-259 | the innovation is value minus prediction; the prediction becomes the value when the population is 0 and 0.5 prediction + 0.5 value otherwise |
| `Sensors.BeginUpdate` | src/lib/sensor.c:241-246 | the flag is set and previous takes value on every counted channel |
| `Sensors.UpdateSensorData` | src/lib/sensor.c:230-293 | with a payload: updated 1, previous copied, decoder run, decoder status ignored, and every decoded channel settled (innovation value - prediction; prediction the value at population 0, else 0.5 prediction + 0.5 value); without: updated 0, value := 0.9 prediction + 0.1 value, then settled the same way on the coasted value, restamped, populations unchanged |
| `Sensors.RejectedPayloadStillSettles` | src/lib/sensor.c:248 | a decoder that refuses the payload does not stop the flag or the settle steps |
| `Sensors.CoastAtRestIsSteady` | src/lib/sensor.c:262-290 | a channel at rest coasts without moving and with zero innovation |
| `Sensors.ComputeSensorFilter` | src/lib/sensor.c:110 | the sensor's filter runs on the gathered channel values, everything else is kept |
| `Sensors.AliasedMeasurements` | src/lib/sensor.c:110 | as wired: the filter's i-th measurement is the i-th double of channel 0's record |
| `Sensors.AliasExactForOneChannel` | src/lib/sensor.c:110 | with one channel the alias and the gather agree |
| `Sensors.AliasMissesSecondChannel` | src/lib/sensor.c:110 | with two channels reading 1 and 2 the aliased filter sees 0 as its second measurement |
| `GpsSensor.GPSUpdateSensor` | src/lib/sensor_gps.c:116-177 | -1 and no change exactly on a wrong size; otherwise restamped, channels 0..5 get latitude, longitude, altitude, the converted easting and northing, hdop, the zone is stored, every counted population grows by one |
| `GpsSensor.ReceiverUtmIgnored` | src/lib/sensor_gps.c:151-153 | the receiver's own UTM fields have no effect |
| `GpsSensor.LastChannelCountedNotWritten` | src/lib/sensor_gps.c:162-166 | channel 6 keeps its value yet its population grows |
| `GpsSensor.GPSGenerateStateVector` | src/lib/sensor_gps.c:59-92 | the filter runs; the position is the raw easting, northing and altitude channels, the orientation all zeros |
| `GpsSensor.GpsPoseIgnoresFilter` | src/lib/sensor_gps.c:71-73 | the GPS pose is the same whatever the solver |
| `GpsSensor.GPSGenerateVelMatrix` | src/lib/sensor_gps.c:95-111 | all six components are 0 whatever the input |
| `ImuSensor.ImuValuesLayout` | src/lib/sensor_imu.c:164-179 | quaternion to 0..3, magnetic field to 4..6, acceleration to 7..9, angular rate to 10..12, angles to 13..15 |
| `ImuSensor.ImuUpdateSensor` | src/lib/sensor_imu.c:144-196 | -1 and no change exactly on a wrong size; otherwise restamped, the sixteen channels filled by that layout, every counted population one higher |
| `ImuSensor.ImuGenerateStateVector` | src/lib/sensor_imu.c:69-102 | the filter runs; the position is 0 and the orientation the raw channels 0..3 |
| `ImuSensor.ImuGenerateVelMatrix` | src/lib/sensor_imu.c:105-141 | v0 grows by raw channel 7 times dt, v1 and v2 by filtered 8 and 9 times dt; v3..5 are filtered 10..12 |
| `ImuSensor.ImuVelocityAtZeroStep` | src/lib/sensor_imu.c:119-138 | with dt = 0 the linear part is kept, and the angular part never depends on the old matrix |
| `ImuSensor.ImuVelocityAccumulates` | src/lib/sensor_imu.c:119 | two steps integrate the sum of the two increments |
| `OdomSensor.KmhToMs` | src/lib/sensor_odom.c:131-132 | the metres-per-second value times 3.6 is the km/h reading |
| `OdomSensor.KmhToMsInverse` | src/lib/sensor_odom.h:41-42 | the conversion times 3.6 gives back the km/h value; 36 km/h is 10 m/s |
| `OdomSensor.OdomUpdateSensor` | src/lib/sensor_odom.c:110-153 | -1 and no change exactly on a wrong size; otherwise distances copied to 0 and 1, speeds in m/s to 2 and 3, restamped, populations one higher |
| `OdomSensor.OdomGenerateStateVector` | src/lib/sensor_odom.c:56-79 | the filter runs; all seven components are 0, so the pose is not the zero state |
| `OdomSensor.OdomGenerateVelMatrix` | src/lib/sensor_odom.c:82-107 | v0 is filtered channel 3 and the rest are 0 |
| `Localization.UpdateLocalizeTime2` | src/lib/localize.c:203-224 | the localiser's stamps shift and the delta is the gap; nothing else changes |
| `Localization.InitLocalize` | src/lib/localize.c:47-105 | fused, delta and previous states are the zero pose, fused velocity 0, the Jacobian built from the identity orientation, the sensors valid when their counts are declared |
| `Localization.InitRotationIsIdentity` | src/lib/localize.c:76-85 | after initialisation the rotation part of the Jacobian is the identity |
| `Localization.ZeroLocalize` | src/lib/localize.c:110-127 | fused pose, delta and velocity reset, the Jacobian current, nothing else changes |
| `Localization.SetCurrentLocalize` | src/lib/localize.c:137-148 | the fused pose is replaced, the Jacobian rebuilt from it, nothing else changes |
| `Localization.GetCurrentLocalize` | src/lib/localize.c:152-157 | returns the fused pose; setting it back changes nothing once the Jacobian is current |
| `Localization.SetGetRoundTrip` | src/lib/localize.c:137-157 | get after set returns what was set; set of what get returned changes nothing once the Jacobian is current |
| `Localization.ZeroIsSetZero` | src/lib/localize.c:110-148 | zeroing is setting the zero pose plus resetting delta and velocity |
| `Localization.UpdateLocalizeData` | src/lib/localize.c:162-190 | the packet reaches exactly the sensor with that id; an unknown id changes nothing |
| `Localization.UpdateTouchesOneSensor` | src/lib/localize.c:162-190 | only the addressed sensor changes and the localiser stays valid |
| `Localization.UpdateKeepsSensorValid` | src/lib/sensor.c:230-293 | a decoder that keeps the channel count and filter keeps the sensor valid |
| `Localization.WrongSizeGpsPacketStillSettles` | src/lib/localize.c:170-175 | a wrong-size GPS packet is refused yet the sensor is flagged updated and settled |
| `Localization.ComputeSensorStateVector` | src/lib/localize.c:237-271 | the addressed sensor's generator runs and its state vector lands in that sensor's slot; other ids change nothing |
| `Localization.ComputeSensorVelMatrix` | src/lib/localize.c:274-306 | the addressed sensor's velocity generator runs on its own matrix and the result lands in that sensor's slot |
| `Localization.FuseSensorStateVector` | src/lib/localize.c:321-370 | the old fused pose moves into the history; fused position is the GPS sensor's, fused orientation the IMU's |
| `Localization.FusedPoseIgnoresOdometry` | src/lib/localize.c:321-370 | the odometry sensor and the per-sensor slots have no say in the fused pose |
| `Localization.FuseHistoryHoldsOneSlot` | src/lib/localize.c:338-350 | fusing twice keeps the pose and the history holds only the latest fused pose |
| `Localization.FuseSensorVelMatrix` | src/lib/localize.c:372-397 | all six fused velocity components are the IMU's |
| `Localization.FusedVelocityIgnoresOthers` | src/lib/localize.c:372-397 | the GPS and odometry velocities have no say |
| `Localization.ComputeStates` | src/lib/localize.c:407-417 | each sensor's filter runs; the history takes the old fused pose and the fused pose is GPS position with IMU orientation |
| `Localization.ComputeVelocities` | src/lib/localize.c:426-435 | the fused velocity is the IMU generator's result on the IMU matrix |
| `Localization.ComputeLocalize` | src/lib/localize.c:398-451 | history is the old pose; velocity is the IMU's from its freshly filtered channels; delta from the old Jacobian; pose integrated from the selected pose; Jacobian current; localiser restamped |
| `Localization.CycleIgnoresOdometry` | src/lib/localize.c:398-451 | swapping the odometry sensor changes neither fused pose nor fused velocity |
| `Localization.StillImuKeepsGpsPosition` | src/lib/localize.c:398-451 | with an IMU at rest and a still velocity matrix a cycle leaves the position at the GPS position |
| `Localization.OutputLatLonElev` | src/lib/localize.c:468-479 | the elevation is the fused z and latitude/longitude come from UTMtoLL(23, y, x, GPS zone) |
| `Localization.OutputInvertsGpsConversion` | src/lib/localize.c:468-479 | if UTMtoLL inverts LLtoUTM, a fused position taken from a GPS fix reads back as that fix's latitude and longitude |

## Left out

- Wall-clock reads: every `gettimeofday` call is a `Timeval` parameter (`clock`); InitLocalize takes the sequence of its readings.
- LLtoUTM and UTMtoLL (LatLong-UTMconversion.h) are not part of this model; they are function parameters.
- The LAPACK solver `clapack_dgesv` is a parameter `solve`; both of its outputs are fitted to n*n entries, the LU factors are not specified further, and its status and pivot table are not modelled, because the code ignores them.
- The BLAS `cblas_dgemm` calls are modelled as exact row-major products; `MultiplyMatrixVector` and the setters keep the column-major layout the code uses.
- Floating-point rounding. The APPROACHING_ONE literal rounds to 1.0; only `StateVectors.RolloverAsCompiled` models that, and the rest of the model uses the value below 1 (see Findings).
- `sqrt` is a parameter; facts that need it to be a square root carry the premise `IsSqrt(sqrt)`.
- Transcendental and geometric parts of `_posemath.c`: rotation-representation conversions, spherical and cylindrical conversions, pmLine and pmCircle, the Slerp body (a parameter `body`), pm3DSpherical2DSphericalConvert, `sincos.c`, and PM_DEBUG-only checks.
- `PoseMath.LerpNormalize`: a blend of length 0 is returned unchanged; the C code divides 0 by 0 there.
- printf debugging, pmPrintError and pmPerror.
- The global `pmErrno` that the `_posemath.c` error paths write: the model returns each status code, and nothing in the core reads the global.
- Create* functions, malloc and the global sensor singletons in gps.h, imu.h and odom.h. Only the channel counts 7, 16 and 4 are used. Freshly allocated contents are taken to be 0. When InitKFilter or InitKFilter2 refuses a size of 0 or less, the model returns no filter and drops the num_elements the code stores before its guard (filter.c:55 and 372).
- Return codes of km_UpdateJacobian and UpdateLocalizeData: these routines have no return statement, so only the state they write is modelled.
- ComputeUpdatedStateVector, UpdateLocalize and OutputLocalizeStateVector (localize.c:191-197, 308-318 and 459-465): two stubs and one wrapper of km_UpdateStateVector that the cycle does not call.
- The IDL sizes 312, 216 and 32 assume an LP64 target. IDL fields that no decoder reads (times, errors, status strings, the IMU orientation matrix) are not modelled.
- `Sensors.MapUpTo`: a channel count beyond the channel array would index out of bounds in C; the model applies the update only to channels that exist.
- `Sensors.WriteValues`: a value the decoder would write past the end of a shorter channel array is dropped.
- `Sensors.ComputeSensorFilter`: uses the gathered measurement vector and the corrected estimate steps, not the aliased address of channel 0 and the as-written steps (see Findings).
- `Sensors.AliasedMeasurements`: requires at most eight channels; reads past channel 0's record are not modelled.
- `Sensors.ZeroSensor`: requires a valid sensor, because resetting the filter needs a filter sized like the channels.
- `Localization.UpdateLocalizeData`: requires the payload to be the packet type of the addressed sensor; the C code passes untyped bytes and each decoder assumes its own layout.
- `KFilter.SetKFilterMatrix`: the argument array is taken to hold exactly `size_array` bytes of doubles, so a byte count that is not a multiple of 8 is not modelled.
- `KFilter.SetKFilterMeasured`: the same assumption on `size_array`.
- `StateVectors.UpdateStateVector`: uses the magnitude of a negative time step, not the integer abs() of the code, and the clamp uses APPROACHING_ONE below 1 (`Rollover`), not the 1.0 the compiler stores (`RolloverAsCompiled`) (see Findings).
- `KinModel.ZeroJacobian`: clears the whole U matrix, not only the entries km_ZeroUMatrix reaches (see Findings).
- `Transducers.Label`: the snprintf type string is modelled as characters; the id is converted to a character modulo 256.

## Findings

| source | as written | input that shows it | evidently intended | confidence | as-written member | corrected member |
|---|---|---|---|---|---|---|
| src/lib/_posemath.c:2346 | the seconds are scaled by the int quotient 1/60, which is 0 | 10° 30' 36" gives 10.5 | 10.51, one 3600th of a degree per second | high, not executed | `PoseMath.DMSDecimalAngleConvert` | `PoseMath.DMSDecimalAngleConvertIntended` |
| src/lib/state_vector.h:24 | APPROACHING_ONE has 35 nines and rounds to the double 1.0, so a component wrapped to -1.0 then meets the second test and ends at +1.0 | orientation x = 1.2 ends at +1.0 | x wraps to just above -1 | high, not executed | `StateVectors.RolloverAsCompiled` | `StateVectors.Rollover` |
| src/lib/state_vector.c:174 | a negative step goes through the integer abs(), which truncates it | dt = -0.5 integrates over 0 s | the magnitude 0.5 s | medium, not executed | `StateVectors.EffectiveStep` | `StateVectors.EffectiveStepIntended` |
| src/lib/kin_model.c:101-107 | the loops run 3 x 4 over a 4 x 3 array and miss its last two entries | U with entry[3][1] = 1 keeps it | every entry cleared | high, not executed | `KinModel.ZeroUMatrix` | `KinModel.ZeroUMatrixIntended` |
| src/lib/filter.c:1529-1533 | the a-priori innovation is y - x_hat_; the C x_hat_ just computed is overwritten | C = [2], x_hat = 1, y = 2, K = 1, A = 1 gives 2 | y - C x_hat_, giving 1 | high, not executed | `KFilter.ComputeKFilterAPrioriEstimate` | `KFilter.ComputeKFilterAPrioriEstimateIntended` |
| src/lib/filter.c:1670-1674 | the a-posteriori correction uses C x_hat - y, the negated innovation | K = 1/2, C = 1, x_hat = 0, y = 1 gives -1/2 | K (y - C x_hat), giving 1/2 | high, not executed | `KFilter.ComputeKFilterAPosterioriEstimate` | `KFilter.ComputeKFilterAPosterioriEstimateIntended` |
| src/lib/sensor.c:110 | the filter's y points at channel 0's value, so y[1] is channel 0's next field | channels reading 1 and 2, channel 0's previous 0, give y = (1, 0) | y = (1, 2), each channel's value | high, not executed | `Sensors.AliasedMeasurements` | `Sensors.Measurements` |
| src/lib/sensor.c:55-110 | with num_transducers = -1 the test uses the declared count but every allocation uses -1; the pointer arrays are requested with 2^64 - 8 bytes each, which malloc cannot supply, and the call to InitKFilter2 then reads `*out->measurement` through that failed allocation | InitSensor(-1) on a sensor declaring 4 channels | 4 channels allocated and aimed at by the filter | high, not executed | `Sensors.ReinitAllocatesNothing` | `Sensors.InitSensor` |
