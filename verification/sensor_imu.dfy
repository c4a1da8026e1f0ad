/*
 * The inertial measurement unit: an ImuIDL packet fills sixteen channels
 * (quaternion, magnetic field, acceleration, angular rate, angles); the unit
 * contributes the orientation and, by integrating acceleration, the velocity.
 */
module ImuSensor {
  import opened Status
  import opened Transducers
  import opened PoseMath
  import opened StateVectors
  import opened Sensors

  /** The channel count of the `imu` sensor. */
  const ImuTransducers: nat := 16

  /** sizeof(ImuIDL): a time pair, 16 doubles of readings and a 3x3 orientation matrix. */
  const ImuIDLSize: nat := 216

  type Vec3 = v: seq<real> | |v| == 3 witness [0.0, 0.0, 0.0]
  type Vec4 = v: seq<real> | |v| == 4 witness [0.0, 0.0, 0.0, 0.0]

  /** The ImuIDL fields the decoder reads; the time and orientation matrix are never read. */
  datatype ImuIDL = ImuIDL(quaternion: Vec4, magfield: Vec3, accel: Vec3, angrate: Vec3, angle: Vec3)

  /** The sixteen values the decoder writes, in channel order. */
  function ImuValues(data: ImuIDL): (v: seq<real>)
    ensures |v| == ImuTransducers
  {
    data.quaternion + data.magfield + data.accel + data.angrate + data.angle
  }

  /** Which payload field lands in which channel. */
  lemma ImuValuesLayout(data: ImuIDL)
    ensures forall k :: 0 <= k < 4 ==> ImuValues(data)[k] == data.quaternion[k]
    ensures forall k :: 0 <= k < 3 ==> ImuValues(data)[4 + k] == data.magfield[k]
    ensures forall k :: 0 <= k < 3 ==> ImuValues(data)[7 + k] == data.accel[k]
    ensures forall k :: 0 <= k < 3 ==> ImuValues(data)[10 + k] == data.angrate[k]
    ensures forall k :: 0 <= k < 3 ==> ImuValues(data)[13 + k] == data.angle[k]
  {
  }

  /**
   * ImuUpdateSensor, with the clock reading of its UpdateSensorTime2 call
   * passed in. A packet of the wrong size is refused with -1 and the sensor
   * is left as it was. Otherwise the sensor is re-stamped, channels 0..15
   * receive quaternion, magnetic field, acceleration, angular rate and
   * angles in that order, and every counted population grows by one.
   */
  function ImuUpdateSensor(sizeData: nat, data: ImuIDL, s: Sensor, clock: Timeval): (r: Ret<Sensor>)
    ensures sizeData != ImuIDLSize <==> r.code == -1
    ensures sizeData != ImuIDLSize ==> r.out == s
    ensures r.out.transducers == s.transducers && r.out.filter == s.filter && r.out.updated == s.updated
    ensures sizeData == ImuIDLSize ==>
      && r.out.tSec == clock.sec && r.out.tUsec == clock.usec && r.out.ptSec == s.tSec
      && |r.out.channels| == |s.channels|
      && (forall k :: 0 <= k < 4 && k < |s.channels| ==> r.out.channels[k].value == data.quaternion[k])
      && (forall k :: 0 <= k < 3 && 4 + k < |s.channels| ==> r.out.channels[4 + k].value == data.magfield[k])
      && (forall k :: 0 <= k < 3 && 7 + k < |s.channels| ==> r.out.channels[7 + k].value == data.accel[k])
      && (forall k :: 0 <= k < 3 && 10 + k < |s.channels| ==> r.out.channels[10 + k].value == data.angrate[k])
      && (forall k :: 0 <= k < 3 && 13 + k < |s.channels| ==> r.out.channels[13 + k].value == data.angle[k])
      && (forall i :: 16 <= i < |s.channels| ==> r.out.channels[i].value == s.channels[i].value)
      && (forall i :: 0 <= i < |s.channels| && i < s.transducers ==>
            r.out.channels[i].population == s.channels[i].population + 1.0)
  {
    if sizeData == ImuIDLSize then
      ImuValuesLayout(data);
      Ret(0, Deliver(UpdateSensorTime2(s, clock), ImuValues(data)))
    else
      Ret(-1, s)
  }

  /**
   * ImuGenerateStateVector: the filter runs, then the pose is the origin
   * with the raw quaternion channels 0..3 as orientation.
   */
  function ImuGenerateStateVector(s: Sensor, solve: Solver): (g: Generated)
    requires Valid(s) && 4 <= |s.channels|
    ensures g.sensor == ComputeSensorFilter(s, solve)
    ensures g.sv.loc == Cart(0.0, 0.0, 0.0)
    ensures g.sv.orient == Quat(s.channels[0].value, s.channels[1].value, s.channels[2].value, s.channels[3].value)
  {
    var filtered := ComputeSensorFilter(s, solve);
    var cs := filtered.channels;
    Generated(filtered, SetStateVector(0.0, 0.0, 0.0, cs[0].value, cs[1].value, cs[2].value, cs[3].value))
  }

  /**
   * ImuGenerateVelMatrix on the previous matrix `out`: the linear components
   * integrate acceleration over the sensor's delta time (x from the raw
   * channel 7, y and z from filtered 8 and 9); the angular components are
   * replaced by filtered 10..12.
   */
  function ImuGenerateVelMatrix(s: Sensor, out: VelMatrix): (v: VelMatrix)
    requires Valid(s) && 13 <= |s.channels|
    ensures v[0] == out[0] + s.channels[7].value * s.deltaTime
    ensures v[1] == out[1] + Filtered(s)[8] * s.deltaTime
    ensures v[2] == out[2] + Filtered(s)[9] * s.deltaTime
    ensures v[3] == Filtered(s)[10] && v[4] == Filtered(s)[11] && v[5] == Filtered(s)[12]
  {
    var f := Filtered(s);
    var dt := s.deltaTime;
    SetVelMatrix(IntegrateAcceleration(s.channels[7].value, dt, out[0]),
                 IntegrateAcceleration(f[8], dt, out[1]),
                 IntegrateAcceleration(f[9], dt, out[2]),
                 f[10], f[11], f[12])
  }

  /** Without elapsed time the linear velocity stays; the angular part never depends on the old matrix. */
  lemma ImuVelocityAtZeroStep(s: Sensor, out: VelMatrix, other: VelMatrix)
    requires Valid(s) && 13 <= |s.channels| && s.deltaTime == 0.0
    ensures var v := ImuGenerateVelMatrix(s, out);
      v[0] == out[0] && v[1] == out[1] && v[2] == out[2]
    ensures ImuGenerateVelMatrix(s, out)[3..] == ImuGenerateVelMatrix(s, other)[3..]
  {
  }

  /** Two generator calls over two steps integrate the sum of the two increments. */
  lemma ImuVelocityAccumulates(s1: Sensor, s2: Sensor, out: VelMatrix)
    requires Valid(s1) && 13 <= |s1.channels| && Valid(s2) && 13 <= |s2.channels|
    ensures ImuGenerateVelMatrix(s2, ImuGenerateVelMatrix(s1, out))[0]
         == out[0] + s1.channels[7].value * s1.deltaTime + s2.channels[7].value * s2.deltaTime
  {
  }
}
