/*
 * Wheel odometry: a WheelDataIDL packet fills four channels (two wheel
 * distances, two wheel speeds converted from km/h to m/s); the sensor
 * contributes a forward velocity and no pose.
 */
module OdomSensor {
  import opened Status
  import opened Transducers
  import opened PoseMath
  import opened StateVectors
  import opened Sensors

  /** The channel count of the `odom` sensor. */
  const OdomTransducers: nat := 4

  /** sizeof(WheelDataIDL): four doubles. */
  const WheelDataIDLSize: nat := 32

  const MetresInKm: real := 1000.0
  const SecondsInHour: real := 3600.0

  datatype WheelDataIDL = WheelDataIDL(leftDistance: real, rightDistance: real, leftSpeed: real, rightSpeed: real)

  /** km/h to m/s, multiplying by METRES_IN_KM and dividing by SECONDS_IN_HOUR. */
  function KmhToMs(kmh: real): (ms: real)
    ensures ms * 3.6 == kmh
  {
    kmh * MetresInKm / SecondsInHour
  }

  /** The conversion is undone by multiplying by 3.6 and is exact at 36 km/h = 10 m/s. */
  lemma KmhToMsInverse(kmh: real)
    ensures KmhToMs(kmh) * 3.6 == kmh
    ensures KmhToMs(36.0) == 10.0
  {
  }

  /** The four values the decoder writes, in channel order. */
  function WheelValues(data: WheelDataIDL): (v: seq<real>)
    ensures |v| == OdomTransducers
  {
    [data.leftDistance, data.rightDistance, KmhToMs(data.leftSpeed), KmhToMs(data.rightSpeed)]
  }

  /**
   * OdomUpdateSensor, with the clock reading of its UpdateSensorTime2 call
   * passed in. A packet of the wrong size is refused with -1 and the sensor
   * is left as it was. Otherwise the distances go into channels 0 and 1
   * unchanged, the speeds into channels 2 and 3 in m/s, the sensor is
   * re-stamped, and every counted population grows by one.
   */
  function OdomUpdateSensor(sizeData: nat, data: WheelDataIDL, s: Sensor, clock: Timeval): (r: Ret<Sensor>)
    ensures sizeData != WheelDataIDLSize <==> r.code == -1
    ensures sizeData != WheelDataIDLSize ==> r.out == s
    ensures r.out.transducers == s.transducers && r.out.filter == s.filter && r.out.updated == s.updated
    ensures sizeData == WheelDataIDLSize ==>
      && r.out.tSec == clock.sec && r.out.tUsec == clock.usec && r.out.ptSec == s.tSec
      && |r.out.channels| == |s.channels|
      && (0 < |s.channels| ==> r.out.channels[0].value == data.leftDistance)
      && (1 < |s.channels| ==> r.out.channels[1].value == data.rightDistance)
      && (2 < |s.channels| ==> r.out.channels[2].value * 3.6 == data.leftSpeed)
      && (3 < |s.channels| ==> r.out.channels[3].value * 3.6 == data.rightSpeed)
      && (forall i :: 4 <= i < |s.channels| ==> r.out.channels[i].value == s.channels[i].value)
      && (forall i :: 0 <= i < |s.channels| && i < s.transducers ==>
            r.out.channels[i].population == s.channels[i].population + 1.0)
  {
    if sizeData == WheelDataIDLSize then
      KmhToMsInverse(data.leftSpeed);
      KmhToMsInverse(data.rightSpeed);
      Ret(0, UpdateSensorTime2(Deliver(s, WheelValues(data)), clock))
    else
      Ret(-1, s)
  }

  /**
   * OdomGenerateStateVector: the filter runs and the pose is all zeros,
   * orientation scalar included, so it is not the zero state vector.
   */
  function OdomGenerateStateVector(s: Sensor, solve: Solver): (g: Generated)
    requires Valid(s)
    ensures g.sensor == ComputeSensorFilter(s, solve)
    ensures g.sv.loc == Cart(0.0, 0.0, 0.0) && g.sv.orient == Quat(0.0, 0.0, 0.0, 0.0)
    ensures g.sv != ZeroState
  {
    Generated(ComputeSensorFilter(s, solve), SetStateVector(0.0, 0.0, 0.0, 0.0, 0.0, 0.0, 0.0))
  }

  /** OdomGenerateVelMatrix: the filtered right-wheel speed forward, everything else zero. */
  function OdomGenerateVelMatrix(s: Sensor, out: VelMatrix): (v: VelMatrix)
    requires Valid(s) && 4 <= |s.channels|
    ensures v[0] == Filtered(s)[3]
    ensures forall k :: 1 <= k < VelArray ==> v[k] == 0.0
  {
    SetVelMatrix(Filtered(s)[3], 0.0, 0.0, 0.0, 0.0, 0.0)
  }
}
