/*
 * The GPS receiver: a GpsIDL packet fills seven channels (latitude,
 * longitude, altitude, UTM easting, UTM northing, hdop, and one that no
 * field writes); the receiver contributes a UTM position and nothing else.
 */
module GpsSensor {
  import opened Status
  import opened Transducers
  import opened PoseMath
  import opened StateVectors
  import opened Sensors

  /** The channel count of the `gps` sensor. */
  const GpsTransducers: nat := 7

  /** sizeof(GpsIDL) on an LP64 target: the only payload size the decoder accepts. */
  const GpsIDLSize: nat := 312

  /** The reference-ellipsoid index handed to LLtoUTM (WGS-84 in its table). */
  const ReferenceEllipsoid: int := 23

  /**
   * The GpsIDL fields the decoder reads, and the receiver's own UTM fix,
   * which it does not read. The remaining fields (times, errors, status
   * strings, speeds) are never read and are not modelled.
   */
  datatype GpsIDL = GpsIDL(latitude: real, longitude: real, altitude: real,
                           utmE: real, utmN: real, hdop: real)

  /** What LLtoUTM writes through its pointers: northing, easting and the zone string. */
  datatype UtmFix = UtmFix(northing: real, easting: real, zone: string)

  /** The six values the decoder writes, in channel order. */
  function GpsValues(data: GpsIDL, fix: UtmFix): (v: seq<real>)
    ensures |v| == 6
  {
    [data.latitude, data.longitude, data.altitude, fix.easting, fix.northing, data.hdop]
  }

  /**
   * GPSUpdateSensor, with the clock reading of its UpdateSensorTime2 call and
   * the LLtoUTM conversion passed in. A packet of the wrong size is refused
   * with -1 and the sensor is left as it was. Otherwise the sensor is
   * re-stamped, channels 0..5 receive latitude, longitude, altitude, the
   * converted easting and northing, and hdop, the zone goes into the
   * sensor's generic string, and every counted population grows by one.
   */
  function GPSUpdateSensor(sizeData: nat, data: GpsIDL, s: Sensor, clock: Timeval,
                           llToUtm: (int, real, real) -> UtmFix): (r: Ret<Sensor>)
    ensures sizeData != GpsIDLSize <==> r.code == -1
    ensures sizeData != GpsIDLSize ==> r.out == s
    ensures r.out.transducers == s.transducers && r.out.filter == s.filter && r.out.updated == s.updated
    ensures sizeData == GpsIDLSize ==>
      var fix := llToUtm(ReferenceEllipsoid, data.latitude, data.longitude);
      && r.out.tSec == clock.sec && r.out.tUsec == clock.usec && r.out.ptSec == s.tSec
      && r.out.genString == fix.zone
      && |r.out.channels| == |s.channels|
      && (0 < |s.channels| ==> r.out.channels[0].value == data.latitude)
      && (1 < |s.channels| ==> r.out.channels[1].value == data.longitude)
      && (2 < |s.channels| ==> r.out.channels[2].value == data.altitude)
      && (3 < |s.channels| ==> r.out.channels[3].value == fix.easting)
      && (4 < |s.channels| ==> r.out.channels[4].value == fix.northing)
      && (5 < |s.channels| ==> r.out.channels[5].value == data.hdop)
      && (forall i :: 6 <= i < |s.channels| ==> r.out.channels[i].value == s.channels[i].value)
      && (forall i :: 0 <= i < |s.channels| && i < s.transducers ==>
            r.out.channels[i].population == s.channels[i].population + 1.0)
  {
    if sizeData == GpsIDLSize then
      var stamped := UpdateSensorTime2(s, clock);
      var fix := llToUtm(ReferenceEllipsoid, data.latitude, data.longitude);
      Ret(0, Deliver(stamped, GpsValues(data, fix)).(genString := fix.zone))
    else
      Ret(-1, s)
  }

  /** The receiver's own UTM fields have no effect: the position comes from the conversion. */
  lemma ReceiverUtmIgnored(sizeData: nat, data: GpsIDL, e: real, n: real, s: Sensor, clock: Timeval,
                           llToUtm: (int, real, real) -> UtmFix)
    ensures GPSUpdateSensor(sizeData, data.(utmE := e, utmN := n), s, clock, llToUtm)
         == GPSUpdateSensor(sizeData, data, s, clock, llToUtm)
  {
  }

  /**
   * On a seven-channel sensor the last channel is never written, yet its
   * population is counted with the others.
   */
  lemma LastChannelCountedNotWritten(data: GpsIDL, s: Sensor, clock: Timeval,
                                     llToUtm: (int, real, real) -> UtmFix)
    requires Valid(s) && |s.channels| == GpsTransducers
    ensures var r := GPSUpdateSensor(GpsIDLSize, data, s, clock, llToUtm).out;
      r.channels[6].value == s.channels[6].value
      && r.channels[6].population == s.channels[6].population + 1.0
  {
  }

  /**
   * GPSGenerateStateVector: the filter runs, then the pose is the raw
   * easting, northing and altitude channels with an all-zero orientation.
   */
  function GPSGenerateStateVector(s: Sensor, solve: Solver): (g: Generated)
    requires Valid(s) && 5 <= |s.channels|
    ensures g.sensor == ComputeSensorFilter(s, solve)
    ensures g.sv.loc == Cart(s.channels[3].value, s.channels[4].value, s.channels[2].value)
    ensures g.sv.orient == Quat(0.0, 0.0, 0.0, 0.0)
  {
    var filtered := ComputeSensorFilter(s, solve);
    var cs := filtered.channels;
    Generated(filtered, SetStateVector(cs[3].value, cs[4].value, cs[2].value, 0.0, 0.0, 0.0, 0.0))
  }

  /** The GPS pose does not depend on the filter: any solver gives the same contribution. */
  lemma GpsPoseIgnoresFilter(s: Sensor, solve1: Solver, solve2: Solver)
    requires Valid(s) && 5 <= |s.channels|
    ensures GPSGenerateStateVector(s, solve1).sv == GPSGenerateStateVector(s, solve2).sv
  {
  }

  /** GPSGenerateVelMatrix: six zeros whatever the sensor or the previous matrix hold. */
  function GPSGenerateVelMatrix(s: Sensor, out: VelMatrix): (v: VelMatrix)
    ensures forall k :: 0 <= k < VelArray ==> v[k] == 0.0
  {
    SetVelMatrix(0.0, 0.0, 0.0, 0.0, 0.0, 0.0)
  }
}
