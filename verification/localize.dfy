/*
 * The localiser: three sensors (GPS, IMU, wheel odometry), their latest
 * contributions, the fused pose and velocity, a one-slot history, and the
 * Jacobian that carries the fused velocity into the pose. Fusion is a hard
 * selection: position from GPS, orientation and velocity from the IMU.
 */
module Localization {
  import opened Status
  import opened PoseMath
  import opened StateVectors
  import opened KinModel
  import opened Sensors
  import GpsSensor
  import ImuSensor
  import OdomSensor

  /** Sensor ids of UpdateLocalizeData and ComputeSensor*. */
  const GpsSensorId: int := 0
  const ImuSensorId: int := 1
  const OdomSensorId: int := 2

  /**
   * The localize record. The sensors are the `gps`, `imu` and `odom`
   * singletons the C struct points at; the `ptr_*` self-pointers are not
   * separate state.
   */
  datatype Localize = Localize(
    gps: Sensor, odom: Sensor, imu: Sensor,
    jacob: Jacobian,
    fusedState: StateVector,
    gpsState: StateVector, imuState: StateVector, odomState: StateVector,
    fusedDeltaState: StateVector,
    previousFusedState: StateVector,
    fusedVel: VelMatrix,
    gpsVel: VelMatrix, imuVel: VelMatrix, odomVel: VelMatrix,
    ptSec: nat, ptUsec: nat, tSec: nat, tUsec: nat,
    deltaTime: real)

  /** A data packet of one of the three device types (the `void *data` of UpdateLocalizeData). */
  datatype Payload =
    | GpsPacket(gps: GpsSensor.GpsIDL)
    | ImuPacket(imu: ImuSensor.ImuIDL)
    | WheelPacket(wheel: OdomSensor.WheelDataIDL)

  /** What UTMtoLL writes through its pointers. */
  datatype LatLon = LatLon(lat: real, lon: real)

  /** OutputLatLonElev's three results. */
  datatype Position = Position(lat: real, lon: real, elev: real)

  /** The three sensors initialised with the singletons' channel counts. */
  predicate Valid(loc: Localize)
  {
    && Sensors.Valid(loc.gps) && |loc.gps.channels| == GpsSensor.GpsTransducers
    && Sensors.Valid(loc.imu) && |loc.imu.channels| == ImuSensor.ImuTransducers
    && Sensors.Valid(loc.odom) && |loc.odom.channels| == OdomSensor.OdomTransducers
  }

  /** The channel counts the singletons declare before InitLocalize. */
  predicate DeclaredCounts(loc: Localize)
  {
    && loc.gps.transducers == GpsSensor.GpsTransducers
    && loc.imu.transducers == ImuSensor.ImuTransducers
    && loc.odom.transducers == OdomSensor.OdomTransducers
  }

  /** The Jacobian is the one built from the fused orientation. */
  predicate JacobianCurrent(loc: Localize)
  {
    loc.jacob == UpdateJacobian(loc.fusedState.orient)
  }

  // ---------------------------------------------------------------------------
  // Time
  // ---------------------------------------------------------------------------

  /** UpdateLocalizeTime2 with the gettimeofday() reading passed in. */
  function UpdateLocalizeTime2(loc: Localize, clock: Timeval): (r: Localize)
    ensures r.ptSec == loc.tSec && r.ptUsec == loc.tUsec
    ensures r.tSec == clock.sec && r.tUsec == clock.usec
    ensures r.deltaTime == (Micros(clock.sec, clock.usec) - Micros(loc.tSec, loc.tUsec)) as real / 1000000.0
    ensures r.(ptSec := loc.ptSec, ptUsec := loc.ptUsec, tSec := loc.tSec, tUsec := loc.tUsec,
               deltaTime := loc.deltaTime) == loc
  {
    ElapsedIsMicroseconds(loc.tSec, loc.tUsec, clock.sec, clock.usec);
    loc.(ptSec := loc.tSec, ptUsec := loc.tUsec, tSec := clock.sec, tUsec := clock.usec,
         deltaTime := Elapsed(loc.tSec, loc.tUsec, clock.sec, clock.usec))
  }

  // ---------------------------------------------------------------------------
  // Initialisation and direct access
  // ---------------------------------------------------------------------------

  /**
   * InitLocalize. `clock(k)` is the reading of the k-th gettimeofday() call
   * it makes: two in each sensor's ZeroSensor (GPS, then IMU, then
   * odometry), then two for the localiser's own stamp. InitSensor's return
   * codes are ignored, as in the source.
   */
  function InitLocalize(loc: Localize, clock: nat -> Timeval): (r: Localize)
    ensures r.fusedState == ZeroState && r.fusedDeltaState == ZeroState && r.previousFusedState == ZeroState
    ensures r.gpsState == ZeroState && r.imuState == ZeroState && r.odomState == ZeroState
    ensures r.fusedVel == ZeroVel && r.gpsVel == ZeroVel && r.imuVel == ZeroVel && r.odomVel == ZeroVel
    ensures JacobianCurrent(r)
    ensures DeclaredCounts(loc) ==> Valid(r)
    ensures r.ptSec == clock(6).sec && r.tSec == clock(7).sec
    ensures r.deltaTime == Elapsed(clock(6).sec, clock(6).usec, clock(7).sec, clock(7).usec)
  {
    var zeroed := loc.(gpsState := ZeroState, imuState := ZeroState, odomState := ZeroState,
                       gpsVel := ZeroVel, imuVel := ZeroVel, odomVel := ZeroVel,
                       fusedState := ZeroState, fusedDeltaState := ZeroState,
                       previousFusedState := ZeroState, fusedVel := ZeroVel);
    var withJacobian := zeroed.(jacob := UpdateJacobian(ZeroState.orient));
    var g := InitSensor(loc.gps.transducers, loc.gps, clock(0), clock(1)).out;
    var i := InitSensor(loc.imu.transducers, loc.imu, clock(2), clock(3)).out;
    var o := InitSensor(loc.odom.transducers, loc.odom, clock(4), clock(5)).out;
    UpdateLocalizeTime2(UpdateLocalizeTime2(withJacobian.(gps := g, imu := i, odom := o), clock(6)), clock(7))
  }

  /** After initialisation the rotation part of the Jacobian is the identity. */
  lemma InitRotationIsIdentity(loc: Localize, clock: nat -> Timeval)
    ensures var rot := InitLocalize(loc, clock).jacob.R;
      forall i, j :: 0 <= i < 3 && 0 <= j < 3 ==> Entry(rot, i, j) == (if i == j then 1.0 else 0.0)
  {
    RotOfIdentity();
  }

  /** ZeroLocalize: fused pose, delta and velocity are reset and the Jacobian rebuilt; nothing else changes. */
  function ZeroLocalize(loc: Localize): (r: Localize)
    ensures r.fusedState == ZeroState && r.fusedDeltaState == ZeroState && r.fusedVel == ZeroVel
    ensures JacobianCurrent(r)
    ensures r.(fusedState := loc.fusedState, fusedDeltaState := loc.fusedDeltaState,
               fusedVel := loc.fusedVel, jacob := loc.jacob) == loc
  {
    var zeroed := loc.(fusedState := ZeroState, fusedDeltaState := ZeroState, fusedVel := ZeroVel);
    zeroed.(jacob := UpdateJacobian(zeroed.fusedState.orient))
  }

  /** SetCurrentLocalize: the fused pose is replaced and the Jacobian rebuilt from it; nothing else changes. */
  function SetCurrentLocalize(sv: StateVector, loc: Localize): (r: Localize)
    ensures r.fusedState == sv && JacobianCurrent(r)
    ensures r.(fusedState := loc.fusedState, jacob := loc.jacob) == loc
  {
    var placed := loc.(fusedState := SetStateVector(sv.loc.x, sv.loc.y, sv.loc.z,
                                                sv.orient.s, sv.orient.x, sv.orient.y, sv.orient.z));
    SettersCopy(sv, ZeroVel);
    placed.(jacob := UpdateJacobian(placed.fusedState.orient))
  }

  /** GetCurrentLocalize: the fused state; setting it back changes nothing once the Jacobian is current. */
  function GetCurrentLocalize(loc: Localize): (r: StateVector)
    ensures JacobianCurrent(loc) ==> SetCurrentLocalize(r, loc) == loc
  {
    loc.fusedState
  }

  /** Get after set returns what was set; set of what get returned is no change once the Jacobian is current. */
  lemma SetGetRoundTrip(sv: StateVector, loc: Localize)
    ensures GetCurrentLocalize(SetCurrentLocalize(sv, loc)) == sv
    ensures JacobianCurrent(loc) ==> SetCurrentLocalize(GetCurrentLocalize(loc), loc) == loc
  {
  }

  /** Zeroing is setting the zero pose, plus resetting the delta and the velocity. */
  lemma ZeroIsSetZero(loc: Localize)
    ensures ZeroLocalize(loc) == SetCurrentLocalize(ZeroState, loc).(fusedDeltaState := ZeroState, fusedVel := ZeroVel)
  {
  }

  // ---------------------------------------------------------------------------
  // Data update
  // ---------------------------------------------------------------------------

  function GpsDecoder(sizeData: nat, data: GpsSensor.GpsIDL, clock: Timeval,
                      llToUtm: (int, real, real) -> GpsSensor.UtmFix): Sensor -> Ret<Sensor>
  {
    s => GpsSensor.GPSUpdateSensor(sizeData, data, s, clock, llToUtm)
  }

  function ImuDecoder(sizeData: nat, data: ImuSensor.ImuIDL, clock: Timeval): Sensor -> Ret<Sensor>
  {
    s => ImuSensor.ImuUpdateSensor(sizeData, data, s, clock)
  }

  function OdomDecoder(sizeData: nat, data: OdomSensor.WheelDataIDL, clock: Timeval): Sensor -> Ret<Sensor>
  {
    s => OdomSensor.OdomUpdateSensor(sizeData, data, s, clock)
  }

  /**
   * UpdateLocalizeData: the packet goes to the sensor whose id is given and
   * to no other; an unknown id changes nothing. The caller passes the packet
   * type of that sensor, as the C decoders assume. `clock` is the reading
   * taken by whichever branch re-stamps the sensor.
   */
  function UpdateLocalizeData(sensor: int, loc: Localize, sizeData: nat, data: Payload, clock: Timeval,
                              llToUtm: (int, real, real) -> GpsSensor.UtmFix): (r: Localize)
    requires sensor == GpsSensorId ==> data.GpsPacket?
    requires sensor == ImuSensorId ==> data.ImuPacket?
    requires sensor == OdomSensorId ==> data.WheelPacket?
    ensures sensor !in {GpsSensorId, ImuSensorId, OdomSensorId} ==> r == loc
    ensures sensor == GpsSensorId ==>
      r == loc.(gps := UpdateSensorData(loc.gps, sizeData, GpsDecoder(sizeData, data.gps, clock, llToUtm), clock))
    ensures sensor == ImuSensorId ==>
      r == loc.(imu := UpdateSensorData(loc.imu, sizeData, ImuDecoder(sizeData, data.imu, clock), clock))
    ensures sensor == OdomSensorId ==>
      r == loc.(odom := UpdateSensorData(loc.odom, sizeData, OdomDecoder(sizeData, data.wheel, clock), clock))
  {
    if sensor == GpsSensorId then
      loc.(gps := UpdateSensorData(loc.gps, sizeData, GpsDecoder(sizeData, data.gps, clock, llToUtm), clock))
    else if sensor == ImuSensorId then
      loc.(imu := UpdateSensorData(loc.imu, sizeData, ImuDecoder(sizeData, data.imu, clock), clock))
    else if sensor == OdomSensorId then
      loc.(odom := UpdateSensorData(loc.odom, sizeData, OdomDecoder(sizeData, data.wheel, clock), clock))
    else
      loc
  }

  /**
   * Only the addressed sensor changes, and the update keeps the localiser
   * valid: the decoders and settle steps keep every channel count.
   */
  lemma UpdateTouchesOneSensor(sensor: int, loc: Localize, sizeData: nat, data: Payload, clock: Timeval,
                               llToUtm: (int, real, real) -> GpsSensor.UtmFix)
    requires sensor == GpsSensorId ==> data.GpsPacket?
    requires sensor == ImuSensorId ==> data.ImuPacket?
    requires sensor == OdomSensorId ==> data.WheelPacket?
    requires Valid(loc)
    ensures var r := UpdateLocalizeData(sensor, loc, sizeData, data, clock, llToUtm);
      && Valid(r)
      && (sensor != GpsSensorId ==> r.gps == loc.gps)
      && (sensor != ImuSensorId ==> r.imu == loc.imu)
      && (sensor != OdomSensorId ==> r.odom == loc.odom)
      && r.(gps := loc.gps, imu := loc.imu, odom := loc.odom) == loc
  {
    if sensor == GpsSensorId {
      UpdateKeepsSensorValid(loc.gps, sizeData, GpsDecoder(sizeData, data.gps, clock, llToUtm), clock);
    } else if sensor == ImuSensorId {
      UpdateKeepsSensorValid(loc.imu, sizeData, ImuDecoder(sizeData, data.imu, clock), clock);
    } else if sensor == OdomSensorId {
      UpdateKeepsSensorValid(loc.odom, sizeData, OdomDecoder(sizeData, data.wheel, clock), clock);
    }
  }

  /** A decoder that keeps the channel count and the filter keeps a sensor update valid. */
  lemma UpdateKeepsSensorValid(s: Sensor, sizeData: nat, decode: Sensor -> Ret<Sensor>, clock: Timeval)
    requires Sensors.Valid(s)
    requires var b := BeginUpdate(s, 1);
      var d := decode(b).out;
      |d.channels| == |b.channels| && d.transducers == b.transducers && d.filter == b.filter
    ensures var r := UpdateSensorData(s, sizeData, decode, clock);
      Sensors.Valid(r) && |r.channels| == |s.channels|
  {
  }

  /**
   * A GPS packet of the wrong size is refused by the decoder, yet the GPS
   * sensor is still flagged as updated and its channels are settled around
   * their old values.
   */
  lemma WrongSizeGpsPacketStillSettles(loc: Localize, sizeData: nat, data: GpsSensor.GpsIDL, clock: Timeval,
                                       llToUtm: (int, real, real) -> GpsSensor.UtmFix)
    requires sizeData > 0 && sizeData != GpsSensor.GpsIDLSize
    ensures var r := UpdateLocalizeData(GpsSensorId, loc, sizeData, GpsPacket(data), clock, llToUtm);
      && r.gps.updated == 1
      && forall i :: 0 <= i < |loc.gps.channels| && i < loc.gps.transducers ==>
           && r.gps.channels[i].value == loc.gps.channels[i].value
           && r.gps.channels[i].innovation == loc.gps.channels[i].value - loc.gps.channels[i].predicted
           && r.gps.channels[i].population == loc.gps.channels[i].population
  {
    RejectedPayloadStillSettles(loc.gps, sizeData, GpsDecoder(sizeData, data, clock, llToUtm), clock);
  }

  // ---------------------------------------------------------------------------
  // Contributions and fusion
  // ---------------------------------------------------------------------------

  /**
   * ComputeSensorStateVector: the addressed sensor's generator writes the
   * sensor's own state vector, which is then copied into the localiser's
   * slot for that sensor. Any other id changes nothing.
   */
  function ComputeSensorStateVector(sensor: int, loc: Localize, solve: Solver): (r: Localize)
    requires Valid(loc)
    ensures Valid(r)
    ensures sensor !in {GpsSensorId, ImuSensorId, OdomSensorId} ==> r == loc
    ensures sensor == GpsSensorId ==>
      var g := GpsSensor.GPSGenerateStateVector(loc.gps, solve);
      r == loc.(gps := g.sensor.(sv := g.sv), gpsState := g.sv)
    ensures sensor == ImuSensorId ==>
      var g := ImuSensor.ImuGenerateStateVector(loc.imu, solve);
      r == loc.(imu := g.sensor.(sv := g.sv), imuState := g.sv)
    ensures sensor == OdomSensorId ==>
      var g := OdomSensor.OdomGenerateStateVector(loc.odom, solve);
      r == loc.(odom := g.sensor.(sv := g.sv), odomState := g.sv)
  {
    if sensor == GpsSensorId then
      var g := GpsSensor.GPSGenerateStateVector(loc.gps, solve);
      loc.(gps := g.sensor.(sv := g.sv), gpsState := g.sv)
    else if sensor == ImuSensorId then
      var g := ImuSensor.ImuGenerateStateVector(loc.imu, solve);
      loc.(imu := g.sensor.(sv := g.sv), imuState := g.sv)
    else if sensor == OdomSensorId then
      var g := OdomSensor.OdomGenerateStateVector(loc.odom, solve);
      loc.(odom := g.sensor.(sv := g.sv), odomState := g.sv)
    else
      loc
  }

  /**
   * ComputeSensorVelMatrix: the addressed sensor's generator updates the
   * sensor's own velocity matrix (the IMU integrates into it), which is then
   * copied into the localiser's slot for that sensor.
   */
  function ComputeSensorVelMatrix(sensor: int, loc: Localize): (r: Localize)
    requires Valid(loc)
    ensures Valid(r)
    ensures sensor !in {GpsSensorId, ImuSensorId, OdomSensorId} ==> r == loc
    ensures sensor == GpsSensorId ==>
      var v := GpsSensor.GPSGenerateVelMatrix(loc.gps, loc.gps.vm);
      r == loc.(gps := loc.gps.(vm := v), gpsVel := v)
    ensures sensor == ImuSensorId ==>
      var v := ImuSensor.ImuGenerateVelMatrix(loc.imu, loc.imu.vm);
      r == loc.(imu := loc.imu.(vm := v), imuVel := v)
    ensures sensor == OdomSensorId ==>
      var v := OdomSensor.OdomGenerateVelMatrix(loc.odom, loc.odom.vm);
      r == loc.(odom := loc.odom.(vm := v), odomVel := v)
  {
    if sensor == GpsSensorId then
      var v := GpsSensor.GPSGenerateVelMatrix(loc.gps, loc.gps.vm);
      loc.(gps := loc.gps.(vm := v), gpsVel := v)
    else if sensor == ImuSensorId then
      var v := ImuSensor.ImuGenerateVelMatrix(loc.imu, loc.imu.vm);
      loc.(imu := loc.imu.(vm := v), imuVel := v)
    else if sensor == OdomSensorId then
      var v := OdomSensor.OdomGenerateVelMatrix(loc.odom, loc.odom.vm);
      loc.(odom := loc.odom.(vm := v), odomVel := v)
    else
      loc
  }

  /**
   * FuseSensorStateVector: the old fused pose moves into the one-slot
   * history, then the fused position is the GPS sensor's and the fused
   * orientation the IMU sensor's.
   */
  function FuseSensorStateVector(loc: Localize): (r: Localize)
    ensures r.previousFusedState == loc.fusedState
    ensures r.fusedState.loc == loc.gps.sv.loc && r.fusedState.orient == loc.imu.sv.orient
    ensures r.(previousFusedState := loc.previousFusedState, fusedState := loc.fusedState) == loc
  {
    var saved := loc.(previousFusedState := loc.fusedState);
    var fromGps := saved.(fusedState := saved.gps.sv);
    fromGps.(fusedState := fromGps.fusedState.(orient := Quat(loc.imu.sv.orient.s, loc.imu.sv.orient.x,
                                                             loc.imu.sv.orient.y, loc.imu.sv.orient.z)))
  }

  /** The odometry sensor and every per-sensor slot have no say in the fused pose. */
  lemma FusedPoseIgnoresOdometry(loc: Localize, odom: Sensor, odomState: StateVector, gpsState: StateVector)
    ensures FuseSensorStateVector(loc.(odom := odom, odomState := odomState, gpsState := gpsState)).fusedState
         == FuseSensorStateVector(loc).fusedState
  {
  }

  /** Fusing twice keeps the pose and leaves only the latest fused pose in the history. */
  lemma FuseHistoryHoldsOneSlot(loc: Localize)
    ensures var once := FuseSensorStateVector(loc);
      var twice := FuseSensorStateVector(once);
      twice.fusedState == once.fusedState && twice.previousFusedState == once.fusedState
  {
  }

  /** FuseSensorVelMatrix: all six fused velocity components are the IMU's. */
  function FuseSensorVelMatrix(loc: Localize): (r: Localize)
    ensures r.fusedVel == loc.imuVel
    ensures r.(fusedVel := loc.fusedVel) == loc
  {
    var v := loc.imuVel;
    loc.(fusedVel := SetVelMatrix(v[0], 1.0 * v[1], 1.0 * v[2], 1.0 * v[3], 1.0 * v[4], 1.0 * v[5]))
  }

  /** The GPS and odometry velocities have no say in the fused velocity. */
  lemma FusedVelocityIgnoresOthers(loc: Localize, gpsVel: VelMatrix, odomVel: VelMatrix)
    ensures FuseSensorVelMatrix(loc.(gpsVel := gpsVel, odomVel := odomVel)).fusedVel
         == FuseSensorVelMatrix(loc).fusedVel
  {
  }

  // ---------------------------------------------------------------------------
  // One localisation cycle
  // ---------------------------------------------------------------------------

  /** The pose the state fusion picks: GPS easting, northing and altitude; the IMU's raw quaternion. */
  function SelectedPose(loc: Localize): StateVector
    requires Valid(loc)
  {
    var g := loc.gps.channels;
    var q := loc.imu.channels;
    StateVector(Cart(g[3].value, g[4].value, g[2].value), Quat(q[0].value, q[1].value, q[2].value, q[3].value))
  }

  /**
   * The first half of ComputeLocalize: the state vectors of GPS, IMU and
   * odometry in that order (each runs its sensor's filter), then state
   * fusion.
   */
  function ComputeStates(loc: Localize, solve: Solver): (r: Localize)
    requires Valid(loc)
    ensures Valid(r)
    ensures r.previousFusedState == loc.fusedState && r.fusedState == SelectedPose(loc)
    ensures r.imu == ComputeSensorFilter(loc.imu, solve).(sv := StateVector(Cart(0.0, 0.0, 0.0), SelectedPose(loc).orient))
    ensures r.jacob == loc.jacob && r.fusedDeltaState == loc.fusedDeltaState
    ensures r.tSec == loc.tSec && r.tUsec == loc.tUsec
  {
    var s1 := ComputeSensorStateVector(GpsSensorId, loc, solve);
    var s2 := ComputeSensorStateVector(ImuSensorId, s1, solve);
    var s3 := ComputeSensorStateVector(OdomSensorId, s2, solve);
    FuseSensorStateVector(s3)
  }

  /**
   * The second half: the velocity matrices of GPS, IMU and odometry in that
   * order, then velocity fusion.
   */
  function ComputeVelocities(loc: Localize): (r: Localize)
    requires Valid(loc)
    ensures Valid(r)
    ensures r.fusedVel == r.imuVel == ImuSensor.ImuGenerateVelMatrix(loc.imu, loc.imu.vm)
    ensures r.fusedState == loc.fusedState && r.previousFusedState == loc.previousFusedState
    ensures r.jacob == loc.jacob && r.fusedDeltaState == loc.fusedDeltaState
    ensures r.tSec == loc.tSec && r.tUsec == loc.tUsec
  {
    var v1 := ComputeSensorVelMatrix(GpsSensorId, loc);
    var v2 := ComputeSensorVelMatrix(ImuSensorId, v1);
    var v3 := ComputeSensorVelMatrix(OdomSensorId, v2);
    FuseSensorVelMatrix(v3)
  }

  /**
   * ComputeLocalize, with the filters' solver, the clock reading of the time
   * update and the normalisation's square root passed in. After one cycle
   * the history holds the pose from before it; the velocity is the IMU's,
   * integrated from its freshly filtered channels; the pose is integrated
   * from the GPS position and the IMU's raw quaternion using the Jacobian
   * of the previous cycle; the Jacobian is rebuilt from the new pose; the
   * stamp is the clock reading.
   */
  function ComputeLocalize(loc: Localize, solve: Solver, clock: Timeval,
                           sqrt: real -> real): (r: Localize)
    requires Valid(loc)
    ensures Valid(r)
    ensures r.previousFusedState == loc.fusedState
    ensures r.fusedVel == ImuSensor.ImuGenerateVelMatrix(ComputeSensorFilter(loc.imu, solve), loc.imu.vm)
    ensures r.fusedDeltaState == ComputeStateVector(loc.jacob, r.fusedVel, loc.fusedDeltaState)
    ensures r.fusedState == UpdateStateVector(r.fusedDeltaState, r.deltaTime, SelectedPose(loc), sqrt)
    ensures JacobianCurrent(r)
    ensures r.tSec == clock.sec && r.tUsec == clock.usec
    ensures r.deltaTime == Elapsed(loc.tSec, loc.tUsec, clock.sec, clock.usec)
  {
    var timed := UpdateLocalizeTime2(ComputeVelocities(ComputeStates(loc, solve)), clock);
    var k := ComputeKinematicModel(timed.jacob, timed.fusedVel, timed.deltaTime,
                                   timed.fusedDeltaState, timed.fusedState, sqrt);
    timed.(jacob := k.jac, fusedDeltaState := k.delta, fusedState := k.pose)
  }

  /**
   * The odometry sensor has no say in the fused pose or velocity: swapping
   * it for any other valid four-channel sensor leaves both unchanged.
   */
  lemma CycleIgnoresOdometry(loc: Localize, odom: Sensor, solve: Solver, clock: Timeval,
                             sqrt: real -> real)
    requires Valid(loc) && Sensors.Valid(odom) && |odom.channels| == OdomSensor.OdomTransducers
    ensures var a := ComputeLocalize(loc, solve, clock, sqrt);
      var b := ComputeLocalize(loc.(odom := odom), solve, clock, sqrt);
      a.fusedState == b.fusedState && a.fusedVel == b.fusedVel
  {
  }

  /**
   * With the IMU at rest (no elapsed sensor time, zero angular rates) and a
   * still velocity matrix, a cycle leaves the fused position at the GPS
   * position.
   */
  lemma StillImuKeepsGpsPosition(loc: Localize, solve: Solver, clock: Timeval, sqrt: real -> real)
    requires Valid(loc)
    requires ImuSensor.ImuGenerateVelMatrix(ComputeSensorFilter(loc.imu, solve), loc.imu.vm) == ZeroVel
    ensures ComputeLocalize(loc, solve, clock, sqrt).fusedState.loc == SelectedPose(loc).loc
  {
    var r := ComputeLocalize(loc, solve, clock, sqrt);
    ZeroVelocityZeroDelta(loc.jacob, loc.fusedDeltaState);
    UpdateKeepsPosition(r.fusedDeltaState, r.deltaTime, SelectedPose(loc), sqrt);
  }
  // ---------------------------------------------------------------------------
  // Output
  // ---------------------------------------------------------------------------

  /**
   * OutputLatLonElev, with UTMtoLL passed in: latitude and longitude from
   * the fused northing (y) and easting (x) in the zone the GPS decoder last
   * stored; the elevation is the fused z as it stands.
   */
  function OutputLatLonElev(loc: Localize, utmToLl: (int, real, real, string) -> LatLon): (r: Position)
    ensures r.elev == loc.fusedState.loc.z
    ensures var ll := utmToLl(GpsSensor.ReferenceEllipsoid, loc.fusedState.loc.y, loc.fusedState.loc.x, loc.gps.genString);
      r.lat == ll.lat && r.lon == ll.lon
  {
    var ll := utmToLl(GpsSensor.ReferenceEllipsoid, loc.fusedState.loc.y, loc.fusedState.loc.x, loc.gps.genString);
    Position(ll.lat, ll.lon, loc.fusedState.loc.z)
  }

  /**
   * If UTMtoLL inverts LLtoUTM, a fused position taken from a GPS fix
   * converted by LLtoUTM reads back as that fix's latitude and longitude.
   */
  lemma OutputInvertsGpsConversion(loc: Localize, lat: real, lon: real, alt: real,
                                   llToUtm: (int, real, real) -> GpsSensor.UtmFix,
                                   utmToLl: (int, real, real, string) -> LatLon)
    requires var fix := llToUtm(GpsSensor.ReferenceEllipsoid, lat, lon);
      utmToLl(GpsSensor.ReferenceEllipsoid, fix.northing, fix.easting, fix.zone) == LatLon(lat, lon)
    ensures var fix := llToUtm(GpsSensor.ReferenceEllipsoid, lat, lon);
      var at := SetCurrentLocalize(StateVector(Cart(fix.easting, fix.northing, alt), QuatIdentity),
                                   loc.(gps := loc.gps.(genString := fix.zone)));
      OutputLatLonElev(at, utmToLl) == Position(lat, lon, alt)
  {
  }
}
