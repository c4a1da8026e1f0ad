/*
 * A sensor: a container of transducer channels with its own clock, its own
 * Kalman filter over the channel values, and the pose and velocity
 * contributions it last generated. The device-specific decoders and
 * generators live in the GPS, IMU and odometry modules.
 */
module Sensors {
  import opened Status
  import opened Transducers
  import opened StateVectors
  import Matrix
  import KFilter

  /** The filter's linear solver, passed in. */
  type Solver = KFilter.Solver

  /** MICROSECOND_CONVERSION: one microsecond in seconds. */
  const MicrosecondConversion: real := 1.0 / 1000000.0

  /**
   * The sensor record. `filtered` in the C struct is the buffer the filter's
   * x_hat points at, so it is `filter.xHat` here. The generator and decoder
   * function pointers are not stored: each device module supplies them.
   */
  datatype Sensor = Sensor(
    ptSec: nat, ptUsec: nat,
    tSec: nat, tUsec: nat,
    deltaTime: real,
    transducers: int,
    updated: int,
    channels: seq<Transducer>,
    filter: KFilter.Filter,
    sv: StateVector,
    vm: VelMatrix,
    genString: string,
    genString2: string)

  /** What a state-vector generator leaves behind: the sensor (its filter run) and the pose it produced. */
  datatype Generated = Generated(sensor: Sensor, sv: StateVector)

  /** An initialised sensor: as many channels as the count says, and a filter of that size. */
  predicate Valid(s: Sensor)
  {
    && 0 < s.transducers == |s.channels|
    && KFilter.Valid(s.filter)
    && s.filter.n == |s.channels|
  }

  function Filtered(s: Sensor): seq<real>
  {
    s.filter.xHat
  }

  /**
   * The C loops `for (i = 0; i < out->transducers; i++)`: `f` on the first
   * `count` channels. A count beyond the array would index out of bounds in C;
   * here the rest of the range is simply absent.
   */
  function MapUpTo(cs: seq<Transducer>, count: int, f: Transducer -> Transducer): (r: seq<Transducer>)
    ensures |r| == |cs|
    ensures forall i :: 0 <= i < |cs| && i < count ==> r[i] == f(cs[i])
    ensures forall i :: 0 <= i < |cs| && count <= i ==> r[i] == cs[i]
  {
    seq(|cs|, i requires 0 <= i < |cs| => if i < count then f(cs[i]) else cs[i])
  }

  function ClearValue(t: Transducer): Transducer
  {
    t.(value := 0.0)
  }

  function IncrementPopulation(t: Transducer): Transducer
  {
    t.(population := t.population + 1.0)
  }

  /**
   * The decoders' assignments `array[i]->value = vals[i]` for the listed
   * values. A value listed past the end of the array is not written.
   */
  function WriteValues(cs: seq<Transducer>, vals: seq<real>): (r: seq<Transducer>)
    ensures |r| == |cs|
    ensures forall i :: 0 <= i < |cs| && i < |vals| ==> r[i] == cs[i].(value := vals[i])
    ensures forall i :: 0 <= i < |cs| && |vals| <= i ==> r[i] == cs[i]
  {
    seq(|cs|, i requires 0 <= i < |cs| => if i < |vals| then cs[i].(value := vals[i]) else cs[i])
  }

  /**
   * The common body of every decoder's accepting branch: the payload's
   * values go into the leading channels, then every counted channel's
   * population grows by one, written or not.
   */
  function Deliver(s: Sensor, vals: seq<real>): (r: Sensor)
    ensures |r.channels| == |s.channels| && r.(channels := s.channels) == s
    ensures forall i :: 0 <= i < |s.channels| ==>
      && r.channels[i].value == (if i < |vals| then vals[i] else s.channels[i].value)
      && r.channels[i].population == (if i < s.transducers then s.channels[i].population + 1.0 else s.channels[i].population)
      && r.channels[i].(value := s.channels[i].value, population := s.channels[i].population) == s.channels[i]
  {
    s.(channels := MapUpTo(WriteValues(s.channels, vals), s.transducers, IncrementPopulation))
  }

  /** The measurement vector: channel values in channel order. */
  function Measurements(cs: seq<Transducer>): (y: seq<real>)
    ensures |y| == |cs|
    ensures forall i :: 0 <= i < |cs| ==> y[i] == cs[i].value
  {
    seq(|cs|, i requires 0 <= i < |cs| => cs[i].value)
  }

  // ---------------------------------------------------------------------------
  // Time
  // ---------------------------------------------------------------------------

  /** Seconds from one (sec, usec) stamp to another, as UpdateSensorTime computes it. */
  function Elapsed(sec0: nat, usec0: nat, sec1: nat, usec1: nat): real
  {
    (sec1 as real - sec0 as real) + MicrosecondConversion * (usec1 as real - usec0 as real)
  }

  /** A stamp counted in whole microseconds. */
  function Micros(sec: nat, usec: nat): int
  {
    sec * 1000000 + usec
  }

  /** The split seconds/microseconds difference is the plain difference of microsecond counts. */
  lemma ElapsedIsMicroseconds(sec0: nat, usec0: nat, sec1: nat, usec1: nat)
    ensures Elapsed(sec0, usec0, sec1, usec1) == (Micros(sec1, usec1) - Micros(sec0, usec0)) as real / 1000000.0
  {
  }

  /** Elapsed times add up along a chain of stamps. */
  lemma ElapsedAdds(s0: nat, u0: nat, s1: nat, u1: nat, s2: nat, u2: nat)
    ensures Elapsed(s0, u0, s1, u1) + Elapsed(s1, u1, s2, u2) == Elapsed(s0, u0, s2, u2)
  {
    ElapsedIsMicroseconds(s0, u0, s1, u1);
    ElapsedIsMicroseconds(s1, u1, s2, u2);
    ElapsedIsMicroseconds(s0, u0, s2, u2);
  }

  /** The current stamp becomes the previous one and the new stamp is stored with the gap between them. */
  function UpdateSensorTime(s: Sensor, sec: nat, usec: nat): (r: Sensor)
    ensures r.ptSec == s.tSec && r.ptUsec == s.tUsec
    ensures r.tSec == sec && r.tUsec == usec
    ensures r.deltaTime == (Micros(sec, usec) - Micros(s.tSec, s.tUsec)) as real / 1000000.0
    ensures r.(ptSec := s.ptSec, ptUsec := s.ptUsec, tSec := s.tSec, tUsec := s.tUsec, deltaTime := s.deltaTime) == s
  {
    ElapsedIsMicroseconds(s.tSec, s.tUsec, sec, usec);
    s.(ptSec := s.tSec, ptUsec := s.tUsec, tSec := sec, tUsec := usec,
       deltaTime := Elapsed(s.tSec, s.tUsec, sec, usec))
  }

  /** UpdateSensorTime2 with the gettimeofday() reading passed in. */
  function UpdateSensorTime2(s: Sensor, clock: Timeval): (r: Sensor)
    ensures r.tSec == clock.sec && r.tUsec == clock.usec
    ensures r.deltaTime == Elapsed(s.tSec, s.tUsec, clock.sec, clock.usec)
    ensures r == UpdateSensorTime(s, clock.sec, clock.usec)
  {
    UpdateSensorTime(s, clock.sec, clock.usec)
  }

  /** Two successive stamps: the two deltas add up to the time since the stamp before them. */
  lemma SuccessiveDeltasAdd(s: Sensor, first: Timeval, second: Timeval)
    ensures var a := UpdateSensorTime2(s, first);
      a.deltaTime + UpdateSensorTime2(a, second).deltaTime
        == Elapsed(s.tSec, s.tUsec, second.sec, second.usec)
  {
    ElapsedAdds(s.tSec, s.tUsec, first.sec, first.usec, second.sec, second.usec);
  }

  // ---------------------------------------------------------------------------
  // Zeroing and initialisation
  // ---------------------------------------------------------------------------

  /**
   * ZeroSensor, with the two clock readings its two UpdateSensorTime2 calls
   * take. Afterwards the previous stamp is the first reading and the delta
   * is the gap between the readings, not the time since 0.
   */
  function ZeroSensor(s: Sensor, first: Timeval, second: Timeval): (r: Sensor)
    requires Valid(s)
    ensures Valid(r) && |r.channels| == |s.channels|
    ensures r.ptSec == first.sec && r.ptUsec == first.usec
    ensures r.tSec == second.sec && r.tUsec == second.usec
    ensures r.deltaTime == Elapsed(first.sec, first.usec, second.sec, second.usec)
    ensures forall i :: 0 <= i < |s.channels| ==> r.channels[i] == ZeroTransducer(s.channels[i])
    ensures Filtered(r) == Matrix.Zeros(|s.channels|)
    ensures r.filter == KFilter.ZeroKFilter(s.filter.(xHat := Matrix.Zeros(s.filter.n)))
    ensures r.(ptSec := s.ptSec, ptUsec := s.ptUsec, tSec := s.tSec, tUsec := s.tUsec,
               deltaTime := s.deltaTime, channels := s.channels, filter := s.filter) == s
  {
    var cleared := s.(ptSec := 0, ptUsec := 0, tSec := 0, tUsec := 0, deltaTime := 0.0,
                      channels := MapUpTo(MapUpTo(s.channels, s.transducers, ZeroTransducer), s.transducers, ClearValue),
                      filter := KFilter.ZeroKFilter(s.filter.(xHat := Matrix.Zeros(s.filter.n))));
    UpdateSensorTime2(UpdateSensorTime2(cleared, first), second)
  }

  /** Whatever stamps the sensor held before, zeroing ends with the same sensor. */
  lemma ZeroSensorForgetsTime(s: Sensor, ps: nat, pu: nat, ts: nat, tu: nat, d: real, first: Timeval, second: Timeval)
    requires Valid(s)
    ensures ZeroSensor(s.(ptSec := ps, ptUsec := pu, tSec := ts, tUsec := tu, deltaTime := d), first, second)
         == ZeroSensor(s, first, second)
  {
  }

  /** Zeroing twice with the same readings is zeroing once. */
  lemma ZeroSensorIdempotent(s: Sensor, first: Timeval, second: Timeval)
    requires Valid(s)
    ensures ZeroSensor(ZeroSensor(s, first, second), first, second) == ZeroSensor(s, first, second)
  {
    var z := ZeroSensor(s, first, second);
    var zz := ZeroSensor(z, first, second);
    forall i | 0 <= i < |s.channels|
      ensures zz.channels[i] == z.channels[i]
    {
      ZeroKeepsQuality(s.channels[i]);
    }
    KFilter.ZeroKFilterIdempotent(s.filter.(xHat := Matrix.Zeros(s.filter.n)));
  }

  /** ZeroMeasurement: -1 without channels, otherwise every channel value becomes 0 and nothing else changes. */
  function ZeroMeasurement(s: Sensor): (r: Ret<Sensor>)
    ensures r.code == -1 <==> s.transducers <= 0
    ensures r.code == -1 ==> r.out == s
    ensures |r.out.channels| == |s.channels| && r.out.(channels := s.channels) == s
    ensures forall i :: 0 <= i < |s.channels| && i < s.transducers ==>
      r.out.channels[i].value == 0.0 && r.out.channels[i].(value := s.channels[i].value) == s.channels[i]
    ensures forall i :: 0 <= i < |s.channels| && s.transducers <= i ==> r.out.channels[i] == s.channels[i]
  {
    if s.transducers > 0 then Ret(0, s.(channels := MapUpTo(s.channels, s.transducers, ClearValue)))
    else Ret(-1, s)
  }

  /**
   * The record a fresh `malloc` of a transducer is taken to hold before
   * ZeroTransducer runs on it. C leaves it indeterminate; ZeroTransducer
   * overwrites every field except certainty and probability.
   */
  const Blank: Transducer := Transducer("", 0, 0.0, 0.0, 0.0, 0.0, 0.0, 0.0, 0.0, 0.0)

  /** The channel count InitSensor settles on: the argument, or the existing count when it is -1. */
  function ChannelCount(num: int, existing: int): int
  {
    if num != -1 then num else existing
  }

  /**
   * InitSensor, with the clock readings of its final ZeroSensor passed in.
   * Every array is sized by the settled channel count.
   */
  function InitSensor(num: int, s: Sensor, first: Timeval, second: Timeval): (r: Ret<Sensor>)
    ensures r.code == -1 <==> ChannelCount(num, s.transducers) <= 0
    ensures r.code == -1 ==>
      r.out == s.(ptSec := 0, ptUsec := 0, tSec := 0, tUsec := 0, deltaTime := 0.0,
                  transducers := ChannelCount(num, s.transducers))
    ensures r.code == 0 ==> Valid(r.out) && r.out.transducers == ChannelCount(num, s.transducers)
    ensures r.code == 0 ==> forall i :: 0 <= i < |r.out.channels| ==> r.out.channels[i] == ZeroTransducer(Blank)
    ensures r.code == 0 ==> Filtered(r.out) == Matrix.Zeros(|r.out.channels|) && r.out.updated == 0
    ensures r.code == 0 ==> KFilter.ZeroKFilter(r.out.filter) == r.out.filter
    ensures r.code == 0 ==> r.out.ptSec == first.sec && r.out.tSec == second.sec
    ensures r.code == 0 ==> r.out.deltaTime == Elapsed(first.sec, first.usec, second.sec, second.usec)
  {
    var count := ChannelCount(num, s.transducers);
    var cleared := s.(ptSec := 0, ptUsec := 0, tSec := 0, tUsec := 0, deltaTime := 0.0, transducers := count);
    if count <= 0 then Ret(-1, cleared)
    else
      var channels := seq(count, _ => ZeroTransducer(Blank));
      var init := KFilter.InitKFilter2(count, Measurements(channels), Matrix.Zeros(count));
      var made := cleared.(channels := channels, updated := 0, filter := init.out.value);
      var r := ZeroSensor(made, first, second);
      KFilter.ZeroKFilterIdempotent(made.filter.(xHat := Matrix.Zeros(count)));
      Ret(0, r)
  }

  /** InitSensor(-1, ...) re-initialises with the count the sensor already declares. */
  lemma ReinitKeepsCount(s: Sensor, first: Timeval, second: Timeval)
    requires s.transducers > 0
    ensures var r := InitSensor(-1, s, first, second);
      r.code == 0 && |r.out.channels| == s.transducers
  {
  }

  /** The count the C code allocates with: always the argument `num_transducers`, even when it is -1. */
  function AllocatedChannels(num: int, existing: int): int
  {
    num
  }

  /** The byte count malloc receives: count times element size, converted to the 64-bit size_t. */
  function MallocBytes(count: int, size: nat): (b: nat)
    ensures b < SizeRange
    ensures 0 <= count * size < SizeRange ==> b == count * size
    ensures -(SizeRange as int) < count * size < 0 ==> b == SizeRange + count * size
  {
    (count * size) % SizeRange
  }

  /** 2^64, the range of size_t on an LP64 target. */
  const SizeRange: nat := 0x1_0000_0000_0000_0000

  /** sizeof(transducer *) on an LP64 target. */
  const PointerSize: nat := 8

  /**
   * With the argument -1 and a declared count of 4, the as-written code passes
   * the success test on the declared count but sizes every array (and the
   * filter) by -1: the pointer array is requested with 2^64 - 8 bytes, which
   * malloc cannot supply, the per-channel loops do not run, and the filter is
   * then initialised through the measurement pointer of that failed array.
   * The intended count is 4.
   */
  lemma ReinitAllocatesNothing()
    ensures ChannelCount(-1, 4) == 4
    ensures AllocatedChannels(-1, 4) == -1
    ensures MallocBytes(AllocatedChannels(-1, 4), PointerSize) == SizeRange - 8
    ensures KFilter.InitKFilter2(AllocatedChannels(-1, 4), [], []).code == -1
    ensures KFilter.InitKFilter2(ChannelCount(-1, 4), Matrix.Zeros(4), Matrix.Zeros(4)).code == 0
  {
  }

  // ---------------------------------------------------------------------------
  // Channel access
  // ---------------------------------------------------------------------------

  /** SetSensorTransducer: value, prediction and variance of one channel; nothing else. */
  function SetSensorTransducer(value: real, predicted: real, variance: real, snumber: int, s: Sensor): (r: Ret<Sensor>)
    requires 0 <= snumber < |s.channels|
    ensures r.code == 0 && |r.out.channels| == |s.channels|
    ensures var t := r.out.channels[snumber];
      t.value == value && t.predicted == predicted && t.variance == variance
      && t.(value := s.channels[snumber].value, predicted := s.channels[snumber].predicted,
            variance := s.channels[snumber].variance) == s.channels[snumber]
    ensures forall i :: 0 <= i < |s.channels| && i != snumber ==> r.out.channels[i] == s.channels[i]
    ensures r.out.(channels := s.channels) == s
  {
    var t := s.channels[snumber].(value := value, predicted := predicted, variance := variance);
    Ret(0, s.(channels := s.channels[snumber := t]))
  }

  /**
   * UpdateSensorTransducerValue writes the value before the transducer update
   * runs, so the update sees it as the old value too: previous and value both
   * end as the reading, and only this channel's population grows.
   */
  function UpdateSensorTransducerValue(v: real, snumber: int, s: Sensor): (r: Ret<Sensor>)
    requires 0 <= snumber < |s.channels|
    ensures r.code == 0 && |r.out.channels| == |s.channels|
    ensures var t := r.out.channels[snumber];
      t.previous == v && t.value == v && t.population == s.channels[snumber].population + 1.0
      && t.(previous := s.channels[snumber].previous, value := s.channels[snumber].value,
            population := s.channels[snumber].population) == s.channels[snumber]
    ensures forall i :: 0 <= i < |s.channels| && i != snumber ==> r.out.channels[i] == s.channels[i]
    ensures r.out.(channels := s.channels) == s
  {
    var written := s.channels[snumber].(value := v);
    Ret(0, s.(channels := s.channels[snumber := UpdateTransducerValue(v, written)]))
  }

  function HalfBlend(t: Transducer): Transducer
  {
    UpdateTransducerPredicted(0.5, 0.5, t)
  }

  /** UpdateSensorTransducerPredicted: the 0.5/0.5 prediction update on one channel. */
  function UpdateSensorTransducerPredicted(snumber: int, s: Sensor): (r: Ret<Sensor>)
    requires 0 <= snumber < |s.channels|
    ensures r.code == 0 && |r.out.channels| == |s.channels|
    ensures var t := s.channels[snumber];
      r.out.channels[snumber].predicted
        == (if t.population == 0.0 then t.value else 0.5 * t.predicted + 0.5 * t.value)
    ensures r.out.channels[snumber].(predicted := s.channels[snumber].predicted) == s.channels[snumber]
    ensures forall i :: 0 <= i < |s.channels| && i != snumber ==> r.out.channels[i] == s.channels[i]
    ensures r.out.(channels := s.channels) == s
  {
    Ret(0, s.(channels := s.channels[snumber := HalfBlend(s.channels[snumber])]))
  }

  /** UpdateSensorPredicted: the prediction update on every counted channel; only predictions change. */
  function UpdateSensorPredicted(s: Sensor): (r: Ret<Sensor>)
    ensures r.code == 0 && |r.out.channels| == |s.channels|
    ensures forall i :: 0 <= i < |s.channels| && i < s.transducers ==>
      r.out.channels[i] == UpdateSensorTransducerPredicted(i, s).out.channels[i]
    ensures forall i :: 0 <= i < |s.channels| ==> r.out.channels[i].(predicted := s.channels[i].predicted) == s.channels[i]
    ensures r.out.(channels := s.channels) == s
  {
    Ret(0, s.(channels := MapUpTo(s.channels, s.transducers, HalfBlend)))
  }

  /** With every counted channel's prediction already equal to its value, the update changes nothing. */
  lemma PredictedAtRest(s: Sensor)
    requires forall i :: 0 <= i < |s.channels| ==> s.channels[i].predicted == s.channels[i].value
    ensures UpdateSensorPredicted(s).out == s
  {
    var r := UpdateSensorPredicted(s).out;
    forall i | 0 <= i < |s.channels|
      ensures r.channels[i] == s.channels[i]
    {
      PredictedFixedPoint(0.5, 0.5, s.channels[i]);
    }
  }

  // ---------------------------------------------------------------------------
  // Data update
  // ---------------------------------------------------------------------------

  /** The steps that close an update on each channel: innovation, then the 0.5/0.5 prediction. */
  function Settle(t: Transducer): (r: Transducer)
    ensures r.innovation == t.value - t.predicted
    ensures r.predicted == (if t.population == 0.0 then t.value else 0.5 * t.predicted + 0.5 * t.value)
    ensures r.(innovation := t.innovation, predicted := t.predicted) == t
  {
    HalfBlend(ComputeTransducerInnovation(t))
  }

  /** Coasting a channel: the value slides toward the prediction (0.9/0.1), then it settles. */
  function Coast(t: Transducer): Transducer
  {
    Settle(UpdateTransducerValueWithPredicted(0.9, 0.1, t))
  }

  /** The common opening of both branches: the flag, then previous := value on every counted channel. */
  function BeginUpdate(s: Sensor, flag: int): (r: Sensor)
    ensures r.updated == flag && |r.channels| == |s.channels|
    ensures forall i :: 0 <= i < |s.channels| && i < s.transducers ==>
      r.channels[i].previous == s.channels[i].value
      && r.channels[i].(previous := s.channels[i].previous) == s.channels[i]
    ensures forall i :: 0 <= i < |s.channels| && s.transducers <= i ==> r.channels[i] == s.channels[i]
    ensures r.(updated := s.updated, channels := s.channels) == s
  {
    s.(updated := flag, channels := MapUpTo(s.channels, s.transducers, UpdateTransducerPrevious))
  }

  /**
   * UpdateSensorData, with the device decoder (`out->UpdateSensor`) and the
   * clock reading passed in. With a payload the decoder runs between the
   * previous-value copy and the settle steps, and its return code is ignored.
   * Without one every counted channel coasts and the sensor is re-stamped;
   * no population changes.
   */
  function UpdateSensorData(s: Sensor, sizeData: nat, decode: Sensor -> Ret<Sensor>, clock: Timeval): (r: Sensor)
    ensures sizeData > 0 ==>
      var d := decode(BeginUpdate(s, 1)).out;
      && r.(channels := d.channels) == d
      && |r.channels| == |d.channels|
      && forall i :: 0 <= i < |d.channels| && i < d.transducers ==>
           && r.channels[i].value == d.channels[i].value
           && r.channels[i].innovation == d.channels[i].value - d.channels[i].predicted
           && r.channels[i].population == d.channels[i].population
           && r.channels[i].predicted
                == (if d.channels[i].population == 0.0 then d.channels[i].value
                    else 0.5 * d.channels[i].predicted + 0.5 * d.channels[i].value)
    ensures sizeData == 0 ==>
      && r.updated == 0
      && r.ptSec == s.tSec && r.ptUsec == s.tUsec && r.tSec == clock.sec && r.tUsec == clock.usec
      && r.deltaTime == Elapsed(s.tSec, s.tUsec, clock.sec, clock.usec)
      && r.(updated := s.updated, ptSec := s.ptSec, ptUsec := s.ptUsec, tSec := s.tSec, tUsec := s.tUsec,
            deltaTime := s.deltaTime, channels := s.channels) == s
      && |r.channels| == |s.channels|
      && forall i :: 0 <= i < |s.channels| && i < s.transducers ==>
           var t := s.channels[i];
           && r.channels[i].previous == t.value
           && r.channels[i].value == 0.9 * t.predicted + 0.1 * t.value
           && r.channels[i].innovation == r.channels[i].value - t.predicted
           && r.channels[i].predicted
                == (if t.population == 0.0 then r.channels[i].value
                    else 0.5 * t.predicted + 0.5 * r.channels[i].value)
           && r.channels[i].population == t.population
           && SameIdentity(r.channels[i], t) && SameQuality(r.channels[i], t)
  {
    if sizeData > 0 then
      var decoded := decode(BeginUpdate(s, 1)).out;
      decoded.(channels := MapUpTo(decoded.channels, decoded.transducers, Settle))
    else
      var stamped := UpdateSensorTime2(BeginUpdate(s, 0), clock);
      stamped.(channels := MapUpTo(stamped.channels, stamped.transducers, Coast))
  }

  /**
   * A decoder that rejects the payload (-1, sensor untouched) does not stop
   * the update: the sensor is still flagged as updated and every channel is
   * settled against its unchanged value.
   */
  lemma RejectedPayloadStillSettles(s: Sensor, sizeData: nat, decode: Sensor -> Ret<Sensor>, clock: Timeval)
    requires sizeData > 0
    requires decode(BeginUpdate(s, 1)) == Ret(-1, BeginUpdate(s, 1))
    ensures var r := UpdateSensorData(s, sizeData, decode, clock);
      && r.updated == 1
      && r.tSec == s.tSec && r.tUsec == s.tUsec && r.deltaTime == s.deltaTime
      && |r.channels| == |s.channels|
      && forall i :: 0 <= i < |s.channels| && i < s.transducers ==>
           && r.channels[i].previous == r.channels[i].value == s.channels[i].value
           && r.channels[i].innovation == s.channels[i].value - s.channels[i].predicted
           && r.channels[i].population == s.channels[i].population
  {
  }

  /**
   * A channel at rest (prediction equal to value, at least one reading
   * counted) coasts without moving: value and prediction stay and the
   * innovation is zero.
   */
  lemma CoastAtRestIsSteady(s: Sensor, clock: Timeval)
    requires forall i :: 0 <= i < |s.channels| ==>
      s.channels[i].predicted == s.channels[i].value && s.channels[i].population != 0.0
    ensures var r := UpdateSensorData(s, 0, _ => Ret(0, s), clock);
      forall i :: 0 <= i < |s.channels| && i < s.transducers ==>
        && r.channels[i].value == s.channels[i].value
        && r.channels[i].predicted == s.channels[i].predicted
        && r.channels[i].innovation == 0.0
  {
    var r := UpdateSensorData(s, 0, _ => Ret(0, s), clock);
    forall i | 0 <= i < |s.channels| && i < s.transducers
      ensures r.channels[i].value == s.channels[i].value
      ensures r.channels[i].predicted == s.channels[i].predicted
    {
      var t := s.channels[i];
      WeightsOfOne(0.9, 0.1, t.value);
      WeightsOfOne(0.5, 0.5, t.value);
    }
  }

  // ---------------------------------------------------------------------------
  // Filtering
  // ---------------------------------------------------------------------------

  /**
   * The filter step every generator starts with: ComputeKFilter on the
   * measurement vector gathered from the channel values. The C filter's
   * measurement pointer instead aims at channel 0's value alone (see
   * AliasedMeasurements); the model gathers, and runs the corrected filter
   * steps (KFilter.ComputeKFilterIntended).
   */
  function ComputeSensorFilter(s: Sensor, solve: Solver): (r: Sensor)
    requires Valid(s)
    ensures Valid(r) && r.channels == s.channels
    ensures r.filter.y == Measurements(s.channels)
    ensures Filtered(r) == KFilter.ComputeKFilterIntended(s.filter.(y := Measurements(s.channels)), solve).xHat
    ensures r.filter.xHatPrior == Filtered(s)
    ensures r.(filter := s.filter) == s
  {
    s.(filter := KFilter.ComputeKFilterIntended(s.filter.(y := Measurements(s.channels)), solve))
  }

  /**
   * The i-th double of a transducer record counted from its `value` field,
   * in declaration order: what `(&array[0]->value)[i]` reads.
   */
  function FieldFromValue(t: Transducer, i: nat): real
    requires i < 8
  {
    match i
    case 0 => t.value
    case 1 => t.previous
    case 2 => t.variance
    case 3 => t.innovation
    case 4 => t.predicted
    case 5 => t.population
    case 6 => t.certainty
    case _ => t.probability
  }

  /**
   * The measurement vector as the C code wires it: the filter's y points at
   * channel 0's value, so y[i] is the i-th double of channel 0's record.
   * Past eight doubles it would read beyond that record, which is not
   * modelled.
   */
  function AliasedMeasurements(cs: seq<Transducer>): (y: seq<real>)
    requires 0 < |cs| <= 8
    ensures |y| == |cs|
    ensures forall i :: 0 <= i < |cs| ==> y[i] == FieldFromValue(cs[0], i)
  {
    seq(|cs|, i requires 0 <= i < |cs| => FieldFromValue(cs[0], i))
  }

  /** With a single channel the alias and the gather agree. */
  lemma AliasExactForOneChannel(cs: seq<Transducer>)
    requires |cs| == 1
    ensures AliasedMeasurements(cs) == Measurements(cs)
  {
  }

  /**
   * With two channels reading 1.0 and 2.0 (channel 0's previous value 0.0),
   * the aliased filter sees 0.0 as its second measurement instead of 2.0.
   */
  lemma AliasMissesSecondChannel()
    ensures var t0 := Blank.(value := 1.0);
      var t1 := Blank.(value := 2.0);
      AliasedMeasurements([t0, t1])[1] == 0.0 && Measurements([t0, t1])[1] == 2.0
  {
  }
}
