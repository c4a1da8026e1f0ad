/*
 * One measurement channel of a sensor: the last sensed value together with
 * the running statistics kept about it (previous value, prediction,
 * innovation, population of readings seen).
 */
module Transducers {

  /** Size of the type-string buffer; snprintf keeps at most one less character. */
  const DataTypeLength: nat := 36

  /**
   * A transducer record. `population` is a C double in the source, so it is a
   * real here and is incremented by 1.0.
   */
  datatype Transducer = Transducer(
    kind: string,
    id: int,
    value: real,
    previous: real,
    variance: real,
    innovation: real,
    predicted: real,
    population: real,
    certainty: real,
    probability: real)

  function Min(a: int, b: int): int { if a <= b then a else b }

  /** The fields that identify a channel and that no numeric update touches. */
  predicate SameIdentity(a: Transducer, b: Transducer)
  {
    a.kind == b.kind && a.id == b.id
  }

  /** Statistics that only the explicit setters write. */
  predicate SameQuality(a: Transducer, b: Transducer)
  {
    a.variance == b.variance && a.certainty == b.certainty && a.probability == b.probability
  }

  /**
   * The type string written by `snprintf(type, 36, "%c-%s", id, name)`: the id
   * converted to an unsigned char, a dash, then the name, cut to 35 characters.
   */
  function Label(name: string, newId: int): (s: string)
    ensures |s| == Min(DataTypeLength - 1, |name| + 2)
    ensures s[0] == (newId % 256) as char && s[1] == '-'
    ensures forall k :: 2 <= k < |s| ==> s[k] == name[k - 2]
  {
    var full := [(newId % 256) as char, '-'] + name;
    full[..Min(DataTypeLength - 1, |full|)]
  }

  /** ZeroTransducer: blank label, id 0, every running value 0; certainty and probability kept. */
  function ZeroTransducer(t: Transducer): (r: Transducer)
    ensures r.kind == " " && r.id == 0
    ensures r.value == 0.0 && r.previous == 0.0 && r.variance == 0.0
    ensures r.innovation == 0.0 && r.predicted == 0.0 && r.population == 0.0
    ensures r.certainty == t.certainty && r.probability == t.probability
  {
    t.(kind := " ", id := 0, value := 0.0, previous := 0.0, variance := 0.0,
       innovation := 0.0, predicted := 0.0, population := 0.0)
  }

  /** ZeroTransducerValues: like ZeroTransducer, but label and id are kept. */
  function ZeroTransducerValues(t: Transducer): (r: Transducer)
    ensures SameIdentity(r, t)
    ensures r == ZeroTransducer(t).(kind := t.kind, id := t.id)
  {
    t.(value := 0.0, previous := 0.0, variance := 0.0,
       innovation := 0.0, predicted := 0.0, population := 0.0)
  }

  /** SetTransducer writes every field except the population. */
  function SetTransducer(name: string, newId: int, newValue: real, newPrevious: real,
                         newInnovation: real, newVariance: real, newPredicted: real,
                         newCertainty: real, newProbability: real, t: Transducer): (r: Transducer)
    ensures r.population == t.population
    ensures r.kind == Label(name, newId) && r.id == newId
    ensures r.value == newValue && r.previous == newPrevious && r.innovation == newInnovation
    ensures r.variance == newVariance && r.predicted == newPredicted
    ensures r.certainty == newCertainty && r.probability == newProbability
  {
    Transducer(Label(name, newId), newId, newValue, newPrevious, newVariance, newInnovation,
               newPredicted, t.population, newCertainty, newProbability)
  }

  /** SetTransducerType rewrites the label only; even the id field is left alone. */
  function SetTransducerType(name: string, newId: int, t: Transducer): (r: Transducer)
    ensures r.kind == Label(name, newId)
    ensures r.(kind := t.kind) == t
  {
    t.(kind := Label(name, newId))
  }

  /** Reads the current value; writing it back leaves the channel as it was. */
  function GetTransducerValue(t: Transducer): (r: real)
    ensures t.(value := r) == t
  {
    t.value
  }

  /** Reads the current prediction; writing it back leaves the channel as it was. */
  function GetTransducerPredicted(t: Transducer): (r: real)
    ensures t.(predicted := r) == t
  {
    t.predicted
  }

  /**
   * A new reading: the old value moves to `previous`, the reading becomes the
   * value and the population grows by one.
   */
  function UpdateTransducerValue(v: real, t: Transducer): (r: Transducer)
    ensures r.value == v && r.previous == t.value && r.population == t.population + 1.0
    ensures SameIdentity(r, t) && SameQuality(r, t)
    ensures r.predicted == t.predicted && r.innovation == t.innovation
  {
    t.(previous := t.value, value := v, population := t.population + 1.0)
  }

  /** Coasting without a reading: the prediction becomes the value; population unchanged. */
  function UpdateTransducerValue2(t: Transducer): (r: Transducer)
    ensures r.value == t.predicted
    ensures r.(value := t.value) == t
  {
    t.(value := t.predicted)
  }

  /** Only copies the value into `previous`. */
  function UpdateTransducerPrevious(t: Transducer): (r: Transducer)
    ensures r.previous == r.value == t.value
    ensures r.(previous := t.previous) == t
  {
    t.(previous := t.value)
  }

  /**
   * Blends the prediction with the value (`W1` weighs the old prediction).
   * While no reading has been counted (population 0.0, C's false) the
   * prediction is bootstrapped to the value.
   */
  function UpdateTransducerPredicted(w1: real, w2: real, t: Transducer): (r: Transducer)
    ensures t.population == 0.0 ==> r.predicted == t.value
    ensures t.population != 0.0 ==> r.predicted == w1 * t.predicted + w2 * t.value
    ensures r.(predicted := t.predicted) == t
  {
    if t.population != 0.0 then t.(predicted := w1 * t.predicted + w2 * t.value)
    else t.(predicted := t.value)
  }

  /** Overwrites the value with the weighted blend of prediction and value. */
  function UpdateTransducerValueWithPredicted(w1: real, w2: real, t: Transducer): (r: Transducer)
    ensures r.value == w1 * t.predicted + w2 * t.value
    ensures r.(value := t.value) == t
  {
    t.(value := w1 * t.predicted + w2 * t.value)
  }

  /** The innovation is the value minus the prediction; nothing else is written. */
  function ComputeTransducerInnovation(t: Transducer): (r: Transducer)
    ensures r.value == r.predicted + r.innovation
    ensures r.(innovation := t.innovation) == t
  {
    t.(innovation := t.value - t.predicted)
  }

  // ---------------------------------------------------------------------
  // Properties relating several operations
  // ---------------------------------------------------------------------

  lemma WeightsOfOne(w1: real, w2: real, p: real)
    requires w1 + w2 == 1.0
    ensures w1 * p + w2 * p == p
  {
    assert w1 * p + w2 * p == (w1 + w2) * p;
  }

  /** With weights summing to 1, a prediction that equals the value is a fixed point. */
  lemma PredictedFixedPoint(w1: real, w2: real, t: Transducer)
    requires w1 + w2 == 1.0 && t.predicted == t.value
    ensures UpdateTransducerPredicted(w1, w2, t) == t
  {
    WeightsOfOne(w1, w2, t.value);
  }

  /**
   * After the bootstrap (or any fixed point) the update is idempotent: applying
   * it twice is the same as applying it once.
   */
  lemma PredictedIdempotentAfterBootstrap(w1: real, w2: real, t: Transducer)
    requires w1 + w2 == 1.0 && t.population == 0.0
    ensures var once := UpdateTransducerPredicted(w1, w2, t);
      UpdateTransducerPredicted(w1, w2, once) == once
  {
    PredictedFixedPoint(w1, w2, UpdateTransducerPredicted(w1, w2, t));
  }

  /** With convex weights the new prediction lies between the old prediction and the value. */
  lemma PredictedBetween(w1: real, w2: real, t: Transducer)
    requires 0.0 <= w1 && 0.0 <= w2 && w1 + w2 == 1.0
    ensures var p := UpdateTransducerPredicted(w1, w2, t).predicted;
      (t.predicted <= p <= t.value) || (t.value <= p <= t.predicted)
  {
    if t.population != 0.0 {
      ConvexBlend(w1, w2, t.predicted, t.value);
    }
  }

  /** A convex combination of two reals lies between them. */
  lemma ConvexBlend(w1: real, w2: real, a: real, b: real)
    requires 0.0 <= w1 && 0.0 <= w2 && w1 + w2 == 1.0
    ensures (a <= w1 * a + w2 * b <= b) || (b <= w1 * a + w2 * b <= a)
  {
    assert w1 * a + w2 * b == a + w2 * (b - a) by {
      assert w1 * a == a - w2 * a;
    }
    if a <= b {
      ScaledWithin(w2, b - a);
    } else {
      ScaledWithin(w2, a - b);
      assert w2 * (b - a) == -(w2 * (a - b));
    }
  }

  lemma ScaledWithin(w: real, d: real)
    requires 0.0 <= w <= 1.0 && 0.0 <= d
    ensures 0.0 <= w * d <= d
  {
    assert d - w * d == (1.0 - w) * d;
  }

  /** The getters read back what the updates wrote. */
  lemma GetAfterUpdate(v: real, w1: real, w2: real, t: Transducer)
    ensures GetTransducerValue(UpdateTransducerValue(v, t)) == v
    ensures GetTransducerPredicted(UpdateTransducerValue(v, t)) == GetTransducerPredicted(t)
    ensures GetTransducerValue(UpdateTransducerValue2(t)) == GetTransducerPredicted(t)
    ensures t.population == 0.0 ==>
      GetTransducerPredicted(UpdateTransducerPredicted(w1, w2, t)) == GetTransducerValue(t)
  {
  }

  /** Coasting onto the prediction leaves nothing to innovate. */
  lemma CoastingHasNoInnovation(t: Transducer)
    ensures ComputeTransducerInnovation(UpdateTransducerValue2(t)).innovation == 0.0
  {
  }

  /** A reading followed by an innovation step measures the reading against the prediction. */
  lemma InnovationOfReading(v: real, t: Transducer)
    ensures ComputeTransducerInnovation(UpdateTransducerValue(v, t)).innovation == v - t.predicted
  {
  }

  /** Zeroing the values and zeroing the whole record differ only in label and id. */
  lemma ZeroKeepsQuality(t: Transducer)
    ensures ZeroTransducerValues(ZeroTransducer(t)) == ZeroTransducer(t)
    ensures ZeroTransducer(ZeroTransducerValues(t)) == ZeroTransducer(t)
    ensures ZeroTransducer(t).certainty == t.certainty
  {
  }
}
