/** The MOS estimate and its quality buckets: server/src/callQuality.ts, over the reals (Annex B of
    ITU-T Recommendation G.107). */
module CallQuality {

  datatype Sample = Sample(rttMs: real, jitterMs: real, packetLossPercent: real)

  predicate Measured(s: Sample) {
    s.rttMs >= 0.0 && s.jitterMs >= 0.0 && s.packetLossPercent >= 0.0
  }

  function Greatest(a: real, b: real): real {
    if a >= b then a else b
  }

  function Least(a: real, b: real): real {
    if a <= b then a else b
  }

  /** The transmission rating. */
  function RFactor(s: Sample): real {
    Greatest(0.0, 93.2 - Greatest(0.0, s.rttMs / 2.0 + s.jitterMs - 100.0) * 0.024 - s.packetLossPercent * 2.5)
  }

  /** The rating's cubic, before it is clamped. */
  function Cubic(r: real): real {
    1.0 + 0.035 * r + r * (r - 60.0) * (100.0 - r) * 0.000007
  }

  function MosScore(s: Sample): real {
    Least(4.5, Greatest(1.0, Cubic(RFactor(s))))
  }

  const TOP := 93.2

  lemma ProductNonNegative(x: real, y: real)
    requires x >= 0.0 && y >= 0.0
    ensures x * y >= 0.0
  {
  }

  /** The cubic is 1 and a multiple of `r` times this quadratic. */
  lemma CubicFactors(r: real)
    ensures Cubic(r) == 1.0 + r * (160.0 * r - r * r - 1000.0) * 0.000007
  {
    assert (r - 60.0) * (100.0 - r) == 160.0 * r - r * r - 6000.0;
    assert 0.035 * r == r * 5000.0 * 0.000007;
    assert r * (r - 60.0) * (100.0 - r) == r * (160.0 * r - r * r - 6000.0);
    assert r * 5000.0 + r * (160.0 * r - r * r - 6000.0) == r * (160.0 * r - r * r - 1000.0);
  }

  lemma QuadraticIsNegative(r: real)
    requires 0.0 <= r <= 6.5
    ensures 160.0 * r - r * r - 1000.0 <= 0.0
  {
    ProductNonNegative(6.5 - r, 153.5 - r);
    assert (6.5 - r) * (153.5 - r) == 997.75 - 160.0 * r + r * r;
  }

  /** At a low rating the cubic is at most 1: it dips there, and the clamp hides the dip. */
  lemma CubicDips(r: real)
    requires 0.0 <= r <= 6.5
    ensures Cubic(r) <= 1.0
  {
    var g := 160.0 * r - r * r - 1000.0;
    CubicFactors(r);
    QuadraticIsNegative(r);
    ProductNonNegative(r, -g);
    assert r * -g == -(r * g);
  }

  /** Above that it never falls, up to the best rating there is. */
  lemma CubicRises(a: real, b: real)
    requires 6.5 <= a <= b <= TOP
    ensures Cubic(a) <= Cubic(b)
  {
    var q := 160.0 * (a + b) - (a * a + a * b + b * b) - 1000.0;
    ProductNonNegative(TOP - a, a - 6.5);
    ProductNonNegative(TOP - b, b - 6.5);
    assert (a - b) * (a - b) >= 0.0;
    assert a * a + a * b + b * b <= 1.5 * (a * a + b * b);
    assert a * a + b * b <= 99.7 * (a + b) - 1211.6;
    assert q >= 0.0;
    CubicDifference(a, b);
    ProductNonNegative(b - a, q);
  }

  lemma CubicForm(r: real)
    ensures Cubic(r) == 1.0 + (160.0 * (r * r) - r * r * r - 1000.0 * r) * 0.000007
  {
    assert (r - 60.0) * (100.0 - r) == 160.0 * r - r * r - 6000.0;
    assert r * (r - 60.0) * (100.0 - r) == r * (160.0 * r - r * r - 6000.0);
  }

  lemma CubicDifference(a: real, b: real)
    ensures Cubic(b) - Cubic(a) == (b - a) * (160.0 * (a + b) - (a * a + a * b + b * b) - 1000.0) * 0.000007
  {
    CubicForm(a);
    CubicForm(b);
    assert (b - a) * (a + b) == b * b - a * a;
    assert (b - a) * (a * a + a * b + b * b) == b * b * b - a * a * a;
  }

  function Clamped(r: real): real {
    Least(4.5, Greatest(1.0, Cubic(r)))
  }

  /** A better rating never scores worse. */
  lemma ClampedRises(a: real, b: real)
    requires 0.0 <= a <= b <= TOP
    ensures Clamped(a) <= Clamped(b)
  {
    if a <= 6.5 {
      CubicDips(a);
    } else {
      CubicRises(a, b);
    }
  }

  lemma RatingRange(s: Sample)
    requires Measured(s)
    ensures 0.0 <= RFactor(s) <= TOP
  {
  }

  /** What costs rating, and how much: each percent of loss 2.5, each millisecond of half the round trip and the
      jitter beyond 100 together 0.024, until nothing is left of 93.2. */
  lemma RatingDrops(s: Sample)
    requires Measured(s)
    ensures s.rttMs + 2.0 * s.jitterMs <= 200.0 && s.packetLossPercent == 0.0 ==> RFactor(s) == 93.2
    ensures var t := s.(packetLossPercent := s.packetLossPercent + 1.0);
            RFactor(t) == if RFactor(s) >= 2.5 then RFactor(s) - 2.5 else 0.0
    ensures var t := s.(jitterMs := s.jitterMs + 1.0);
            s.rttMs + 2.0 * s.jitterMs >= 200.0 ==>
              RFactor(t) == if RFactor(s) >= 0.024 then RFactor(s) - 0.024 else 0.0
    ensures RFactor(s.(rttMs := s.rttMs + 2.0)) == RFactor(s.(jitterMs := s.jitterMs + 1.0))
  {
  }

  /** The cubic through its known points: 1 at no rating, 3.1 at 60, 4.5 at 100, and 4.409 at the top. */
  lemma CubicPoints()
    ensures Cubic(0.0) == 1.0 && Cubic(60.0) == 3.1 && Cubic(100.0) == 4.5
    ensures 4.409 < Cubic(93.2) < 4.41
  {
  }

  /** The score lies between 1 and 4.41 for every measured sample; the ceiling of 4.5 never binds. */
  lemma MosInRange(s: Sample)
    requires Measured(s)
    ensures 1.0 <= MosScore(s) <= 4.41
    ensures MosScore(s) == Greatest(1.0, Cubic(RFactor(s)))
  {
    RatingRange(s);
    ClampedRises(RFactor(s), TOP);
    assert Cubic(TOP) <= 4.41;
  }

  /** More delay, more jitter or more loss never raises the score. */
  lemma MosIsMonotonic(better: Sample, worse: Sample)
    requires Measured(better)
    requires better.rttMs <= worse.rttMs && better.jitterMs <= worse.jitterMs
             && better.packetLossPercent <= worse.packetLossPercent
    ensures MosScore(worse) <= MosScore(better)
  {
    RatingRange(better);
    RatingRange(worse);
    ClampedRises(RFactor(worse), RFactor(better));
  }

  /** The dip is real: without the clamp a better rating can score worse. */
  lemma CubicAloneIsNotMonotonic()
    ensures Cubic(1.0) < Cubic(0.0)
  {
  }

  // ----- buckets -----

  datatype Bucket = Excellent | Good | Fair | Poor

  /** The `filter` of each count. */
  predicate InBucket(b: Bucket, mos: real) {
    match b
    case Excellent => mos >= 4.3
    case Good => mos >= 4.0 && mos < 4.3
    case Fair => mos >= 3.6 && mos < 4.0
    case Poor => mos < 3.6
  }

  /** The bucket a score falls in, from the best down. */
  function BucketOf(mos: real): Bucket {
    if mos < 3.6 then Poor else if mos < 4.0 then Fair else if mos < 4.3 then Good else Excellent
  }

  /** Every score is in exactly one bucket. */
  lemma OneBucket(b: Bucket, mos: real)
    ensures InBucket(b, mos) <==> b == BucketOf(mos)
  {
  }

  function CountIn(b: Bucket, samples: seq<Sample>): nat {
    if samples == [] then 0
    else CountIn(b, samples[..|samples| - 1]) + if InBucket(b, MosScore(samples[|samples| - 1])) then 1 else 0
  }

  /** The four counts add up to the sample count. */
  lemma {:induction false} BucketsPartition(samples: seq<Sample>)
    ensures CountIn(Excellent, samples) + CountIn(Good, samples) + CountIn(Fair, samples) + CountIn(Poor, samples)
            == |samples|
  {
    if samples != [] {
      BucketsPartition(samples[..|samples| - 1]);
    }
  }
}
