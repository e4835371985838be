/** The waveform of a voice note: buildWaveform of mobile/src/voiceRecorder.ts, over the reals. */
module Waveform {
  import opened Wrappers

  const BARS := 48
  const FLOOR_DB := -60.0

  /** A reading in dB as an amplitude from 0 to 1. */
  function Normalize(db: real): (a: real)
    ensures 0.0 <= a <= 1.0
    ensures db <= FLOOR_DB ==> a == 0.0
    ensures db >= 0.0 ==> a == 1.0
    ensures -60.0 <= db <= 0.0 ==> a * 60.0 == db + 60.0
  {
    var clamped := if db < FLOOR_DB then FLOOR_DB else if db > 0.0 then 0.0 else db;
    (clamped - FLOOR_DB) / -FLOOR_DB
  }

  function NormalizeAll(samples: seq<real>): (r: seq<real>)
    ensures |r| == |samples| && forall i :: 0 <= i < |r| ==> r[i] == Normalize(samples[i])
  {
    seq(|samples|, i requires 0 <= i < |samples| => Normalize(samples[i]))
  }

  /** First sample of a bar. */
  function Start(bar: int, n: int): int {
    bar * n / BARS
  }

  /** One past the last sample of a bar. */
  function End(bar: int, n: int): int {
    if Start(bar + 1, n) > Start(bar, n) + 1 then Start(bar + 1, n) else Start(bar, n) + 1
  }

  /** `toFixed(3)`, read back as a number: to the nearest thousandth, halves up. */
  function ToThousandths(x: real): real {
    (x * 1000.0 + 0.5).Floor as real / 1000.0
  }

  function Sum(s: seq<real>): real {
    if s == [] then 0.0 else Sum(s[..|s| - 1]) + s[|s| - 1]
  }

  // ----- the ranges -----

  lemma StartSteps(bar: int, n: int)
    requires n >= 1
    ensures Start(bar, n) <= Start(bar + 1, n)
    ensures n >= BARS ==> Start(bar, n) + 1 <= Start(bar + 1, n)
    ensures n <= BARS ==> Start(bar + 1, n) <= Start(bar, n) + 1
  {
    assert (bar + 1) * n == bar * n + n;
  }

  /** Every bar's range is inside the samples and not empty. */
  lemma RangeInBounds(bar: int, n: int)
    requires n >= 1 && 0 <= bar < BARS
    ensures 0 <= Start(bar, n) < End(bar, n) <= n
  {
    assert 0 <= bar * n <= 47 * n by {
      assert (47 - bar) * n >= 0;
    }
    assert (bar + 1) * n == bar * n + n;
  }

  /** With at least 48 samples the ranges tile them: each begins where the one before ends. */
  lemma RangesTile(n: int)
    requires n >= BARS
    ensures Start(0, n) == 0 && End(BARS - 1, n) == n
    ensures forall bar :: 0 <= bar < BARS - 1 ==> End(bar, n) == Start(bar + 1, n)
  {
    forall bar | 0 <= bar < BARS
      ensures End(bar, n) == Start(bar + 1, n)
    {
      StartSteps(bar, n);
    }
    assert Start(BARS, n) == n;
  }

  /** With fewer, every range is a single sample and every sample is some bar's. */
  lemma RangesCover(n: int, sample: int) returns (bar: int)
    requires 1 <= n < BARS && 0 <= sample < n
    ensures 0 <= bar < BARS && Start(bar, n) == sample
    ensures forall b :: 0 <= b < BARS ==> End(b, n) == Start(b, n) + 1
  {
    forall b | 0 <= b < BARS
      ensures End(b, n) == Start(b, n) + 1
    {
      StartSteps(b, n);
    }
    bar := FirstAtLeast(n, sample, 0);
  }

  lemma {:induction false} FirstAtLeast(n: int, sample: int, from: int) returns (bar: int)
    requires 1 <= n < BARS && 0 <= sample < n && 0 <= from < BARS && Start(from, n) <= sample
    ensures from <= bar < BARS && Start(bar, n) == sample
    decreases BARS - from
  {
    StartSteps(from, n);
    if Start(from, n) == sample {
      bar := from;
    } else {
      assert Start(BARS, n) == n;
      assert from + 1 < BARS;
      bar := FirstAtLeast(n, sample, from + 1);
    }
  }

  /** The samples tiled with more or fewer than 48 fail to tile exactly when there are fewer. */
  lemma TilesIffEnough(n: int)
    requires n >= 1
    ensures (forall bar :: 0 <= bar < BARS - 1 ==> End(bar, n) == Start(bar + 1, n)) <==> n >= BARS
  {
    if n >= BARS {
      RangesTile(n);
    } else {
      StartSteps(0, n);
      assert End(0, n) == 1 && Start(1, n) == 0;
    }
  }

  // ----- the bars -----

  lemma {:induction false} SumBounds(s: seq<real>)
    requires forall i :: 0 <= i < |s| ==> 0.0 <= s[i] <= 1.0
    ensures 0.0 <= Sum(s) <= |s| as real
  {
    if s != [] {
      SumBounds(s[..|s| - 1]);
    }
  }

  lemma AverageBounds(total: real, count: int)
    requires count >= 1 && 0.0 <= total <= count as real
    ensures 0.0 <= total / count as real <= 1.0
  {
  }

  /** Rounding moves a value by at most half a thousandth and never out of 0 to 1. */
  lemma RoundedInRange(x: real)
    requires 0.0 <= x <= 1.0
    ensures 0.0 <= ToThousandths(x) <= 1.0
    ensures -0.0005 <= ToThousandths(x) - x <= 0.0005
  {
    assert (x * 1000.0 + 0.5).Floor <= 1000;
  }

  /** A bar: the average amplitude of its range, rounded. */
  function Bar(amplitudes: seq<real>, bar: int): real
    requires |amplitudes| >= 1 && 0 <= bar < BARS
  {
    RangeInBounds(bar, |amplitudes|);
    var bucket := amplitudes[Start(bar, |amplitudes|)..End(bar, |amplitudes|)];
    ToThousandths(Sum(bucket) / |bucket| as real)
  }

  lemma BarInRange(amplitudes: seq<real>, bar: int)
    requires |amplitudes| >= 1 && 0 <= bar < BARS
    requires forall i :: 0 <= i < |amplitudes| ==> 0.0 <= amplitudes[i] <= 1.0
    ensures 0.0 <= Bar(amplitudes, bar) <= 1.0
  {
    RangeInBounds(bar, |amplitudes|);
    var bucket := amplitudes[Start(bar, |amplitudes|)..End(bar, |amplitudes|)];
    SumBounds(bucket);
    AverageBounds(Sum(bucket), |bucket|);
    RoundedInRange(Sum(bucket) / |bucket| as real);
  }

  /** A bar is a whole number of thousandths, within half a thousandth of the average of the samples from
      `bar * n / 48` up to `(bar + 1) * n / 48`, or of the one sample there. */
  lemma BarIsAverage(amplitudes: seq<real>, bar: int)
    requires |amplitudes| >= 1 && 0 <= bar < 48
    ensures var n := |amplitudes|;
            var from, next := bar * n / 48, (bar + 1) * n / 48;
            var to := if next > from then next else from + 1;
            && 0 <= from < to <= n
            && -0.0005 <= Bar(amplitudes, bar) - Sum(amplitudes[from..to]) / (to - from) as real <= 0.0005
            && Bar(amplitudes, bar) * 1000.0 == (Bar(amplitudes, bar) * 1000.0).Floor as real
  {
    RangeInBounds(bar, |amplitudes|);
    StartSteps(bar, |amplitudes|);
  }

  lemma {:induction false} SumAppend(a: seq<real>, b: seq<real>)
    ensures Sum(a + b) == Sum(a) + Sum(b)
  {
    if b == [] {
      assert a + b == a;
    } else {
      SumAppend(a, b[..|b| - 1]);
      assert (a + b)[..|a + b| - 1] == a + b[..|b| - 1];
    }
  }

  /** What the first `bars` ranges add up to. */
  function RangeSums(amplitudes: seq<real>, bars: nat): real
    requires |amplitudes| >= 1 && bars <= BARS
  {
    if bars == 0 then 0.0
    else
      RangeInBounds(bars - 1, |amplitudes|);
      RangeSums(amplitudes, bars - 1) + Sum(amplitudes[Start(bars - 1, |amplitudes|)..End(bars - 1, |amplitudes|)])
  }

  /** With enough samples no amplitude is left out or counted twice. */
  lemma {:induction false} RangesConserve(amplitudes: seq<real>, bars: nat)
    requires |amplitudes| >= BARS && bars <= BARS
    ensures 0 <= Start(bars, |amplitudes|) <= |amplitudes|
    ensures RangeSums(amplitudes, bars) == Sum(amplitudes[..Start(bars, |amplitudes|)])
  {
    var n := |amplitudes|;
    if bars == 0 {
      assert Start(0, n) == 0;
    } else {
      RangesConserve(amplitudes, bars - 1);
      RangeEndsAtNext(bars - 1, n);
      SumToNext(amplitudes, Start(bars - 1, n), Start(bars, n));
    }
  }

  lemma RangeEndsAtNext(bar: int, n: int)
    requires n >= BARS && 0 <= bar < BARS
    ensures 0 <= Start(bar, n) < Start(bar + 1, n) == End(bar, n) <= n
  {
    RangeInBounds(bar, n);
    StartSteps(bar, n);
  }

  lemma SumToNext(s: seq<real>, before: int, after: int)
    requires 0 <= before <= after <= |s|
    ensures Sum(s[..after]) == Sum(s[..before]) + Sum(s[before..after])
  {
    assert s[..after] == s[..before] + s[before..after];
    SumAppend(s[..before], s[before..after]);
  }

  lemma AllAmplitudesCounted(amplitudes: seq<real>)
    requires |amplitudes| >= BARS
    ensures RangeSums(amplitudes, BARS) == Sum(amplitudes)
  {
    RangesConserve(amplitudes, BARS);
    assert Start(BARS, |amplitudes|) == |amplitudes|;
    assert amplitudes[..|amplitudes|] == amplitudes;
  }

  /** `buildWaveform`. */
  method BuildWaveform(samplesDb: seq<real>) returns (r: Option<seq<real>>)
    ensures r.None? <==> samplesDb == []
    ensures r.Some? ==> |r.value| == BARS && forall i :: 0 <= i < BARS ==>
              0.0 <= r.value[i] <= 1.0 && r.value[i] == Bar(NormalizeAll(samplesDb), i)
  {
    if samplesDb == [] {
      return None;
    }
    var normalized := NormalizeAll(samplesDb);
    var bars: seq<real> := [];
    for index := 0 to BARS
      invariant |bars| == index
      invariant forall i :: 0 <= i < index ==> 0.0 <= bars[i] <= 1.0 && bars[i] == Bar(normalized, i)
    {
      var start := index * |normalized| / BARS;
      var next := (index + 1) * |normalized| / BARS;
      var end := if start + 1 >= next then start + 1 else next;
      RangeInBounds(index, |normalized|);
      BarInRange(normalized, index);
      var bucket := normalized[start..end];
      var average := SumOf(bucket);
      bars := bars + [ToThousandths(average / |bucket| as real)];
    }
    return Some(bars);
  }

  /** `bucket.reduce((sum, value) => sum + value, 0)`. */
  method SumOf(bucket: seq<real>) returns (sum: real)
    ensures sum == Sum(bucket)
  {
    sum := 0.0;
    for i := 0 to |bucket|
      invariant sum == Sum(bucket[..i])
    {
      assert bucket[..i + 1][..i] == bucket[..i];
      sum := sum + bucket[i];
    }
    assert bucket[..|bucket|] == bucket;
  }
}
