/** Transient detection: a band whose smoothed energy rose since the last
    frame gets a soft-clipped attack strength; every other band decays the
    value it had last frame. The last frame's values are the peak history. */
module Transients {
  import opened Options
  import Bands
  import opened Arith

  /** Tunables: the rise that counts as one unit, the gain applied to it, and
      the factor by which a transient fades per quiet frame. */
  datatype Detector = Detector(threshold: real, sensitivity: real, decayRate: real)

  const DefaultDetector := Detector(0.1, 2.0, 0.85)

  /** What the model relies on about the hyperbolic tangent the source calls:
      it is 0 at 0 and maps every positive number into (0, 1). */
  ghost predicate SoftClip(tanh: real -> real) {
    tanh(0.0) == 0.0 && forall x :: 0.0 < x ==> 0.0 < tanh(x) < 1.0
  }

  /** A rise measured in thresholds, times the sensitivity. */
  function Normalized(d: Detector, diff: real): real
    requires d.threshold > 0.0
  {
    diff / d.threshold * d.sensitivity
  }

  /** One band's transient for one frame. */
  function TransientOf(d: Detector, tanh: real -> real, current: real, previous: real, peak: real): real
    requires d.threshold > 0.0
  {
    if current - previous > 0.0 then tanh(Normalized(d, current - previous))
    else Max(0.0, peak * d.decayRate)
  }

  /** The frame's transients, and the peak history left for the next frame. */
  datatype Detection = Detection(transients: seq<real>, peakHistory: seq<real>)

  function Detect(d: Detector, tanh: real -> real, current: seq<real>, previous: seq<real>, peaks: seq<real>): (r: Detection)
    requires d.threshold > 0.0
    requires |previous| == |current| && |peaks| == |current|
    ensures |r.transients| == |current|
    ensures r.peakHistory == r.transients
  {
    var t := seq(|current|, i requires 0 <= i < |current| => TransientOf(d, tanh, current[i], previous[i], peaks[i]));
    Detection(t, t)
  }

  /** A rising band gets an attack strength in (0, 1); a band that did not rise
      never exceeds the previous value (and never goes negative). */
  lemma DetectRanges(d: Detector, tanh: real -> real, current: seq<real>, previous: seq<real>, peaks: seq<real>)
    requires d.threshold > 0.0
    requires |previous| == |current| && |peaks| == |current|
    ensures SoftClip(tanh) && d.sensitivity > 0.0 ==>
      forall i :: 0 <= i < |current| && current[i] > previous[i] ==> 0.0 < Detect(d, tanh, current, previous, peaks).transients[i] < 1.0
    ensures 0.0 <= d.decayRate <= 1.0 ==>
      forall i :: 0 <= i < |current| && current[i] <= previous[i] && 0.0 <= peaks[i] ==>
        0.0 <= Detect(d, tanh, current, previous, peaks).transients[i] <= peaks[i]
  {
    forall i | 0 <= i < |current|
      ensures SoftClip(tanh) && d.sensitivity > 0.0 && current[i] > previous[i] ==> 0.0 < Detect(d, tanh, current, previous, peaks).transients[i] < 1.0
      ensures 0.0 <= d.decayRate <= 1.0 && current[i] <= previous[i] && 0.0 <= peaks[i] ==>
        0.0 <= Detect(d, tanh, current, previous, peaks).transients[i] <= peaks[i]
    {
      DetectAt(d, tanh, current, previous, peaks, i);
      TransientOfRange(d, tanh, current[i], previous[i], peaks[i]);
    }
  }

  lemma TransientOfRange(d: Detector, tanh: real -> real, current: real, previous: real, peak: real)
    requires d.threshold > 0.0
    ensures SoftClip(tanh) && d.sensitivity > 0.0 && current > previous ==> 0.0 < TransientOf(d, tanh, current, previous, peak) < 1.0
    ensures 0.0 <= d.decayRate <= 1.0 && current <= previous && 0.0 <= peak ==> 0.0 <= TransientOf(d, tanh, current, previous, peak) <= peak
  {
    var diff := current - previous;
    if diff > 0.0 {
      var x := Normalized(d, diff);
      assert TransientOf(d, tanh, current, previous, peak) == tanh(x);
      assert SoftClip(tanh) && x > 0.0 ==> 0.0 < tanh(x) < 1.0;
      if d.sensitivity > 0.0 {
        DivPositive(diff, d.threshold);
        MulPositive(diff / d.threshold, d.sensitivity);
      }
    } else if 0.0 <= d.decayRate <= 1.0 && 0.0 <= peak {
      MulLeft(peak, d.decayRate, 1.0);
    }
  }

  lemma DetectAt(d: Detector, tanh: real -> real, current: seq<real>, previous: seq<real>, peaks: seq<real>, i: nat)
    requires d.threshold > 0.0
    requires |previous| == |current| && |peaks| == |current| && i < |current|
    ensures Detect(d, tanh, current, previous, peaks).transients[i] == TransientOf(d, tanh, current[i], previous[i], peaks[i])
  {
  }

  /** One band's transient lies in [0, 1) when its previous value did. */
  lemma TransientOfWithin(d: Detector, tanh: real -> real, current: real, previous: real, peak: real)
    requires SoftClip(tanh)
    requires d.threshold > 0.0 && 0.0 <= d.sensitivity && 0.0 <= d.decayRate <= 1.0
    requires 0.0 <= peak < 1.0
    ensures 0.0 <= TransientOf(d, tanh, current, previous, peak) < 1.0
  {
    var diff := current - previous;
    if diff > 0.0 {
      var x := Normalized(d, diff);
      assert TransientOf(d, tanh, current, previous, peak) == tanh(x);
      assert x == 0.0 ==> tanh(x) == 0.0;
      assert x > 0.0 ==> 0.0 < tanh(x) < 1.0;
      DivPositive(diff, d.threshold);
      MulNonNegative(diff / d.threshold, d.sensitivity);
    } else {
      MulLeft(peak, d.decayRate, 1.0);
    }
  }

  /** Transients stay in [0, 1): a peak history in [0, 1) gives transients in [0, 1),
      which become the next peak history. */
  lemma DetectWithin(d: Detector, tanh: real -> real, current: seq<real>, previous: seq<real>, peaks: seq<real>)
    requires SoftClip(tanh)
    requires d.threshold > 0.0 && 0.0 <= d.sensitivity && 0.0 <= d.decayRate <= 1.0
    requires |previous| == |current| && |peaks| == |current|
    requires forall i :: 0 <= i < |peaks| ==> 0.0 <= peaks[i] < 1.0
    ensures forall i :: 0 <= i < |current| ==> 0.0 <= Detect(d, tanh, current, previous, peaks).transients[i] < 1.0
  {
    forall i | 0 <= i < |current|
      ensures 0.0 <= Detect(d, tanh, current, previous, peaks).transients[i] < 1.0
    {
      DetectAt(d, tanh, current, previous, peaks, i);
      TransientOfWithin(d, tanh, current[i], previous[i], peaks[i]);
    }
  }

  /** The same smoothed frame twice in a row is no attack: each band carries
      its previous transient times the decay rate. */
  lemma RepeatedFrameOnlyDecays(d: Detector, tanh: real -> real, bands: seq<real>, peaks: seq<real>)
    requires d.threshold > 0.0 && 0.0 <= d.decayRate
    requires |peaks| == |bands|
    requires forall i :: 0 <= i < |peaks| ==> 0.0 <= peaks[i]
    ensures forall i :: 0 <= i < |bands| ==>
      Detect(d, tanh, bands, bands, peaks).transients[i] == peaks[i] * d.decayRate
  {
  }

  function Pow(x: real, n: nat): real {
    if n == 0 then 1.0 else x * Pow(x, n - 1)
  }

  /** One frame as detection sees it: the smoothed bands and the previous
      frame's smoothed bands. */
  type FramePair = (seq<real>, seq<real>)

  /** Every frame pair has one entry per band. */
  predicate FramesFit(frames: seq<FramePair>, n: nat) {
    forall k :: 0 <= k < |frames| ==> |frames[k].0| == n && |frames[k].1| == n
  }

  /** The peak history after the given frames, oldest first. */
  function PeaksAfter(d: Detector, tanh: real -> real, frames: seq<FramePair>, peaks: seq<real>): (r: seq<real>)
    requires d.threshold > 0.0 && FramesFit(frames, |peaks|)
    ensures |r| == |peaks|
    decreases |frames|
  {
    if |frames| == 0 then peaks
    else
      var last := frames[|frames| - 1];
      var earlier := frames[..|frames| - 1];
      assert FramesFit(earlier, |peaks|) by {
        forall k | 0 <= k < |earlier|
          ensures |earlier[k].0| == |peaks| && |earlier[k].1| == |peaks|
        {
          assert earlier[k] == frames[k];
        }
      }
      Detect(d, tanh, last.0, last.1, PeaksAfter(d, tanh, earlier, peaks)).peakHistory
  }

  /** Band i did not rise in any of the frames. */
  predicate NoRiseAt(frames: seq<FramePair>, i: nat) {
    forall k :: 0 <= k < |frames| ==> i < |frames[k].0| && i < |frames[k].1| && frames[k].0[i] <= frames[k].1[i]
  }

  /** A non-negative transient after n quiet frames: decayRate applied n times. */
  function Decayed(peak: real, rate: real, n: nat): real {
    if n == 0 then peak else Decayed(peak, rate, n - 1) * rate
  }

  lemma {:induction false} DecayedNonNegative(peak: real, rate: real, n: nat)
    requires 0.0 <= peak && 0.0 <= rate
    ensures 0.0 <= Decayed(peak, rate, n)
  {
    if n > 0 {
      DecayedNonNegative(peak, rate, n - 1);
      MulNonNegative(Decayed(peak, rate, n - 1), rate);
    }
  }

  /** Dropping the newest frame keeps both predicates. */
  lemma EarlierFrames(frames: seq<FramePair>, n: nat, i: nat)
    requires |frames| > 0
    ensures FramesFit(frames, n) ==> FramesFit(frames[..|frames| - 1], n)
    ensures NoRiseAt(frames, i) ==> NoRiseAt(frames[..|frames| - 1], i)
  {
    var earlier := frames[..|frames| - 1];
    forall k | 0 <= k < |earlier|
      ensures earlier[k] == frames[k]
    {
    }
  }

  /** One band's value after frames in which it never rose is its peak decayed
      once per frame: the floor at 0 never fires on a non-negative peak. */
  lemma {:induction false} QuietFrameDecayAt(d: Detector, tanh: real -> real, frames: seq<FramePair>, peaks: seq<real>, i: nat)
    requires d.threshold > 0.0 && 0.0 <= d.decayRate
    requires FramesFit(frames, |peaks|) && i < |peaks| && 0.0 <= peaks[i]
    requires NoRiseAt(frames, i)
    ensures PeaksAfter(d, tanh, frames, peaks)[i] == Decayed(peaks[i], d.decayRate, |frames|)
    decreases |frames|
  {
    if |frames| > 0 {
      var last := frames[|frames| - 1];
      var earlier := frames[..|frames| - 1];
      EarlierFrames(frames, |peaks|, i);
      QuietFrameDecayAt(d, tanh, earlier, peaks, i);
      var before := PeaksAfter(d, tanh, earlier, peaks);
      assert last.0[i] <= last.1[i];
      DetectAt(d, tanh, last.0, last.1, before, i);
      DecayedNonNegative(peaks[i], d.decayRate, |frames| - 1);
      MulNonNegative(before[i], d.decayRate);
    }
  }

  lemma {:induction false} PowNonNegative(x: real, n: nat)
    requires 0.0 <= x
    ensures 0.0 <= Pow(x, n)
  {
    if n > 0 {
      PowNonNegative(x, n - 1);
      MulNonNegative(x, Pow(x, n - 1));
    }
  }

  lemma {:induction false} DecayedIsPower(peak: real, rate: real, n: nat)
    ensures Decayed(peak, rate, n) == peak * Pow(rate, n)
  {
    if n > 0 {
      DecayedIsPower(peak, rate, n - 1);
      assert peak * Pow(rate, n - 1) * rate == peak * (rate * Pow(rate, n - 1));
    }
  }

  /** Frames in which no band rises, whatever the bands do otherwise, scale
      every non-negative peak by decayRate once per frame (and Decayed is
      peak * decayRate^n, by DecayedIsPower). */
  lemma QuietFramesDecay(d: Detector, tanh: real -> real, frames: seq<FramePair>, peaks: seq<real>)
    requires d.threshold > 0.0 && 0.0 <= d.decayRate
    requires FramesFit(frames, |peaks|)
    requires forall i :: 0 <= i < |peaks| ==> 0.0 <= peaks[i] && NoRiseAt(frames, i)
    ensures forall i :: 0 <= i < |peaks| ==>
      PeaksAfter(d, tanh, frames, peaks)[i] == Decayed(peaks[i], d.decayRate, |frames|)
  {
    forall i | 0 <= i < |peaks|
      ensures PeaksAfter(d, tanh, frames, peaks)[i] == Decayed(peaks[i], d.decayRate, |frames|)
    {
      QuietFrameDecayAt(d, tanh, frames, peaks, i);
    }
  }

  /** With a decay rate in [0, 1] a frame in which a band does not rise never
      raises its transient; with a rate in (0, 1) it strictly lowers a
      positive one. */
  lemma QuietFrameLowers(d: Detector, tanh: real -> real, frames: seq<FramePair>, peaks: seq<real>, i: nat)
    requires d.threshold > 0.0 && 0.0 <= d.decayRate <= 1.0
    requires |frames| > 0 && FramesFit(frames, |peaks|) && i < |peaks| && 0.0 <= peaks[i]
    requires NoRiseAt(frames, i)
    ensures PeaksAfter(d, tanh, frames, peaks)[i] <= PeaksAfter(d, tanh, frames[..|frames| - 1], peaks)[i]
    ensures d.decayRate < 1.0 && 0.0 < d.decayRate && 0.0 < peaks[i] ==>
      PeaksAfter(d, tanh, frames, peaks)[i] < PeaksAfter(d, tanh, frames[..|frames| - 1], peaks)[i]
  {
    EarlierFrames(frames, |peaks|, i);
    QuietFrameDecayAt(d, tanh, frames, peaks, i);
    QuietFrameDecayAt(d, tanh, frames[..|frames| - 1], peaks, i);
    DecayedLowers(peaks[i], d.decayRate, |frames| - 1);
  }

  lemma DecayedLowers(peak: real, rate: real, n: nat)
    requires 0.0 <= peak && 0.0 <= rate <= 1.0
    ensures Decayed(peak, rate, n + 1) <= Decayed(peak, rate, n)
    ensures 0.0 < peak && 0.0 < rate < 1.0 ==> Decayed(peak, rate, n + 1) < Decayed(peak, rate, n)
  {
    var v := Decayed(peak, rate, n);
    assert Decayed(peak, rate, n + 1) == v * rate;
    DecayedNonNegative(peak, rate, n);
    MulLeft(v, rate, 1.0);
    if 0.0 < peak && 0.0 < rate < 1.0 {
      DecayedPositive(peak, rate, n);
      MulPositive(v, 1.0 - rate);
      assert v - v * rate == v * (1.0 - rate);
    }
  }

  lemma {:induction false} DecayedPositive(peak: real, rate: real, n: nat)
    requires 0.0 < peak && 0.0 < rate
    ensures 0.0 < Decayed(peak, rate, n)
  {
    if n > 0 {
      DecayedPositive(peak, rate, n - 1);
      MulPositive(Decayed(peak, rate, n - 1), rate);
    }
  }

  /** Bernoulli's inequality for a rate r in [0, 1]: r^n (1 + n (1 - r)) <= 1. */
  lemma {:induction false} Bernoulli(r: real, n: nat)
    requires 0.0 <= r <= 1.0
    ensures Pow(r, n) * (1.0 + n as real * (1.0 - r)) <= 1.0
  {
    if n > 0 {
      Bernoulli(r, n - 1);
      PowNonNegative(r, n - 1);
      BernoulliStep(r, Pow(r, n - 1), (n - 1) as real);
      assert Pow(r, n) == r * Pow(r, n - 1);
      assert n as real == (n - 1) as real + 1.0;
    }
  }

  /** The induction step of Bernoulli, with p = r^m. */
  lemma BernoulliStep(r: real, p: real, m: real)
    requires 0.0 <= r <= 1.0 && 0.0 <= p && 0.0 <= m
    requires p * (1.0 + m * (1.0 - r)) <= 1.0
    ensures (r * p) * (1.0 + (m + 1.0) * (1.0 - r)) <= 1.0
  {
    var x := p * (1.0 + m * (1.0 - r));
    MulNonNegative(m, 1.0 - r);
    MulLeft(p, 1.0, 1.0 + m * (1.0 - r));
    assert p <= 1.0;
    assert (r * p) * (1.0 + (m + 1.0) * (1.0 - r)) == r * x + (1.0 - r) * (r * p);
    MulLeft(r, x, 1.0);
    assert r * x <= r;
    MulLeft(p, r, 1.0);
    assert r * p <= 1.0;
    MulLeft(1.0 - r, r * p, 1.0);
    assert (1.0 - r) * (r * p) <= 1.0 - r;
  }

  /** A number of quiet frames after which a transient of strength `peak` has
      faded below `epsilon`. */
  function SettleFrames(peak: real, rate: real, epsilon: real): nat
    requires 0.0 <= peak && 0.0 <= rate < 1.0 && 0.0 < epsilon
  {
    (peak / (epsilon * (1.0 - rate))).Floor + 1
  }

  lemma SettleFramesEnough(peak: real, rate: real, epsilon: real)
    requires 0.0 <= peak && 0.0 <= rate < 1.0 && 0.0 < epsilon
    ensures SettleFrames(peak, rate, epsilon) as real > peak / (epsilon * (1.0 - rate))
  {
  }

  /** The arithmetic behind TransientSettles: more than peak / (epsilon (1 - r))
      frames, together with Bernoulli's bound on p = r^n, push peak * p below epsilon. */
  lemma SettleArithmetic(peak: real, r: real, epsilon: real, n: nat, p: real)
    requires 0.0 <= peak && 0.0 <= r < 1.0 && 0.0 < epsilon
    requires n as real > peak / (epsilon * (1.0 - r))
    requires 0.0 <= p && p * (1.0 + n as real * (1.0 - r)) <= 1.0
    ensures peak * p < epsilon
  {
    var e1 := epsilon * (1.0 - r);
    var g := 1.0 + n as real * (1.0 - r);
    MulPositive(epsilon, 1.0 - r);
    assert e1 > 0.0;
    assert n as real * e1 > peak by {
      assert (peak / e1) * e1 == peak;
      assert n as real * e1 > (peak / e1) * e1;
    }
    assert epsilon * g > peak by {
      assert epsilon * g == epsilon + n as real * e1;
    }
    assert peak * p * g <= peak by {
      MulLeft(peak, p * g, 1.0);
    }
  }

  /** For a decay rate below 1, a transient falls below any epsilon once its
      band has gone SettleFrames frames without rising. */
  lemma TransientSettles(d: Detector, tanh: real -> real, frames: seq<FramePair>, peaks: seq<real>, i: nat, epsilon: real)
    requires d.threshold > 0.0 && 0.0 <= d.decayRate < 1.0
    requires FramesFit(frames, |peaks|) && i < |peaks| && 0.0 <= peaks[i]
    requires NoRiseAt(frames, i)
    requires 0.0 < epsilon && |frames| >= SettleFrames(peaks[i], d.decayRate, epsilon)
    ensures PeaksAfter(d, tanh, frames, peaks)[i] < epsilon
  {
    QuietFrameDecayAt(d, tanh, frames, peaks, i);
    DecayedSettles(peaks[i], d.decayRate, epsilon);
    DecayedAntitone(peaks[i], d.decayRate, SettleFrames(peaks[i], d.decayRate, epsilon), |frames|);
  }

  /** More decay never raises a non-negative value. */
  lemma {:induction false} DecayedAntitone(peak: real, rate: real, m: nat, n: nat)
    requires 0.0 <= peak && 0.0 <= rate <= 1.0 && m <= n
    ensures Decayed(peak, rate, n) <= Decayed(peak, rate, m)
    decreases n - m
  {
    if m < n {
      DecayedAntitone(peak, rate, m, n - 1);
      DecayedLowers(peak, rate, n - 1);
    }
  }

  lemma DecayedSettles(peak: real, rate: real, epsilon: real)
    requires 0.0 <= peak && 0.0 <= rate < 1.0 && 0.0 < epsilon
    ensures Decayed(peak, rate, SettleFrames(peak, rate, epsilon)) < epsilon
  {
    var n := SettleFrames(peak, rate, epsilon);
    DecayedIsPower(peak, rate, n);
    Bernoulli(rate, n);
    PowNonNegative(rate, n);
    SettleFramesEnough(peak, rate, epsilon);
    SettleArithmetic(peak, rate, epsilon, n, Pow(rate, n));
  }

  /** The program's detector keeps the bounds the other lemmas ask for: a
      positive threshold, a non-negative sensitivity, a decay rate in [0, 1). */
  lemma DefaultDetectorFits()
    ensures DefaultDetector.threshold > 0.0 && 0.0 <= DefaultDetector.sensitivity
    ensures 0.0 <= DefaultDetector.decayRate < 1.0
  {
  }

  /** 0.85 to the 29th power is below 0.01. */
  lemma DefaultRatePower()
    ensures Pow(0.85, 29) < 0.01
  {
    var p7 := Pow(0.85, 7);
    assert p7 < 0.33 by {
      assert Pow(0.85, 7) == 0.85 * 0.85 * 0.85 * 0.85 * 0.85 * 0.85 * 0.85 * Pow(0.85, 0);
    }
    PowSplit(0.85, 7, 7);
    PowSplit(0.85, 14, 14);
    PowSplit(0.85, 28, 1);
    PowNonNegative(0.85, 7);
    PowNonNegative(0.85, 14);
    PowNonNegative(0.85, 28);
    MulLeft(p7, p7, 0.33);
    MulLeft(0.33, p7, 0.33);
    assert Pow(0.85, 14) < 0.109;
    var p14 := Pow(0.85, 14);
    MulLeft(p14, p14, 0.109);
    MulLeft(0.109, p14, 0.109);
    assert Pow(0.85, 28) < 0.0119;
    assert Pow(0.85, 29) == Pow(0.85, 28) * Pow(0.85, 1);
  }

  lemma {:induction false} PowSplit(x: real, m: nat, n: nat)
    ensures Pow(x, m + n) == Pow(x, m) * Pow(x, n)
    decreases n
  {
    if n > 0 {
      PowSplit(x, m, n - 1);
      assert Pow(x, m + n) == x * Pow(x, m + n - 1);
      assert Pow(x, m) * (x * Pow(x, n - 1)) == x * (Pow(x, m) * Pow(x, n - 1));
    }
  }

  /** With the program's detector, a transient below 1 has faded under 0.01
      after 29 frames in which its band does not rise. */
  lemma DefaultTransientFades(tanh: real -> real, frames: seq<FramePair>, peaks: seq<real>, i: nat)
    requires FramesFit(frames, |peaks|) && i < |peaks| && 0.0 <= peaks[i] < 1.0
    requires NoRiseAt(frames, i) && |frames| >= 29
    ensures PeaksAfter(DefaultDetector, tanh, frames, peaks)[i] < 0.01
  {
    QuietFrameDecayAt(DefaultDetector, tanh, frames, peaks, i);
    DefaultRatePower();
    DecayedBelow(peaks[i], 0.85, 29, |frames|, 0.01);
  }

  /** A peak below 1 ends below any bound its rate's m-th power is below,
      from frame m on. */
  lemma DecayedBelow(peak: real, rate: real, m: nat, n: nat, bound: real)
    requires 0.0 <= peak < 1.0 && 0.0 <= rate <= 1.0 && m <= n && Pow(rate, m) < bound
    ensures Decayed(peak, rate, n) < bound
  {
    DecayedAntitone(peak, rate, m, n);
    DecayedIsPower(peak, rate, m);
    PowNonNegative(rate, m);
    MulLeft(Pow(rate, m), peak, 1.0);
    assert peak * Pow(rate, m) == Pow(rate, m) * peak;
  }
}
