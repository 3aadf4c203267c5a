/** Temporal smoothing of the band energies: each band moves from the
    previous frame's smoothed value toward the current value, keeping the
    fraction `factor` of the previous one. */
module Smoothing {
  import opened Options
  import Bands

  /** The default factor, used whenever the caller passes none. */
  const DefaultFactor: real := 0.7

  function Blend(current: real, previous: real, factor: real): real {
    previous * factor + current * (1.0 - factor)
  }

  /** One smoothed frame; `previous` is read at every index of `current`. */
  function Smooth(current: seq<real>, previous: seq<real>, factor: real): (smoothed: seq<real>)
    requires |previous| == |current|
    ensures |smoothed| == |current|
  {
    seq(|current|, i requires 0 <= i < |current| => Blend(current[i], previous[i], factor))
  }

  /** The loop of smoothFrequencyData, filling a fresh array band by band. */
  method SmoothFrame(current: seq<real>, previous: seq<real>, factor: real) returns (smoothed: seq<real>)
    requires |previous| == |current|
    ensures |smoothed| == |current|
    ensures factor == 0.0 ==> smoothed == current
    ensures factor == 1.0 ==> smoothed == previous
    ensures smoothed == Smooth(current, previous, factor)
  {
    smoothed := [];
    var i := 0;
    while i < |current|
      invariant 0 <= i <= |current|
      invariant |smoothed| == i
      invariant forall j :: 0 <= j < i ==> smoothed[j] == Blend(current[j], previous[j], factor)
    {
      smoothed := smoothed + [previous[i] * factor + current[i] * (1.0 - factor)];
      i := i + 1;
    }
    if factor == 0.0 {
      FactorZeroKeepsCurrent(current, previous);
    }
    if factor == 1.0 {
      FactorOneKeepsPrevious(current, previous);
    }
  }

  /** Factor 0 ignores the previous frame. */
  lemma FactorZeroKeepsCurrent(current: seq<real>, previous: seq<real>)
    requires |previous| == |current|
    ensures Smooth(current, previous, 0.0) == current
  {
  }

  /** Factor 1 ignores the current frame. */
  lemma FactorOneKeepsPrevious(current: seq<real>, previous: seq<real>)
    requires |previous| == |current|
    ensures Smooth(current, previous, 1.0) == previous
  {
  }

  /** A frame equal to the previous one is a fixed point, for every factor. */
  lemma SteadyFrameIsFixedPoint(frame: seq<real>, factor: real)
    ensures Smooth(frame, frame, factor) == frame
  {
    var r := Smooth(frame, frame, factor);
    forall i | 0 <= i < |frame|
      ensures r[i] == frame[i]
    {
      assert r[i] == frame[i] * factor + frame[i] * (1.0 - factor);
    }
  }

  /** For a factor in [0, 1] each smoothed band lies between its previous and
      current values. */
  lemma SmoothedBetween(current: seq<real>, previous: seq<real>, factor: real)
    requires |previous| == |current|
    requires 0.0 <= factor <= 1.0
    ensures forall i :: 0 <= i < |current| ==>
      Min(current[i], previous[i]) <= Smooth(current, previous, factor)[i] <= Max(current[i], previous[i])
  {
    forall i | 0 <= i < |current|
      ensures Min(current[i], previous[i]) <= Smooth(current, previous, factor)[i] <= Max(current[i], previous[i])
    {
      BlendBetween(current[i], previous[i], factor);
    }
  }

  lemma BlendBetween(c: real, p: real, k: real)
    requires 0.0 <= k <= 1.0
    ensures Min(c, p) <= Blend(c, p, k) <= Max(c, p)
  {
    var lo, hi := Min(c, p), Max(c, p);
    assert p * k >= lo * k && c * (1.0 - k) >= lo * (1.0 - k);
    assert p * k <= hi * k && c * (1.0 - k) <= hi * (1.0 - k);
    assert lo * k + lo * (1.0 - k) == lo;
    assert hi * k + hi * (1.0 - k) == hi;
    assert Blend(c, p, k) == p * k + c * (1.0 - k);
  }

  /** Consequently a bound shared by both frames holds of the smoothed one. */
  lemma SmoothWithin(current: seq<real>, previous: seq<real>, factor: real, lo: real, hi: real)
    requires |previous| == |current|
    requires 0.0 <= factor <= 1.0
    requires Bands.Within(current, lo, hi) && Bands.Within(previous, lo, hi)
    ensures Bands.Within(Smooth(current, previous, factor), lo, hi)
  {
    SmoothedBetween(current, previous, factor);
  }
}
