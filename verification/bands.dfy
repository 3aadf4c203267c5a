/** Band aggregation: the frequency-magnitude array of one frame (one value
    per FFT bin, 0..255 from the analyser) becomes sixteen band energies,
    by the logarithmic band table, by Mel-spaced ranges, or by equal linear
    blocks, and is then scaled by the envelope and the per-band intensities. */
module Bands {
  import opened Options
  import opened Arith

  /** Number of named bands; every band array of the pipeline has this length. */
  const BandCount: nat := 16

  /** One entry of the fixed band table: a name, a Hz range whose end is
      inclusive, and a display colour as a 24-bit RGB number. */
  datatype FrequencyBand = FrequencyBand(name: string, minHz: nat, maxHz: nat, color: nat)

  /** The sixteen bands, SubBass to Air2, progressively wider from 20 Hz to 24 kHz. */
  const Table: seq<FrequencyBand> := [
    FrequencyBand("SubBass", 20, 60, 0xff0000),
    FrequencyBand("Bass", 60, 120, 0xff4400),
    FrequencyBand("LowBass", 120, 200, 0xff8800),
    FrequencyBand("HighBass", 200, 320, 0xffaa00),
    FrequencyBand("LowMid", 320, 500, 0xffdd00),
    FrequencyBand("Mid", 500, 800, 0xddff00),
    FrequencyBand("HighMid", 800, 1200, 0x88ff00),
    FrequencyBand("UpperMid", 1200, 2000, 0x44ff00),
    FrequencyBand("LowTreble", 2000, 3200, 0x00ff44),
    FrequencyBand("Treble", 3200, 5000, 0x00ff88),
    FrequencyBand("HighTreble", 5000, 8000, 0x00ffdd),
    FrequencyBand("SuperTreble", 8000, 12000, 0x00ddff),
    FrequencyBand("Brilliance1", 12000, 16000, 0x0088ff),
    FrequencyBand("Brilliance2", 16000, 20000, 0x0044ff),
    FrequencyBand("Air1", 20000, 22000, 0x4400ff),
    FrequencyBand("Air2", 22000, 24000, 0x8800ff)
  ]

  /** Every entry lies in [lo, hi]. */
  predicate Within(data: seq<real>, lo: real, hi: real) {
    forall j :: 0 <= j < |data| ==> lo <= data[j] <= hi
  }

  /** Every entry lies in the analyser's byte range. */
  predicate InByteRange(data: seq<real>) {
    Within(data, 0.0, 255.0)
  }

  /** data[lo] + ... + data[hi - 1]. */
  function Sum(data: seq<real>, lo: nat, hi: nat): real
    requires lo <= hi <= |data|
    decreases hi - lo
  {
    if lo == hi then 0.0 else Sum(data, lo, hi - 1) + data[hi - 1]
  }

  /** The mean of the bins startBin..endBin, the end bin INCLUSIVE and the
      range cut off at the end of the array; 0 when no bin is left. */
  function RangeMean(data: seq<real>, startBin: nat, endBin: int): real {
    var stop := if endBin + 1 < |data| then endBin + 1 else |data|;
    if startBin < stop then Sum(data, startBin, stop) / (stop - startBin) as real else 0.0
  }

  /** The aggregation loop shared by getFrequencyIntensity and the
      logarithmic and Mel bands: scan upward from startBin while the index is
      at most endBin and inside the array, then divide the sum by the count. */
  method BinRangeMean(data: seq<real>, startBin: nat, endBin: int) returns (mean: real)
    ensures mean == RangeMean(data, startBin, endBin)
    ensures (endBin < startBin || |data| <= startBin) ==> mean == 0.0
  {
    var sum := 0.0;
    var count := 0;
    var j := startBin;
    while j <= endBin && j < |data|
      invariant startBin <= j
      invariant count == j - startBin
      invariant j == startBin ==> sum == 0.0
      invariant j > startBin ==> j <= |data| && j <= endBin + 1 && sum == Sum(data, startBin, j)
    {
      sum := sum + data[j];
      count := count + 1;
      j := j + 1;
    }
    mean := if count > 0 then sum / count as real else 0.0;
  }

  lemma {:induction false} SumWithin(data: seq<real>, lo: nat, hi: nat, a: real, b: real)
    requires lo <= hi <= |data|
    requires forall j :: lo <= j < hi ==> a <= data[j] <= b
    ensures (hi - lo) as real * a <= Sum(data, lo, hi) <= (hi - lo) as real * b
    decreases hi - lo
  {
    if lo < hi {
      SumWithin(data, lo, hi - 1, a, b);
      var n := (hi - 1 - lo) as real;
      assert (hi - lo) as real * a == n * a + a;
      assert (hi - lo) as real * b == n * b + b;
    }
  }

  lemma {:induction false} SumOfConstant(data: seq<real>, lo: nat, hi: nat, v: real)
    requires lo <= hi <= |data|
    requires forall j :: lo <= j < hi ==> data[j] == v
    ensures Sum(data, lo, hi) == (hi - lo) as real * v
    decreases hi - lo
  {
    if lo < hi {
      SumOfConstant(data, lo, hi - 1, v);
    }
  }

  /** A band mean never leaves an interval that holds every magnitude and 0
      (0 being the value of an empty range). */
  lemma MeanWithin(data: seq<real>, startBin: nat, endBin: int, a: real, b: real)
    requires a <= 0.0 <= b
    requires Within(data, a, b)
    ensures a <= RangeMean(data, startBin, endBin) <= b
  {
    var stop := if endBin + 1 < |data| then endBin + 1 else |data|;
    if startBin < stop {
      SumWithin(data, startBin, stop, a, b);
      DivWithin(Sum(data, startBin, stop), (stop - startBin) as real, a, b);
    }
  }

  /** Bins of one constant value v average to v, whatever the width of the range. */
  lemma MeanOfConstant(data: seq<real>, startBin: nat, endBin: int, v: real)
    requires startBin <= endBin && startBin < |data|
    requires forall j :: startBin <= j <= endBin && j < |data| ==> data[j] == v
    ensures RangeMean(data, startBin, endBin) == v
  {
    var stop := if endBin + 1 < |data| then endBin + 1 else |data|;
    SumOfConstant(data, startBin, stop, v);
  }

  // ----- logarithmic bands -----

  /** floor(hz / nyquist * binCount) with nyquist = sampleRate / 2, in exact
      integer arithmetic. */
  function HzToBin(hz: nat, binCount: nat, sampleRate: nat): nat
    requires sampleRate > 0
  {
    (2 * hz * binCount) / sampleRate
  }

  function LogStartBin(i: nat, binCount: nat, sampleRate: nat): nat
    requires i < BandCount && sampleRate > 0
  {
    HzToBin(Table[i].minHz, binCount, sampleRate)
  }

  function LogEndBin(i: nat, binCount: nat, sampleRate: nat): nat
    requires i < BandCount && sampleRate > 0
  {
    HzToBin(Table[i].maxHz, binCount, sampleRate)
  }

  /** The sixteen logarithmic band energies of one frame. */
  function LogarithmicBands(data: seq<real>, sampleRate: nat): (bands: seq<real>)
    requires sampleRate > 0
    ensures |bands| == BandCount
  {
    seq(BandCount, i requires 0 <= i < BandCount =>
      RangeMean(data, LogStartBin(i, |data|, sampleRate), LogEndBin(i, |data|, sampleRate)))
  }

  /** The band table is contiguous and ascending, so the bin ranges are ordered,
      no band's range is reversed, and a band's inclusive end bin is the next
      band's start bin: that edge bin is counted in both. */
  lemma LogBinEdges(i: nat, binCount: nat, sampleRate: nat)
    requires i < BandCount && sampleRate > 0
    ensures LogStartBin(i, binCount, sampleRate) <= LogEndBin(i, binCount, sampleRate)
    ensures i + 1 < BandCount ==> LogEndBin(i, binCount, sampleRate) == LogStartBin(i + 1, binCount, sampleRate)
  {
    assert Table[i].minHz <= Table[i].maxHz;
    DivMonotone(2 * Table[i].minHz * binCount, 2 * Table[i].maxHz * binCount, sampleRate);
  }

  /** Magnitudes in 0..255 give logarithmic band energies in 0..255. */
  lemma LogarithmicBandsWithin(data: seq<real>, sampleRate: nat)
    requires sampleRate > 0
    requires InByteRange(data)
    ensures InByteRange(LogarithmicBands(data, sampleRate))
  {
    LogarithmicBandsBetween(data, sampleRate, 0.0, 255.0);
  }

  /** More generally any bound around 0 carries over (0 because a band whose
      range is empty reads 0); all-zero magnitudes give all-zero bands. */
  lemma LogarithmicBandsBetween(data: seq<real>, sampleRate: nat, a: real, b: real)
    requires sampleRate > 0
    requires a <= 0.0 <= b && Within(data, a, b)
    ensures Within(LogarithmicBands(data, sampleRate), a, b)
  {
    var bands := LogarithmicBands(data, sampleRate);
    forall i | 0 <= i < BandCount
      ensures a <= bands[i] <= b
    {
      MeanWithin(data, LogStartBin(i, |data|, sampleRate), LogEndBin(i, |data|, sampleRate), a, b);
    }
  }

  /** A band whose bins all hold v, and whose start bin lies inside the array,
      has energy exactly v. */
  lemma LogarithmicBandOfConstant(data: seq<real>, sampleRate: nat, i: nat, v: real)
    requires sampleRate > 0 && i < BandCount
    requires LogStartBin(i, |data|, sampleRate) < |data|
    requires forall j :: LogStartBin(i, |data|, sampleRate) <= j <= LogEndBin(i, |data|, sampleRate) && j < |data| ==> data[j] == v
    ensures LogarithmicBands(data, sampleRate)[i] == v
  {
    LogBinEdges(i, |data|, sampleRate);
    MeanOfConstant(data, LogStartBin(i, |data|, sampleRate), LogEndBin(i, |data|, sampleRate), v);
  }

  // ----- Mel bands -----

  /** A band's Hz range; for the Mel mapping it comes from the Mel-to-Hz
      conversion, which is not part of this model. */
  datatype HzRange = HzRange(lo: real, hi: real)

  predicate NonNegativeRanges(ranges: seq<HzRange>) {
    forall i :: 0 <= i < |ranges| ==> 0.0 <= ranges[i].lo
  }

  /** floor(hz / nyquist * binCount) for a non-integer frequency. */
  function RealHzToBin(hz: real, binCount: nat, sampleRate: nat): int
    requires sampleRate > 0
  {
    (2.0 * hz * binCount as real / sampleRate as real).Floor
  }

  lemma FloorNonNegative(x: real)
    requires 0.0 <= x
    ensures 0 <= x.Floor
  {
  }

  lemma RealHzToBinNonNegative(hz: real, binCount: nat, sampleRate: nat)
    requires sampleRate > 0 && 0.0 <= hz
    ensures 0 <= RealHzToBin(hz, binCount, sampleRate)
  {
    assert 0.0 <= 2.0 * hz * binCount as real;
    FloorNonNegative(2.0 * hz * binCount as real / sampleRate as real);
  }

  /** The Mel band energies: the same inclusive-range mean over bins taken
      from the given Hz ranges. */
  function MelBands(data: seq<real>, sampleRate: nat, ranges: seq<HzRange>): (bands: seq<real>)
    requires sampleRate > 0
    requires |ranges| == BandCount && NonNegativeRanges(ranges)
    ensures |bands| == BandCount
  {
    seq(BandCount, i requires 0 <= i < BandCount =>
      RealHzToBinNonNegative(ranges[i].lo, |data|, sampleRate);
      RangeMean(data, RealHzToBin(ranges[i].lo, |data|, sampleRate), RealHzToBin(ranges[i].hi, |data|, sampleRate)))
  }

  lemma MelBandsWithin(data: seq<real>, sampleRate: nat, ranges: seq<HzRange>)
    requires sampleRate > 0
    requires |ranges| == BandCount && NonNegativeRanges(ranges)
    requires InByteRange(data)
    ensures InByteRange(MelBands(data, sampleRate, ranges))
  {
    var bands := MelBands(data, sampleRate, ranges);
    forall i | 0 <= i < BandCount
      ensures 0.0 <= bands[i] <= 255.0
    {
      RealHzToBinNonNegative(ranges[i].lo, |data|, sampleRate);
      MeanWithin(data, RealHzToBin(ranges[i].lo, |data|, sampleRate), RealHzToBin(ranges[i].hi, |data|, sampleRate), 0.0, 255.0);
    }
  }

  // ----- linear bands -----

  /** `frequencyData[k] || 0`: an index outside the array reads as 0. */
  function BinOrZero(data: seq<real>, k: int): real {
    if 0 <= k < |data| then data[k] else 0.0
  }

  /** The sum of `width` consecutive readings from `start`. */
  function BlockSum(data: seq<real>, start: nat, width: nat): real
    decreases width
  {
    if width == 0 then 0.0 else BlockSum(data, start, width - 1) + BinOrZero(data, start + width - 1)
  }

  /** The linear mapping: sixteen equal blocks of floor(L / 16) bins, each
      averaged. With fewer than sixteen bins the width is 0 and every band is
      0 / 0, NaN, which is modelled as None. */
  function LinearBands(data: seq<real>): (bands: Option<seq<real>>)
    ensures bands.None? <==> |data| < BandCount
    ensures bands.Some? ==> |bands.value| == BandCount
  {
    var width := |data| / BandCount;
    if width == 0 then None
    else Some(seq(BandCount, i requires 0 <= i < BandCount => BlockSum(data, i * width, width) / width as real))
  }

  lemma {:induction false} BlockSumInside(data: seq<real>, start: nat, width: nat)
    requires start + width <= |data|
    ensures BlockSum(data, start, width) == Sum(data, start, start + width)
    decreases width
  {
    if width > 0 {
      BlockSumInside(data, start, width - 1);
    }
  }

  lemma BlockFits(i: nat, width: nat, binCount: nat)
    requires i < BandCount && width == binCount / BandCount
    ensures i * width + width <= binCount
  {
    assert i * width + width == (i + 1) * width;
    assert (i + 1) * width <= BandCount * width;
  }

  /** Each linear block lies inside the array, so the `|| 0` fallback never
      fires and block i is the inclusive-range mean of bins i*w .. i*w + w - 1,
      the same aggregation the logarithmic bands use. */
  lemma LinearBandsAreRangeMeans(data: seq<real>)
    requires BandCount <= |data|
    ensures forall i :: 0 <= i < BandCount ==>
      LinearBands(data).value[i] == RangeMean(data, i * (|data| / BandCount), i * (|data| / BandCount) + |data| / BandCount - 1)
  {
    var width := |data| / BandCount;
    forall i | 0 <= i < BandCount
      ensures LinearBands(data).value[i] == RangeMean(data, i * width, i * width + width - 1)
    {
      BlockFits(i, width, |data|);
      BlockSumInside(data, i * width, width);
    }
  }

  /** With at least sixteen bins, magnitudes in 0..255 give linear band
      energies in 0..255. */
  lemma LinearBandsWithin(data: seq<real>)
    requires BandCount <= |data|
    requires InByteRange(data)
    ensures InByteRange(LinearBands(data).value)
  {
    var width := |data| / BandCount;
    LinearBandsAreRangeMeans(data);
    forall i | 0 <= i < BandCount
      ensures 0.0 <= LinearBands(data).value[i] <= 255.0
    {
      MeanWithin(data, i * width, i * width + width - 1, 0.0, 255.0);
    }
  }

  // ----- mode selection and gain stages -----

  /** The mapping switch: "mel", "linear", and every other mode string
      falls through to the logarithmic table. */
  function Aggregate(mode: string, data: seq<real>, sampleRate: nat, melRanges: seq<HzRange>): (bands: Option<seq<real>>)
    requires sampleRate > 0
    requires |melRanges| == BandCount && NonNegativeRanges(melRanges)
    ensures bands.None? <==> mode == "linear" && |data| < BandCount
    ensures bands.Some? ==> |bands.value| == BandCount
  {
    if mode == "mel" then Some(MelBands(data, sampleRate, melRanges))
    else if mode == "linear" then LinearBands(data)
    else Some(LogarithmicBands(data, sampleRate))
  }

  lemma AggregateWithin(mode: string, data: seq<real>, sampleRate: nat, melRanges: seq<HzRange>)
    requires sampleRate > 0
    requires |melRanges| == BandCount && NonNegativeRanges(melRanges)
    requires InByteRange(data)
    ensures Aggregate(mode, data, sampleRate, melRanges).Some? ==>
      InByteRange(Aggregate(mode, data, sampleRate, melRanges).value)
  {
    if mode == "mel" {
      MelBandsWithin(data, sampleRate, melRanges);
    } else if mode == "linear" {
      if BandCount <= |data| {
        LinearBandsWithin(data);
      }
    } else {
      LogarithmicBandsWithin(data, sampleRate);
    }
  }

  /** Every band multiplied by the envelope value. */
  function ApplyEnvelope(bands: seq<real>, gain: real): (r: seq<real>)
    ensures |r| == |bands|
  {
    seq(|bands|, i requires 0 <= i < |bands| => bands[i] * gain)
  }

  /** Every band multiplied by its intensity, where one has been set. */
  function ApplyIntensities(bands: seq<real>, intensities: seq<Option<real>>): (r: seq<real>)
    requires |intensities| == |bands|
    ensures |r| == |bands|
  {
    seq(|bands|, i requires 0 <= i < |bands| =>
      if intensities[i].Some? then bands[i] * intensities[i].value else bands[i])
  }

  /** An envelope value in [0, 1] never raises a band above its bound. */
  lemma EnvelopeGainWithin(bands: seq<real>, gain: real, hi: real)
    requires Within(bands, 0.0, hi)
    requires 0.0 <= gain <= 1.0
    ensures Within(ApplyEnvelope(bands, gain), 0.0, hi)
  {
    var r := ApplyEnvelope(bands, gain);
    forall i | 0 <= i < |bands|
      ensures 0.0 <= r[i] <= hi
    {
      assert r[i] == bands[i] * gain;
      assert bands[i] * gain <= bands[i] * 1.0;
    }
  }

  predicate IntensitiesWithin(intensities: seq<Option<real>>, lo: real, hi: real) {
    forall i :: 0 <= i < |intensities| && intensities[i].Some? ==> lo <= intensities[i].value <= hi
  }

  /** Intensities from the sliders' range [0, 2] at most double a band. */
  lemma IntensityGainWithin(bands: seq<real>, intensities: seq<Option<real>>, hi: real)
    requires |intensities| == |bands|
    requires 0.0 <= hi
    requires Within(bands, 0.0, hi)
    requires IntensitiesWithin(intensities, 0.0, 2.0)
    ensures Within(ApplyIntensities(bands, intensities), 0.0, 2.0 * hi)
  {
    var r := ApplyIntensities(bands, intensities);
    forall i | 0 <= i < |bands|
      ensures 0.0 <= r[i] <= 2.0 * hi
    {
      GainAt(bands[i], intensities[i], hi);
    }
  }

  /** One band's intensity stage. */
  lemma GainAt(b: real, g: Option<real>, hi: real)
    requires 0.0 <= b <= hi
    requires g.Some? ==> 0.0 <= g.value <= 2.0
    ensures 0.0 <= (if g.Some? then b * g.value else b) <= 2.0 * hi
  {
    if g.Some? {
      var x := g.value;
      MulLeft(b, x, 2.0);
      MulLeft(2.0, b, hi);
      MulNonNegative(b, x);
      assert b * x <= b * 2.0;
      assert b * 2.0 == 2.0 * b;
      assert b * x <= 2.0 * hi;
    }
  }

  /** Bands whose intensity was never set pass through unchanged. */
  lemma UnsetIntensitiesKeepBands(bands: seq<real>, intensities: seq<Option<real>>)
    requires |intensities| == |bands|
    requires forall i :: 0 <= i < |intensities| ==> intensities[i].None?
    ensures ApplyIntensities(bands, intensities) == bands
  {
  }
}
