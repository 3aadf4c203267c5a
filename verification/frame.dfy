/** One animation frame of the analysis pipeline, in the two forms the
    program has: the frame loop that runs (logarithmic bands, smoothing at
    the default factor, transient detection, central objects, particles and
    their trails) and the
    extended analysis (quality gating, a selectable band mapping, the ADSR
    and per-band gains), which is defined but never called. */
module Frame {
  import opened Options
  import Bands
  import Smoothing
  import Transients
  import Envelope
  import Quality
  import Visual
  import Trails
  import Vectors

  /** What survives from one frame to the next: the smoothed bands and the
      transients' peak history, one entry per band, and every particle's
      trail. */
  datatype FrameState = FrameState(previous: seq<real>, peaks: seq<real>, trails: seq<seq<Trails.TrailPoint>>)

  /** Bands and peaks start as sixteen zeros, every trail as the default
      number of zero points. */
  function InitialState(): (st: FrameState)
    ensures WellFormed(st)
    ensures Bands.Within(st.previous, 0.0, 0.0) && Bands.Within(st.peaks, 0.0, 0.0)
    ensures forall i :: 0 <= i < Visual.ParticleCount ==> |st.trails[i]| == Trails.DefaultLength
  {
    FrameState(seq(Bands.BandCount, _ => 0.0), seq(Bands.BandCount, _ => 0.0),
               Trails.InitTrails(Visual.ParticleCount, Trails.DefaultLength))
  }

  predicate WellFormed(st: FrameState) {
    |st.previous| == Bands.BandCount && |st.peaks| == Bands.BandCount && |st.trails| == Visual.ParticleCount
  }

  /** The values a frame hands to the renderer, and the next state. */
  datatype FrameOutput = FrameOutput(
    smoothed: seq<real>,
    transients: seq<real>,
    central: Visual.Central,
    particles: seq<Visual.Particle>,
    next: FrameState)

  /** The point a particle leaves in its trail: where it is, in its colour. */
  function PointsOf(ps: seq<Visual.Particle>): (r: seq<Trails.TrailPoint>)
    ensures |r| == |ps|
  {
    seq(|ps|, i requires 0 <= i < |ps| => Trails.TrailPoint(ps[i].position, ps[i].color))
  }

  /** The visual stage of one frame: the central objects and every particle
      follow the smoothed bands and transients, and, when trails are on,
      every trail takes in its particle's new point. */
  function Render(cloud: Visual.Cloud, trailsOn: bool, smoothed: seq<real>, transients: seq<real>, trails: seq<seq<Trails.TrailPoint>>): (r: (Visual.Central, seq<Visual.Particle>, seq<seq<Trails.TrailPoint>>))
    requires Visual.ValidCloud(cloud) && |trails| == Visual.ParticleCount
    requires |smoothed| == Bands.BandCount && |transients| == Bands.BandCount
    ensures |r.1| == Visual.ParticleCount && |r.2| == Visual.ParticleCount
  {
    var particles := Visual.UpdateParticles(cloud, smoothed, transients);
    (Visual.CentralObjects(smoothed), particles,
     Trails.UpdateTrails(trailsOn, trails, PointsOf(particles), Trails.DefaultDecay))
  }

  /** The frame loop: bands from the logarithmic table, smoothed against the
      previous frame at the default factor, transients of the smoothed bands
      against the previous frame, then the visual stage; the smoothed bands
      become the previous frame. */
  function AnimateFrame(d: Transients.Detector, tanh: real -> real, cloud: Visual.Cloud, trailsOn: bool, data: seq<real>, sampleRate: nat, st: FrameState): (out: FrameOutput)
    requires d.threshold > 0.0 && sampleRate > 0 && WellFormed(st) && Visual.ValidCloud(cloud)
    ensures WellFormed(out.next) && |out.particles| == Visual.ParticleCount
    ensures out.next.previous == out.smoothed && out.next.peaks == out.transients
    ensures out.central == Visual.CentralObjects(out.smoothed)
    ensures out.particles == Visual.UpdateParticles(cloud, out.smoothed, out.transients)
    ensures !trailsOn ==> out.next.trails == st.trails
  {
    var bands := Bands.LogarithmicBands(data, sampleRate);
    var smoothed := Smoothing.Smooth(bands, st.previous, Smoothing.DefaultFactor);
    var detection := Transients.Detect(d, tanh, smoothed, st.previous, st.peaks);
    var (central, particles, trails) := Render(cloud, trailsOn, smoothed, detection.transients, st.trails);
    FrameOutput(smoothed, detection.transients, central, particles, FrameState(smoothed, detection.peakHistory, trails))
  }

  /** Each particle is the one its band and transient place, and with trails
      on it heads its own trail while every older point moves one slot back,
      faded by the default decay. */
  lemma AnimateFrameFeedsTrails(d: Transients.Detector, tanh: real -> real, cloud: Visual.Cloud, trailsOn: bool, data: seq<real>, sampleRate: nat, st: FrameState, i: nat)
    requires d.threshold > 0.0 && sampleRate > 0 && WellFormed(st) && Visual.ValidCloud(cloud)
    requires i < Visual.ParticleCount
    ensures var out := AnimateFrame(d, tanh, cloud, trailsOn, data, sampleRate, st);
      out.particles[i] == Visual.UpdateParticle(i, cloud.rest[i], cloud.norms[i], out.smoothed, out.transients)
      && out.central == Visual.CentralObjects(out.smoothed)
    ensures var out := AnimateFrame(d, tanh, cloud, trailsOn, data, sampleRate, st);
      trailsOn && |st.trails[i]| > 0 ==>
        out.next.trails[i][0] == Trails.TrailPoint(out.particles[i].position, out.particles[i].color)
    ensures var out := AnimateFrame(d, tanh, cloud, trailsOn, data, sampleRate, st);
      trailsOn ==> (|out.next.trails[i]| == |st.trails[i]|
        && forall j :: 1 <= j < |st.trails[i]| ==> out.next.trails[i][j] == Trails.Fade(st.trails[i][j - 1], Trails.DefaultDecay))
  {
    var out := AnimateFrame(d, tanh, cloud, trailsOn, data, sampleRate, st);
    var points := PointsOf(out.particles);
    assert out.next.trails == Trails.UpdateTrails(trailsOn, st.trails, points, Trails.DefaultDecay);
    if trailsOn {
      assert out.next.trails[i] == Trails.Shift(st.trails[i], points[i], Trails.DefaultDecay);
      Trails.ShiftSlots(st.trails[i], points[i], Trails.DefaultDecay);
    }
  }

  /** What the frame loop keeps true: previous bands in the byte range and
      peaks in [0, 1). */
  predicate Bounded(st: FrameState, hi: real) {
    WellFormed(st) && Bands.Within(st.previous, 0.0, hi)
    && (forall i :: 0 <= i < |st.peaks| ==> 0.0 <= st.peaks[i] < 1.0)
  }

  /** Byte-range magnitudes keep the frame state bounded, so every smoothed
      band is a byte value and every transient lies in [0, 1), and every
      particle sits between its rest distance and half a unit beyond it. */
  lemma AnimateFrameBounded(d: Transients.Detector, tanh: real -> real, cloud: Visual.Cloud, trailsOn: bool, data: seq<real>, sampleRate: nat, st: FrameState)
    requires Transients.SoftClip(tanh)
    requires d.threshold > 0.0 && 0.0 <= d.sensitivity && 0.0 <= d.decayRate <= 1.0
    requires sampleRate > 0 && Bands.InByteRange(data)
    requires Bounded(st, 255.0)
    requires Visual.ValidCloud(cloud)
    ensures Bounded(AnimateFrame(d, tanh, cloud, trailsOn, data, sampleRate, st).next, 255.0)
    ensures Bands.InByteRange(AnimateFrame(d, tanh, cloud, trailsOn, data, sampleRate, st).smoothed)
  {
    var bands := Bands.LogarithmicBands(data, sampleRate);
    Bands.LogarithmicBandsWithin(data, sampleRate);
    Smoothing.SmoothWithin(bands, st.previous, Smoothing.DefaultFactor, 0.0, 255.0);
    var smoothed := Smoothing.Smooth(bands, st.previous, Smoothing.DefaultFactor);
    Transients.DetectWithin(d, tanh, smoothed, st.previous, st.peaks);
  }

  /** Under the same conditions every particle sits between its rest
      distance and half a unit beyond it. */
  lemma AnimateFrameParticlesNear(d: Transients.Detector, tanh: real -> real, cloud: Visual.Cloud, trailsOn: bool, data: seq<real>, sampleRate: nat, st: FrameState, i: nat)
    requires Transients.SoftClip(tanh)
    requires d.threshold > 0.0 && 0.0 <= d.sensitivity && 0.0 <= d.decayRate <= 1.0
    requires sampleRate > 0 && Bands.InByteRange(data)
    requires Bounded(st, 255.0)
    requires Visual.ValidCloud(cloud) && i < Visual.ParticleCount
    ensures var p := AnimateFrame(d, tanh, cloud, trailsOn, data, sampleRate, st).particles[i];
      cloud.norms[i] * cloud.norms[i] <= Vectors.NormSquared(p.position) <= (cloud.norms[i] + 0.5) * (cloud.norms[i] + 0.5)
  {
    var out := AnimateFrame(d, tanh, cloud, trailsOn, data, sampleRate, st);
    AnimateFrameBounded(d, tanh, cloud, trailsOn, data, sampleRate, st);
    assert Bands.Within(out.transients, 0.0, 1.0);
    Visual.ParticlesNear(cloud, out.smoothed, out.transients, i);
  }

  /** A frame of silence after silence changes nothing but the decay of the
      peaks. */
  lemma SilenceAfterSilence(d: Transients.Detector, tanh: real -> real, cloud: Visual.Cloud, trailsOn: bool, data: seq<real>, sampleRate: nat, st: FrameState)
    requires d.threshold > 0.0 && sampleRate > 0 && WellFormed(st) && Visual.ValidCloud(cloud)
    requires Bands.Within(data, 0.0, 0.0) && Bands.Within(st.previous, 0.0, 0.0)
    requires forall i :: 0 <= i < |st.peaks| ==> 0.0 <= st.peaks[i]
    ensures AnimateFrame(d, tanh, cloud, trailsOn, data, sampleRate, st).smoothed == st.previous
    ensures forall i :: 0 <= i < Bands.BandCount ==>
      AnimateFrame(d, tanh, cloud, trailsOn, data, sampleRate, st).transients[i] == Max(0.0, st.peaks[i] * d.decayRate)
  {
    SilentSmooth(data, sampleRate, st.previous);
    var out := AnimateFrame(d, tanh, cloud, trailsOn, data, sampleRate, st);
    assert out.transients == Transients.Detect(d, tanh, st.previous, st.previous, st.peaks).transients;
    forall i | 0 <= i < Bands.BandCount
      ensures out.transients[i] == Max(0.0, st.peaks[i] * d.decayRate)
    {
      SteadyTransientAt(d, tanh, st.previous, st.peaks, i);
    }
  }

  lemma SilentSmooth(data: seq<real>, sampleRate: nat, previous: seq<real>)
    requires sampleRate > 0 && |previous| == Bands.BandCount
    requires Bands.Within(data, 0.0, 0.0) && Bands.Within(previous, 0.0, 0.0)
    ensures Smoothing.Smooth(Bands.LogarithmicBands(data, sampleRate), previous, Smoothing.DefaultFactor) == previous
  {
    var bands := Bands.LogarithmicBands(data, sampleRate);
    Bands.LogarithmicBandsBetween(data, sampleRate, 0.0, 0.0);
    SilentFramesEqual(bands, previous);
    Smoothing.SteadyFrameIsFixedPoint(previous, Smoothing.DefaultFactor);
  }

  lemma SteadyTransientAt(d: Transients.Detector, tanh: real -> real, frame: seq<real>, peaks: seq<real>, i: nat)
    requires d.threshold > 0.0 && |peaks| == |frame| && i < |frame|
    ensures Transients.Detect(d, tanh, frame, frame, peaks).transients[i] == Max(0.0, peaks[i] * d.decayRate)
  {
    Transients.DetectAt(d, tanh, frame, frame, peaks, i);
  }

  lemma SilentFramesEqual(a: seq<real>, b: seq<real>)
    requires |a| == |b| && Bands.Within(a, 0.0, 0.0) && Bands.Within(b, 0.0, 0.0)
    ensures a == b
  {
    forall i | 0 <= i < |a|
      ensures a[i] == b[i]
    {
    }
  }

  /** The settings of the extended analysis. */
  datatype Config = Config(
    mapping: string,
    smoothingFactor: real,
    detector: Transients.Detector,
    adsr: Envelope.Settings,
    melRanges: seq<Bands.HzRange>,
    intensities: seq<Option<real>>)

  predicate ValidConfig(c: Config) {
    c.detector.threshold > 0.0
    && |c.melRanges| == Bands.BandCount && Bands.NonNegativeRanges(c.melRanges)
    && |c.intensities| == Bands.BandCount
  }

  datatype AdvancedState = AdvancedState(frame: FrameState, envelope: Envelope.Adsr, quality: Quality.Controller)

  /** A quality change rebuilds every trail as zero points of the new
      level's length; otherwise the trails are kept. */
  function TrailsAfterTick(before: Quality.Controller, after: Quality.Controller, trails: seq<seq<Trails.TrailPoint>>): (r: seq<seq<Trails.TrailPoint>>)
    requires |trails| == Visual.ParticleCount
    ensures |r| == Visual.ParticleCount
    ensures after.level == before.level ==> r == trails
    ensures after.level != before.level ==>
      forall i :: 0 <= i < Visual.ParticleCount ==> (|r[i]| == after.trailLength
        && forall j :: 0 <= j < after.trailLength ==> r[i][j] == Trails.TrailPoint(Vectors.Zero, Vectors.Zero))
  {
    if after.level == before.level then trails else Trails.InitTrails(Visual.ParticleCount, after.trailLength)
  }

  /** The extended analysis at time `now` (ms). The quality controller
      ticks first, and a change of level rebuilds the trails. A frame the
      controller skips goes no further. Otherwise the bands are aggregated,
      scaled by the envelope's updated value and by the set intensities,
      smoothed at the configured factor, their transients detected, and the
      visual stage run on them. None stands for the linear mapping on fewer
      than 16 bins, where every band is 0 / 0. */
  function AdvancedFrame(c: Config, tanh: real -> real, cloud: Visual.Cloud, trailsOn: bool, data: seq<real>, sampleRate: nat, now: real, st: AdvancedState): (r: Option<AdvancedState>)
    requires ValidConfig(c) && sampleRate > 0 && WellFormed(st.frame) && Visual.ValidCloud(cloud)
    requires Envelope.StepDefined(st.envelope.phase, c.adsr)
    ensures r.None? <==> Quality.Update(st.quality, now).proceed && c.mapping == "linear" && |data| < Bands.BandCount
    ensures r.Some? ==> WellFormed(r.value.frame) && r.value.quality == Quality.Update(st.quality, now).next
    ensures r.Some? && !Quality.Update(st.quality, now).proceed ==>
      r.value.frame.previous == st.frame.previous && r.value.frame.peaks == st.frame.peaks && r.value.envelope == st.envelope
      && r.value.frame.trails == TrailsAfterTick(st.quality, Quality.Update(st.quality, now).next, st.frame.trails)
  {
    var tick := Quality.Update(st.quality, now);
    var trails := TrailsAfterTick(st.quality, tick.next, st.frame.trails);
    if !tick.proceed then Some(AdvancedState(st.frame.(trails := trails), st.envelope, tick.next))
    else
      match Bands.Aggregate(c.mapping, data, sampleRate, c.melRanges)
      case None => None
      case Some(bands) =>
        var envelope := Envelope.Update(st.envelope, c.adsr, now);
        var gained := Bands.ApplyIntensities(Bands.ApplyEnvelope(bands, envelope.value), c.intensities);
        var smoothed := Smoothing.Smooth(gained, st.frame.previous, c.smoothingFactor);
        var detection := Transients.Detect(c.detector, tanh, smoothed, st.frame.previous, st.frame.peaks);
        var (_, _, trails') := Render(cloud, trailsOn, smoothed, detection.transients, trails);
        Some(AdvancedState(FrameState(smoothed, detection.peakHistory, trails'), envelope, tick.next))
  }

  /** With sane envelope settings, an envelope value in [0, 1], a clock that
      does not run backwards and intensities in [0, 2], byte-range magnitudes
      keep every previous band in [0, 510], every peak in [0, 1), the
      envelope value in [0, 1] and the controller consistent. The envelope's
      phase need not match the settings, as after an ADSR slider move. */
  lemma AdvancedFrameBounded(c: Config, tanh: real -> real, cloud: Visual.Cloud, trailsOn: bool, data: seq<real>, sampleRate: nat, now: real, st: AdvancedState)
    requires ValidConfig(c) && sampleRate > 0 && Visual.ValidCloud(cloud)
    requires Transients.SoftClip(tanh)
    requires 0.0 <= c.detector.sensitivity && 0.0 <= c.detector.decayRate <= 1.0
    requires 0.0 <= c.smoothingFactor <= 1.0
    requires Envelope.Sane(c.adsr) && 0.0 <= st.envelope.value <= 1.0 && st.envelope.lastUpdate <= now
    requires Bands.IntensitiesWithin(c.intensities, 0.0, 2.0)
    requires Quality.Consistent(st.quality)
    requires Bands.InByteRange(data)
    requires Bounded(st.frame, 2.0 * 255.0)
    ensures var r := AdvancedFrame(c, tanh, cloud, trailsOn, data, sampleRate, now, st);
      r.Some? ==> (Bounded(r.value.frame, 2.0 * 255.0)
        && 0.0 <= r.value.envelope.value <= 1.0
        && Quality.Consistent(r.value.quality))
  {
    Quality.UpdateConsistent(st.quality, now);
    var tick := Quality.Update(st.quality, now);
    if tick.proceed {
      Bands.AggregateWithin(c.mapping, data, sampleRate, c.melRanges);
      var aggregated := Bands.Aggregate(c.mapping, data, sampleRate, c.melRanges);
      if aggregated.Some? {
        var bands := aggregated.value;
        Envelope.UpdateWithin(st.envelope, c.adsr, now);
        var envelope := Envelope.Update(st.envelope, c.adsr, now);
        Bands.EnvelopeGainWithin(bands, envelope.value, 255.0);
        var enveloped := Bands.ApplyEnvelope(bands, envelope.value);
        Bands.IntensityGainWithin(enveloped, c.intensities, 255.0);
        var gained := Bands.ApplyIntensities(enveloped, c.intensities);
        Smoothing.SmoothWithin(gained, st.frame.previous, c.smoothingFactor, 0.0, 2.0 * 255.0);
        var smoothed := Smoothing.Smooth(gained, st.frame.previous, c.smoothingFactor);
        Transients.DetectWithin(c.detector, tanh, smoothed, st.frame.previous, st.frame.peaks);
      }
    }
  }

  /** While the ADSR settings stay as they are, an envelope consistent with
      them stays consistent across an extended-analysis frame. */
  lemma AdvancedFrameConsistent(c: Config, tanh: real -> real, cloud: Visual.Cloud, trailsOn: bool, data: seq<real>, sampleRate: nat, now: real, st: AdvancedState)
    requires ValidConfig(c) && sampleRate > 0 && Visual.ValidCloud(cloud) && WellFormed(st.frame)
    requires Envelope.Sane(c.adsr) && Envelope.Consistent(st.envelope, c.adsr) && st.envelope.lastUpdate <= now
    ensures var r := AdvancedFrame(c, tanh, cloud, trailsOn, data, sampleRate, now, st);
      r.Some? ==> Envelope.Consistent(r.value.envelope, c.adsr)
  {
    if Quality.Update(st.quality, now).proceed {
      Envelope.UpdateConsistent(st.envelope, c.adsr, now);
    }
  }
}
