# Audio particle simulator: the analysis core in Dafny

This project models the audio-reactive analysis pipeline of the particle
simulator's third phase (`AudioParticleSimulator_FASE_3_ATUAL/script.js`).
Each frame, the analyser's frequency magnitudes (one byte-range value per FFT
bin) go through these stages:

- **Band aggregation.** The magnitudes become sixteen band energies. This uses
  the fixed logarithmic band table, Mel-spaced Hz ranges, or sixteen equal
  linear blocks.
- **Gains.** The bands are scaled by the ADSR envelope and by per-band
  intensities.
- **Smoothing.** Each band is smoothed against the previous frame.
- **Transient detection.** Transients are detected against the previous frame
  and a decaying peak history.
- **Visual mapping.** The bands and transients drive:
  - the 400 particles, each following one band;
  - the central cube and ring;
  - the per-particle trails.
- **Quality controller.** An adaptive controller measures the frame rate once
  a second and steps a High/Medium/Low quality level.

Everything is functional: sequences of `real`, datatypes for the envelope
phase and the quality level, and pure step functions. Time is explicit:

- `Envelope.Update` and `Quality.Update` take the clock reading `now` in
  milliseconds.
- `Envelope.Advance` takes the elapsed seconds.

The hyperbolic tangent is a function parameter. `Transients.SoftClip` states
all that the model relies on about it: it is 0 at 0 and maps positive numbers
into (0, 1).

## Modules

| file | module | what it holds |
|---|---|---|
| options.dfy | `Options` | `Option`, `Max`, `Min` |
| arith.dfy | `Arith` | small real and integer inequalities used by the proofs |
| bands.dfy | `Bands` | the band table, the inclusive range mean, the logarithmic, Mel and linear mappings, the gain stages |
| smoothing.dfy | `Smoothing` | temporal smoothing |
| transients.dfy | `Transients` | transient detection and the decay of quiet frames |
| envelope.dfy | `Envelope` | the four-phase ADSR machine |
| quality.dfy | `Quality` | the adaptive quality controller |
| vectors.dfy | `Vectors` | three-component vectors for positions and colours |
| trails.dfy | `Trails` | the trail ring of every particle |
| visual.dfy | `Visual` | the particle partition, band colours, particle updates and central objects |
| frame.dfy | `Frame` | the two frame pipelines: `AnimateFrame` and `AdvancedFrame` |

## How the model reads the code

These points follow the code where a plain description of the program would
say otherwise:

- **`animate` is the only pipeline that runs** (lines 235-277). It uses:
  - the logarithmic bands;
  - smoothing at the default factor 0.7, not `CONFIG.smoothingFactor`;
  - transients;
  - the central objects, the particles and the trails.

  It applies no envelope, no intensities and no quality gating.
  `advancedAudioAnalysis` (lines 800-877) is defined but never called. Both
  are modelled: `Frame.AnimateFrame` and `Frame.AdvancedFrame`.
- **Neighbouring bands share their edge bin.** A band's end bin is inclusive,
  so that bin is counted in both bands (`Bands.LogBinEdges`).
- **A repeated frame does not give transient 0.** When the smoothed band did
  not rise, the transient is the previous transient times the decay rate, not
  0. A frame identical to the last one therefore carries `peak * decayRate`
  (`Transients.RepeatedFrameOnlyDecays`). Over any run of frames in which a
  band never rises, its transient is multiplied by the decay rate once per
  frame (`Transients.QuietFramesDecay`). It only falls below a given epsilon
  after a number of such frames that the model computes
  (`Transients.TransientSettles`). With the program's detector, a transient
  below 1 needs 29 such frames to fall below 0.01
  (`Transients.DefaultTransientFades`).
- **Nothing clamps the elapsed time of the envelope.** A clock reading earlier
  than the last update gives a negative step. The bounds are therefore proved
  under `lastUpdate <= now`.
- **Release falls in proportion to the sustain level, not the current
  value** (`dt / release * sustain` per step).
  - From a value above the sustain level, release takes longer than the
    release time.
  - With sustain 0, release never lowers the value at all
    (`Envelope.ReleaseStallsWithoutSustain`).
- **The quality controller never counts its frame skip down.**
  - Below High, every frame reports "skip" until the level returns to High
    (`Quality.ProceedOnlyAtHigh`, `Quality.SkippedUntilHigh`).
  - Its window starts at time 0 with a count of 0. The first update a second
    or more into the clock therefore measures 1 frame per second and drops to
    Medium (`Quality.FirstUpdateLowers`).
  - The level's particle count is recorded but never applied.
- **Bin edges are computed in exact integer arithmetic.** For the integer-Hz
  band table, `floor(f / (sampleRate / 2) * L)` equals `(2 * f * L) /
  sampleRate` in integers. The model uses this form, with the sample rate as a
  positive integer.
- **The linear mapping can divide 0 by 0.** Its block width is
  `floor(L / 16)`, which is 0 for fewer than sixteen bins. Every band is then
  0 / 0. The model gives `None` there.

## Model

| member | source | states |
|---|---|---|
| Bands.BinRangeMean | AudioParticleSimulator_FASE_3_ATUAL/script.js:637-645 | The scan returns the mean of the bins from the start bin to the end bin inclusive, cut off at the array's end. It returns 0 when no bin is in range. |
| Bands.MeanWithin | AudioParticleSimulator_FASE_3_ATUAL/script.js:637-645 | The mean of a bin range never leaves an interval that holds every magnitude and 0 (0 being an empty range's value). |
| Bands.MeanOfConstant | AudioParticleSimulator_FASE_3_ATUAL/script.js:637-645 | Bins that all hold v average to exactly v, whatever the width of the range. |
| Bands.LogarithmicBands | AudioParticleSimulator_FASE_3_ATUAL/script.js:672-689 | One frame's logarithmic mapping always has sixteen bands, whatever the number of bins. |
| Bands.LogBinEdges | AudioParticleSimulator_FASE_3_ATUAL/script.js:676-682 | For every sample rate and bin count, each band's bin range is in order. A band's inclusive end bin is the next band's start bin, so that edge bin counts in both. |
| Bands.LogarithmicBandsWithin | AudioParticleSimulator_FASE_3_ATUAL/script.js:672-689 | Byte-range magnitudes give byte-range logarithmic bands. |
| Bands.LogarithmicBandsBetween | AudioParticleSimulator_FASE_3_ATUAL/script.js:680-686 | Any bound that contains 0 and holds of the magnitudes holds of every logarithmic band. In particular silence gives sixteen zeros. |
| Bands.LogarithmicBandOfConstant | AudioParticleSimulator_FASE_3_ATUAL/script.js:678-686 | A band whose bins all hold v, with its start bin inside the array, has energy v. |
| Bands.RealHzToBinNonNegative | AudioParticleSimulator_FASE_3_ATUAL/script.js:720-721 | A non-negative frequency maps to a non-negative bin index. |
| Bands.MelBands | AudioParticleSimulator_FASE_3_ATUAL/script.js:704-733 | The Mel mapping gives sixteen bands for any array of bins. |
| Bands.MelBandsWithin | AudioParticleSimulator_FASE_3_ATUAL/script.js:720-729 | Byte-range magnitudes give byte-range Mel bands for any non-negative Hz ranges. |
| Bands.LinearBands | AudioParticleSimulator_FASE_3_ATUAL/script.js:823-834 | The linear mapping is undefined (0 / 0) exactly when there are fewer than sixteen bins. Otherwise it gives sixteen bands. |
| Bands.BlockSumInside | AudioParticleSimulator_FASE_3_ATUAL/script.js:829-831 | Inside the array, the fallback to 0 for a missing bin never fires, and a block's sum is the plain sum of its bins. |
| Bands.LinearBandsAreRangeMeans | AudioParticleSimulator_FASE_3_ATUAL/script.js:826-833 | With at least sixteen bins, linear band i is the inclusive-range mean of bins i*w to i*w + w - 1 (w = floor(L/16)). This is the same aggregation as the logarithmic bands. |
| Bands.LinearBandsWithin | AudioParticleSimulator_FASE_3_ATUAL/script.js:826-833 | With at least sixteen bins, byte-range magnitudes give byte-range linear bands. |
| Bands.Aggregate | AudioParticleSimulator_FASE_3_ATUAL/script.js:819-837 | The mapping switch fails only for "linear" on fewer than sixteen bins. Every other mode, unknown ones included, gives sixteen bands. |
| Bands.AggregateWithin | AudioParticleSimulator_FASE_3_ATUAL/script.js:819-837 | Whichever mapping is selected, byte-range magnitudes give byte-range bands. |
| Bands.EnvelopeGainWithin | AudioParticleSimulator_FASE_3_ATUAL/script.js:840-843 | An envelope value in [0, 1] never lifts a band above its bound, nor below 0. |
| Bands.IntensityGainWithin | AudioParticleSimulator_FASE_3_ATUAL/script.js:846-851 | Intensities in the sliders' range [0, 2] at most double a band's bound. |
| Bands.UnsetIntensitiesKeepBands | AudioParticleSimulator_FASE_3_ATUAL/script.js:846-851 | Bands with no intensity set pass through unchanged. |
| Smoothing.SmoothFrame | AudioParticleSimulator_FASE_3_ATUAL/script.js:656-663 | The loop keeps the frame's length. Factor 0 returns the current frame and factor 1 the previous one. |
| Smoothing.FactorZeroKeepsCurrent | AudioParticleSimulator_FASE_3_ATUAL/script.js:659-660 | Smoothing at factor 0 ignores the previous frame. |
| Smoothing.FactorOneKeepsPrevious | AudioParticleSimulator_FASE_3_ATUAL/script.js:659-660 | Smoothing at factor 1 ignores the current frame. |
| Smoothing.SteadyFrameIsFixedPoint | AudioParticleSimulator_FASE_3_ATUAL/script.js:656-663 | A frame equal to the previous one is left unchanged, at every factor. |
| Smoothing.SmoothedBetween | AudioParticleSimulator_FASE_3_ATUAL/script.js:659-660 | For a factor in [0, 1], every smoothed band lies between its previous and current values. |
| Smoothing.SmoothWithin | AudioParticleSimulator_FASE_3_ATUAL/script.js:656-663 | A bound shared by both frames holds of the smoothed frame. |
| Transients.Detect | AudioParticleSimulator_FASE_3_ATUAL/script.js:994-1017 | One transient per band, and the peak history left for the next frame is exactly this frame's transients. |
| Transients.DetectRanges | AudioParticleSimulator_FASE_3_ATUAL/script.js:1002-1010 | A band that rose gets a strength in (0, 1). A band that did not rise gets a value between 0 and its previous peak. |
| Transients.DetectWithin | AudioParticleSimulator_FASE_3_ATUAL/script.js:994-1017 | Peaks in [0, 1) stay in [0, 1) after any frame. |
| Transients.RepeatedFrameOnlyDecays | AudioParticleSimulator_FASE_3_ATUAL/script.js:1007-1013 | The same smoothed frame twice gives every band its previous transient times the decay rate. It does not give 0. |
| Transients.QuietFrameDecayAt | AudioParticleSimulator_FASE_3_ATUAL/script.js:1007-1013 | Take any n frames, each with its own smoothed bands and previous bands, in which band i never rises. A non-negative peak of band i ends up multiplied by the decay rate n times, whatever the other bands do. |
| Transients.QuietFramesDecay | AudioParticleSimulator_FASE_3_ATUAL/script.js:1007-1013 | The same holds for every band at once when no band rises in any of the frames. |
| Transients.DecayedIsPower | AudioParticleSimulator_FASE_3_ATUAL/script.js:1009 | Decaying n times is multiplying by decayRate to the power n. |
| Transients.DecayedAntitone | AudioParticleSimulator_FASE_3_ATUAL/script.js:1009 | With a decay rate in [0, 1], more decay steps never leave a larger peak. |
| Transients.QuietFrameLowers | AudioParticleSimulator_FASE_3_ATUAL/script.js:1009-1013 | In a run of frames where band i never rises, with a decay rate in [0, 1], the last frame never raises band i's transient. With a rate in (0, 1), it strictly lowers a positive one. |
| Transients.TransientSettles | AudioParticleSimulator_FASE_3_ATUAL/script.js:1007-1013 | For a decay rate below 1, band i's transient falls below any epsilon once band i has not risen for a computed number of frames. The frames may differ from each other. |
| Transients.DefaultDetectorFits | AudioParticleSimulator_FASE_3_ATUAL/script.js:93-98 | The program's detector has a positive threshold, a non-negative sensitivity and a decay rate in [0, 1), as the bounds above require. |
| Transients.DecayedBelow | AudioParticleSimulator_FASE_3_ATUAL/script.js:1009 | A peak below 1 stays below any bound that the decay rate's m-th power is below, from step m on. |
| Transients.DefaultTransientFades | AudioParticleSimulator_FASE_3_ATUAL/script.js:93-98 | With the program's decay rate 0.85, a transient below 1 is under 0.01 after 29 frames in which its band does not rise. |
| Envelope.Advance | AudioParticleSimulator_FASE_3_ATUAL/script.js:752-779 | Each step moves a phase only to its successor: <br>• Attack clamps at 1 and is in Decay exactly when the value is 1. <br>• Decay clamps at sustain and is in Sustain exactly when the value is the sustain level. <br>• Sustain holds the sustain level. <br>• Release stays in Release and never goes below 0. |
| Envelope.Update | AudioParticleSimulator_FASE_3_ATUAL/script.js:747-781 | Reading the clock makes it the last update, and the phase moves at most one step along the machine. |
| Envelope.Trigger | AudioParticleSimulator_FASE_3_ATUAL/script.js:784-787 | Note on enters Attack from the current value, not from 0, and restarts the clock. |
| Envelope.ReleaseNote | AudioParticleSimulator_FASE_3_ATUAL/script.js:789-791 | Note off enters Release without changing the value or the clock. |
| Envelope.DefaultSane | AudioParticleSimulator_FASE_3_ATUAL/script.js:738-743 | The program's ADSR settings have positive times and a sustain level in [0, 1]. |
| Envelope.InitialConsistent | AudioParticleSimulator_FASE_3_ATUAL/script.js:736-745 | The initial releasing, silent envelope satisfies the phase invariant. |
| Envelope.AdvanceConsistent | AudioParticleSimulator_FASE_3_ATUAL/script.js:752-779 | With positive times, sustain in [0, 1] and a non-negative step, the value stays in [0, 1]. Decay stays at or above sustain, and Sustain holds it exactly. |
| Envelope.UpdateConsistent | AudioParticleSimulator_FASE_3_ATUAL/script.js:747-781 | The same invariant holds across a clock reading no earlier than the last one. |
| Envelope.TriggerConsistent | AudioParticleSimulator_FASE_3_ATUAL/script.js:784-787 | Note on keeps the invariant. |
| Envelope.ReleaseConsistent | AudioParticleSimulator_FASE_3_ATUAL/script.js:789-791 | Note off keeps the invariant. |
| Envelope.AdvanceWithin | AudioParticleSimulator_FASE_3_ATUAL/script.js:752-779 | With sane settings and a non-negative step, a value in [0, 1] stays in [0, 1] in every phase, even when the phase was reached under other settings. |
| Envelope.UpdateWithin | AudioParticleSimulator_FASE_3_ATUAL/script.js:747-781 | The same across a clock reading no earlier than the last one. |
| Envelope.SliderLeavesSustain | AudioParticleSimulator_FASE_3_ATUAL/script.js:1451-1461 | A sustaining envelope at 0.7 meets the phase invariant under the program's settings but not after the sustain slider moves to 0.5. |
| Envelope.AdvanceMonotone | AudioParticleSimulator_FASE_3_ATUAL/script.js:752-779 | While the envelope is consistent with the current settings, a forward step in attack never lowers the value, and a step in decay, sustain or release never raises it. |
| Envelope.NoReturnToAttack | AudioParticleSimulator_FASE_3_ATUAL/script.js:752-779 | Once out of Attack, no number of steps returns to it; only a trigger does. |
| Envelope.AttackRamp | AudioParticleSimulator_FASE_3_ATUAL/script.js:753-759 | While below 1, attack rises by dt / attack per step. After n steps the value is v + n*dt/attack. |
| Envelope.AttackEnds | AudioParticleSimulator_FASE_3_ATUAL/script.js:754-758 | Once that ramp would reach 1, attack has ended. |
| Envelope.AttackValue | AudioParticleSimulator_FASE_3_ATUAL/script.js:753-759 | Whenever the envelope is still in Attack after k steps, its value is the ramp v + k*dt/attack. |
| Envelope.ReleaseRun | AudioParticleSimulator_FASE_3_ATUAL/script.js:773-778 | n release steps give max(0, v - n*dt/release*sustain), staying in Release. |
| Envelope.ReleaseStallsWithoutSustain | AudioParticleSimulator_FASE_3_ATUAL/script.js:773-778 | With sustain 0, release keeps the value where it was. |
| Quality.SettingsOf | AudioParticleSimulator_FASE_3_ATUAL/script.js:1225-1241 | Every level updates at least every third frame and keeps at most the full particle count. Only High updates every frame. |
| Quality.Lower | AudioParticleSimulator_FASE_3_ATUAL/script.js:1265-1273 | Lowering moves one step toward Low and stays at Low. |
| Quality.Higher | AudioParticleSimulator_FASE_3_ATUAL/script.js:1275-1283 | Raising moves one step toward High and stays at High. |
| Quality.LowerHigherInverse | AudioParticleSimulator_FASE_3_ATUAL/script.js:1265-1283 | Away from the ends, lowering and raising undo each other. |
| Quality.Apply | AudioParticleSimulator_FASE_3_ATUAL/script.js:1285-1290 | Applying a level sets the frame skip to its update frequency minus one and the trail length to its trail length. The measuring window is left alone. |
| Quality.Decrease | AudioParticleSimulator_FASE_3_ATUAL/script.js:1265-1273 | At Low nothing changes; otherwise the next lower level is applied. |
| Quality.Increase | AudioParticleSimulator_FASE_3_ATUAL/script.js:1275-1283 | At High nothing changes; otherwise the next higher level is applied. |
| Quality.Update | AudioParticleSimulator_FASE_3_ATUAL/script.js:1245-1263 | Each call does one of two things: <br>• Within a second it only counts the frame. <br>• After a second it records the rate and restarts the window. <br>The level moves at most one step, and lowers (raises) exactly when the rate is too slow (fast enough) and the level is not already at the end. After a change, the frame skip and trail length are the new level's. The answer is "proceed" exactly when the frame skip is 0. |
| Quality.InitialConsistent | AudioParticleSimulator_FASE_3_ATUAL/script.js:1220-1243 | The controller starts with High's frame skip and trail length. |
| Quality.UpdateConsistent | AudioParticleSimulator_FASE_3_ATUAL/script.js:1245-1290 | Every update keeps the frame skip and trail length those of the current level. |
| Quality.ProceedOnlyAtHigh | AudioParticleSimulator_FASE_3_ATUAL/script.js:1245-1290 | Since the frame skip is never counted down, a frame proceeds exactly when the level after the update is High. |
| Quality.SkippedUntilHigh | AudioParticleSimulator_FASE_3_ATUAL/script.js:1245-1290 | Over any sequence of clock readings, frame k proceeds exactly when the level after it is High. |
| Quality.FirstUpdateLowers | AudioParticleSimulator_FASE_3_ATUAL/script.js:1220-1263 | From the initial controller, the first update a second or more into the clock drops to Medium and skips the frame. |
| Quality.SlowSecondLowers | AudioParticleSimulator_FASE_3_ATUAL/script.js:1249-1256 | At High with a 30 fps target, a second of fewer than 21 frames drops to Medium, with trail length 10 and frames skipped. |
| Quality.FastSecondRaises | AudioParticleSimulator_FASE_3_ATUAL/script.js:1249-1258 | At Low with a 30 fps target, a second of more than 39 frames rises to Medium, which still skips frames. |
| Quality.WindowKeepsLevel | AudioParticleSimulator_FASE_3_ATUAL/script.js:1245-1262 | Frames within one measuring window only add to the count. Level, frame skip and trail length stay. |
| Trails.ShiftSlots | AudioParticleSimulator_FASE_3_ATUAL/script.js:1075-1092 | After a shift: <br>• Slot 0 is the particle's current point. <br>• Slot j holds the old slot j-1's position, with its colour times the decay. <br>• The old last slot is gone. |
| Trails.ShiftInPlace | AudioParticleSimulator_FASE_3_ATUAL/script.js:1075-1092 | The descending in-place copy loop, then the write of slot 0, produce exactly that shifted trail. |
| Trails.FeedHistory | AudioParticleSimulator_FASE_3_ATUAL/script.js:1063-1097 | After m frames, slot j holds the point of j frames ago, faded j times. Older slots hold the original trail moved back m slots and faded m times. |
| Trails.FeedForgets | AudioParticleSimulator_FASE_3_ATUAL/script.js:1063-1097 | After as many frames as slots, the trail no longer depends on its starting contents. |
| Trails.InitTrails | AudioParticleSimulator_FASE_3_ATUAL/script.js:1039-1060 | Initialisation gives every particle a trail of the configured length, every slot at the origin and black. |
| Trails.UpdateTrails | AudioParticleSimulator_FASE_3_ATUAL/script.js:1063-1097 | Disabled trails are untouched. Every trail keeps its length. |
| Trails.UpdateTrailsFront | AudioParticleSimulator_FASE_3_ATUAL/script.js:1085-1092 | With trails enabled, each particle's trail starts with that particle's own current point. |
| Visual.BandPartition | AudioParticleSimulator_FASE_3_ATUAL/script.js:897-900 | For a particle count divisible by 16, every particle's band exists. Band b is followed by exactly particles b*k to b*k + k - 1. |
| Visual.DefaultPartition | AudioParticleSimulator_FASE_3_ATUAL/script.js:897-900 | With 400 particles there are 25 per band, and particle i follows band floor(i/25) in 0..15. |
| Visual.AmplitudeWithin | AudioParticleSimulator_FASE_3_ATUAL/script.js:901 | A byte-range band is an amplitude in [0, 1]. |
| Visual.MappingWithin | AudioParticleSimulator_FASE_3_ATUAL/script.js:912-921 | For amplitude and transient in [0, 1], the displacement is in [0.2*amplitude, 0.5] and the colour factor in [0.3, 1.3]. |
| Visual.DisplacementGrowsWithTransient | AudioParticleSimulator_FASE_3_ATUAL/script.js:912-921 | A stronger transient never shrinks the displacement or the colour factor. |
| Visual.DisplaceRadially | AudioParticleSimulator_FASE_3_ATUAL/script.js:909-917 | The displaced particle lies on the ray through its rest position, at distance rest length + displacement. A particle resting at the centre stays there. |
| Visual.UpdateParticleDistance | AudioParticleSimulator_FASE_3_ATUAL/script.js:899-917 | A particle never comes closer to the centre than its rest point, and moves out by at most half a unit. |
| Visual.BytesOfHex | AudioParticleSimulator_FASE_3_ATUAL/script.js:66-83 | A 24-bit colour number is exactly its red, green and blue bytes, red highest. |
| Visual.BandColor | AudioParticleSimulator_FASE_3_ATUAL/script.js:919-920 | A band's table colour becomes three channels in [0, 1]. |
| Visual.UpdateParticle | AudioParticleSimulator_FASE_3_ATUAL/script.js:888-931 | Particle i follows band floor(i/25). It moves along its own ray from the centre by that band's displacement. Its colour is that band's table colour times the colour factor. |
| Visual.UpdateParticleColor | AudioParticleSimulator_FASE_3_ATUAL/script.js:919-926 | Each channel of a particle's colour is between 0.3 and 1.3 times the same channel of its band's table colour. |
| Visual.ParticlesNear | AudioParticleSimulator_FASE_3_ATUAL/script.js:888-931 | Over the whole cloud, every particle stays between its rest distance and half a unit beyond it. |
| Visual.CentralObjects | AudioParticleSimulator_FASE_3_ATUAL/script.js:933-991 | The cube follows the bass and mid pairs and the ring the high pair. The emissive factor is half the loudest of the three pairs. The hue falls by 0.8 for every unit the emissive factor rises. |
| Visual.PairWithin | AudioParticleSimulator_FASE_3_ATUAL/script.js:937-939 | A pair average of byte-range bands is in [0, 1]. |
| Visual.CentralWithin | AudioParticleSimulator_FASE_3_ATUAL/script.js:937-986 | With byte-range bands: <br>• the cube grows by at most half; <br>• the ring grows by at most 40%; <br>• the hue stays in [0.2, 0.6]; <br>• the emissive factor stays in [0, 0.5]. |
| Visual.HueFalls | AudioParticleSimulator_FASE_3_ATUAL/script.js:978-979 | A louder loudest pair moves the hue from blue toward red. |
| Visual.CentralIgnoresOtherBands | AudioParticleSimulator_FASE_3_ATUAL/script.js:937-939 | Only bands 0, 1, 4, 5, 8 and 9 affect the central objects. |
| Visual.DeformScalesDistance | AudioParticleSimulator_FASE_3_ATUAL/script.js:950-975 | Every deformed vertex's distance from the centre is its rest distance times the scale. The deformation starts from the rest vertices each frame, so it never compounds. |
| Frame.InitialState | AudioParticleSimulator_FASE_3_ATUAL/script.js:92-100 | The previous bands and the peak history start as sixteen zeros. Every particle's trail starts at the default length. |
| Frame.AnimateFrame | AudioParticleSimulator_FASE_3_ATUAL/script.js:243-267 | The smoothed bands become the previous frame and the transients the peak history. Both keep sixteen entries. The central objects and all 400 particles follow the smoothed bands and transients. Disabled trails are left as they were. |
| Frame.AnimateFrameFeedsTrails | AudioParticleSimulator_FASE_3_ATUAL/script.js:257-264 | With trails on, each particle's new point heads its own trail, and every older point moves one slot back, faded by 0.95. |
| Frame.AnimateFrameParticlesNear | AudioParticleSimulator_FASE_3_ATUAL/script.js:243-264 | Byte-range magnitudes keep every particle between its rest distance and half a unit beyond it. |
| Frame.AnimateFrameBounded | AudioParticleSimulator_FASE_3_ATUAL/script.js:243-267 | Byte-range magnitudes keep the previous bands in the byte range and the peaks in [0, 1), frame after frame. |
| Frame.SilenceAfterSilence | AudioParticleSimulator_FASE_3_ATUAL/script.js:249-255 | A silent frame after silence leaves the bands at 0, and only decays the peaks. |
| Frame.TrailsAfterTick | AudioParticleSimulator_FASE_3_ATUAL/script.js:1285-1290 | A change of quality level rebuilds every trail as zero points of the new trail length. Otherwise the trails are kept. |
| Frame.AdvancedFrame | AudioParticleSimulator_FASE_3_ATUAL/script.js:800-871 | A frame the controller skips only advances the controller and, after a level change, rebuilds the trails. Otherwise the result is undefined exactly for the linear mapping on fewer than sixteen bins. |
| Frame.AdvancedFrameBounded | AudioParticleSimulator_FASE_3_ATUAL/script.js:800-871 | With sane envelope settings, an envelope value in [0, 1], a forward clock, intensities in [0, 2] and byte-range magnitudes: <br>• the previous bands stay in [0, 510]; <br>• the peaks stay in [0, 1); <br>• the envelope value stays in [0, 1]; <br>• the controller keeps its invariant. <br>The envelope's phase need not match the current settings, so the bound survives ADSR slider moves. |
| Frame.AdvancedFrameConsistent | AudioParticleSimulator_FASE_3_ATUAL/script.js:838-843 | While the ADSR settings are unchanged, an envelope consistent with them stays consistent across a frame. |

## Left out

- Rendering, the scene, camera, lights, controls, the Web Audio graph, file
  loading and the DOM. These are I/O and platform bindings.
  - The play and pause buttons appear only as `Envelope.Trigger` and
    `Envelope.ReleaseNote`.
  - The ADSR and band-intensity sliders appear only as the `Settings` and
    `Config.intensities` parameters. A slider move between frames is a
    change of those parameters. The transient-sensitivity slider appears
    only as the `Detector` parameter. The trail toggle appears only as the
    `trailsOn` parameter.
  - The particles' rest positions are an input `Visual.Cloud`; the random
    sphere they are drawn from is not modelled.
- `performance.now()`. The clock is the `now` parameter, so real-time
  behaviour is not modelled.
- `Math.tanh` is the `tanh` parameter. The Mel-to-Hz conversion (`log10`,
  `pow`) is left out: the Mel bands take their Hz ranges as input. These are
  transcendental.
- `Math.sqrt` is left out. A particle's rest length is an input `norm` with
  `norm * norm` equal to its squared length, and distances are stated squared.
- `setHSL`. Colours are vectors of reals, and the hue is stated as a number,
  not converted.
- Visual.BandColor: a table colour's channels are its bytes over 255. Newer
  `THREE.Color` versions also convert sRGB to linear values; that conversion
  is not modelled.
- Float32 and IEEE rounding, NaN and `undefined`. Numbers are exact reals.
  - The `|| 0` on the peak history only matters for NaN, so it is not
    modelled.
  - The linear mapping's 0 / 0 is `None`.
- Envelope.Advance: it requires the phase's divisor to be non-zero (and its
  bounds require positive times), because division by 0 in the source gives
  Infinity or NaN, which exact reals cannot express.
- The spatial grid, frustum culling and trail pool. They depend on the scene
  and are only reachable from the uncalled extended analysis.
- Debug logging; the particle and cube paths of earlier phases; the random
  particle update; the canvas drawing helpers.
- Quality.Apply: applying a level also rebuilds every trail at the new
  length. `Frame.TrailsAfterTick` does that rebuild in the extended analysis.
  The trail-length slider (lines 1386-1392) also sets the trail length and
  rebuilds the trails, without the controller. After it,
  `Quality.Consistent` need not hold. The slider is not modelled.
- Frame.AdvancedFrameConsistent: the phase invariant is carried only while
  the ADSR settings stay the same, because a slider move can break it
  (`Envelope.SliderLeavesSustain`). The band and envelope-value bounds of
  `Frame.AdvancedFrameBounded` do not depend on it.
