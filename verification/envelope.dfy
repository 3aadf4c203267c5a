/** The ADSR envelope: a four-phase state machine whose value scales every
    band. Time is an explicit parameter (milliseconds, as the clock the
    program reads); `Advance` is one step given the elapsed seconds. */
module Envelope {
  import opened Options
  import opened Arith

  datatype Phase = Attack | Decay | Sustain | Release

  /** Attack, decay and release are durations in seconds; sustain is a level. */
  datatype Settings = Settings(attack: real, decay: real, sustain: real, release: real)

  const DefaultSettings: Settings := Settings(0.1, 0.5, 0.7, 1.0)

  datatype Adsr = Adsr(phase: Phase, value: real, lastUpdate: real)

  /** Before any note: releasing, silent, never updated. */
  const Initial: Adsr := Adsr(Release, 0.0, 0.0)

  /** The phase a step may move on to; Sustain and Release only stay. */
  function Following(p: Phase): Phase {
    match p
    case Attack => Decay
    case Decay => Sustain
    case Sustain => Sustain
    case Release => Release
  }

  /** The step of a phase divides by that phase's duration (Sustain by none). */
  predicate StepDefined(p: Phase, s: Settings) {
    match p
    case Attack => s.attack != 0.0
    case Decay => s.decay != 0.0
    case Sustain => true
    case Release => s.release != 0.0
  }

  /** Settings under which every step is defined and the value stays in [0, 1]. */
  predicate Sane(s: Settings) {
    s.attack > 0.0 && s.decay > 0.0 && s.release > 0.0 && 0.0 <= s.sustain <= 1.0
  }

  /** The program's settings are sane. */
  lemma DefaultSane()
    ensures Sane(DefaultSettings)
  {
  }

  /** One step of `dt` seconds: attack climbs and clamps at 1 (moving to
      Decay), decay falls toward sustain and clamps there (moving to Sustain),
      sustain holds the sustain level, release falls and floors at 0. */
  function Advance(e: Adsr, s: Settings, dt: real): (r: Adsr)
    requires StepDefined(e.phase, s)
    ensures r.lastUpdate == e.lastUpdate
    ensures r.phase == e.phase || r.phase == Following(e.phase)
    ensures e.phase == Attack ==> r.value <= 1.0 && (r.phase == Decay <==> r.value == 1.0)
    ensures e.phase == Decay ==> s.sustain <= r.value && (r.phase == Sustain <==> r.value == s.sustain)
    ensures e.phase == Sustain ==> r.phase == Sustain && r.value == s.sustain
    ensures e.phase == Release ==> r.phase == Release && 0.0 <= r.value
  {
    match e.phase
    case Attack =>
      var v := e.value + dt / s.attack;
      if v >= 1.0 then Adsr(Decay, 1.0, e.lastUpdate) else Adsr(Attack, v, e.lastUpdate)
    case Decay =>
      var v := e.value - dt / s.decay * (1.0 - s.sustain);
      if v <= s.sustain then Adsr(Sustain, s.sustain, e.lastUpdate) else Adsr(Decay, v, e.lastUpdate)
    case Sustain =>
      Adsr(Sustain, s.sustain, e.lastUpdate)
    case Release =>
      var v := e.value - ReleaseStep(s, dt);
      Adsr(Release, if v <= 0.0 then 0.0 else v, e.lastUpdate)
  }

  /** How far release falls in `dt` seconds: proportional to the sustain
      level, not to the value being released. */
  function ReleaseStep(s: Settings, dt: real): real
    requires s.release != 0.0
  {
    dt / s.release * s.sustain
  }

  /** The update read at time `now` (ms): the elapsed time since the last
      update, in seconds, drives one step, and `now` becomes the last update. */
  function Update(e: Adsr, s: Settings, now: real): (r: Adsr)
    requires StepDefined(e.phase, s)
    ensures r.lastUpdate == now
    ensures r.phase == e.phase || r.phase == Following(e.phase)
  {
    var stepped := Advance(e, s, (now - e.lastUpdate) / 1000.0);
    Adsr(stepped.phase, stepped.value, now)
  }

  /** Note on: back to Attack from wherever the value is, restarting the clock. */
  function Trigger(e: Adsr, now: real): (r: Adsr)
    ensures r.phase == Attack && r.value == e.value && r.lastUpdate == now
  {
    Adsr(Attack, e.value, now)
  }

  /** Note off: Release from the current value; the clock is left alone. */
  function ReleaseNote(e: Adsr): (r: Adsr)
    ensures r.phase == Release && r.value == e.value && r.lastUpdate == e.lastUpdate
  {
    e.(phase := Release)
  }

  /** What the phases promise about the value. */
  predicate Consistent(e: Adsr, s: Settings) {
    0.0 <= e.value <= 1.0
    && (e.phase == Decay ==> s.sustain <= e.value)
    && (e.phase == Sustain ==> e.value == s.sustain)
  }

  lemma InitialConsistent(s: Settings)
    ensures Consistent(Initial, s)
  {
  }

  /** A forward step keeps the value in [0, 1] and each phase's promise. */
  lemma AdvanceConsistent(e: Adsr, s: Settings, dt: real)
    requires Sane(s) && 0.0 <= dt
    requires Consistent(e, s)
    ensures Consistent(Advance(e, s, dt), s)
  {
    match e.phase
    case Attack =>
      DivNonNegative(dt, s.attack);
    case Decay =>
      DivNonNegative(dt, s.decay);
      MulNonNegative(dt / s.decay, 1.0 - s.sustain);
    case Sustain =>
    case Release =>
      DivNonNegative(dt, s.release);
      MulNonNegative(dt / s.release, s.sustain);
      assert ReleaseStep(s, dt) >= 0.0;
  }

  /** A forward step keeps the value in [0, 1] from any value in [0, 1],
      whatever the phase: the bound does not depend on the phase having been
      reached under the current settings. */
  lemma AdvanceWithin(e: Adsr, s: Settings, dt: real)
    requires Sane(s) && 0.0 <= dt
    requires 0.0 <= e.value <= 1.0
    ensures 0.0 <= Advance(e, s, dt).value <= 1.0
  {
    match e.phase
    case Attack =>
      DivNonNegative(dt, s.attack);
    case Decay =>
      DivNonNegative(dt, s.decay);
      MulNonNegative(dt / s.decay, 1.0 - s.sustain);
    case Sustain =>
    case Release =>
      DivNonNegative(dt, s.release);
      MulNonNegative(dt / s.release, s.sustain);
      assert ReleaseStep(s, dt) >= 0.0;
  }

  /** The same across a clock reading no earlier than the last one. */
  lemma UpdateWithin(e: Adsr, s: Settings, now: real)
    requires Sane(s) && e.lastUpdate <= now
    requires 0.0 <= e.value <= 1.0
    ensures 0.0 <= Update(e, s, now).value <= 1.0
  {
    DivNonNegative(now - e.lastUpdate, 1000.0);
    AdvanceWithin(e, s, (now - e.lastUpdate) / 1000.0);
  }

  /** Moving the sustain slider can leave a sustaining envelope off the new
      level: the phase invariant then fails, while the value is still in
      [0, 1]. */
  lemma SliderLeavesSustain()
    ensures var e := Adsr(Sustain, 0.7, 0.0);
      Consistent(e, DefaultSettings) && !Consistent(e, DefaultSettings.(sustain := 0.5))
  {
  }

  lemma DivNonNegative(a: real, b: real)
    requires 0.0 <= a && 0.0 < b
    ensures 0.0 <= a / b
  {
    if a > 0.0 {
      DivPositive(a, b);
    }
  }

  /** An update read no earlier than the last one keeps the promise too. */
  lemma UpdateConsistent(e: Adsr, s: Settings, now: real)
    requires Sane(s) && e.lastUpdate <= now
    requires Consistent(e, s)
    ensures Consistent(Update(e, s, now), s)
  {
    DivNonNegative(now - e.lastUpdate, 1000.0);
    AdvanceConsistent(e, s, (now - e.lastUpdate) / 1000.0);
  }

  lemma TriggerConsistent(e: Adsr, s: Settings, now: real)
    requires Consistent(e, s)
    ensures Consistent(Trigger(e, now), s)
  {
  }

  lemma ReleaseConsistent(e: Adsr, s: Settings)
    requires Consistent(e, s)
    ensures Consistent(ReleaseNote(e), s)
  {
  }

  /** Forward in time, attack never lowers the value and decay and release
      never raise it. */
  lemma AdvanceMonotone(e: Adsr, s: Settings, dt: real)
    requires Sane(s) && 0.0 <= dt
    requires Consistent(e, s)
    ensures e.phase == Attack ==> e.value <= Advance(e, s, dt).value
    ensures e.phase != Attack ==> Advance(e, s, dt).value <= e.value
  {
    match e.phase
    case Attack =>
      DivNonNegative(dt, s.attack);
    case Decay =>
      DivNonNegative(dt, s.decay);
      MulNonNegative(dt / s.decay, 1.0 - s.sustain);
    case Sustain =>
    case Release =>
      DivNonNegative(dt, s.release);
      MulNonNegative(dt / s.release, s.sustain);
      assert ReleaseStep(s, dt) >= 0.0;
  }

  /** n equal steps of `dt` seconds. */
  function Run(e: Adsr, s: Settings, dt: real, n: nat): (r: Adsr)
    requires Sane(s)
    ensures r.lastUpdate == e.lastUpdate
    decreases n
  {
    if n == 0 then e else Advance(Run(e, s, dt, n - 1), s, dt)
  }

  /** Once out of Attack, steps alone never return to it: only a trigger does. */
  lemma {:induction false} NoReturnToAttack(e: Adsr, s: Settings, dt: real, n: nat)
    requires Sane(s) && e.phase != Attack
    ensures Run(e, s, dt, n).phase != Attack
  {
    if n > 0 {
      NoReturnToAttack(e, s, dt, n - 1);
    }
  }

  /** v raised by `step` n times over. */
  function Raised(v: real, step: real, n: nat): real
    decreases n
  {
    if n == 0 then v else Raised(v, step, n - 1) + step
  }

  lemma {:induction false} RaisedLinear(v: real, step: real, n: nat)
    ensures Raised(v, step, n) == v + (n as real) * step
  {
    if n > 0 {
      RaisedLinear(v, step, n - 1);
      assert v + ((n - 1) as real) * step + step == v + (n as real) * step;
    }
  }

  /** While the ramp stays below 1, attack climbs by dt / attack per step. */
  lemma {:induction false} AttackRamp(v: real, t: real, s: Settings, dt: real, n: nat)
    requires Sane(s) && 0.0 <= dt
    requires v + (n as real) * (dt / s.attack) < 1.0
    ensures Run(Adsr(Attack, v, t), s, dt, n) == Adsr(Attack, v + (n as real) * (dt / s.attack), t)
  {
    RaisedLinear(v, dt / s.attack, n);
    AttackSteps(v, t, s, dt, n);
  }

  lemma {:induction false} AttackSteps(v: real, t: real, s: Settings, dt: real, n: nat)
    requires Sane(s) && 0.0 <= dt
    requires Raised(v, dt / s.attack, n) < 1.0
    ensures Run(Adsr(Attack, v, t), s, dt, n) == Adsr(Attack, Raised(v, dt / s.attack, n), t)
  {
    if n > 0 {
      DivNonNegative(dt, s.attack);
      AttackSteps(v, t, s, dt, n - 1);
    }
  }

  /** Attack ends (the value has reached 1) once the ramp would pass 1. */
  lemma AttackEnds(v: real, t: real, s: Settings, dt: real, n: nat)
    requires Sane(s)
    requires 0 < n && v + (n as real) * (dt / s.attack) >= 1.0
    ensures Run(Adsr(Attack, v, t), s, dt, n).phase != Attack
  {
    var before := Run(Adsr(Attack, v, t), s, dt, n - 1);
    if before.phase == Attack {
      AttackValueSteps(v, t, s, dt, n - 1);
      RaisedLinear(v, dt / s.attack, n);
      assert before.value + dt / s.attack >= 1.0;
    } else {
      NoReturnToAttackStep(before, s, dt);
    }
  }

  lemma NoReturnToAttackStep(e: Adsr, s: Settings, dt: real)
    requires Sane(s) && e.phase != Attack
    ensures Advance(e, s, dt).phase != Attack
  {
  }

  /** While still in Attack after k steps, the value is the ramp. */
  lemma {:induction false} AttackValue(v: real, t: real, s: Settings, dt: real, k: nat)
    requires Sane(s)
    requires Run(Adsr(Attack, v, t), s, dt, k).phase == Attack
    ensures Run(Adsr(Attack, v, t), s, dt, k).value == v + (k as real) * (dt / s.attack)
  {
    AttackValueSteps(v, t, s, dt, k);
    RaisedLinear(v, dt / s.attack, k);
  }

  lemma {:induction false} AttackValueSteps(v: real, t: real, s: Settings, dt: real, k: nat)
    requires Sane(s)
    requires Run(Adsr(Attack, v, t), s, dt, k).phase == Attack
    ensures Run(Adsr(Attack, v, t), s, dt, k).value == Raised(v, dt / s.attack, k)
  {
    if k > 0 {
      var before := Run(Adsr(Attack, v, t), s, dt, k - 1);
      if before.phase != Attack {
        NoReturnToAttackStep(before, s, dt);
        assert false;
      }
      AttackValueSteps(v, t, s, dt, k - 1);
    }
  }

  /** v lowered by `step` n times over. */
  function Lowered(v: real, step: real, n: nat): real
    decreases n
  {
    if n == 0 then v else Lowered(v, step, n - 1) - step
  }

  lemma {:induction false} LoweredLinear(v: real, step: real, n: nat)
    ensures Lowered(v, step, n) == v - (n as real) * step
  {
    if n > 0 {
      LoweredLinear(v, step, n - 1);
      LinearStep(v, step, n);
    }
  }

  /** Release stays in Release and falls by dt / release * sustain per step,
      floored at 0. */
  lemma {:induction false} ReleaseRun(v: real, t: real, s: Settings, dt: real, n: nat)
    requires Sane(s) && 0.0 <= dt && 0.0 <= v
    ensures Run(Adsr(Release, v, t), s, dt, n)
      == Adsr(Release, Max(0.0, v - (n as real) * ReleaseStep(s, dt)), t)
  {
    ReleaseSteps(v, t, s, dt, n);
    LoweredLinear(v, ReleaseStep(s, dt), n);
  }

  lemma {:induction false} ReleaseSteps(v: real, t: real, s: Settings, dt: real, n: nat)
    requires Sane(s) && 0.0 <= dt && 0.0 <= v
    ensures Run(Adsr(Release, v, t), s, dt, n) == Adsr(Release, Max(0.0, Lowered(v, ReleaseStep(s, dt), n)), t)
  {
    if n > 0 {
      ReleaseSteps(v, t, s, dt, n - 1);
      ReleaseFalls(Lowered(v, ReleaseStep(s, dt), n - 1), t, s, dt);
    }
  }

  /** One release step from a floored level. */
  lemma ReleaseFalls(w: real, t: real, s: Settings, dt: real)
    requires Sane(s) && 0.0 <= dt
    ensures Advance(Adsr(Release, Max(0.0, w), t), s, dt) == Adsr(Release, Max(0.0, w - ReleaseStep(s, dt)), t)
  {
    DivNonNegative(dt, s.release);
    MulNonNegative(dt / s.release, s.sustain);
    ReleaseFloor(w, ReleaseStep(s, dt));
  }

  /** One more step of a linear ramp. */
  lemma LinearStep(v: real, step: real, n: nat)
    requires 0 < n
    ensures v - ((n - 1) as real) * step - step == v - (n as real) * step
  {
  }

  lemma ReleaseFloor(w: real, step: real)
    requires 0.0 <= step
    ensures (if Max(0.0, w) - step <= 0.0 then 0.0 else Max(0.0, w) - step) == Max(0.0, w - step)
  {
  }

  /** With sustain at 0, release never lowers the value: a note released
      during attack or decay keeps sounding at that level. */
  lemma {:induction false} ReleaseStallsWithoutSustain(v: real, t: real, s: Settings, dt: real, n: nat)
    requires Sane(s) && 0.0 <= dt && 0.0 <= v && s.sustain == 0.0
    ensures Run(Adsr(Release, v, t), s, dt, n).value == v
  {
    ReleaseRun(v, t, s, dt, n);
    assert ReleaseStep(s, dt) == 0.0;
  }
}
