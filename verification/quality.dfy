/** The adaptive quality controller: once per second of frames it measures
    the frame rate and steps the quality level down when too slow or up when
    fast enough. Time is an explicit parameter in milliseconds. */
module Quality {

  /** The particle count at full quality. */
  const ParticleCount: nat := 400

  datatype Level = High | Medium | Low

  datatype LevelSettings = LevelSettings(particleCount: nat, trailLength: nat, updateFrequency: nat)

  /** The three levels' particle counts (400, 70% and 40% of it), trail lengths
      and update frequencies. */
  function SettingsOf(l: Level): (q: LevelSettings)
    ensures 1 <= q.updateFrequency <= 3 && 1 <= q.trailLength && q.particleCount <= ParticleCount
    ensures q.updateFrequency == 1 <==> l == High
  {
    match l
    case High => LevelSettings(ParticleCount, 20, 1)
    case Medium => LevelSettings(ParticleCount * 7 / 10, 10, 2)
    case Low => LevelSettings(ParticleCount * 4 / 10, 5, 3)
  }

  /** High is 0, Low is 2. */
  function Rank(l: Level): (n: nat)
    ensures n <= 2
  {
    match l
    case High => 0
    case Medium => 1
    case Low => 2
  }

  /** decreaseQuality's choice of level: one step toward Low, none at Low. */
  function Lower(l: Level): (r: Level)
    ensures Rank(r) == if Rank(l) == 2 then 2 else Rank(l) + 1
  {
    match l
    case High => Medium
    case Medium => Low
    case Low => Low
  }

  /** increaseQuality's choice of level: one step toward High, none at High. */
  function Higher(l: Level): (r: Level)
    ensures Rank(r) == if Rank(l) == 0 then 0 else Rank(l) - 1
  {
    match l
    case Low => Medium
    case Medium => High
    case High => High
  }

  lemma RankInjective(a: Level, b: Level)
    ensures Rank(a) == Rank(b) <==> a == b
  {
  }

  /** Lowering and raising undo each other away from the ends. */
  lemma LowerHigherInverse(l: Level)
    ensures l != Low ==> Higher(Lower(l)) == l
    ensures l != High ==> Lower(Higher(l)) == l
  {
    RankInjective(Higher(Lower(l)), l);
    RankInjective(Lower(Higher(l)), l);
  }

  /** The controller's state; `trailLength` is the trail system's length,
      which applying a level also sets. */
  datatype Controller = Controller(
    lastTime: real,
    frameCount: nat,
    fps: nat,
    targetFps: nat,
    level: Level,
    frameSkip: int,
    trailLength: nat)

  const Initial: Controller := Controller(0.0, 0, 60, 30, High, 0, 20)

  /** applyQualitySettings: the level's update frequency minus one becomes
      the frame skip and its trail length the trail length. */
  function Apply(c: Controller, l: Level): (r: Controller)
    ensures r.level == l
    ensures r.frameSkip == SettingsOf(l).updateFrequency - 1 && r.trailLength == SettingsOf(l).trailLength
    ensures r.lastTime == c.lastTime && r.frameCount == c.frameCount && r.fps == c.fps && r.targetFps == c.targetFps
  {
    c.(level := l, frameSkip := SettingsOf(l).updateFrequency - 1, trailLength := SettingsOf(l).trailLength)
  }

  /** decreaseQuality: nothing at all happens at Low. */
  function Decrease(c: Controller): (r: Controller)
    ensures c.level == Low ==> r == c
    ensures c.level != Low ==> r == Apply(c, Lower(c.level)) && Rank(r.level) == Rank(c.level) + 1
  {
    if c.level == Low then c else Apply(c, Lower(c.level))
  }

  /** increaseQuality: nothing at all happens at High. */
  function Increase(c: Controller): (r: Controller)
    ensures c.level == High ==> r == c
    ensures c.level != High ==> r == Apply(c, Higher(c.level)) && Rank(r.level) + 1 == Rank(c.level)
  {
    if c.level == High then c else Apply(c, Higher(c.level))
  }

  /** Too slow: below 70% of the target rate. */
  predicate TooSlow(fps: nat, targetFps: nat) {
    (fps as real) < (targetFps as real) * 0.7
  }

  /** Fast enough to raise quality: above 130% of the target rate. */
  predicate FastEnough(fps: nat, targetFps: nat) {
    (fps as real) > (targetFps as real) * 1.3
  }

  /** The controller's answer for one frame. */
  datatype Tick = Tick(next: Controller, proceed: bool)

  /** One call of update at time `now`: count the frame; if a second has
      passed, take the count as the rate, restart the window and adjust the
      level; then proceed exactly when the frame skip is 0. */
  function Update(c: Controller, now: real): (t: Tick)
    ensures t.proceed <==> t.next.frameSkip == 0
    ensures t.next.targetFps == c.targetFps
    ensures now - c.lastTime < 1000.0 ==>
      t.next == c.(frameCount := c.frameCount + 1)
    ensures now - c.lastTime >= 1000.0 ==>
      t.next.fps == c.frameCount + 1 && t.next.frameCount == 0 && t.next.lastTime == now
    ensures Rank(t.next.level) + 1 == Rank(c.level) || Rank(t.next.level) == Rank(c.level)
      || Rank(t.next.level) == Rank(c.level) + 1
    ensures Rank(t.next.level) > Rank(c.level) <==>
      now - c.lastTime >= 1000.0 && TooSlow(c.frameCount + 1, c.targetFps) && c.level != Low
    ensures Rank(t.next.level) < Rank(c.level) <==>
      now - c.lastTime >= 1000.0 && !TooSlow(c.frameCount + 1, c.targetFps)
      && FastEnough(c.frameCount + 1, c.targetFps) && c.level != High
    ensures t.next.level != c.level ==>
      t.next.frameSkip == SettingsOf(t.next.level).updateFrequency - 1
      && t.next.trailLength == SettingsOf(t.next.level).trailLength
    ensures t.next.level == c.level ==>
      t.next.frameSkip == c.frameSkip && t.next.trailLength == c.trailLength
  {
    var counted := c.frameCount + 1;
    if now - c.lastTime >= 1000.0 then
      var measured := c.(fps := counted, frameCount := 0, lastTime := now);
      var adjusted :=
        if TooSlow(counted, c.targetFps) then Decrease(measured)
        else if FastEnough(counted, c.targetFps) then Increase(measured)
        else measured;
      Tick(adjusted, adjusted.frameSkip == 0)
    else
      var next := c.(frameCount := counted);
      Tick(next, next.frameSkip == 0)
  }

  /** The frame skip and trail length are the current level's. */
  predicate Consistent(c: Controller) {
    c.frameSkip == SettingsOf(c.level).updateFrequency - 1
    && c.trailLength == SettingsOf(c.level).trailLength
  }

  lemma InitialConsistent()
    ensures Consistent(Initial)
  {
  }

  lemma UpdateConsistent(c: Controller, now: real)
    requires Consistent(c)
    ensures Consistent(Update(c, now).next)
  {
  }

  /** Because the frame skip is set but never counted down, a consistent
      controller lets a frame through exactly when the level is High: below
      High, every frame is skipped until the level rises again. */
  lemma ProceedOnlyAtHigh(c: Controller, now: real)
    requires Consistent(c)
    ensures Update(c, now).proceed <==> Update(c, now).next.level == High
  {
    UpdateConsistent(c, now);
  }

  /** n frames at times `times`, from controller c; the proceed answers in order. */
  function Run(c: Controller, times: seq<real>): (r: (Controller, seq<bool>))
    ensures |r.1| == |times|
    decreases |times|
  {
    if |times| == 0 then (c, [])
    else
      var t := Update(c, times[0]);
      var rest := Run(t.next, times[1..]);
      (rest.0, [t.proceed] + rest.1)
  }

  /** Over any run from a consistent controller, frame k proceeds exactly
      when the level after it is High. */
  lemma {:induction false} SkippedUntilHigh(c: Controller, times: seq<real>, k: nat)
    requires Consistent(c)
    requires k < |times|
    ensures Run(c, times).1[k] <==> RunLevel(c, times, k + 1) == High
    decreases k
  {
    if k == 0 {
      ProceedOnlyAtHigh(c, times[0]);
    } else {
      UpdateConsistent(c, times[0]);
      SkippedUntilHigh(Update(c, times[0]).next, times[1..], k - 1);
    }
  }

  /** The level after the first n frames of `times`. */
  function RunLevel(c: Controller, times: seq<real>, n: nat): Level
    requires n <= |times|
    decreases n
  {
    if n == 0 then c.level else RunLevel(Update(c, times[0]).next, times[1..], n - 1)
  }

  /** A slow second at High drops to Medium and skips the frame. */
  lemma SlowSecondLowers(c: Controller, now: real)
    requires Consistent(c) && c.level == High && c.targetFps == 30
    requires now - c.lastTime >= 1000.0 && c.frameCount + 1 < 21
    ensures Update(c, now).next.level == Medium
    ensures !Update(c, now).proceed
    ensures Update(c, now).next.trailLength == 10
  {
  }

  /** The controller starts with its window at time 0 and a count of 0, so the
      first update read a second or more into the clock sees a rate of 1
      frame per second: it drops to Medium and skips that frame. */
  lemma FirstUpdateLowers(now: real)
    requires now >= 1000.0
    ensures Update(Initial, now).next.level == Medium
    ensures !Update(Initial, now).proceed
  {
  }

  /** A fast second at Low rises to Medium, which still skips frames. */
  lemma FastSecondRaises(c: Controller, now: real)
    requires Consistent(c) && c.level == Low && c.targetFps == 30
    requires now - c.lastTime >= 1000.0 && c.frameCount + 1 > 39
    ensures Update(c, now).next.level == Medium
    ensures !Update(c, now).proceed
    ensures Update(c, now).next.trailLength == 10
  {
  }

  /** Frames inside one measuring window only count: the level, frame skip
      and trail length stay as they are. */
  lemma {:induction false} WindowKeepsLevel(c: Controller, times: seq<real>)
    requires forall i :: 0 <= i < |times| ==> times[i] - c.lastTime < 1000.0
    ensures Run(c, times).0 == c.(frameCount := c.frameCount + |times|)
    decreases |times|
  {
    if |times| > 0 {
      var next := Update(c, times[0]).next;
      assert next == c.(frameCount := c.frameCount + 1);
      assert forall i :: 0 <= i < |times[1..]| ==> times[1..][i] - next.lastTime < 1000.0 by {
        forall i | 0 <= i < |times[1..]|
          ensures times[1..][i] - next.lastTime < 1000.0
        {
          assert times[1..][i] == times[i + 1];
        }
      }
      WindowKeepsLevel(next, times[1..]);
    }
  }
}
