/** Particle trails: every particle keeps a fixed-length history of points,
    newest first. Each frame the history moves back one slot, the colours
    that move fade by the decay factor, the oldest point drops off and the
    particle's current point takes slot 0. */
module Trails {
  import opened Vectors

  const DefaultLength: nat := 20
  const DefaultDecay: real := 0.95

  datatype TrailPoint = TrailPoint(position: Vec3, color: Vec3)

  /** The point one frame older: same place, colour times `decay`. */
  function Fade(p: TrailPoint, decay: real): (r: TrailPoint)
    ensures r.position == p.position
  {
    p.(color := Scale(p.color, decay))
  }

  /** A point faded n times. */
  function FadeTimes(p: TrailPoint, decay: real, n: nat): (r: TrailPoint)
    ensures r.position == p.position
    decreases n
  {
    if n == 0 then p else Fade(FadeTimes(p, decay, n - 1), decay)
  }

  /** One frame of one particle's trail. An empty trail stays empty (the
      writes to slot 0 fall outside a zero-length buffer). */
  function Shift(trail: seq<TrailPoint>, current: TrailPoint, decay: real): (r: seq<TrailPoint>)
    ensures |r| == |trail|
  {
    if |trail| == 0 then trail
    else [current] + seq(|trail| - 1, j requires 0 <= j < |trail| - 1 => Fade(trail[j], decay))
  }

  /** Slot 0 is the current point; every later slot is the previous frame's
      slot before it, faded; the old last slot is gone. */
  lemma ShiftSlots(trail: seq<TrailPoint>, current: TrailPoint, decay: real)
    ensures |trail| > 0 ==> Shift(trail, current, decay)[0] == current
    ensures forall j :: 1 <= j < |trail| ==>
      Shift(trail, current, decay)[j].position == trail[j - 1].position
      && Shift(trail, current, decay)[j].color == Scale(trail[j - 1].color, decay)
  {
  }

  /** The loop of updateTrailSystem for one particle: walk the buffer from
      the last slot down to slot 1, copying the slot before and fading its
      colour, then write the current point into slot 0. */
  method ShiftInPlace(trail: seq<TrailPoint>, current: TrailPoint, decay: real) returns (r: seq<TrailPoint>)
    ensures r == Shift(trail, current, decay)
  {
    if |trail| == 0 {
      return trail;
    }
    r := trail;
    var j := |trail| - 1;
    while j > 0
      invariant 0 <= j < |trail| && |r| == |trail|
      invariant forall k :: 0 <= k <= j ==> r[k] == trail[k]
      invariant forall k :: j < k < |trail| ==> r[k] == Fade(trail[k - 1], decay)
    {
      r := r[j := Fade(r[j - 1], decay)];
      j := j - 1;
    }
    r := r[0 := current];
    ShiftSlotsExact(trail, current, decay, r);
  }

  /** A buffer that agrees with Shift slot by slot is Shift. */
  lemma ShiftSlotsExact(trail: seq<TrailPoint>, current: TrailPoint, decay: real, r: seq<TrailPoint>)
    requires |trail| > 0 && |r| == |trail| && r[0] == current
    requires forall k :: 0 < k < |trail| ==> r[k] == Fade(trail[k - 1], decay)
    ensures r == Shift(trail, current, decay)
  {
    var s := Shift(trail, current, decay);
    forall k | 0 <= k < |r|
      ensures r[k] == s[k]
    {
    }
  }

  /** Feeding the points of several frames, oldest first. */
  function Feed(trail: seq<TrailPoint>, points: seq<TrailPoint>, decay: real): (r: seq<TrailPoint>)
    ensures |r| == |trail|
    decreases |points|
  {
    if |points| == 0 then trail
    else Shift(Feed(trail, points[..|points| - 1], decay), points[|points| - 1], decay)
  }

  /** After m frames, slot j holds the point fed j frames ago, faded j times;
      slots older than the m frames hold the original trail, moved back m
      slots and faded m times. */
  lemma {:induction false} FeedHistory(trail: seq<TrailPoint>, points: seq<TrailPoint>, decay: real, j: nat)
    requires j < |trail|
    ensures Feed(trail, points, decay)[j] ==
      if j < |points| then FadeTimes(points[|points| - 1 - j], decay, j)
      else FadeTimes(trail[j - |points|], decay, |points|)
    decreases |points|
  {
    var m := |points|;
    if m > 0 {
      var earlier := points[..m - 1];
      if j > 0 {
        FeedHistory(trail, earlier, decay, j - 1);
        if j - 1 < m - 1 {
          assert earlier[m - 1 - 1 - (j - 1)] == points[m - 1 - j];
        }
      }
    }
  }

  /** Once a trail has taken as many frames as it has slots, its starting
      contents are forgotten entirely. */
  lemma FeedForgets(a: seq<TrailPoint>, b: seq<TrailPoint>, points: seq<TrailPoint>, decay: real)
    requires |a| == |b| <= |points|
    ensures Feed(a, points, decay) == Feed(b, points, decay)
  {
    forall j | 0 <= j < |a|
      ensures Feed(a, points, decay)[j] == Feed(b, points, decay)[j]
    {
      FeedHistory(a, points, decay, j);
      FeedHistory(b, points, decay, j);
    }
  }

  /** Every trail at the given length, all slots at the origin and black. */
  function InitTrails(count: nat, length: nat): (r: seq<seq<TrailPoint>>)
    ensures |r| == count
    ensures forall i :: 0 <= i < count ==> |r[i]| == length
    ensures forall i, j :: 0 <= i < count && 0 <= j < length ==> r[i][j] == TrailPoint(Zero, Zero)
  {
    seq(count, i => seq(length, j => TrailPoint(Zero, Zero)))
  }

  /** One frame of the whole trail system: nothing when disabled, otherwise
      every particle's trail shifts in that particle's current point. */
  function UpdateTrails(enabled: bool, trails: seq<seq<TrailPoint>>, particles: seq<TrailPoint>, decay: real): (r: seq<seq<TrailPoint>>)
    requires |particles| == |trails|
    ensures |r| == |trails|
    ensures !enabled ==> r == trails
    ensures forall i :: 0 <= i < |trails| ==> |r[i]| == |trails[i]|
  {
    if !enabled then trails
    else seq(|trails|, i requires 0 <= i < |trails| => Shift(trails[i], particles[i], decay))
  }

  /** With trails enabled, each particle's trail gets its own current point
      at the front and nobody else's. */
  lemma UpdateTrailsFront(trails: seq<seq<TrailPoint>>, particles: seq<TrailPoint>, decay: real)
    requires |particles| == |trails|
    ensures forall i :: 0 <= i < |trails| && |trails[i]| > 0 ==>
      UpdateTrails(true, trails, particles, decay)[i][0] == particles[i]
  {
  }
}
