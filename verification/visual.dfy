/** The visual mapping: which band drives which particle, how far a particle
    moves out along its rest direction and how bright it gets, and how the
    central cube and ring scale and shift hue with the bass, mid and high
    bands. Square roots and colour-space conversions stay outside: a
    particle's distance from the centre is an input. */
module Visual {
  import opened Vectors
  import opened Options
  import opened Arith
  import Bands
  import Quality

  /** The number of particles: the full-quality count. */
  const ParticleCount: nat := Quality.ParticleCount

  /** Particles are split into equal consecutive groups, one per band. */
  function ParticlesPerBand(count: nat): nat {
    count / Bands.BandCount
  }

  /** The band that particle i follows. */
  function BandOf(i: nat, count: nat): nat
    requires Bands.BandCount <= count
  {
    i / ParticlesPerBand(count)
  }

  /** With a count that is a multiple of 16, every particle's band exists, and
      band b is followed by exactly the particles b*k .. b*k + k - 1, k being
      the group size. */
  lemma BandPartition(i: nat, count: nat)
    requires Bands.BandCount <= count && count % Bands.BandCount == 0 && i < count
    ensures BandOf(i, count) < Bands.BandCount
    ensures ParticlesPerBand(count) * BandOf(i, count) <= i < ParticlesPerBand(count) * BandOf(i, count) + ParticlesPerBand(count)
  {
    var k := ParticlesPerBand(count);
    var b := BandOf(i, count);
    assert count == k * Bands.BandCount;
    assert i == k * b + i % k;
    if b >= Bands.BandCount {
      MulMonotone(Bands.BandCount, b, k);
      assert false;
    }
  }

  /** The program's 400 particles: 25 per band, bands 0 to 15. */
  lemma DefaultPartition(i: nat)
    requires i < ParticleCount
    ensures ParticlesPerBand(ParticleCount) == 25
    ensures BandOf(i, ParticleCount) < Bands.BandCount
    ensures 25 * BandOf(i, ParticleCount) <= i < 25 * BandOf(i, ParticleCount) + 25
  {
    BandPartition(i, ParticleCount);
  }

  /** A band value as a fraction of the byte range. */
  function Amplitude(band: real): real {
    band / 255.0
  }

  /** How far a particle moves out: the amplitude times a vibration factor
      that grows with the band's transient. */
  function Displacement(amplitude: real, transient: real): real {
    amplitude * (0.2 + transient * 0.3)
  }

  /** The factor the band colour is multiplied by. */
  function ColorIntensity(amplitude: real, transient: real): real {
    0.3 + amplitude * 0.7 + transient * 0.3
  }

  lemma AmplitudeWithin(band: real)
    requires 0.0 <= band <= 255.0
    ensures 0.0 <= Amplitude(band) <= 1.0
  {
  }

  /** For an amplitude and a transient in [0, 1], the displacement is at most
      half a unit and the colour factor lies in [0.3, 1.3]; both grow with
      the transient. */
  lemma MappingWithin(amplitude: real, transient: real)
    requires 0.0 <= amplitude <= 1.0 && 0.0 <= transient <= 1.0
    ensures 0.0 <= Displacement(amplitude, transient) <= 0.5
    ensures 0.3 <= ColorIntensity(amplitude, transient) <= 1.3
    ensures amplitude * 0.2 <= Displacement(amplitude, transient)
  {
    var f := 0.2 + transient * 0.3;
    assert 0.2 <= f <= 0.5;
    MulLeft(amplitude, 0.2, f);
    MulLeft(amplitude, f, 0.5);
    MulLeft(f, amplitude, 1.0);
    MulNonNegative(amplitude, f);
  }

  lemma DisplacementGrowsWithTransient(amplitude: real, t1: real, t2: real)
    requires 0.0 <= amplitude && t1 <= t2
    ensures Displacement(amplitude, t1) <= Displacement(amplitude, t2)
    ensures ColorIntensity(amplitude, t1) <= ColorIntensity(amplitude, t2)
  {
    MulLeft(amplitude, 0.2 + t1 * 0.3, 0.2 + t2 * 0.3);
  }

  /** The distance used to normalise the rest direction: the rest point's
      length, or 1 for a particle resting at the centre. */
  function Divisor(norm: real): (r: real)
    ensures r > 0.0 || norm < 0.0
  {
    if norm == 0.0 then 1.0 else norm
  }

  /** A particle's displaced position: its rest position moved along its own
      direction from the centre. `norm` is the rest position's length. */
  function Displace(rest: Vec3, norm: real, displacement: real): (p: Vec3)
    requires 0.0 <= norm && norm * norm == NormSquared(rest)
  {
    var len := Divisor(norm);
    Vec3(rest.x + rest.x / len * displacement,
         rest.y + rest.y / len * displacement,
         rest.z + rest.z / len * displacement)
  }

  /** The displaced position lies on the ray through the rest position, at
      distance norm + displacement from the centre (the square of it, to
      stay clear of square roots); a particle at the centre stays there. */
  lemma DisplaceRadially(rest: Vec3, norm: real, displacement: real)
    requires 0.0 <= norm && norm * norm == NormSquared(rest)
    ensures Displace(rest, norm, displacement) == Scale(rest, 1.0 + displacement / Divisor(norm))
    ensures norm > 0.0 ==>
      NormSquared(Displace(rest, norm, displacement)) == (norm + displacement) * (norm + displacement)
    ensures norm == 0.0 ==> NormSquared(Displace(rest, norm, displacement)) == 0.0
  {
    var len := Divisor(norm);
    var k := 1.0 + displacement / len;
    ScaleFactor(rest.x, len, displacement);
    ScaleFactor(rest.y, len, displacement);
    ScaleFactor(rest.z, len, displacement);
    NormSquaredScale(rest, k);
    if norm > 0.0 {
      RadialLength(norm, displacement);
    }
  }

  lemma ScaleFactor(a: real, len: real, d: real)
    requires len > 0.0
    ensures a + a / len * d == a * (1.0 + d / len)
  {
    assert a / len * d == a * (d / len);
  }

  lemma RadialLength(norm: real, d: real)
    requires norm > 0.0
    ensures (1.0 + d / norm) * (1.0 + d / norm) * (norm * norm) == (norm + d) * (norm + d)
  {
    var k := 1.0 + d / norm;
    assert k * norm == norm + d;
    assert k * k * (norm * norm) == (k * norm) * (k * norm);
  }

  /** One byte of a 24-bit colour number: `unit` is 0x10000 for red, 0x100
      for green and 1 for blue. */
  function Byte(hex: nat, unit: nat): (r: nat)
    requires unit > 0
    ensures r < 256
  {
    (hex / unit) % 256
  }

  /** A 24-bit colour number is its three bytes, red highest. */
  lemma BytesOfHex(hex: nat)
    requires hex < 0x1000000
    ensures Byte(hex, 0x10000) * 0x10000 + Byte(hex, 0x100) * 0x100 + Byte(hex, 1) == hex
  {
    var q := hex / 0x10000;
    var low := hex % 0x10000;
    assert hex == q * 0x10000 + low;
    assert q < 256;
    assert Byte(hex, 0x10000) == q;
    assert hex / 0x100 == q * 0x100 + low / 0x100;
    assert Byte(hex, 0x100) == low / 0x100;
    assert Byte(hex, 1) == low % 0x100;
  }

  /** A band's colour from the band table as RGB in [0, 1]. */
  function BandColor(b: nat): (c: Vec3)
    requires b < Bands.BandCount
    ensures 0.0 <= c.x <= 1.0 && 0.0 <= c.y <= 1.0 && 0.0 <= c.z <= 1.0
  {
    var hex := Bands.Table[b].color;
    Vec3(Byte(hex, 0x10000) as real / 255.0, Byte(hex, 0x100) as real / 255.0, Byte(hex, 1) as real / 255.0)
  }

  /** One particle's new position and colour from the bands and transients. */
  datatype Particle = Particle(position: Vec3, color: Vec3)

  /** Particle i with rest position `rest` (of length `norm`) follows band
      BandOf(i): it moves along its own ray from the centre by that band's
      displacement, and takes that band's table colour times the colour
      factor. */
  function UpdateParticle(i: nat, rest: Vec3, norm: real, bands: seq<real>, transients: seq<real>): (p: Particle)
    requires i < ParticleCount
    requires |bands| == Bands.BandCount && |transients| == Bands.BandCount
    requires 0.0 <= norm && norm * norm == NormSquared(rest)
    ensures var b := BandOf(i, ParticleCount);
      b < Bands.BandCount
      && p.position == Scale(rest, 1.0 + Displacement(Amplitude(bands[b]), transients[b]) / Divisor(norm))
      && p.color == Scale(BandColor(b), ColorIntensity(Amplitude(bands[b]), transients[b]))
  {
    DefaultPartition(i);
    var b := BandOf(i, ParticleCount);
    var amplitude := Amplitude(bands[b]);
    DisplaceRadially(rest, norm, Displacement(amplitude, transients[b]));
    Particle(Displace(rest, norm, Displacement(amplitude, transients[b])),
             Scale(BandColor(b), ColorIntensity(amplitude, transients[b])))
  }

  /** With byte-range bands and transients in [0, 1], a particle moves out
      from its rest distance by at most half a unit. */
  lemma UpdateParticleDistance(i: nat, rest: Vec3, norm: real, bands: seq<real>, transients: seq<real>)
    requires i < ParticleCount
    requires |bands| == Bands.BandCount && |transients| == Bands.BandCount
    requires 0.0 <= norm && norm * norm == NormSquared(rest)
    requires Bands.InByteRange(bands) && Bands.Within(transients, 0.0, 1.0)
    ensures var p := UpdateParticle(i, rest, norm, bands, transients);
      norm * norm <= NormSquared(p.position) <= (norm + 0.5) * (norm + 0.5)
  {
    DefaultPartition(i);
    var b := BandOf(i, ParticleCount);
    var amplitude := Amplitude(bands[b]);
    AmplitudeWithin(bands[b]);
    MappingWithin(amplitude, transients[b]);
    var d := Displacement(amplitude, transients[b]);
    assert UpdateParticle(i, rest, norm, bands, transients).position == Displace(rest, norm, d);
    DisplaceRadially(rest, norm, d);
    if norm > 0.0 {
      SquareMonotone(norm, norm + d);
      SquareMonotone(norm + d, norm + 0.5);
    }
  }

  /** With byte-range bands and transients in [0, 1], each channel of a
      particle's colour lies between 0.3 and 1.3 times the same channel of
      its band's table colour. */
  lemma UpdateParticleColor(i: nat, rest: Vec3, norm: real, bands: seq<real>, transients: seq<real>)
    requires i < ParticleCount
    requires |bands| == Bands.BandCount && |transients| == Bands.BandCount
    requires 0.0 <= norm && norm * norm == NormSquared(rest)
    requires Bands.InByteRange(bands) && Bands.Within(transients, 0.0, 1.0)
    ensures var base := BandColor(BandOf(i, ParticleCount));
      Between(Scale(base, 0.3), UpdateParticle(i, rest, norm, bands, transients).color, Scale(base, 1.3))
  {
    DefaultPartition(i);
    var b := BandOf(i, ParticleCount);
    var amplitude := Amplitude(bands[b]);
    AmplitudeWithin(bands[b]);
    MappingWithin(amplitude, transients[b]);
    var c := ColorIntensity(amplitude, transients[b]);
    assert UpdateParticle(i, rest, norm, bands, transients).color == Scale(BandColor(b), c);
    ScaleBetween(BandColor(b), 0.3, c, 1.3);
  }

  /** The particles' rest positions and their lengths from the centre. */
  datatype Cloud = Cloud(rest: seq<Vec3>, norms: seq<real>)

  predicate ValidCloud(c: Cloud) {
    |c.rest| == ParticleCount && |c.norms| == ParticleCount
    && forall i :: 0 <= i < ParticleCount ==> 0.0 <= c.norms[i] && c.norms[i] * c.norms[i] == NormSquared(c.rest[i])
  }

  /** The loop of updateAdvancedParticles: every particle updated. */
  function UpdateParticles(cloud: Cloud, bands: seq<real>, transients: seq<real>): (ps: seq<Particle>)
    requires ValidCloud(cloud)
    requires |bands| == Bands.BandCount && |transients| == Bands.BandCount
    ensures |ps| == ParticleCount
  {
    seq(ParticleCount, i requires 0 <= i < ParticleCount =>
      UpdateParticle(i, cloud.rest[i], cloud.norms[i], bands, transients))
  }

  /** Every particle of the cloud sits between its rest distance and half a
      unit beyond it. */
  lemma ParticlesNear(cloud: Cloud, bands: seq<real>, transients: seq<real>, i: nat)
    requires ValidCloud(cloud) && i < ParticleCount
    requires |bands| == Bands.BandCount && |transients| == Bands.BandCount
    requires Bands.InByteRange(bands) && Bands.Within(transients, 0.0, 1.0)
    ensures var p := UpdateParticles(cloud, bands, transients)[i];
      cloud.norms[i] * cloud.norms[i] <= NormSquared(p.position) <= (cloud.norms[i] + 0.5) * (cloud.norms[i] + 0.5)
  {
    UpdateParticleDistance(i, cloud.rest[i], cloud.norms[i], bands, transients);
  }

  /** Channel by channel, lo <= v <= hi. */
  predicate Between(lo: Vec3, v: Vec3, hi: Vec3) {
    lo.x <= v.x <= hi.x && lo.y <= v.y <= hi.y && lo.z <= v.z <= hi.z
  }

  lemma ScaleBetween(v: Vec3, a: real, c: real, b: real)
    requires 0.0 <= v.x && 0.0 <= v.y && 0.0 <= v.z && a <= c <= b
    ensures Between(Scale(v, a), Scale(v, c), Scale(v, b))
  {
    MulLeft(v.x, a, c);
    MulLeft(v.x, c, b);
    MulLeft(v.y, a, c);
    MulLeft(v.y, c, b);
    MulLeft(v.z, a, c);
    MulLeft(v.z, c, b);
  }

  lemma SquareMonotone(a: real, b: real)
    requires 0.0 <= a <= b
    ensures a * a <= b * b
  {
    MulLeft(a, a, b);
    MulLeft(b, a, b);
  }

  /** The average of bands a and a + 1 as a fraction of the byte range. */
  function PairIntensity(bands: seq<real>, a: nat): real
    requires a + 1 < |bands|
  {
    (bands[a] + bands[a + 1]) / (2.0 * 255.0)
  }

  /** The central objects' parameters for one frame: the cube's and ring's
      scale factors (applied to every rest vertex), the hue of both
      materials and the factor their emissive colour is scaled by. */
  datatype Central = Central(cubeScale: real, ringScale: real, hue: real, emissive: real)

  function Loudest(bands: seq<real>): real
    requires |bands| == Bands.BandCount
  {
    Max(Max(PairIntensity(bands, 0), PairIntensity(bands, 4)), PairIntensity(bands, 8))
  }

  function Hue(intensity: real): real {
    0.6 - intensity * 0.4
  }

  /** The cube follows bass and mid, the ring the highs; hue and emissive
      both follow the loudest of the three pairs, so the hue falls by 0.8
      for every unit the emissive factor rises. */
  function CentralObjects(bands: seq<real>): (c: Central)
    requires |bands| == Bands.BandCount
    ensures c.cubeScale == 1.0 + 0.3 * PairIntensity(bands, 0) + 0.2 * PairIntensity(bands, 4)
    ensures c.ringScale == 1.0 + 0.4 * PairIntensity(bands, 8)
    ensures 2.0 * c.emissive >= PairIntensity(bands, 0) && 2.0 * c.emissive >= PairIntensity(bands, 4)
      && 2.0 * c.emissive >= PairIntensity(bands, 8)
    ensures 2.0 * c.emissive in {PairIntensity(bands, 0), PairIntensity(bands, 4), PairIntensity(bands, 8)}
    ensures c.hue == 0.6 - 0.8 * c.emissive
  {
    var bass := PairIntensity(bands, 0);
    var mid := PairIntensity(bands, 4);
    var high := PairIntensity(bands, 8);
    Central(1.0 + (bass * 0.3 + mid * 0.2), 1.0 + high * 0.4, Hue(Loudest(bands)), Loudest(bands) * 0.5)
  }

  lemma PairWithin(bands: seq<real>, a: nat)
    requires a + 1 < |bands| && Bands.InByteRange(bands)
    ensures 0.0 <= PairIntensity(bands, a) <= 1.0
  {
  }

  /** With byte-range bands the cube grows by at most half, the ring by at
      most 40%, the hue stays between 0.2 and 0.6 and the emissive factor
      between 0 and 0.5. */
  lemma CentralWithin(bands: seq<real>)
    requires |bands| == Bands.BandCount && Bands.InByteRange(bands)
    ensures 1.0 <= CentralObjects(bands).cubeScale <= 1.5
    ensures 1.0 <= CentralObjects(bands).ringScale <= 1.4
    ensures 0.2 <= CentralObjects(bands).hue <= 0.6
    ensures 0.0 <= CentralObjects(bands).emissive <= 0.5
  {
    PairWithin(bands, 0);
    PairWithin(bands, 4);
    PairWithin(bands, 8);
  }

  /** The louder the loudest pair, the further the hue moves from blue
      (0.6) toward red. */
  lemma HueFalls(a: real, b: real)
    requires a <= b
    ensures Hue(b) <= Hue(a)
  {
  }

  /** The cube and ring scales come from the fixed bass, mid and high pairs,
      and the hue and emissive factor from the loudest of those pairs:
      bands 2, 3, 6, 7 and 10 to 15 never affect the central objects. */
  lemma CentralIgnoresOtherBands(x: seq<real>, y: seq<real>)
    requires |x| == Bands.BandCount && |y| == Bands.BandCount
    requires forall j :: j in {0, 1, 4, 5, 8, 9} ==> x[j] == y[j]
    ensures CentralObjects(x) == CentralObjects(y)
  {
    assert x[0] == y[0] && x[1] == y[1] && x[4] == y[4] && x[5] == y[5] && x[8] == y[8] && x[9] == y[9];
  }

  /** Every vertex scaled about the centre. */
  function Deform(rest: seq<Vec3>, scale: real): (r: seq<Vec3>)
    ensures |r| == |rest|
  {
    seq(|rest|, i requires 0 <= i < |rest| => Scale(rest[i], scale))
  }

  /** Every vertex keeps its direction from the centre and its distance is
      multiplied by the scale (squared, as with particles). */
  lemma DeformScalesDistance(rest: seq<Vec3>, scale: real)
    ensures forall i :: 0 <= i < |rest| ==>
      NormSquared(Deform(rest, scale)[i]) == scale * scale * NormSquared(rest[i])
  {
    forall i | 0 <= i < |rest|
      ensures NormSquared(Deform(rest, scale)[i]) == scale * scale * NormSquared(rest[i])
    {
      NormSquaredScale(rest[i], scale);
    }
  }
}
