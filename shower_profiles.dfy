/** Longitudinal charge profiles of particle showers in ice, the R*A_C
    vector-potential parameterisation at the Cherenkov angle, and the depth
    of the shower maximum. A value that numpy would compute as inf or NaN
    is `None`. */
module ShowerProfiles {
  import opened Common
  import opened Numerics
  import opened ArrayOps

  /** Density of ice (g/cm^3). */
  const IceDensity: real := 0.92
  /** Charge of one excess particle (C). */
  const ElementaryCharge: real := 1.602e-19
  /** Electromagnetic critical energy (GeV) and radiation length (g/cm^2). */
  const EmCriticalEnergy: real := 7.86e-2
  const EmRadiationLength: real := 36.08
  /** Hadronic critical energy (GeV), radiation and interaction lengths
      (g/cm^2), and the particle-number scale factor. */
  const HadCriticalEnergy: real := 17.006e-2
  const HadRadiationLength: real := 39.562
  const HadInteractionLength: real := 113.03
  const HadScaleFactor: real := 0.11842

  /** Greisen profile: the excess charge (C) at distance z (m) along an
      electromagnetic shower of the given energy (GeV). */
  function EmProfileAt(m: Math, z: real, energy: real): (r: Option<real>)
    ensures energy <= EmCriticalEnergy || z <= 0.0 ==> r == Some(0.0)
  {
    if energy <= EmCriticalEnergy || z <= 0.0 then Some(0.0)
    else
      var x := 100.0 * z * IceDensity;
      var xRatio := x / EmRadiationLength;
      var logE := m.log(energy / EmCriticalEnergy);
      if xRatio + 2.0 * logE == 0.0 then None
      else
        var age := 3.0 * xRatio / (xRatio + 2.0 * logE);
        if age <= 0.0 || logE <= 0.0 || m.sqrt(logE) == 0.0 then None
        else
          var particles := 0.31 * m.exp(xRatio * (1.0 - 1.5 * m.log(age))) / m.sqrt(logE);
          Some(particles * ElementaryCharge)
  }

  /** Above the critical energy the profile is finite everywhere and
      positive at every positive depth; it is never negative. */
  lemma EmProfilePositive(m: Math, z: real, energy: real)
    requires m.Sound()
    ensures EmProfileAt(m, z, energy).Some?
    ensures EmProfileAt(m, z, energy).value >= 0.0
    ensures energy > EmCriticalEnergy && z > 0.0 ==> EmProfileAt(m, z, energy).value > 0.0
  {
    if energy > EmCriticalEnergy && z > 0.0 {
      var eRatio := energy / EmCriticalEnergy;
      assert eRatio > 1.0;
      LogSign(m, eRatio);
      var logE := m.log(eRatio);
      var xRatio := 100.0 * z * IceDensity / EmRadiationLength;
      assert xRatio > 0.0;
      var age := 3.0 * xRatio / (xRatio + 2.0 * logE);
      assert age > 0.0;
      var e := m.exp(xRatio * (1.0 - 1.5 * m.log(age)));
      assert e > 0.0;
      assert m.sqrt(logE) > 0.0;
      assert 0.31 * e / m.sqrt(logE) > 0.0;
    }
  }

  /** `em_shower_profile` on an array of depths. */
  function EmShowerProfile(m: Math, zs: seq<real>, energy: real): (r: Samples)
    ensures r.Length() == |zs|
  {
    Tabulate(z => EmProfileAt(m, z, energy), zs)
  }

  /** Gaisser-Hillas profile: the excess charge (C) at distance z (m)
      along a hadronic shower of the given energy (GeV). */
  function HadProfileAt(m: Math, z: real, energy: real): (r: Option<real>)
    ensures energy <= HadCriticalEnergy || z <= 0.0 ==> r == Some(0.0)
  {
    if energy <= HadCriticalEnergy || z <= 0.0 then Some(0.0)
    else
      var x := 100.0 * z * IceDensity;
      var eRatio := energy / HadCriticalEnergy;
      var xMax := HadRadiationLength * m.log(eRatio);
      if xMax == 0.0 || xMax == HadInteractionLength then None
      else
        var base := x / (xMax - HadInteractionLength);
        var exponent := xMax / HadInteractionLength;
        // numpy's power of a negative base to a non-integer exponent is NaN
        if base < 0.0 && exponent != exponent.Floor as real then None
        else
          var particles := HadScaleFactor * eRatio * (xMax - HadInteractionLength) / xMax
            * m.pow(base, exponent) * m.exp((xMax - x) / HadInteractionLength - 1.0);
          Some(particles * ElementaryCharge)
  }

  /** When the depth of the shower maximum exceeds the interaction length,
      the hadronic profile is finite and positive at every positive depth. */
  lemma HadProfilePositive(m: Math, z: real, energy: real)
    requires m.Sound() && energy > HadCriticalEnergy && z > 0.0
    requires HadRadiationLength * m.log(energy / HadCriticalEnergy) > HadInteractionLength
    ensures HadProfileAt(m, z, energy).Some? && HadProfileAt(m, z, energy).value > 0.0
  {
    var eRatio := energy / HadCriticalEnergy;
    var xMax := HadRadiationLength * m.log(eRatio);
    var x := 100.0 * z * IceDensity;
    var base := x / (xMax - HadInteractionLength);
    assert base > 0.0;
    var exponent := xMax / HadInteractionLength;
    var p := m.pow(base, exponent);
    var e := m.exp((xMax - x) / HadInteractionLength - 1.0);
    assert p > 0.0 && e > 0.0;
    var lead := HadScaleFactor * eRatio * (xMax - HadInteractionLength) / xMax;
    assert lead > 0.0;
    assert lead * p * e > 0.0;
  }

  /** Just above the hadronic critical energy (below 3.857 times it) the
      shower maximum lies before one interaction length, the power has a
      negative base and a fractional exponent, and every positive depth
      gives NaN. */
  lemma HadProfileNotFiniteAtLowEnergy(m: Math, z: real, energy: real)
    requires m.Sound() && HadCriticalEnergy < energy < 3.857 * HadCriticalEnergy && z > 0.0
    ensures HadProfileAt(m, z, energy) == None
  {
    var eRatio := energy / HadCriticalEnergy;
    assert 1.0 < eRatio < 3.857;
    LogSign(m, eRatio);
    var xMax := HadRadiationLength * m.log(eRatio);
    assert 0.0 < xMax < HadInteractionLength;
    var exponent := xMax / HadInteractionLength;
    assert 0.0 < exponent < 1.0;
    assert exponent.Floor == 0;
    var x := 100.0 * z * IceDensity;
    assert x > 0.0;
    var base := x / (xMax - HadInteractionLength);
    assert base < 0.0;
  }

  /** `had_shower_profile` on an array of depths. */
  function HadShowerProfile(m: Math, zs: seq<real>, energy: real): (r: Samples)
    ensures r.Length() == |zs|
  {
    Tabulate(z => HadProfileAt(m, z, energy), zs)
  }

  /** R*A_C (V s): the observation distance times the vector potential at
      the Cherenkov angle, at time t (s) for a shower of the given energy. */
  function RacAt(m: Math, t: real, energy: real): real
  {
    var ta := Abs(t) * 1e9;
    if t >= 0.0 then
      -4.5e-17 * energy * (m.exp(-ta / 0.057) + m.pow(1.0 + 2.87 * ta, -3.0))
    else
      -4.5e-17 * energy * (m.exp(-ta / 0.030) + m.pow(1.0 + 3.05 * ta, -3.5))
  }

  /** For a positive energy the potential is negative at every time,
      and it is proportional to the energy. */
  lemma RacSign(m: Math, t: real, energy: real)
    requires m.Sound()
    ensures energy > 0.0 ==> RacAt(m, t, energy) < 0.0
    ensures energy == 0.0 ==> RacAt(m, t, energy) == 0.0
    ensures RacAt(m, t, energy) == energy * RacAt(m, t, 1.0)
  {
    var ta := Abs(t) * 1e9;
    assert 1.0 + 2.87 * ta > 0.0 && 1.0 + 3.05 * ta > 0.0;
    if t >= 0.0 {
      var k := m.exp(-ta / 0.057) + m.pow(1.0 + 2.87 * ta, -3.0);
      assert k > 0.0;
    } else {
      var k := m.exp(-ta / 0.030) + m.pow(1.0 + 3.05 * ta, -3.5);
      assert k > 0.0;
    }
  }

  /** `RAC` on an array of times. */
  function Rac(m: Math, ts: seq<real>, energy: real): (r: seq<real>)
    ensures |r| == |ts| && forall i :: 0 <= i < |ts| ==> r[i] == RacAt(m, ts[i], energy)
  {
    seq(|ts|, i requires 0 <= i < |ts| => RacAt(m, ts[i], energy))
  }

  /** `max_length` (m): the distance to the maximum of a shower of the given
      energy, with the electromagnetic constants. `None` when the logarithm
      is of a non-positive number (inf or NaN in numpy). */
  function MaxLength(m: Math, energy: real): (r: Option<real>)
    ensures energy <= 0.0 ==> r == None
  {
    if energy <= 0.0 || m.log(2.0) == 0.0 then None
    else
      var xMax := EmRadiationLength * m.log(energy / EmCriticalEnergy) / m.log(2.0);
      Some(0.01 * xMax / IceDensity)
  }

  /** For a positive energy the length is finite and has the sign of
      energy - critical energy: zero exactly at the critical energy. */
  lemma MaxLengthSign(m: Math, energy: real)
    requires m.Sound() && energy > 0.0
    ensures MaxLength(m, energy).Some?
    ensures energy > EmCriticalEnergy ==> MaxLength(m, energy).value > 0.0
    ensures energy < EmCriticalEnergy ==> MaxLength(m, energy).value < 0.0
    ensures energy == EmCriticalEnergy ==> MaxLength(m, energy).value == 0.0
  {
    LogSign(m, 2.0);
    var eRatio := energy / EmCriticalEnergy;
    LogSign(m, eRatio);
    var l2 := m.log(2.0);
    var le := m.log(eRatio);
    if energy > EmCriticalEnergy {
      assert eRatio > 1.0;
      assert le / l2 > 0.0;
    } else if energy < EmCriticalEnergy {
      assert eRatio < 1.0;
      assert le / l2 < 0.0;
    }
  }
}
