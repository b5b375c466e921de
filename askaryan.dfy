/** The Askaryan pulse models of a neutrino-induced particle shower:
    ZHS and AVZ, whose spectra are synthesised in the frequency domain
    (only their guards, hadronic-width regimes and time shift are modelled
    here), and ARVZ, which runs the convolution pulse engine once for the
    electromagnetic and once for the hadronic part of the shower and adds
    the two. */
module Askaryan {
  import opened Common
  import opened Numerics
  import opened ArrayOps
  import opened ShowerProfiles
  import opened ShowerPulse
  import opened Signals

  /** What the models read from a particle: its energy (GeV) and the
      electromagnetic and hadronic fractions of its interaction. */
  datatype Particle = Particle(energy: real, emFrac: real, hadFrac: real)

  /** `ZHSAskaryanSignal`. `transform` is the real part of the inverse
      FFT of the frequency-domain field, which is not modelled. */
  function ZhsAskaryanSignal(times: seq<real>, particle: Particle, angle: real, transform: seq<real>): (r: Result<Signal>)
    ensures Abs(angle) > Pi ==> r == Err(ValueError)
    ensures r.Ok? ==> r.value.WellFormed() && r.value.times == times && r.value.valueType == Field
    ensures Abs(angle) <= Pi && particle.energy * (particle.emFrac + particle.hadFrac) == 0.0 ==>
      r.Ok? && AllZero(r.value.values)
    ensures Abs(angle) <= Pi && particle.energy * (particle.emFrac + particle.hadFrac) != 0.0 ==>
      (r.Ok? <==> |times| >= 2 && times[1] != times[0])
  {
    if Abs(angle) > Pi then Err(ValueError)
    else if particle.energy * (particle.emFrac + particle.hadFrac) == 0.0 then
      Ok(NewSignal(times, Zeros(|times|), Field))
    else if |times| < 2 then Err(IndexError)
    else
      var dt := times[1] - times[0];
      if dt == 0.0 then Err(NonFinite)
      else Ok(NewSignal(times, Scale(transform, 1.0 / dt), Field))
  }

  /** epsilon = log10(E_had / 1 TeV); `None` stands for -inf (no hadronic
      energy) and NaN (negative energy), which fail every comparison. */
  function Epsilon(m: Math, hadEnergy: real): (r: Option<real>)
    ensures hadEnergy <= 0.0 <==> r == None
  {
    if hadEnergy <= 0.0 then None else Some(m.log10(hadEnergy / 1e3))
  }

  /** The hadronic angular width times frequency / 500 MHz (degrees):
      a four-regime function of epsilon, 0 outside the regimes. */
  function HadWidthCoefficient(eps: Option<real>): real
  {
    match eps
    case None => 0.0
    case Some(e) =>
      if 0.0 <= e <= 2.0 then 2.07 - 0.33 * e + 7.5e-2 * (e * e)
      else if 2.0 < e <= 5.0 then 1.74 - 1.21e-2 * e
      else if 5.0 < e <= 7.0 then 4.23 - 0.785 * e + 5.5e-2 * (e * e)
      else if e > 7.0 then (4.23 - 0.785 * 7.0 + 5.5e-2 * 49.0) * (1.0 + (e - 7.0) * 0.075)
      else 0.0
  }

  /** The width is positive exactly when epsilon is defined and not
      negative (hadronic energy of at least 1 TeV), and 0 otherwise. */
  lemma HadWidthPositive(eps: Option<real>)
    ensures HadWidthCoefficient(eps) > 0.0 <==> eps.Some? && eps.value >= 0.0
    ensures HadWidthCoefficient(eps) <= 0.0 ==> HadWidthCoefficient(eps) == 0.0
  {
    if eps.Some? {
      var e := eps.value;
      if 0.0 <= e <= 2.0 {
        NonNegProduct(e, e);
      } else if 5.0 < e <= 7.0 {
        StrictMonotoneProduct(5.0, e, e);
        StrictMonotoneProduct(5.0, e, 5.0);
      }
    }
  }

  /** Above epsilon = 7 the width is the 5-7 regime's polynomial at 7,
      scaled by 1 + 0.075 (epsilon - 7): the regimes meet at 7. */
  lemma HadWidthContinuousAtSeven(e: real)
    requires e > 7.0
    ensures HadWidthCoefficient(Some(e))
      == HadWidthCoefficient(Some(7.0)) * (1.0 + (e - 7.0) * 0.075)
  {
  }

  /** The number of positive frequencies of an N-sample real FFT
      (`rfftfreq(N)[1:]`). */
  function PositiveFrequencyCount(n: nat): nat
  {
    n / 2
  }

  /** The AVZ constructor adds the hadronic spectrum when the interaction
      has a hadronic fraction and the width is not zero at some frequency.
      A zero time step makes every frequency infinite and so every width
      zero. */
  predicate HadronicTermIncluded(m: Math, times: seq<real>, particle: Particle)
  {
    && particle.hadFrac > 0.0
    && PositiveFrequencyCount(|times|) > 0
    && times[1] != times[0]
    && HadWidthCoefficient(Epsilon(m, particle.energy * particle.hadFrac)) != 0.0
  }

  /** The hadronic term is included exactly for a positive hadronic
      fraction, at least two times with a non-zero step, and a hadronic
      energy of at least 1 TeV. */
  lemma HadronicTermIncludedIff(m: Math, times: seq<real>, particle: Particle)
    ensures HadronicTermIncluded(m, times, particle) <==>
      && particle.hadFrac > 0.0
      && |times| >= 2
      && times[1] != times[0]
      && particle.energy * particle.hadFrac > 0.0
      && m.log10(particle.energy * particle.hadFrac / 1e3) >= 0.0
  {
    var e := particle.energy * particle.hadFrac;
    HadWidthPositive(Epsilon(m, e));
    assert PositiveFrequencyCount(|times|) > 0 <==> |times| >= 2;
    if e > 0.0 {
      assert Epsilon(m, e) == Some(m.log10(e / 1e3));
    }
  }

  /** The shift that moves the pulse to t0: `int((t0 - times[0]) / dt)`. */
  function AvzShift(times: seq<real>, t0: real): int
    requires |times| >= 2 && times[1] != times[0]
  {
    Trunc((t0 - times[0]) / (times[1] - times[0]))
  }

  /** `AVZAskaryanSignal`. `trace` is the inverse real FFT of the combined
      spectrum divided by dt, which is not modelled; it is rolled so that
      the pulse comes at t0. */
  function AvzAskaryanSignal(times: seq<real>, particle: Particle, angle: real, t0: real, trace: seq<real>): (r: Result<Signal>)
    ensures Abs(angle) > Pi ==> r == Err(ValueError)
    ensures Abs(angle) <= Pi ==> (r.Ok? <==> |times| >= 2 && times[1] != times[0])
    ensures r.Ok? ==> r.value.WellFormed() && r.value.times == times && r.value.valueType == Field
  {
    if Abs(angle) > Pi then Err(ValueError)
    else if |times| < 2 then Err(IndexError)
    else if times[1] - times[0] == 0.0 then Err(NonFinite)
    else Ok(NewSignal(times, Roll(trace, AvzShift(times, t0)), Field))
  }

  /** With one trace sample per time, sample i of the trace ends up at
      position (i + shift) mod N of the values. */
  lemma AvzShiftMoves(times: seq<real>, particle: Particle, angle: real, t0: real, trace: seq<real>, i: nat)
    requires Abs(angle) <= Pi && |times| >= 2 && times[1] != times[0] && |trace| == |times| && i < |trace|
    ensures AvzAskaryanSignal(times, particle, angle, t0, trace).value.values[(i + AvzShift(times, t0)) % |trace|]
      == trace[i]
  {
    var k := AvzShift(times, t0);
    var v := AvzAskaryanSignal(times, particle, angle, t0, trace).value.values;
    assert v == Roll(trace, k) by {
      NewSignalKeeps(times, Roll(trace, k), Field);
    }
    RollMoves(trace, k, i);
  }

  /** Which profile `shower_signal` is given. */
  datatype ShowerKind = Electromagnetic | Hadronic

  /** The critical energy below which the kind's profile vanishes. */
  function CriticalEnergy(kind: ShowerKind): real
  {
    match kind
    case Electromagnetic => EmCriticalEnergy
    case Hadronic => HadCriticalEnergy
  }

  function ProfileAt(m: Math, kind: ShowerKind, z: real, energy: real): (r: Option<real>)
    ensures energy <= CriticalEnergy(kind) ==> r == Some(0.0)
  {
    match kind
    case Electromagnetic => EmProfileAt(m, z, energy)
    case Hadronic => HadProfileAt(m, z, energy)
  }

  /** The charge profile Q sampled at the depths of the grid. */
  function ChargeSamples(m: Math, kind: ShowerKind, g: Grid, energy: real): (r: Samples)
    ensures r.Length() == g.nQ
  {
    Tabulate(z => ProfileAt(m, kind, z, energy), ChargeDepths(g))
  }

  /** `shower_signal`: the field samples of one shower, one fewer than the
      times. A zero energy returns zeros at once (and numpy refuses a
      negative length for an empty times array), and so does an all-zero
      profile; a non-positive `n_RAC` leaves the convolution an empty
      operand, which it refuses. `aligned` selects the corrected
      re-alignment of the convolution; `false` models the code as written. */
  function ShowerSignal(m: Math, times: seq<real>, energy: real, kind: ShowerKind, theta: real,
                        distance: real, n: real, t0: real, aligned: bool): (r: Result<Samples>)
    ensures energy == 0.0 ==> (r.Ok? <==> |times| >= 1)
    ensures energy == 0.0 && |times| >= 1 ==> r == Ok(Finite(Zeros(|times| - 1)))
    ensures energy != 0.0 && |times| < 2 ==> r == Err(IndexError)
  {
    if energy == 0.0 then
      if |times| == 0 then Err(ValueError) else Ok(Finite(Zeros(|times| - 1)))
    else
      match SamplingGrid(m, times, energy, theta, n)
      case Err(e) => Err(e)
      case Ok(g) =>
        var q := ChargeSamples(m, kind, g, energy);
        if q.Finite? && AllZero(q.values) then Ok(Finite(Zeros(|times| - 1)))
        else
          var w := RacWindow(times, t0, g);
          if w.nRac <= 0 then Err(ValueError)
          else
            var rac := Rac(m, RacTimes(times[0] - t0, g, w), energy);
            Ok(DivideBy(FieldSamples(m, q, rac, w, g, |times|, theta, n, aligned), distance))
  }

  /** With the corrected re-alignment `shower_signal` always returns
      exactly `len(times) - 1` samples, the length its docstring gives
      (one less than `times`) and the sizing of the R*A_C window aims at. */
  lemma ShowerSignalLength(m: Math, times: seq<real>, energy: real, kind: ShowerKind, theta: real,
                           distance: real, n: real, t0: real)
    ensures var r := ShowerSignal(m, times, energy, kind, theta, distance, n, t0, true);
      r.Ok? ==> r.value.Length() == |times| - 1
  {
    if energy != 0.0 {
      var grid := SamplingGrid(m, times, energy, theta, n);
      if grid.Ok? {
        var g := grid.value;
        var q := ChargeSamples(m, kind, g, energy);
        var w := RacWindow(times, t0, g);
        if !(q.Finite? && AllZero(q.values)) && w.nRac > 0 {
          var rac := Rac(m, RacTimes(times[0] - t0, g, w), energy);
          AlignedFieldLength(m, q, rac, w, g, |times|, theta, n);
        }
      }
    }
  }

  /** As written, `shower_signal` either agrees with the corrected version
      or returns at least `len(times)` samples: the latter exactly when the
      R*A_C window starts past the end of the convolution. */
  lemma ShowerSignalAsWritten(m: Math, times: seq<real>, energy: real, kind: ShowerKind, theta: real,
                              distance: real, n: real, t0: real)
    ensures var asWritten := ShowerSignal(m, times, energy, kind, theta, distance, n, t0, false);
      || asWritten == ShowerSignal(m, times, energy, kind, theta, distance, n, t0, true)
      || (asWritten.Ok? && asWritten.value.Length() >= |times|)
  {
    if energy != 0.0 {
      var grid := SamplingGrid(m, times, energy, theta, n);
      if grid.Ok? {
        var g := grid.value;
        var q := ChargeSamples(m, kind, g, energy);
        var w := RacWindow(times, t0, g);
        if !(q.Finite? && AllZero(q.values)) && w.nRac > 0 {
          var rac := Rac(m, RacTimes(times[0] - t0, g, w), energy);
          AsWrittenFieldLength(m, q, rac, w, g, |times|, theta, n);
        }
      }
    }
  }

  /** Below its critical energy a shower's profile vanishes and, once the
      grid exists, `shower_signal` returns `len(times) - 1` zeros. */
  lemma ShowerSignalBelowCritical(m: Math, times: seq<real>, energy: real, kind: ShowerKind, theta: real,
                                  distance: real, n: real, t0: real, aligned: bool)
    requires energy <= CriticalEnergy(kind)
    requires SamplingGrid(m, times, energy, theta, n).Ok?
    ensures ShowerSignal(m, times, energy, kind, theta, distance, n, t0, aligned) == Ok(Finite(Zeros(|times| - 1)))
  {
    if energy != 0.0 {
      var g := SamplingGrid(m, times, energy, theta, n).value;
      var q := ChargeSamples(m, kind, g, energy);
      assert q.Finite? && AllZero(q.values);
    }
  }

  /** Multiplying the viewing distance by k divides every returned sample
      by k; the errors do not depend on the distance. */
  lemma ShowerSignalDistance(m: Math, times: seq<real>, energy: real, kind: ShowerKind, theta: real,
                             distance: real, n: real, t0: real, aligned: bool, k: real)
    requires distance != 0.0 && k != 0.0
    ensures ScaledBy(ShowerSignal(m, times, energy, kind, theta, distance, n, t0, aligned),
                     ShowerSignal(m, times, energy, kind, theta, distance * k, n, t0, aligned), k)
  {
    var near := ShowerSignal(m, times, energy, kind, theta, distance, n, t0, aligned);
    var far := ShowerSignal(m, times, energy, kind, theta, distance * k, n, t0, aligned);
    if energy == 0.0 {
      assert far == near;
      SameScaledBy(near, k);
    } else {
      var grid := SamplingGrid(m, times, energy, theta, n);
      if grid.Err? {
        assert far == near;
        SameScaledBy(near, k);
      } else {
        var g := grid.value;
        var q := ChargeSamples(m, kind, g, energy);
        var w := RacWindow(times, t0, g);
        if (q.Finite? && AllZero(q.values)) || w.nRac <= 0 {
          assert far == near;
          SameScaledBy(near, k);
        } else {
          var rac := Rac(m, RacTimes(times[0] - t0, g, w), energy);
          var field := FieldSamples(m, q, rac, w, g, |times|, theta, n, aligned);
          assert near == Ok(DivideBy(field, distance));
          assert far == Ok(DivideBy(field, distance * k));
          DividedScaledBy(field, distance, k);
        }
      }
    }
  }

  /** `far` holds the samples of `near` divided by k, with the same errors. */
  predicate ScaledBy(near: Result<Samples>, far: Result<Samples>, k: real)
    requires k != 0.0
  {
    && (near.Ok? <==> far.Ok?)
    && (near.Err? ==> far == near)
    && (near.Ok? && near.value.Finite? ==>
      && far.value.Finite?
      && |far.value.values| == |near.value.values|
      && forall i :: 0 <= i < |near.value.values| ==> far.value.values[i] == near.value.values[i] / k)
  }

  lemma SameScaledBy(r: Result<Samples>, k: real)
    requires k != 0.0
    requires r.Ok? ==> r.value.Finite? && AllZero(r.value.values)
    ensures ScaledBy(r, r, k)
  {
  }

  lemma DividedScaledBy(field: Samples, distance: real, k: real)
    requires distance != 0.0 && k != 0.0
    ensures ScaledBy(Ok(DivideBy(field, distance)), Ok(DivideBy(field, distance * k)), k)
  {
    if field.Finite? {
      DivideByScaled(field, distance, k);
    }
  }

  /** Addition of two numpy arrays: equal lengths add sample by sample, a
      single sample is broadcast to the other's length, and any other
      pair of lengths is a ValueError. */
  function BroadcastAdd(a: Samples, b: Samples): (r: Result<Samples>)
    ensures r.Err? <==> a.Length() != b.Length() && a.Length() != 1 && b.Length() != 1
    ensures r.Err? ==> r.error == ValueError
    ensures r.Ok? && a.Length() == b.Length() ==> r.value.Length() == a.Length()
    ensures r.Ok? && a.Finite? && b.Finite? && |a.values| == |b.values| ==>
      && r.value.Finite?
      && forall i :: 0 <= i < |a.values| ==> r.value.values[i] == a.values[i] + b.values[i]
  {
    if a.Length() != b.Length() && a.Length() != 1 && b.Length() != 1 then Err(ValueError)
    else
      var count := if a.Length() == 1 then b.Length() else a.Length();
      if a.Finite? && b.Finite? then
        Ok(Finite(seq(count, i requires 0 <= i < count =>
          a.values[if |a.values| == 1 then 0 else i] + b.values[if |b.values| == 1 then 0 else i])))
      else if count == 0 then Ok(Finite([]))
      else Ok(NotFinite(count))
  }

  /** The last step of `ARVZAskaryanSignal`: the first error of the two
      showers, else their broadcast sum as a field signal zero-padded to
      the times; a sum holding inf or NaN is reported as `NonFinite`. */
  function CombineShowers(times: seq<real>, em: Result<Samples>, had: Result<Samples>): (r: Result<Signal>)
    ensures r.Ok? ==> r.value.WellFormed() && r.value.times == times && r.value.valueType == Field
    ensures em.Err? ==> r == Err(em.error)
    ensures em.Ok? && had.Err? ==> r == Err(had.error)
  {
    if em.Err? then Err(em.error)
    else if had.Err? then Err(had.error)
    else
      match BroadcastAdd(em.value, had.value)
      case Err(e) => Err(e)
      case Ok(sum) => if sum.NotFinite? then Err(NonFinite) else Ok(NewSignal(times, sum.values, Field))
  }

  /** Two finite showers of `len(times) - 1` samples combine into a signal
      whose values are their sums, padded with a last 0. */
  lemma CombineSums(times: seq<real>, em: Samples, had: Samples)
    requires em.Finite? && had.Finite? && |em.values| == |had.values| == |times| - 1
    ensures var r := CombineShowers(times, Ok(em), Ok(had));
      && r.Ok?
      && (forall i :: 0 <= i < |times| - 1 ==> r.value.values[i] == em.values[i] + had.values[i])
      && r.value.values[|times| - 1] == 0.0
  {
    var sum := BroadcastAdd(em, had).value;
    assert sum.Finite? && |sum.values| == |times| - 1;
  }

  /** `ARVZAskaryanSignal`: the particle's energy is split into its
      electromagnetic and hadronic shares, and the field is that of the two
      showers together. */
  function ArvzAskaryanSignal(m: Math, times: seq<real>, particle: Particle, angle: real, distance: real,
                              n: real, t0: real, aligned: bool): (r: Result<Signal>)
    ensures Abs(angle) > Pi ==> r == Err(ValueError)
    ensures r.Ok? ==> r.value.WellFormed() && r.value.times == times && r.value.valueType == Field
  {
    ArvzShowers(m, times, particle.energy * particle.emFrac, particle.energy * particle.hadFrac,
                angle, distance, n, t0, aligned)
  }

  /** The field of an electromagnetic shower of `emEnergy` plus that of a
      hadronic shower of `hadEnergy`, each from `shower_signal` with its own
      profile, seen from `abs(angle)`. */
  function ArvzShowers(m: Math, times: seq<real>, emEnergy: real, hadEnergy: real, angle: real,
                       distance: real, n: real, t0: real, aligned: bool): (r: Result<Signal>)
    ensures Abs(angle) > Pi ==> r == Err(ValueError)
    ensures r.Ok? ==> r.value.WellFormed() && r.value.times == times && r.value.valueType == Field
  {
    if Abs(angle) > Pi then Err(ValueError)
    else
      CombineShowers(times,
        ShowerSignal(m, times, emEnergy, Electromagnetic, Abs(angle), distance, n, t0, aligned),
        ShowerSignal(m, times, hadEnergy, Hadronic, Abs(angle), distance, n, t0, aligned))
  }

  /** With the corrected re-alignment, when both showers give finite
      samples the signal exists, each value but the last is the sum of the
      two showers' samples, and the last (padding) value is 0. */
  lemma ArvzSumsShowers(m: Math, times: seq<real>, emEnergy: real, hadEnergy: real, angle: real,
                        distance: real, n: real, t0: real, em: Samples, had: Samples)
    requires Abs(angle) <= Pi
    requires ShowerSignal(m, times, emEnergy, Electromagnetic, Abs(angle), distance, n, t0, true) == Ok(em)
    requires ShowerSignal(m, times, hadEnergy, Hadronic, Abs(angle), distance, n, t0, true) == Ok(had)
    requires em.Finite? && had.Finite?
    ensures |times| >= 1 && |em.values| == |had.values| == |times| - 1
    ensures var r := ArvzShowers(m, times, emEnergy, hadEnergy, angle, distance, n, t0, true);
      && r.Ok?
      && (forall i :: 0 <= i < |times| - 1 ==> r.value.values[i] == em.values[i] + had.values[i])
      && r.value.values[|times| - 1] == 0.0
  {
    assert |em.values| == |times| - 1 by {
      ShowerSignalLength(m, times, emEnergy, Electromagnetic, Abs(angle), distance, n, t0);
    }
    assert |had.values| == |times| - 1 by {
      ShowerSignalLength(m, times, hadEnergy, Hadronic, Abs(angle), distance, n, t0);
    }
    CombineSums(times, em, had);
  }
}
