/** Thermal (Rayleigh) noise: a sum of cosines at evenly spaced frequencies
    in a band, each with an amplitude and a random phase, normalised to an
    RMS voltage. The random phases are a parameter: the k-th uniform draw
    in [0, 1) gives phase 2*pi times it. */
module ThermalNoise {
  import opened Common
  import opened Numerics
  import opened ArrayOps
  import opened Signals

  /** Boltzmann's constant (J/K) as the noise formula writes it. */
  const Boltzmann: real := 1.38e-23

  /** `f_amplitude`: one number for every frequency, or a function of frequency. */
  datatype Amplitude = Constant(a: real) | PerFrequency(f: real -> real)

  /** The frequencies, amplitudes and phases of the components, the
      normalisation sqrt(2/N) for N frequencies, and the RMS voltage. */
  datatype Noise = Noise(freqs: seq<real>, amps: seq<real>, phases: seq<real>, norm: real, rms: real)
  {
    predicate Valid() {
      |freqs| >= 1 && |amps| == |freqs| && |phases| == |freqs|
    }
  }

  /** The number of frequencies: `n_freqs` when at least 1, otherwise the
      band width times the duration of the times array, and at least 1;
      truncated to an integer. The duration needs the last time, which an
      empty times array does not have. */
  function NumFrequencies(times: seq<real>, fMin: real, fMax: real, nFreqs: real): (r: Result<nat>)
    ensures r.Err? <==> nFreqs < 1.0 && |times| == 0
    ensures r.Err? ==> r.error == IndexError
    ensures r.Ok? ==> r.value >= 1
    ensures nFreqs >= 1.0 ==> r == Ok(Trunc(nFreqs))
  {
    if nFreqs >= 1.0 then Ok(Trunc(nFreqs))
    else if |times| == 0 then Err(IndexError)
    else
      var byBin := (fMax - fMin) * (times[|times| - 1] - times[0]);
      Ok(if byBin < 1.0 then 1 else Trunc(byBin))
  }

  /** The RMS voltage: the one given, else sqrt(4 k T R bandwidth); with
      neither, ValueError. A negative quantity under the root is NaN. */
  function RmsVoltage(m: Math, fMin: real, fMax: real, rmsVoltage: Option<real>,
                      temperature: Option<real>, resistance: Option<real>): (r: Result<real>)
    ensures rmsVoltage.Some? ==> r == Ok(rmsVoltage.value)
    ensures rmsVoltage.None? && (temperature.None? || resistance.None?) ==> r == Err(ValueError)
    ensures rmsVoltage.None? && temperature.Some? && resistance.Some? ==>
      && (r.Err? <==> 4.0 * Boltzmann * temperature.value * resistance.value * (fMax - fMin) < 0.0)
      && (r.Err? ==> r.error == NonFinite)
    ensures m.Sound() && rmsVoltage.None? && r.Ok? ==> r.value >= 0.0
  {
    if rmsVoltage.Some? then Ok(rmsVoltage.value)
    else if temperature.Some? && resistance.Some? then
      var power := 4.0 * Boltzmann * temperature.value * resistance.value * (fMax - fMin);
      if power < 0.0 then Err(NonFinite) else Ok(m.sqrt(power))
    else Err(ValueError)
  }

  /** The noise parameters `ThermalNoise.__init__` computes before it
      builds its function of time. */
  function MakeNoise(m: Math, times: seq<real>, fMin: real, fMax: real, amplitude: Amplitude,
                     rmsVoltage: Option<real>, temperature: Option<real>, resistance: Option<real>,
                     nFreqs: real, uniform: nat -> real): (r: Result<Noise>)
    ensures nFreqs < 1.0 && |times| == 0 ==> r == Err(IndexError)
    ensures (nFreqs >= 1.0 || |times| > 0) && rmsVoltage.None? && (temperature.None? || resistance.None?)
      ==> r == Err(ValueError)
    ensures r.Err? <==>
      NumFrequencies(times, fMin, fMax, nFreqs).Err?
      || RmsVoltage(m, fMin, fMax, rmsVoltage, temperature, resistance).Err?
    ensures r.Ok? ==>
      && NumFrequencies(times, fMin, fMax, nFreqs) == Ok(|r.value.freqs|)
      && r.value.freqs == LinspaceOpen(fMin, fMax, |r.value.freqs|)
      && RmsVoltage(m, fMin, fMax, rmsVoltage, temperature, resistance) == Ok(r.value.rms)
    ensures r.Ok? ==> r.value.Valid()
    ensures r.Ok? ==> r.value.norm == m.sqrt(2.0 / (|r.value.freqs| as real))
    ensures r.Ok? ==> forall k :: 0 <= k < |r.value.freqs| ==>
      && r.value.phases[k] == 2.0 * Pi * uniform(k)
      && r.value.amps[k] == match amplitude {
           case Constant(a) => a
           case PerFrequency(f) => f(r.value.freqs[k])
         }
    ensures r.Ok? && (forall k: nat :: 0.0 <= uniform(k) < 1.0) ==>
      forall k :: 0 <= k < |r.value.phases| ==> 0.0 <= r.value.phases[k] < 2.0 * Pi
  {
    match NumFrequencies(times, fMin, fMax, nFreqs) {
      case Err(e) => Err(e)
      case Ok(n) =>
        var freqs := LinspaceOpen(fMin, fMax, n);
        var amps := match amplitude {
          case Constant(a) => seq(n, _ => a)
          case PerFrequency(f) => seq(n, k requires 0 <= k < n => f(freqs[k]))
        };
        var phases := seq(n, k requires 0 <= k < n => 2.0 * Pi * uniform(k));
        match RmsVoltage(m, fMin, fMax, rmsVoltage, temperature, resistance) {
          case Err(e) => Err(e)
          case Ok(rms) => Ok(Noise(freqs, amps, phases, m.sqrt(2.0 / (n as real)), rms))
        }
    }
  }

  /** The component k, skipped (zero) at frequency zero. */
  function Component(m: Math, p: Noise, t: real, k: nat): real
    requires p.Valid() && k < |p.freqs|
  {
    if p.freqs[k] == 0.0 then 0.0 else p.amps[k] * m.cos(Phase(p, t, k))
  }

  /** The argument of the cosine of component k at time t. */
  function Phase(p: Noise, t: real, k: nat): real
    requires p.Valid() && k < |p.freqs|
  {
    2.0 * Pi * p.freqs[k] * t + p.phases[k]
  }

  /** The sum of the first k components at time t. */
  function PartialNoise(m: Math, p: Noise, t: real, k: nat): real
    requires p.Valid() && k <= |p.freqs|
  {
    if k == 0 then 0.0 else PartialNoise(m, p, t, k - 1) + Component(m, p, t, k - 1)
  }

  /** The noise voltage at time t. */
  function NoiseAt(m: Math, p: Noise, t: real): real
    requires p.Valid()
  {
    PartialNoise(m, p, t, |p.freqs|) * p.norm * p.rms
  }

  /** The sum of the absolute amplitudes of the first k components. */
  function AmplitudeBound(p: Noise, k: nat): (r: real)
    requires p.Valid() && k <= |p.freqs|
    ensures r >= 0.0
  {
    if k == 0 then 0.0 else AmplitudeBound(p, k - 1) + Abs(p.amps[k - 1])
  }

  lemma AbsScaledByUnit(a: real, c: real)
    requires -1.0 <= c <= 1.0
    ensures Abs(a * c) <= Abs(a)
  {
    var lo, hi := 1.0 + c, 1.0 - c;
    assert lo >= 0.0 && hi >= 0.0;
    assert a * c == a * (1.0 - hi) == a - a * hi;
    assert a * c == a * (lo - 1.0) == a * lo - a;
    if a >= 0.0 {
      NonNegProduct(a, hi);
      NonNegProduct(a, lo);
    } else {
      NonNegProduct(-a, hi);
      NonNegProduct(-a, lo);
    }
  }



  lemma CosBounded(m: Math, x: real)
    requires m.Sound()
    ensures -1.0 <= m.cos(x) <= 1.0
  {
  }

  lemma ComponentBounded(m: Math, p: Noise, t: real, k: nat)
    requires m.Sound() && p.Valid() && k < |p.freqs|
    ensures Abs(Component(m, p, t, k)) <= Abs(p.amps[k])
  {
    if p.freqs[k] != 0.0 {
      var x := Phase(p, t, k);
      assert Component(m, p, t, k) == p.amps[k] * m.cos(x);
      CosBounded(m, x);
      AbsScaledByUnit(p.amps[k], m.cos(x));
    }
  }

  lemma {:induction false} PartialNoiseBounded(m: Math, p: Noise, t: real, k: nat)
    requires m.Sound() && p.Valid() && k <= |p.freqs|
    ensures Abs(PartialNoise(m, p, t, k)) <= AmplitudeBound(p, k)
  {
    if k > 0 {
      PartialNoiseBounded(m, p, t, k - 1);
      ComponentBounded(m, p, t, k - 1);
    }
  }

  /** The normalisation sqrt(2/N) of N >= 1 frequencies is positive. */
  lemma NormPositive(m: Math, n: nat)
    requires m.Sound() && n >= 1
    ensures m.sqrt(2.0 / (n as real)) > 0.0
  {
    assert 2.0 / (n as real) > 0.0;
  }

  /** The function of time `ThermalNoise` evaluates on a whole times array:
      one pass over the components, each added to every sample, then the
      normalisation sqrt(2/N) and the RMS voltage. */
  method NoiseValues(m: Math, p: Noise, ts: seq<real>) returns (values: seq<real>)
    requires p.Valid()
    ensures |values| == |ts| && forall i :: 0 <= i < |ts| ==> values[i] == NoiseAt(m, p, ts[i])
  {
    values := Zeros(|ts|);
    var k := 0;
    while k < |p.freqs|
      invariant 0 <= k <= |p.freqs|
      invariant |values| == |ts|
      invariant forall i :: 0 <= i < |ts| ==> values[i] == PartialNoise(m, p, ts[i], k)
    {
      if p.freqs[k] != 0.0 {
        values := AddComponent(m, p, values, ts, k);
      } else {
        forall i | 0 <= i < |ts|
          ensures values[i] == PartialNoise(m, p, ts[i], k + 1)
        {
          NextPartialNoise(m, p, ts[i], k, values[i], values[i]);
        }
      }
      k := k + 1;
    }
    ghost var sums := values;
    values := Scale(values, p.norm);
    values := Scale(values, p.rms);
    forall i | 0 <= i < |ts|
      ensures values[i] == NoiseAt(m, p, ts[i])
    {
      NormalisedSample(m, p, ts[i], sums[i], values[i]);
    }
  }

  /** `values += amp * np.cos(2*pi*freq*ts + phase)` for component k: on
      the sums of the first k components it gives the sums of the first
      k + 1 when frequency k is not zero. */
  function AddComponent(m: Math, p: Noise, values: seq<real>, ts: seq<real>, k: nat): (r: seq<real>)
    requires p.Valid() && k < |p.freqs| && |values| == |ts|
    ensures |r| == |ts|
    ensures forall i :: 0 <= i < |ts| ==> r[i] == values[i] + p.amps[k] * m.cos(Phase(p, ts[i], k))
    ensures p.freqs[k] != 0.0 && (forall i :: 0 <= i < |ts| ==> values[i] == PartialNoise(m, p, ts[i], k)) ==>
      forall i :: 0 <= i < |ts| ==> r[i] == PartialNoise(m, p, ts[i], k + 1)
  {
    seq(|ts|, i requires 0 <= i < |ts| => values[i] + p.amps[k] * m.cos(Phase(p, ts[i], k)))
  }

  /** Adding component k (or skipping it at frequency zero) to the sum of
      the first k components gives the sum of the first k + 1. */
  lemma NextPartialNoise(m: Math, p: Noise, t: real, k: nat, prev: real, x: real)
    requires p.Valid() && k < |p.freqs| && prev == PartialNoise(m, p, t, k)
    requires x == if p.freqs[k] != 0.0 then prev + p.amps[k] * m.cos(Phase(p, t, k)) else prev
    ensures x == PartialNoise(m, p, t, k + 1)
  {
  }

  /** Normalising the sum of the components at t gives the noise at t. */
  lemma NormalisedSample(m: Math, p: Noise, t: real, sum: real, x: real)
    requires p.Valid() && sum == PartialNoise(m, p, t, |p.freqs|) && x == sum * p.norm * p.rms
    ensures x == NoiseAt(m, p, t)
  {
  }

  /** `ThermalNoise(times, f_band, ...)`: a voltage `FunctionSignal` of the
      noise function. */
  function ThermalNoiseSignal(m: Math, times: seq<real>, fMin: real, fMax: real, amplitude: Amplitude,
                              rmsVoltage: Option<real>, temperature: Option<real>, resistance: Option<real>,
                              nFreqs: real, uniform: nat -> real): (r: Result<Signal>)
    ensures r.Ok? <==> MakeNoise(m, times, fMin, fMax, amplitude, rmsVoltage, temperature, resistance, nFreqs, uniform).Ok?
    ensures r.Ok? ==>
      var p := MakeNoise(m, times, fMin, fMax, amplitude, rmsVoltage, temperature, resistance, nFreqs, uniform).value;
      && r.value.WellFormed()
      && r.value.times == times
      && r.value.valueType == Voltage
      && forall i :: 0 <= i < |times| ==> r.value.values[i] == NoiseAt(m, p, times[i])
  {
    match MakeNoise(m, times, fMin, fMax, amplitude, rmsVoltage, temperature, resistance, nFreqs, uniform) {
      case Err(e) => Err(e)
      case Ok(p) => Ok(FunctionSignal(times, t => NoiseAt(m, p, t), Voltage))
    }
  }
}
