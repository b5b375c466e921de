/** `FastAskaryanSignal`: the Askaryan pulse of one electromagnetic shower
    seen from 1 m, computed with the convolution pulse engine. The charge
    profile and R*A_C arrays are filled sample by sample, the convolution
    is re-aligned, down-sampled, normalised and differentiated, and the
    result is a field signal on the times array. */
module FastAskaryan {
  import opened Common
  import opened Numerics
  import opened ArrayOps
  import opened ShowerProfiles
  import opened ShowerPulse
  import opened Signals
  import opened Askaryan

  /** The signal `FastAskaryanSignal(times, energy, theta, n, t0)` builds.
      Angles beyond pi are refused; the grid's errors (fewer than two
      times, a zero or non-finite maximum length, conversion factor or
      time step) are passed on; an all-zero charge profile gives zeros of
      undefined value type; an empty or negative R*A_C window is refused
      by numpy; field samples holding inf or NaN are reported as
      `NonFinite`. `aligned` selects the corrected re-alignment of the
      convolution; `false` models the code as written. */
  function FastAskaryanSignal(m: Math, times: seq<real>, energy: real, theta: real, n: real, t0: real,
                              aligned: bool): (r: Result<Signal>)
    ensures Abs(theta) > Pi ==> r == Err(ValueError)
    ensures Abs(theta) <= Pi && |times| < 2 ==> r == Err(IndexError)
    ensures r.Ok? ==> r.value.WellFormed() && r.value.times == times
    ensures r.Ok? ==> r.value.valueType == Field || r.value.valueType == Undefined
    ensures r.Ok? && r.value.valueType == Undefined ==> r.value.values == Zeros(|times|)
  {
    if Abs(theta) > Pi then Err(ValueError)
    else
      match SamplingGrid(m, times, energy, Abs(theta), n)
      case Err(e) => Err(e)
      case Ok(g) =>
        var q := EmShowerProfile(m, ChargeDepths(g), energy);
        if q.Finite? && AllZero(q.values) && g.nQ > 0 then Ok(NewSignal(times, Zeros(|times|), Undefined))
        else Pulse(m, times, energy, Abs(theta), n, t0, g, q, aligned)
  }

  /** The pulse from a charge profile that is not all zero: the R*A_C
      window, the convolution and the field samples as a field signal. */
  function Pulse(m: Math, times: seq<real>, energy: real, theta: real, n: real, t0: real, g: Grid,
                 q: Samples, aligned: bool): (r: Result<Signal>)
    requires |times| >= 1 && g.Valid() && q.Length() == g.nQ
    ensures r.Ok? ==> r.value.WellFormed() && r.value.times == times && r.value.valueType == Field
  {
    var w := RacWindow(times, t0, g);
    if w.nRac <= 0 then Err(ValueError)
    else
      var rac := Rac(m, RacTimes(times[0] - t0, g, w), energy);
      var field := FieldSamples(m, q, rac, w, g, |times|, theta, n, aligned);
      if field.NotFinite? then Err(NonFinite) else Ok(NewSignal(times, field.values, Field))
  }

  /** The loop `Q[i] = charge_profile(z)` over the depths of the grid: the
      charge profile sampled at every depth, with the knowledge of whether
      any sample is inf or NaN. */
  method FillCharges(m: Math, depths: seq<real>, energy: real) returns (q: Samples)
    ensures q == EmShowerProfile(m, depths, energy)
  {
    q := FillSamples(z => EmProfileAt(m, z, energy), depths);
    var expected := EmShowerProfile(m, depths, energy);
    if q.Finite? {
      assert q.values == expected.values;
    }
  }

  /** `for i, z in enumerate(zs): Q[i] = profile(z)` for any profile. */
  method FillSamples(profile: real -> Option<real>, zs: seq<real>) returns (q: Samples)
    ensures q.Length() == |zs|
    ensures q.Finite? <==> forall j :: 0 <= j < |zs| ==> profile(zs[j]).Some?
    ensures q.Finite? ==> forall j :: 0 <= j < |zs| ==> q.values[j] == profile(zs[j]).value
  {
    var charges := new real[|zs|];
    var finite := true;
    for i := 0 to |zs|
      invariant finite <==> forall j :: 0 <= j < i ==> profile(zs[j]).Some?
      invariant finite ==> forall j :: 0 <= j < i ==> charges[j] == profile(zs[j]).value
    {
      match profile(zs[i])
      case Some(v) => charges[i] := v;
      case None => charges[i] := 0.0; finite := false;
    }
    if finite {
      q := Finite(charges[..]);
    } else {
      q := NotFinite(|zs|);
    }
  }

  /** The loop `RA_C[i] = RAC(t)` over the times of the window. */
  method FillRac(m: Math, ts: seq<real>, energy: real) returns (rac: seq<real>)
    ensures rac == Rac(m, ts, energy)
  {
    var racs := new real[|ts|];
    for i := 0 to |ts|
      invariant forall j :: 0 <= j < i ==> racs[j] == RacAt(m, ts[j], energy)
    {
      racs[i] := RacAt(m, ts[i], energy);
    }
    rac := racs[..];
  }

  /** `FastAskaryanSignal.__init__` step by step: the guard, the grid, the
      two fill loops, then the convolution re-bound through re-alignment,
      down-sampling, normalisation and differentiation. */
  method BuildFastAskaryanSignal(m: Math, times: seq<real>, energy: real, theta: real, n: real, t0: real,
                                 aligned: bool) returns (r: Result<Signal>)
    ensures r == FastAskaryanSignal(m, times, energy, theta, n, t0, aligned)
  {
    var angle := Abs(theta);
    if angle > Pi {
      return Err(ValueError);
    }
    var grid := SamplingGrid(m, times, energy, angle, n);
    if grid.Err? {
      return Err(grid.error);
    }
    var g := grid.value;
    var q := FillCharges(m, ChargeDepths(g), energy);
    if q.Finite? && AllZero(q.values) && g.nQ > 0 {
      return Ok(NewSignal(times, Zeros(|times|), Undefined));
    }
    r := BuildPulse(m, times, energy, angle, n, t0, g, q, aligned);
  }

  /** The R*A_C loop, then the convolution re-bound through re-alignment,
      down-sampling, normalisation and differentiation. */
  method BuildPulse(m: Math, times: seq<real>, energy: real, theta: real, n: real, t0: real, g: Grid,
                    q: Samples, aligned: bool) returns (r: Result<Signal>)
    requires |times| >= 1 && g.Valid() && q.Length() == g.nQ
    ensures r == Pulse(m, times, energy, theta, n, t0, g, q, aligned)
  {
    var w := RacWindow(times, t0, g);
    if w.nRac <= 0 {
      return Err(ValueError);
    }
    var rac := FillRac(m, RacTimes(times[0] - t0, g, w), energy);
    var conv := Convolve(Shape(q), rac);
    conv := if aligned then AlignWindow(conv, w.begin, |times| * g.divider) else PadOrTrim(conv, w.begin, w.end);
    conv := Stride(conv, g.divider);
    var factor := Normalisation(m, theta, n, Trapz(Shape(q), g.dz), g);
    var values := Diff(Scale(conv, if factor.Some? then factor.value else 0.0));
    if !((q.Finite? && factor.Some?) || |values| == 0) {
      return Err(NonFinite);
    }
    r := Ok(NewSignal(times, values, Field));
  }

  /** Below the critical energy every charge sample is 0, and once the grid
      exists the signal is `len(times)` zeros of undefined value type. */
  lemma FastAskaryanBelowCritical(m: Math, times: seq<real>, energy: real, theta: real, n: real, t0: real,
                                  aligned: bool)
    requires Abs(theta) <= Pi && energy <= EmCriticalEnergy
    requires SamplingGrid(m, times, energy, Abs(theta), n).Ok?
    ensures FastAskaryanSignal(m, times, energy, theta, n, t0, aligned)
      == Ok(Signal(times, Zeros(|times|), Undefined))
  {
    var g := SamplingGrid(m, times, energy, Abs(theta), n).value;
    var depths := ChargeDepths(g);
    var q := EmShowerProfile(m, depths, energy);
    assert forall i :: 0 <= i < |depths| ==> EmProfileAt(m, depths[i], energy) == Some(0.0);
    assert q.Finite? && AllZero(q.values);
    NewSignalKeeps(times, Zeros(|times|), Undefined);
  }

  /** With the corrected re-alignment a field signal holds the
      `len(times) - 1` differences of the vector potential followed by a
      single padding 0. */
  lemma FastAskaryanPadded(m: Math, times: seq<real>, energy: real, theta: real, n: real, t0: real)
    ensures var r := FastAskaryanSignal(m, times, energy, theta, n, t0, true);
      r.Ok? && r.value.valueType == Field ==> r.value.values[|times| - 1] == 0.0
  {
    if Abs(theta) <= Pi {
      var grid := SamplingGrid(m, times, energy, Abs(theta), n);
      if grid.Ok? {
        var g := grid.value;
        var q := EmShowerProfile(m, ChargeDepths(g), energy);
        var w := RacWindow(times, t0, g);
        if !(q.Finite? && AllZero(q.values) && g.nQ > 0) && w.nRac > 0 {
          var rac := Rac(m, RacTimes(times[0] - t0, g, w), energy);
          AlignedFieldLength(m, q, rac, w, g, |times|, Abs(theta), n);
        }
      }
    }
  }

  /** `FastAskaryanSignal` is `shower_signal` for an electromagnetic shower
      seen from 1 m: whenever it gives a field signal, `shower_signal`
      gives finite samples and the signal's values are those samples. */
  lemma FastAskaryanIsShowerSignal(m: Math, times: seq<real>, energy: real, theta: real, n: real, t0: real,
                                   aligned: bool)
    requires energy != 0.0
    ensures var fast := FastAskaryanSignal(m, times, energy, theta, n, t0, aligned);
      var shower := ShowerSignal(m, times, energy, Electromagnetic, Abs(theta), 1.0, n, t0, aligned);
      fast.Ok? && fast.value.valueType == Field ==>
        && shower.Ok? && shower.value.Finite?
        && forall i :: 0 <= i < |times| && i < |shower.value.values| ==>
             fast.value.values[i] == shower.value.values[i]
  {
    if Abs(theta) <= Pi {
      var grid := SamplingGrid(m, times, energy, Abs(theta), n);
      if grid.Ok? {
        var g := grid.value;
        SameCharges(m, g, energy);
        var q := EmShowerProfile(m, ChargeDepths(g), energy);
        var w := RacWindow(times, t0, g);
        if !(q.Finite? && AllZero(q.values)) && w.nRac > 0 {
          var rac := Rac(m, RacTimes(times[0] - t0, g, w), energy);
          var field := FieldSamples(m, q, rac, w, g, |times|, Abs(theta), n, aligned);
          if field.Finite? {
            DivideByOne(field);
            assert ShowerSignal(m, times, energy, Electromagnetic, Abs(theta), 1.0, n, t0, aligned) == Ok(field);
          }
        }
      }
    }
  }

  /** The charge samples of both classes are the same electromagnetic profile. */
  lemma SameCharges(m: Math, g: Grid, energy: real)
    ensures EmShowerProfile(m, ChargeDepths(g), energy) == ChargeSamples(m, Electromagnetic, g, energy)
  {
    var a := EmShowerProfile(m, ChargeDepths(g), energy);
    var b := ChargeSamples(m, Electromagnetic, g, energy);
    if a.Finite? {
      assert a.values == b.values;
    }
  }

  /** Seen from 1 m the samples are not rescaled. */
  lemma DivideByOne(s: Samples)
    requires s.Finite?
    ensures DivideBy(s, 1.0) == s
  {
    if |s.values| > 0 {
      assert DivideBy(s, 1.0).values == s.values;
    }
  }
}
