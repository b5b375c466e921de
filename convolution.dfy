/** The convolution pulse engine that `ARVZAskaryanSignal.shower_signal`
    and `FastAskaryanSignal` share: the shower is sampled in depth finely
    enough for its maximum length, its charge profile Q is convolved with
    R*A_C sampled on a window of times chosen so that the convolution
    covers the times array (`dt_divider` samples per time step), the window
    is re-aligned by padding or trimming both ends, every `dt_divider`-th
    sample is kept, the result is normalised and differentiated. */
module ShowerPulse {
  import opened Common
  import opened Numerics
  import opened ArrayOps
  import opened ShowerProfiles

  /** Speed of light (m/s) as the conversion factor writes it. */
  const SpeedOfLight: real := 3e8
  /** Extra time (s) the R*A_C window covers around the shower start. */
  const TimeTolerance: real := 10e-9

  /** (1 - n cos(theta)) / c: the time delay per metre of shower depth
      seen from angle theta in a medium of index n. */
  function ZToT(m: Math, theta: real, n: real): real
  {
    (1.0 - n * m.cos(theta)) / SpeedOfLight
  }

  /** The sampling of one shower: depth-to-time factor, time step of the
      times array, `dt_divider`, depth step `dz` and the number `n_Q` of
      charge-profile samples. */
  datatype Grid = Grid(zToT: real, dt: real, divider: nat, dz: real, nQ: nat)
  {
    /** `divider` depth steps take exactly one time step, and the profile
        has at least 25 samples. */
    predicate Valid() {
      && divider >= 1
      && zToT != 0.0 && dt != 0.0 && dz != 0.0
      && dz * zToT * (divider as real) == dt
      && nQ >= 25
    }
  }

  /** `dt_divider`, `dz` and `n_Q` for a times array, a shower energy, the
      viewing angle and the index of refraction. The time step needs two
      times; a zero or non-finite maximum length, a zero conversion factor
      or a zero time step make numpy divide by zero, and `int()` of the
      resulting inf or NaN raises. */
  function SamplingGrid(m: Math, times: seq<real>, energy: real, theta: real, n: real): (r: Result<Grid>)
    ensures |times| < 2 ==> r == Err(IndexError)
    ensures r.Ok? <==>
      && |times| >= 2
      && MaxLength(m, energy).Some? && MaxLength(m, energy).value != 0.0
      && ZToT(m, theta, n) != 0.0 && times[1] - times[0] != 0.0
    ensures r.Err? ==> r.error == IndexError || r.error == NonFinite
    ensures r.Ok? ==>
      && r.value.Valid()
      && r.value.zToT == ZToT(m, theta, n)
      && r.value.dt == times[1] - times[0]
      && 10.0 * Abs(r.value.dz) < Abs(MaxLength(m, energy).value)
      && (r.value.nQ as real) <= 2.5 * Abs(MaxLength(m, energy).value) / Abs(r.value.dz)
  {
    if |times| < 2 then Err(IndexError)
    else
      var zToT := ZToT(m, theta, n);
      var dt := times[1] - times[0];
      match MaxLength(m, energy)
      case None => Err(NonFinite)
      case Some(ml) =>
        if ml == 0.0 || zToT == 0.0 || dt == 0.0 then Err(NonFinite)
        else
          Ok(GridFor(dt, ml, zToT))
  }

  /** `dt_divider = int(abs(10 dt / max_length / z_to_t)) + 1`, `dz = dt /
      dt_divider / z_to_t` and `n_Q = int(abs(2.5 max_length / dz))`. */
  function GridFor(dt: real, ml: real, zToT: real): (g: Grid)
    requires dt != 0.0 && ml != 0.0 && zToT != 0.0
    ensures g.Valid() && g.zToT == zToT && g.dt == dt
    ensures 10.0 * Abs(g.dz) < Abs(ml)
    ensures (g.nQ as real) <= 2.5 * Abs(ml) / Abs(g.dz)
  {
    var divider := Trunc(Abs(10.0 * dt / ml / zToT)) + 1;
    var dz := dt / (divider as real) / zToT;
    StepBounds(dt, ml, zToT, divider, dz);
    var nQ := Trunc(Abs(2.5 * ml / dz));
    Grid(zToT, dt, divider, dz, nQ)
  }

  /** The depth step is below a tenth of the shower's maximum length, and
      the profile spans 2.5 maximum lengths in at least 25 samples. */
  lemma StepBounds(dt: real, ml: real, zToT: real, divider: nat, dz: real)
    requires dt != 0.0 && ml != 0.0 && zToT != 0.0
    requires divider == Trunc(Abs(10.0 * dt / ml / zToT)) + 1
    requires dz == dt / (divider as real) / zToT
    ensures dz != 0.0
    ensures var g := Grid(zToT, dt, divider, dz, Trunc(Abs(2.5 * ml / dz)));
      && g.Valid()
      && 10.0 * Abs(g.dz) < Abs(ml)
      && (g.nQ as real) <= 2.5 * Abs(ml) / Abs(g.dz)
  {
    var x := 10.0 * dt / ml / zToT;
    var d := divider as real;
    assert Abs(x) < d && d >= 1.0;
    StepCore(dt, ml, zToT, d, dz, x);
    CountBounds(ml, dz);
  }

  lemma StepCore(dt: real, ml: real, zToT: real, d: real, dz: real, x: real)
    requires dt != 0.0 && ml != 0.0 && zToT != 0.0 && d >= 1.0
    requires x == 10.0 * dt / ml / zToT && Abs(x) < d
    requires dz == dt / d / zToT
    ensures dz != 0.0 && dz * zToT * d == dt
    ensures 10.0 * Abs(dz) < Abs(ml)
  {
    QuotientProduct(10.0 * dt, ml, zToT, x);
    QuotientProduct(dt, d, zToT, dz);
    AbsTriple(x, ml, zToT, 10.0 * dt);
    AbsTriple(dz, d, zToT, dt);
    StepArith(Abs(dt), Abs(ml), Abs(zToT), d, Abs(x), Abs(dz));
  }

  /** With a depth step below a tenth of the maximum length, 2.5 maximum
      lengths take more than 25 steps. */
  lemma CountBounds(ml: real, dz: real)
    requires dz != 0.0 && 10.0 * Abs(dz) < Abs(ml)
    ensures Trunc(Abs(2.5 * ml / dz)) >= 25
    ensures (Trunc(Abs(2.5 * ml / dz)) as real) <= 2.5 * Abs(ml) / Abs(dz)
  {
    AbsQuotient(2.5 * ml, dz);
    var y := 2.5 * Abs(ml) / Abs(dz);
    assert Abs(2.5 * ml / dz) == y;
    QuotientAbove(Abs(ml), Abs(dz));
  }

  /** The R*A_C window: `n_extra_beginning` samples added (or, when
      negative, removed) before and `n_extra_end` after the part of the
      window that lines up with the times array, and `n_RAC`. */
  datatype Window = Window(begin: int, end: int, nRac: int)

  /** The window for a times array starting `times[0] - t0` after the
      shower. Its size makes the full convolution of the n_Q charge
      samples with it exactly `begin` + `len(times) * dt_divider` + `end`
      samples long. */
  function RacWindow(times: seq<real>, t0: real, g: Grid): (w: Window)
    requires |times| >= 1 && g.Valid()
    ensures g.nQ + w.nRac - 1 == w.begin + |times| * g.divider + w.end
  {
    var tStart := times[0] - t0;
    var nSamples := |times| * g.divider;
    var begin := Trunc((tStart + TimeTolerance) / g.dz / g.zToT) + 1;
    var end := Trunc((TimeTolerance - tStart) / g.dz / g.zToT) + 1 + g.nQ - nSamples;
    Window(begin, end, nSamples + 1 - g.nQ + begin + end)
  }

  /** On an increasing times array the window holds at least two samples,
      so `n_RAC` never makes the R*A_C array empty. */
  lemma WindowNonEmpty(times: seq<real>, t0: real, g: Grid)
    requires |times| >= 1 && g.Valid() && g.dt > 0.0
    ensures RacWindow(times, t0, g).nRac >= 2
  {
    var tStart := times[0] - t0;
    var u := (tStart + TimeTolerance) / g.dz / g.zToT;
    var v := (TimeTolerance - tStart) / g.dz / g.zToT;
    assert u + v == 2.0 * TimeTolerance / (g.dz * g.zToT);
    PositiveStep(g);
    assert u + v > 0.0;
    TruncSum(u, v);
  }

  lemma PositiveStep(g: Grid)
    requires g.Valid() && g.dt > 0.0
    ensures g.dz * g.zToT > 0.0
  {
    var s := g.dz * g.zToT;
    assert s * (g.divider as real) == g.dt;
  }

  /** A times array that starts later after the shower than the tolerance,
      the shower's time extent 2.5 |max_length| |z_to_t| and two time steps
      together gets a window that starts past the end of the convolution. */
  lemma WindowOverrun(times: seq<real>, t0: real, g: Grid, ml: real)
    requires |times| >= 1 && g.Valid() && g.dt > 0.0
    requires (g.nQ as real) <= 2.5 * Abs(ml) / Abs(g.dz)
    requires times[0] - t0 >= TimeTolerance + 2.5 * Abs(ml) * Abs(g.zToT) + 2.0 * g.dt
    ensures var w := RacWindow(times, t0, g);
      w.begin > g.nQ + w.nRac - 1
  {
    PositiveStep(g);
    OverrunCount(times[0] - t0, g.dz, g.zToT, g.divider as real, g.dt, g.nQ, ml);
  }

  lemma OverrunCount(tStart: real, dz: real, zToT: real, d: real, dt: real, nQ: nat, ml: real)
    requires dz != 0.0 && zToT != 0.0 && dz * zToT > 0.0 && dz * zToT * d == dt && d >= 1.0
    requires (nQ as real) <= 2.5 * Abs(ml) / Abs(dz)
    requires tStart >= TimeTolerance + 2.5 * Abs(ml) * Abs(zToT) + 2.0 * dt
    ensures Trunc((TimeTolerance - tStart) / dz / zToT) + 1 + nQ < 0
  {
    var v := (TimeTolerance - tStart) / dz / zToT;
    var c := 2.5 * Abs(ml) * Abs(zToT);
    CountInSteps(ml, dz, zToT);
    OverrunSum(TimeTolerance - tStart, dz, zToT, d, dt, c);
    TruncBelow(v);
    CountBelowZero(Trunc(v), nQ, v, c / (dz * zToT));
  }

  /** The times of the R*A_C samples: sample k lies (k - begin) sub-steps
      of dt / dt_divider after the shower start. A non-positive `n_RAC`
      gives no samples. */
  function RacTimes(tStart: real, g: Grid, w: Window): (r: seq<real>)
    requires g.Valid()
    ensures |r| == if w.nRac > 0 then w.nRac else 0
    ensures forall k :: 0 <= k < |r| ==>
      r[k] == tStart + ((k - w.begin) as real) * (g.dt / (g.divider as real))
  {
    var n := if w.nRac > 0 then w.nRac else 0;
    var step := g.dz * g.zToT;
    assert step == g.dt / (g.divider as real);
    seq(n, k requires 0 <= k < n => (k as real) * g.dz * g.zToT + tStart - (w.begin as real) * g.dz * g.zToT)
  }

  /** The depths of the charge-profile samples: `n_Q` steps of |dz| from 0. */
  function ChargeDepths(g: Grid): (r: seq<real>)
    ensures |r| == g.nQ
    ensures forall k :: 0 <= k < |r| ==> r[k] >= 0.0
    ensures g.dz != 0.0 ==> forall k :: 0 < k < |r| ==> r[k] > 0.0
  {
    var r := seq(g.nQ, k requires 0 <= k < g.nQ => (k as real) * Abs(g.dz));
    StepMultiples(r, Abs(g.dz));
    r
  }

  lemma StepMultiples(r: seq<real>, step: real)
    requires step >= 0.0
    requires forall k :: 0 <= k < |r| ==> r[k] == (k as real) * step
    ensures forall k :: 0 <= k < |r| ==> r[k] >= 0.0
    ensures step > 0.0 ==> forall k :: 0 < k < |r| ==> r[k] > 0.0
  {
    forall k | 0 <= k < |r|
      ensures r[k] >= 0.0
      ensures step > 0.0 && k > 0 ==> r[k] > 0.0
    {
      NonNegProduct(k as real, step);
      if step > 0.0 && k > 0 {
        PositiveProduct(k as real, step);
      }
    }
  }

  /** The convolution re-aligned AS WRITTEN: `-begin` zeros prepended or
      `begin` samples dropped (all of them when `begin` passes the end),
      then `-end` zeros appended or `end` samples dropped from the end. */
  function PadOrTrim(conv: seq<real>, begin: int, end: int): (r: seq<real>)
    ensures begin > |conv| ==> r == Zeros(if end <= 0 then -end else 0)
  {
    var head := if begin < 0 then Zeros(-begin) + conv else Drop(conv, begin);
    if end <= 0 then head + Zeros(-end) else DropLast(head, end)
  }

  /** The corrected re-alignment: `count` samples of the convolution read
      from offset `begin`, zero wherever that runs off either end. */
  function AlignWindow(conv: seq<real>, begin: int, count: nat): (r: seq<real>)
    ensures |r| == count
    ensures forall k :: 0 <= k < count ==>
      r[k] == if 0 <= k + begin < |conv| then conv[k + begin] else 0.0
  {
    seq(count, k requires 0 <= k < count => if 0 <= k + begin < |conv| then conv[k + begin] else 0.0)
  }

  /** Whenever the window starts inside the convolution (or before it),
      padding and trimming as written is the aligned read-out of exactly
      `|conv| - begin - end` samples. */
  lemma PadOrTrimAligns(conv: seq<real>, begin: int, end: int)
    requires begin <= |conv| && |conv| - begin - end >= 0
    ensures PadOrTrim(conv, begin, end) == AlignWindow(conv, begin, |conv| - begin - end)
  {
    var head := if begin < 0 then Zeros(-begin) + conv else Drop(conv, begin);
    assert |head| == |conv| - begin;
    assert forall k :: 0 <= k < |head| ==>
      head[k] == if 0 <= k + begin < |conv| then conv[k + begin] else 0.0;
    var r := PadOrTrim(conv, begin, end);
    var a := AlignWindow(conv, begin, |conv| - begin - end);
    assert |r| == |a|;
    forall k | 0 <= k < |r|
      ensures r[k] == a[k]
    {
      if end <= 0 && k >= |head| {
        assert r[k] == 0.0;
      }
    }
  }

  /** When the window starts past the end of the convolution, the
      as-written re-alignment yields `-end` zeros, which is more than the
      `|conv| - begin - end` samples, the size the R*A_C window is chosen
      for, so that after down-sampling it matches the times array. */
  lemma PadOrTrimOverrun(conv: seq<real>, begin: int, end: int)
    requires begin > |conv| && |conv| - begin - end >= 0
    ensures |PadOrTrim(conv, begin, end)| == -end
    ensures |PadOrTrim(conv, begin, end)| > |conv| - begin - end
    ensures AllZero(PadOrTrim(conv, begin, end))
  {
  }

  /** The values, or zeros standing for values the model does not track. */
  function Shape(s: Samples): (r: seq<real>)
    ensures |r| == s.Length()
    ensures s.Finite? ==> r == s.values
  {
    if s.Finite? then s.values else Zeros(s.length)
  }

  /** sin(theta_c) = sqrt(1 - 1/n^2); `None` where numpy gives inf or NaN. */
  function SinCherenkov(m: Math, n: real): (r: Option<real>)
    ensures n == 0.0 ==> r == None
  {
    if n == 0.0 || 1.0 - 1.0 / (n * n) < 0.0 then None else Some(m.sqrt(1.0 - 1.0 / (n * n)))
  }

  /** The factor -sin(theta) / sin(theta_c) / LQ_tot / z_to_t / dt_divider
      that turns the down-sampled convolution into the vector potential;
      `None` when one of the divisions is by zero or sin(theta_c) is NaN. */
  function Normalisation(m: Math, theta: real, n: real, lq: real, g: Grid): (r: Option<real>)
    requires g.Valid()
  {
    match SinCherenkov(m, n)
    case None => None
    case Some(sc) =>
      if sc == 0.0 || lq == 0.0 then None
      else Some(-m.sin(theta) / sc / lq / g.zToT / (g.divider as real))
  }

  /** For an index of refraction above 1 and a non-zero total charge the
      factor is finite; for an index of magnitude below 1, sin(theta_c)
      is NaN and so is the factor. */
  lemma NormalisationFinite(m: Math, theta: real, n: real, lq: real, g: Grid)
    requires m.Sound() && g.Valid()
    ensures n * n > 1.0 && lq != 0.0 ==> Normalisation(m, theta, n, lq, g).Some?
    ensures n * n < 1.0 ==> Normalisation(m, theta, n, lq, g) == None
  {
    SquareReciprocal(n);
    if n * n > 1.0 {
      assert m.sqrt(1.0 - 1.0 / (n * n)) > 0.0;
    }
  }

  /** The down-sampled window of the convolution: the corrected or the
      as-written re-alignment, then every `dt_divider`-th sample. */
  function Downsampled(conv: seq<real>, w: Window, g: Grid, nTimes: nat, aligned: bool): (r: seq<real>)
    requires g.Valid()
  {
    var window :=
      if aligned then AlignWindow(conv, w.begin, nTimes * g.divider)
      else PadOrTrim(conv, w.begin, w.end);
    Stride(window, g.divider)
  }

  /** The field samples of a shower before the division by the viewing
      distance: the difference of consecutive vector-potential samples.
      They are not tracked when the charge profile or the normalisation is
      not finite, unless there are none. */
  function FieldSamples(m: Math, q: Samples, rac: seq<real>, w: Window, g: Grid, nTimes: nat,
                        theta: real, n: real, aligned: bool): (r: Samples)
    requires g.Valid() && q.Length() >= 1 && |rac| >= 1
  {
    var qs := Shape(q);
    var factor := Normalisation(m, theta, n, Trapz(qs, g.dz), g);
    var down := Downsampled(Convolve(qs, rac), w, g, nTimes, aligned);
    var values := Diff(Scale(down, if factor.Some? then factor.value else 0.0));
    if (q.Finite? && factor.Some?) || |values| == 0 then Finite(values) else NotFinite(|values|)
  }

  /** With the corrected re-alignment there are exactly `len(times) - 1`
      field samples, whatever the window. */
  lemma AlignedFieldLength(m: Math, q: Samples, rac: seq<real>, w: Window, g: Grid, nTimes: nat,
                           theta: real, n: real)
    requires g.Valid() && q.Length() >= 1 && |rac| >= 1 && nTimes >= 1
    ensures FieldSamples(m, q, rac, w, g, nTimes, theta, n, true).Length() == nTimes - 1
  {
    var conv := Convolve(Shape(q), rac);
    StrideOfMultiple(AlignWindow(conv, w.begin, nTimes * g.divider), g.divider, nTimes);
  }

  /** As written, the same holds exactly when the window starts no later
      than the end of the convolution, i.e. when n_RAC samples reach it. */
  lemma AsWrittenFieldLength(m: Math, q: Samples, rac: seq<real>, w: Window, g: Grid, nTimes: nat,
                             theta: real, n: real)
    requires g.Valid() && q.Length() >= 1 && |rac| >= 1 && nTimes >= 1
    requires q.Length() + |rac| - 1 == w.begin + nTimes * g.divider + w.end
    ensures w.begin <= q.Length() + |rac| - 1 ==>
      FieldSamples(m, q, rac, w, g, nTimes, theta, n, false)
        == FieldSamples(m, q, rac, w, g, nTimes, theta, n, true)
    ensures w.begin > q.Length() + |rac| - 1 ==>
      FieldSamples(m, q, rac, w, g, nTimes, theta, n, false).Length() >= nTimes
  {
    var conv := Convolve(Shape(q), rac);
    if w.begin <= |conv| {
      PadOrTrimAligns(conv, w.begin, w.end);
    } else {
      PadOrTrimOverrun(conv, w.begin, w.end);
      StrideMore(PadOrTrim(conv, w.begin, w.end), g.divider, nTimes);
    }
  }

  /** Division of every sample by the viewing distance; numpy's division
      by zero gives inf or NaN for every sample. */
  function DivideBy(s: Samples, distance: real): (r: Samples)
    ensures r.Length() == s.Length()
    ensures s.Finite? && distance != 0.0 ==>
      && r.Finite?
      && forall i :: 0 <= i < |s.values| ==> r.values[i] * distance == s.values[i]
  {
    if s.Length() == 0 then Finite([])
    else if s.NotFinite? || distance == 0.0 then NotFinite(s.Length())
    else Finite(seq(|s.values|, i requires 0 <= i < |s.values| => s.values[i] / distance))
  }

  /** Multiplying the viewing distance by k divides every sample by k. */
  lemma DivideByScaled(s: Samples, distance: real, k: real)
    requires s.Finite? && distance != 0.0 && k != 0.0
    ensures DivideBy(s, distance * k).Finite?
    ensures forall i :: 0 <= i < |s.values| ==>
      DivideBy(s, distance * k).values[i] == DivideBy(s, distance).values[i] / k
  {
  }

  // ---------------------------------------------------------------------
  // Arithmetic helpers: steps of real arithmetic the solver needs spelled out

  lemma QuotientProduct(num: real, a: real, b: real, q: real)
    requires a != 0.0 && b != 0.0 && q == num / a / b
    ensures q * a * b == num && q * b * a == num
  {
  }

  lemma AbsTriple(a: real, b: real, c: real, p: real)
    requires a * b * c == p
    ensures Abs(a) * Abs(b) * Abs(c) == Abs(p)
  {
    AbsProduct(a, b);
    AbsProduct(a * b, c);
  }

  lemma QuotientAbove(b: real, p: real)
    requires p > 0.0 && 10.0 * p < b
    ensures 2.5 * b / p > 25.0
  {
    var y := 2.5 * b / p;
    assert y * p == 2.5 * b;
    assert 25.0 * p < y * p;
    CancelPositive(25.0, y, p);
  }

  /** The step bound on magnitudes: with X = 10 a / (b c) below d and
      p = a / (d c), 10 p is below b. */
  lemma StepArith(a: real, b: real, c: real, d: real, x: real, p: real)
    requires a > 0.0 && b > 0.0 && c > 0.0 && d > 0.0
    requires x * b * c == 10.0 * a && x < d && p * d * c == a
    ensures 10.0 * p < b
  {
    PositiveProduct(b, c);
    StrictMonotoneProduct(x, d, b * c);
    assert (10.0 * p) * (d * c) == 10.0 * a;
    assert 10.0 * a < d * (b * c);
    assert (10.0 * p) * (d * c) < b * (d * c);
    PositiveProduct(d, c);
    CancelPositive(10.0 * p, b, d * c);
  }

  lemma TruncSum(u: real, v: real)
    requires u + v > 0.0
    ensures Trunc(u) + Trunc(v) >= -1
  {
    assert (Trunc(u) as real) > u - 1.0;
    assert (Trunc(v) as real) > v - 1.0;
  }

  lemma CountInSteps(ml: real, dz: real, zToT: real)
    requires dz != 0.0 && zToT != 0.0 && dz * zToT > 0.0
    ensures 2.5 * Abs(ml) / Abs(dz) == 2.5 * Abs(ml) * Abs(zToT) / (dz * zToT)
  {
    AbsProduct(dz, zToT);
    assert Abs(dz) * Abs(zToT) == dz * zToT;
    DivideExtended(2.5 * Abs(ml), Abs(dz), Abs(zToT));
  }

  lemma DivideTwice(x: real, a: real, b: real)
    requires a != 0.0 && b != 0.0
    ensures x / a / b == x / (a * b)
  {
  }

  lemma DivideExtended(x: real, a: real, b: real)
    requires a != 0.0 && b != 0.0
    ensures x / a == x * b / (a * b)
  {
  }

  lemma TruncBelow(v: real)
    ensures (Trunc(v) as real) < v + 1.0
  {
  }

  lemma CountBelowZero(tv: int, nq: nat, v: real, e: real)
    requires (tv as real) < v + 1.0 && (nq as real) <= e && v + e + 2.0 <= 0.0
    ensures tv + 1 + nq < 0
  {
  }

  lemma OverrunSum(gap: real, dz: real, zToT: real, d: real, dt: real, c: real)
    requires dz != 0.0 && zToT != 0.0 && dz * zToT > 0.0
    requires dz * zToT * d == dt && d >= 1.0 && gap + c <= -2.0 * dt
    ensures gap / dz / zToT + c / (dz * zToT) + 2.0 <= 0.0
  {
    DivideTwice(gap, dz, zToT);
    OverrunArith(gap, c, dz * zToT, d, dt);
  }

  lemma OverrunArith(gap: real, c: real, p: real, d: real, dt: real)
    requires p > 0.0 && d >= 1.0 && p * d == dt && gap + c <= -2.0 * dt
    ensures gap / p + c / p + 2.0 <= 0.0
  {
    var e := gap / p + c / p;
    assert e * p == gap + c;
    assert e * p <= (-2.0 * d) * p;
    if e > -2.0 * d {
      StrictMonotoneProduct(-2.0 * d, e, p);
    }
  }

  /** 1 - 1/n^2 is positive above 1 and negative below it. */
  lemma SquareReciprocal(n: real)
    ensures n * n > 1.0 ==> 1.0 - 1.0 / (n * n) > 0.0
    ensures n * n < 1.0 && n != 0.0 ==> 1.0 - 1.0 / (n * n) < 0.0
  {
    if n * n > 1.0 {
      ReciprocalBelowOne(n * n);
    } else if n * n < 1.0 && n != 0.0 {
      var a := Abs(n);
      PositiveProduct(a, a);
      assert a * a == n * n;
      ReciprocalAboveOne(n * n);
    }
  }
}
