/** Time-domain signals: a times array, a values array of the same length
    and the unit of the values. Signals add sample by sample, report their
    time step, move to a new times array by linear interpolation, and can
    be generated from a function of time. */
module Signals {
  import opened Common
  import opened ArrayOps

  /** The unit of a signal's values. */
  datatype ValueType = Undefined | Voltage | Field | Power

  datatype Signal = Signal(times: seq<real>, values: seq<real>, valueType: ValueType)
  {
    /** Every signal the constructor builds has one value per time. */
    predicate WellFormed() {
      |values| == |times|
    }
  }

  /** The values array forced to n samples: padded with zeros when short,
      cut when long. */
  function FitValues(values: seq<real>, n: nat): (r: seq<real>)
    ensures |r| == n
    ensures forall i :: 0 <= i < n ==> r[i] == if i < |values| then values[i] else 0.0
  {
    if |values| < n then values + Zeros(n - |values|) else values[..n]
  }

  /** The constructor `Signal(times, values, value_type)`. */
  function NewSignal(times: seq<real>, values: seq<real>, valueType: ValueType): (s: Signal)
    ensures s.WellFormed() && s.times == times && s.valueType == valueType
    ensures forall i :: 0 <= i < |times| ==> s.values[i] == if i < |values| then values[i] else 0.0
  {
    Signal(times, FitValues(values, |times|), valueType)
  }

  /** Values of exactly the right length are kept as they are. */
  lemma NewSignalKeeps(times: seq<real>, values: seq<real>, valueType: ValueType)
    requires |values| == |times|
    ensures NewSignal(times, values, valueType).values == values
  {
    assert values[..|times|] == values;
  }

  /** The right-hand operand of `+`: another signal, a number, or any other object. */
  datatype Operand = SignalOperand(signal: Signal) | NumberOperand(number: real) | OtherOperand

  /** Two value types can be added when either is undefined or they agree. */
  predicate Compatible(a: ValueType, b: ValueType) {
    a == Undefined || b == Undefined || a == b
  }

  /** `Signal.__add__`. */
  function Add(s: Signal, other: Operand): (r: Result<Signal>)
    requires s.WellFormed()
    requires other.SignalOperand? ==> other.signal.WellFormed()
    ensures !other.SignalOperand? ==> r == Err(TypeError)
    ensures other.SignalOperand? ==>
      (r.Ok? <==> other.signal.times == s.times && Compatible(s.valueType, other.signal.valueType))
    ensures other.SignalOperand? && r.Err? ==> r.error == ValueError
    ensures r.Ok? ==>
      && r.value.WellFormed()
      && r.value.times == s.times
      && (forall i :: 0 <= i < |s.times| ==>
        r.value.values[i] == s.values[i] + other.signal.values[i])
      && r.value.valueType == if s.valueType == Undefined then other.signal.valueType else s.valueType
  {
    if !other.SignalOperand? then Err(TypeError)
    else
      var o := other.signal;
      if o.times != s.times then Err(ValueError)
      else if !Compatible(s.valueType, o.valueType) then Err(ValueError)
      else
        var valueType := if s.valueType == Undefined then o.valueType else s.valueType;
        Ok(NewSignal(s.times, seq(|s.values|, i requires 0 <= i < |s.values| => s.values[i] + o.values[i]), valueType))
  }

  /** Adding two signals does not depend on their order. */
  lemma AddCommutes(a: Signal, b: Signal)
    requires a.WellFormed() && b.WellFormed()
    ensures Add(a, SignalOperand(b)) == Add(b, SignalOperand(a))
  {
    var ab := Add(a, SignalOperand(b));
    var ba := Add(b, SignalOperand(a));
    if ab.Ok? {
      assert ba.Ok?;
      assert ab.value.values == ba.value.values;
    }
  }

  /** `Signal.__radd__`: only `0 + signal` is supported, and gives the signal itself. */
  function RAdd(s: Signal, other: Operand): (r: Result<Signal>)
    ensures r.Ok? <==> other == NumberOperand(0.0)
    ensures r.Ok? ==> r.value == s
    ensures r.Err? ==> r.error == TypeError
  {
    if other == NumberOperand(0.0) then Ok(s) else Err(TypeError)
  }

  /** The running sum of `sum(signals)` after its first term. */
  function AddAll(acc: Signal, rest: seq<Signal>): (r: Result<Signal>)
    requires acc.WellFormed() && forall j :: 0 <= j < |rest| ==> rest[j].WellFormed()
    ensures r.Ok? ==> r.value.WellFormed()
    decreases |rest|
  {
    if |rest| == 0 then Ok(acc)
    else match Add(acc, SignalOperand(rest[0])) {
      case Err(e) => Err(e)
      case Ok(next) => AddAll(next, rest[1..])
    }
  }

  /** Python's `sum(signals)`: `0 + s0 + s1 + ...`, which is `0` for no signals. */
  function SumSignals(signals: seq<Signal>): (r: Result<Operand>)
    requires forall j :: 0 <= j < |signals| ==> signals[j].WellFormed()
    ensures |signals| == 0 ==> r == Ok(NumberOperand(0.0))
  {
    if |signals| == 0 then Ok(NumberOperand(0.0))
    else match RAdd(signals[0], NumberOperand(0.0)) {
      case Err(e) => Err(e)
      case Ok(first) =>
        match AddAll(first, signals[1..]) {
          case Err(e) => Err(e)
          case Ok(total) => Ok(SignalOperand(total))
        }
    }
  }

  /** The samples at index i of each signal. */
  function Column(signals: seq<Signal>, i: nat): (c: seq<real>)
    requires forall j :: 0 <= j < |signals| ==> i < |signals[j].values|
    ensures |c| == |signals| && forall j :: 0 <= j < |signals| ==> c[j] == signals[j].values[i]
  {
    seq(|signals|, j requires 0 <= j < |signals| => signals[j].values[i])
  }

  /** Signals on one times array whose units are all undefined or `unit`. */
  predicate Summable(signals: seq<Signal>, times: seq<real>, unit: ValueType) {
    forall j :: 0 <= j < |signals| ==>
      && signals[j].WellFormed()
      && signals[j].times == times
      && signals[j].valueType in {Undefined, unit}
  }

  predicate AllUndefined(signals: seq<Signal>) {
    forall j :: 0 <= j < |signals| ==> signals[j].valueType == Undefined
  }

  lemma {:induction false} AddAllSums(acc: Signal, rest: seq<Signal>, unit: ValueType)
    requires acc.WellFormed() && acc.valueType in {Undefined, unit}
    requires Summable(rest, acc.times, unit)
    ensures var r := AddAll(acc, rest);
      && r.Ok?
      && r.value.times == acc.times
      && (forall i :: 0 <= i < |acc.times| ==>
        r.value.values[i] == acc.values[i] + Sum(Column(rest, i)))
      && (r.value.valueType == Undefined <==> acc.valueType == Undefined && AllUndefined(rest))
      && (r.value.valueType != Undefined ==> r.value.valueType == unit)
    decreases |rest|
  {
    if |rest| > 0 {
      var next := Add(acc, SignalOperand(rest[0])).value;
      assert Summable(rest[1..], acc.times, unit) by {
        forall j | 0 <= j < |rest| - 1
          ensures rest[1..][j] == rest[j + 1]
        {
        }
      }
      AddAllSums(next, rest[1..], unit);
      forall i | 0 <= i < |acc.times|
        ensures AddAll(acc, rest).value.values[i] == acc.values[i] + Sum(Column(rest, i))
      {
        assert Column(rest, i)[1..] == Column(rest[1..], i);
      }
      if AllUndefined(rest[1..]) && rest[0].valueType == Undefined {
        forall j | 0 <= j < |rest|
          ensures rest[j].valueType == Undefined
        {
          if j > 0 {
            assert rest[j] == rest[1..][j - 1];
          }
        }
      }
      if AllUndefined(rest) {
        assert rest[0].valueType == Undefined;
        forall j | 0 <= j < |rest| - 1
          ensures rest[1..][j].valueType == Undefined
        {
          assert rest[1..][j] == rest[j + 1];
        }
      }
    }
  }

  /** Summing signals that share one times array and one unit (or none)
      succeeds; each value is the sum of the values at that index, and the
      unit is the shared one unless every signal's unit is undefined. */
  lemma SumOfSummable(signals: seq<Signal>, times: seq<real>, unit: ValueType)
    requires |signals| >= 1 && Summable(signals, times, unit)
    ensures var r := SumSignals(signals);
      && r.Ok? && r.value.SignalOperand?
      && r.value.signal.times == times
      && (forall i :: 0 <= i < |times| ==> r.value.signal.values[i] == Sum(Column(signals, i)))
      && (r.value.signal.valueType == Undefined <==> AllUndefined(signals))
      && (r.value.signal.valueType != Undefined ==> r.value.signal.valueType == unit)
  {
    var first := signals[0];
    var rest := signals[1..];
    assert Summable(rest, times, unit) by {
      forall j | 0 <= j < |rest|
        ensures rest[j] == signals[j + 1]
      {
      }
    }
    AddAllSums(first, rest, unit);
    forall i | 0 <= i < |times|
      ensures SumSignals(signals).value.signal.values[i] == Sum(Column(signals, i))
    {
      assert Column(signals, i)[1..] == Column(rest, i);
    }
    if AllUndefined(signals) {
      forall j | 0 <= j < |rest|
        ensures rest[j].valueType == Undefined
      {
        assert rest[j] == signals[j + 1];
      }
    }
    if first.valueType == Undefined && AllUndefined(rest) {
      forall j | 0 <= j < |signals|
        ensures signals[j].valueType == Undefined
      {
        if j > 0 {
          assert signals[j] == rest[j - 1];
        }
      }
    }
  }

  /** Summing fails with ValueError as soon as a signal's times differ from
      the first signal's. */
  lemma SumOfMismatchedTimes(a: Signal, b: Signal)
    requires a.WellFormed() && b.WellFormed() && a.times != b.times
    ensures SumSignals([a, b]) == Err(ValueError)
  {
    assert [a, b][1..] == [b];
  }

  /** `Signal.dt`: the spacing of the first two times, or None for fewer than two. */
  function Dt(s: Signal): (r: Option<real>)
    ensures r.Some? <==> |s.times| >= 2
    ensures r.Some? ==> s.times[0] + r.value == s.times[1]
  {
    if |s.times| >= 2 then Some(s.times[1] - s.times[0]) else None
  }

  /** `Signal.with_times`: values linearly interpolated onto new times, and
      zero outside the old time range; numpy refuses an empty old times array. */
  function WithTimes(s: Signal, newTimes: seq<real>): (r: Result<Signal>)
    requires s.WellFormed()
    ensures r.Err? <==> |s.times| == 0
    ensures r.Err? ==> r.error == ValueError
    ensures r.Ok? ==>
      && r.value.WellFormed()
      && r.value.times == newTimes
      && r.value.valueType == s.valueType
    ensures r.Ok? ==> forall i :: 0 <= i < |newTimes| ==>
      (newTimes[i] < s.times[0] || newTimes[i] > s.times[|s.times| - 1] ==> r.value.values[i] == 0.0)
  {
    if |s.times| == 0 then Err(ValueError)
    else
      var values := seq(|newTimes|, i requires 0 <= i < |newTimes| => Interp(newTimes[i], s.times, s.values));
      Ok(NewSignal(newTimes, values, s.valueType))
  }

  /** Moving a signal on increasing times to its own times changes nothing. */
  lemma WithOwnTimes(s: Signal)
    requires s.WellFormed() && |s.times| >= 1 && StrictlyIncreasing(s.times)
    ensures WithTimes(s, s.times) == Ok(s)
  {
    var r := WithTimes(s, s.times).value;
    forall k | 0 <= k < |s.times|
      ensures r.values[k] == s.values[k]
    {
      InterpAtSample(s.times, s.values, k);
    }
    assert r.values == s.values;
  }

  /** Between two of the old (strictly increasing) times, the re-timed value
      lies on the straight line through the two neighbouring samples. */
  lemma WithTimesBetween(s: Signal, newTimes: seq<real>, i: nat, k: nat)
    requires s.WellFormed() && StrictlyIncreasing(s.times)
    requires i < |newTimes| && k < |s.times| - 1
    requires s.times[k] <= newTimes[i] < s.times[k + 1]
    ensures WithTimes(s, newTimes).Ok?
    ensures WithTimes(s, newTimes).value.values[i]
      == s.values[k] + (s.values[k + 1] - s.values[k]) / (s.times[k + 1] - s.times[k])
         * (newTimes[i] - s.times[k])
  {
    InterpBetween(newTimes[i], s.times, s.values, k);
  }

  /** `EmptySignal`: all values zero. */
  function EmptySignal(times: seq<real>, valueType: ValueType): (s: Signal)
    ensures s.WellFormed() && s.times == times && s.valueType == valueType
    ensures AllZero(s.values)
  {
    NewSignal(times, Zeros(|times|), valueType)
  }

  /** `EmptySignal.with_times`: an empty signal on the new times. */
  function EmptyWithTimes(s: Signal, newTimes: seq<real>): (r: Signal)
    ensures r.WellFormed() && r.times == newTimes && r.valueType == s.valueType
    ensures AllZero(r.values)
  {
    EmptySignal(newTimes, s.valueType)
  }

  /** The override agrees with interpolation, which also gives zeros,
      whenever the old times array is non-empty. */
  lemma EmptyWithTimesAgrees(times: seq<real>, valueType: ValueType, newTimes: seq<real>)
    requires |times| >= 1
    ensures WithTimes(EmptySignal(times, valueType), newTimes)
      == Ok(EmptyWithTimes(EmptySignal(times, valueType), newTimes))
  {
    var s := EmptySignal(times, valueType);
    var r := WithTimes(s, newTimes).value;
    forall i | 0 <= i < |newTimes|
      ensures r.values[i] == 0.0
    {
      InterpOfZero(newTimes[i], s.times, s.values);
    }
    assert r.values == EmptyWithTimes(s, newTimes).values;
  }

  /** The function evaluated at every time. */
  function Pointwise(f: real -> real, times: seq<real>): (r: seq<real>)
    ensures |r| == |times| && forall i :: 0 <= i < |times| ==> r[i] == f(times[i])
  {
    seq(|times|, i requires 0 <= i < |times| => f(times[i]))
  }

  /** The fallback of `FunctionSignal`: call the function once per time. */
  method EvaluateEach(f: real -> real, times: seq<real>) returns (values: seq<real>)
    ensures values == Pointwise(f, times)
  {
    values := [];
    var k := 0;
    while k < |times|
      invariant 0 <= k <= |times|
      invariant values == Pointwise(f, times[..k])
    {
      values := values + [f(times[k])];
      k := k + 1;
    }
    assert times[..k] == times;
  }

  /** `FunctionSignal`: values are the function of each time. The function
      is elementwise, so evaluating it on the whole array and evaluating it
      once per time give the same values. */
  function FunctionSignal(times: seq<real>, f: real -> real, valueType: ValueType): (s: Signal)
    ensures s.WellFormed() && s.times == times && s.valueType == valueType
    ensures forall i :: 0 <= i < |times| ==> s.values[i] == f(times[i])
  {
    NewSignal(times, Pointwise(f, times), valueType)
  }

  /** `FunctionSignal.with_times`: the function evaluated on the new times. */
  function FunctionWithTimes(f: real -> real, valueType: ValueType, newTimes: seq<real>): (s: Signal)
    ensures s == FunctionSignal(newTimes, f, valueType)
  {
    FunctionSignal(newTimes, f, valueType)
  }

  /** At any of the old sample times, re-evaluating the function and
      interpolating the old samples agree; elsewhere the override is exact. */
  lemma FunctionWithTimesAgreesOnGrid(times: seq<real>, f: real -> real, valueType: ValueType,
                                      newTimes: seq<real>, i: nat, k: nat)
    requires StrictlyIncreasing(times) && k < |times| && i < |newTimes| && newTimes[i] == times[k]
    ensures WithTimes(FunctionSignal(times, f, valueType), newTimes).value.values[i]
      == FunctionWithTimes(f, valueType, newTimes).values[i]
  {
    var s := FunctionSignal(times, f, valueType);
    InterpAtSample(s.times, s.values, k);
  }

  /** `vector_potential`: the running sum of the values before each sample,
      times -dt; Python fails with TypeError when dt is None. */
  function VectorPotential(s: Signal): (r: Result<seq<real>>)
    ensures r.Err? <==> |s.times| < 2
    ensures r.Err? ==> r.error == TypeError
    ensures r.Ok? ==> |r.value| == |s.values|
  {
    match Dt(s) {
      case None => Err(TypeError)
      case Some(dt) =>
        var sums := CumSum([0.0] + s.values);
        Ok(Scale(sums[..|sums| - 1], -dt))
    }
  }

  /** Sample i of the vector potential is -dt times the sum of the first i values. */
  lemma VectorPotentialAt(s: Signal, i: nat)
    requires |s.times| >= 2 && i < |s.values|
    ensures VectorPotential(s).value[i] == -(s.times[1] - s.times[0]) * Sum(s.values[..i])
  {
    var v := [0.0] + s.values;
    CumSumAt(v, i);
    assert v[..i + 1] == [0.0] + s.values[..i];
    assert Sum(v[..i + 1]) == Sum(s.values[..i]) by {
      assert v[..i + 1][1..] == s.values[..i];
    }
  }

  lemma {:induction false} SumOfDiffPrefix(a: seq<real>, i: nat)
    requires 1 <= i <= |a|
    ensures Sum(Diff(a)[..i - 1]) == a[i - 1] - a[0]
  {
    if i > 1 {
      SumOfDiffPrefix(a, i - 1);
      SumSnoc(Diff(a), i - 2);
    }
  }

  /** A potential measured from its first sample: A[i] - A[0]. */
  function Offsets(a: seq<real>): (r: seq<real>)
    ensures |r| == |a|
  {
    seq(|a|, i requires 0 <= i < |a| => a[i] - a[0])
  }

  /** The running sums behind the vector potential of `np.diff(A)` are the
      offsets of A from its first sample. */
  lemma PotentialSumsOfDiff(times: seq<real>, a: seq<real>, valueType: ValueType)
    requires |times| >= 2 && |a| == |times|
    ensures var sums := CumSum([0.0] + NewSignal(times, Diff(a), valueType).values);
      sums[..|sums| - 1] == Offsets(a)
  {
    var s := NewSignal(times, Diff(a), valueType);
    var v := [0.0] + s.values;
    var sums := CumSum(v);
    forall i | 0 <= i < |a|
      ensures sums[i] == Offsets(a)[i]
    {
      CumSumAt(v, i);
      assert v[..i + 1] == [0.0] + s.values[..i];
      assert Sum(v[..i + 1]) == Sum(s.values[..i]) by {
        assert v[..i + 1][1..] == s.values[..i];
      }
      PaddedDiffPrefix(times, a, valueType, i);
    }
  }

  lemma PaddedDiffPrefix(times: seq<real>, a: seq<real>, valueType: ValueType, i: nat)
    requires |times| >= 2 && |a| == |times| && i < |a|
    ensures Sum(NewSignal(times, Diff(a), valueType).values[..i]) == a[i] - a[0]
  {
    var s := NewSignal(times, Diff(a), valueType);
    assert s.values[..i] == Diff(a)[..i];
    SumOfDiffPrefix(a, i + 1);
  }

  /** The vector potential recovers the potential A that the values were
      differentiated from (`values = np.diff(A)`), up to the factor -dt and
      the constant A[0]: sample i is -dt * (A[i] - A[0]). */
  lemma VectorPotentialInvertsDiff(times: seq<real>, a: seq<real>, valueType: ValueType)
    requires |times| >= 2 && |a| == |times|
    ensures VectorPotential(NewSignal(times, Diff(a), valueType))
      == Ok(Scale(Offsets(a), -(times[1] - times[0])))
  {
    PotentialSumsOfDiff(times, a, valueType);
  }

  /** A signal object whose times and values `resample` replaces in place. */
  class SignalObject {
    var times: seq<real>
    var values: seq<real>
    var valueType: ValueType

    constructor (s: Signal)
      ensures times == s.times && values == s.values && valueType == s.valueType
    {
      times := s.times;
      values := s.values;
      valueType := s.valueType;
    }

    function Value(): Signal
      reads this
    {
      Signal(times, values, valueType)
    }

    /** `Signal.resample(n)`: n evenly spaced times over the same range;
        the band-limited (FFT) resampling of the values is a parameter.
        An empty times array raises IndexError, a negative n ValueError,
        and on either error nothing changes. For n == 0 the times are
        already replaced by the empty `linspace` when the FFT resampling
        of the values to no points raises ValueError. */
    method Resample(n: int, resampled: seq<real>) returns (r: Result<bool>)
      requires n >= 0 ==> |resampled| == n
      modifies this
      ensures n == |old(times)| ==> r == Ok(false) && unchanged(this)
      ensures n != |old(times)| && |old(times)| == 0 ==> r == Err(IndexError) && unchanged(this)
      ensures n != |old(times)| && |old(times)| > 0 && n < 0 ==> r == Err(ValueError) && unchanged(this)
      ensures n != |old(times)| && |old(times)| > 0 && n == 0 ==>
        r == Err(ValueError) && times == [] && values == old(values) && valueType == old(valueType)
      ensures n != |old(times)| && |old(times)| > 0 && n > 0 ==>
        && r == Ok(true)
        && times == Linspace(old(times)[0], old(times)[|old(times)| - 1], n)
        && values == resampled && valueType == old(valueType)
      ensures r.Ok? ==> |times| == n
      ensures r.Ok? && n >= 1 ==> times[0] == old(times)[0]
      ensures r.Ok? && n >= 2 ==> times[n - 1] == old(times)[|old(times)| - 1]
      ensures old(Value().WellFormed()) && (n != 0 || |old(times)| == 0) ==> Value().WellFormed()
    {
      if n == |times| {
        return Ok(false);
      }
      if |times| == 0 {
        return Err(IndexError);
      }
      if n < 0 {
        return Err(ValueError);
      }
      times := Linspace(times[0], times[|times| - 1], n);
      if n == 0 {
        return Err(ValueError);
      }
      values := resampled;
      return Ok(true);
    }
  }
}
