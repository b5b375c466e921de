/** The numpy array operations the core builds its pulses from, on sequences
    of reals: zero arrays, slicing with clamping and stride, `np.diff`,
    `np.cumsum`, `np.trapz`, full discrete convolution, `np.roll`,
    `np.linspace` and `np.interp`. */
module ArrayOps {
  import opened Common

  function Zeros(n: nat): (r: seq<real>)
    ensures |r| == n && forall i :: 0 <= i < n ==> r[i] == 0.0
  {
    seq(n, _ => 0.0)
  }

  predicate AllZero(s: seq<real>) {
    forall i :: 0 <= i < |s| ==> s[i] == 0.0
  }

  /** Elementwise product with a scalar. */
  function Scale(s: seq<real>, c: real): (r: seq<real>)
    ensures |r| == |s| && forall i :: 0 <= i < |s| ==> r[i] == s[i] * c
  {
    seq(|s|, i requires 0 <= i < |s| => s[i] * c)
  }

  /** `s[k:]` for k >= 0: Python clamps a start past the end to an empty slice. */
  function Drop(s: seq<real>, k: nat): (r: seq<real>)
    ensures k <= |s| ==> r == s[k..]
    ensures k > |s| ==> r == []
  {
    if k <= |s| then s[k..] else []
  }

  /** `s[:-k]` for k > 0: drops the last k samples, or everything when k exceeds the length. */
  function DropLast(s: seq<real>, k: nat): (r: seq<real>)
    requires k > 0
    ensures k <= |s| ==> r == s[..|s| - k]
    ensures k > |s| ==> r == []
  {
    if k <= |s| then s[..|s| - k] else []
  }

  /** `np.diff`: consecutive differences, one sample shorter than the input
      (empty for fewer than two samples). */
  function Diff(a: seq<real>): (r: seq<real>)
    ensures |r| == if |a| == 0 then 0 else |a| - 1
    ensures forall i :: 0 <= i < |r| ==> r[i] == a[i + 1] - a[i]
  {
    if |a| <= 1 then [] else seq(|a| - 1, i requires 0 <= i < |a| - 1 => a[i + 1] - a[i])
  }

  /** `s[::d]`: every d-th sample starting with the first. */
  function Stride(s: seq<real>, d: nat): seq<real>
    requires d >= 1
    decreases |s|
  {
    if |s| == 0 then [] else [s[0]] + Stride(s[if d <= |s| then d else |s|..], d)
  }

  /** A stride of at most n*d samples keeps at most n of them. */
  lemma {:induction false} StrideAtMost(s: seq<real>, d: nat, n: nat)
    requires d >= 1 && |s| <= n * d
    ensures |Stride(s, d)| <= n
    decreases n
  {
    if |s| > 0 {
      assert n >= 1;
      if d <= |s| {
        assert |s| - d <= (n - 1) * d;
        StrideAtMost(s[d..], d, n - 1);
      }
    }
  }

  /** A stride of more than n*d samples keeps more than n of them. */
  lemma {:induction false} StrideMore(s: seq<real>, d: nat, n: nat)
    requires d >= 1 && |s| > n * d
    ensures |Stride(s, d)| > n
    decreases n
  {
    if n > 0 {
      assert n * d >= d;
      assert |s| - d > (n - 1) * d;
      StrideMore(s[d..], d, n - 1);
    }
  }

  /** A stride of exactly n*d samples keeps exactly n of them. */
  lemma StrideOfMultiple(s: seq<real>, d: nat, n: nat)
    requires d >= 1 && |s| == n * d
    ensures |Stride(s, d)| == n
  {
    StrideAtMost(s, d, n);
    if n > 0 {
      assert (n - 1) * d < n * d;
      StrideMore(s, d, n - 1);
    }
  }

  /** Striding commutes with scaling every sample. */
  lemma {:induction false} StrideScale(s: seq<real>, d: nat, c: real)
    requires d >= 1
    ensures Stride(Scale(s, c), d) == Scale(Stride(s, d), c)
    decreases |s|
  {
    if |s| > 0 {
      var k := if d <= |s| then d else |s|;
      var x := s[0];
      var t := Scale(s, c);
      var u := Stride(s[k..], d);
      assert Stride(t, d) == [t[0]] + Stride(t[k..], d);
      DropScale(s, k, c);
      StrideScale(s[k..], d, c);
      assert t[0] == x * c;
      assert Stride(t, d) == [x * c] + Scale(u, c);
      assert Stride(s, d) == [x] + u;
      ConsScale(x, u, c);
    } else {
      assert Scale(s, c) == [];
    }
  }

  lemma DropScale(s: seq<real>, k: nat, c: real)
    requires k <= |s|
    ensures Scale(s, c)[k..] == Scale(s[k..], c)
  {
    var t := Scale(s, c);
    forall i | 0 <= i < |s| - k
      ensures t[k..][i] == Scale(s[k..], c)[i]
    {
      assert t[k..][i] == t[i + k];
    }
  }

  lemma ConsScale(x: real, u: seq<real>, c: real)
    ensures Scale([x] + u, c) == [x * c] + Scale(u, c)
  {
    var lhs := Scale([x] + u, c);
    var rhs := [x * c] + Scale(u, c);
    forall i | 0 <= i < 1 + |u|
      ensures lhs[i] == rhs[i]
    {
      if i > 0 {
        assert ([x] + u)[i] == u[i - 1];
      }
    }
  }

  /** Every sample the stride keeps is a sample of its input. */
  lemma {:induction false} StrideOfZero(s: seq<real>, d: nat)
    requires d >= 1 && AllZero(s)
    ensures AllZero(Stride(s, d))
    decreases |s|
  {
    if |s| > 0 {
      var k := if d <= |s| then d else |s|;
      StrideOfZero(s[k..], d);
    }
  }

  /** One term a[i]*b[k-i] of output sample k of the full convolution. */
  function ConvTerm(a: seq<real>, b: seq<real>, k: int, i: nat): real
    requires i < |a|
  {
    if 0 <= k - i < |b| then a[i] * b[k - i] else 0.0
  }

  /** The sum of the first n terms of output sample k. */
  function ConvSum(a: seq<real>, b: seq<real>, k: int, n: nat): real
    requires n <= |a|
  {
    if n == 0 then 0.0 else ConvSum(a, b, k, n - 1) + ConvTerm(a, b, k, n - 1)
  }

  /** Full discrete convolution (`mode='full'`) of two non-empty sequences. */
  function Convolve(a: seq<real>, b: seq<real>): (r: seq<real>)
    requires |a| >= 1 && |b| >= 1
    ensures |r| == |a| + |b| - 1
  {
    seq(|a| + |b| - 1, k => ConvSum(a, b, k, |a|))
  }

  lemma {:induction false} ConvSumOfZero(a: seq<real>, b: seq<real>, k: int, n: nat)
    requires n <= |a| && AllZero(a)
    ensures ConvSum(a, b, k, n) == 0.0
  {
    if n > 0 {
      ConvSumOfZero(a, b, k, n - 1);
    }
  }

  /** Convolving an all-zero profile gives an all-zero result. */
  lemma ConvolveOfZero(a: seq<real>, b: seq<real>)
    requires |a| >= 1 && |b| >= 1 && AllZero(a)
    ensures AllZero(Convolve(a, b))
  {
    forall k | 0 <= k < |a| + |b| - 1
      ensures Convolve(a, b)[k] == 0.0
    {
      ConvSumOfZero(a, b, k, |a|);
    }
  }

  /** `np.trapz(y, dx=dx)`: the trapezoidal rule on a uniform grid. */
  function Trapz(y: seq<real>, dx: real): real
    decreases |y|
  {
    if |y| <= 1 then 0.0 else dx * (y[0] + y[1]) / 2.0 + Trapz(y[1..], dx)
  }

  /** With a positive step, non-negative samples and one positive sample,
      the trapezoidal integral is positive. */
  lemma {:induction false} TrapzPositive(y: seq<real>, dx: real, j: nat)
    requires dx > 0.0 && |y| >= 2 && j < |y| && y[j] > 0.0
    requires forall i :: 0 <= i < |y| ==> y[i] >= 0.0
    ensures Trapz(y, dx) > 0.0
    decreases |y|
  {
    if j <= 1 {
      assert y[0] + y[1] > 0.0;
      PositiveProduct(dx, y[0] + y[1]);
      TrapzNonNegative(y[1..], dx);
    } else {
      NonNegProduct(dx, y[0] + y[1]);
      TrapzPositive(y[1..], dx, j - 1);
    }
  }

  lemma {:induction false} TrapzNonNegative(y: seq<real>, dx: real)
    requires dx >= 0.0
    requires forall i :: 0 <= i < |y| ==> y[i] >= 0.0
    ensures Trapz(y, dx) >= 0.0
    decreases |y|
  {
    if |y| > 1 {
      NonNegProduct(dx, y[0] + y[1]);
      TrapzNonNegative(y[1..], dx);
    }
  }

  /** Reversing the sign of the step reverses the sign of the integral. */
  lemma {:induction false} TrapzNegate(y: seq<real>, dx: real)
    ensures Trapz(y, -dx) == -Trapz(y, dx)
    decreases |y|
  {
    if |y| > 1 {
      TrapzNegate(y[1..], dx);
    }
  }

  /** Sum of all samples. */
  function Sum(s: seq<real>): real
  {
    if |s| == 0 then 0.0 else s[0] + Sum(s[1..])
  }

  /** Summing a prefix one sample longer adds that sample. */
  lemma {:induction false} SumSnoc(s: seq<real>, i: nat)
    requires i < |s|
    ensures Sum(s[..i + 1]) == Sum(s[..i]) + s[i]
  {
    if i > 0 {
      SumSnoc(s[1..], i - 1);
      assert s[..i + 1][1..] == s[1..][..i];
      assert s[..i][1..] == s[1..][..i - 1];
    }
  }

  /** Running sums starting from `acc`: sample i is acc + s[0] + ... + s[i]. */
  function CumSumFrom(acc: real, s: seq<real>): (r: seq<real>)
    ensures |r| == |s|
    decreases |s|
  {
    if |s| == 0 then [] else [acc + s[0]] + CumSumFrom(acc + s[0], s[1..])
  }

  /** `np.cumsum`. */
  function CumSum(s: seq<real>): (r: seq<real>)
    ensures |r| == |s|
  {
    CumSumFrom(0.0, s)
  }

  lemma {:induction false} CumSumFromAt(acc: real, s: seq<real>, i: nat)
    requires i < |s|
    ensures CumSumFrom(acc, s)[i] == acc + Sum(s[..i + 1])
    decreases i
  {
    if i > 0 {
      CumSumFromAt(acc + s[0], s[1..], i - 1);
      assert s[..i + 1][1..] == s[1..][..i];
    }
  }

  /** Sample i of the running sum is the sum of the first i+1 samples. */
  lemma CumSumAt(s: seq<real>, i: nat)
    requires i < |s|
    ensures CumSum(s)[i] == Sum(s[..i + 1])
  {
    CumSumFromAt(0.0, s, i);
  }

  /** `np.roll(a, k)`: circular shift by k places to the right. */
  function Roll(a: seq<real>, k: int): (r: seq<real>)
    ensures |r| == |a|
  {
    if |a| == 0 then [] else seq(|a|, i requires 0 <= i < |a| => a[(i - k) % |a|])
  }

  /** Euclidean division is determined by any quotient/remainder pair. */
  lemma ModUnique(x: int, n: int, q: int, r: int)
    requires n > 0 && 0 <= r < n && x == q * n + r
    ensures x % n == r
  {
    var q', r' := x / n, x % n;
    assert x == q' * n + r';
    var e := q - q';
    assert e * n == r' - r by {
      assert q * n - q' * n == r' - r;
    }
    if e > 0 {
      MulAtLeast(e, n);
    } else if e < 0 {
      MulAtMost(e, n);
    }
  }

  lemma MulAtLeast(e: int, n: int)
    requires e >= 1 && n > 0
    ensures e * n >= n
  {
    assert e * n == (e - 1) * n + n;
  }

  lemma MulAtMost(e: int, n: int)
    requires e <= -1 && n > 0
    ensures e * n <= -n
  {
    assert e * n == (e + 1) * n - n;
  }

  /** The index arithmetic behind composing two rolls. */
  lemma ModCompose(i: int, j: int, k: int, n: int)
    requires n > 0
    ensures ((i - k) % n - j) % n == (i - (j + k)) % n
  {
    var m := (i - k) % n;
    var q1 := (i - k) / n;
    assert i - k == q1 * n + m;
    var t := (i - (j + k)) % n;
    var q2 := (i - (j + k)) / n;
    assert i - (j + k) == q2 * n + t;
    assert m - j == (q2 - q1) * n + t by {
      assert (q2 - q1) * n == q2 * n - q1 * n;
    }
    ModUnique(m - j, n, q2 - q1, t);
  }

  /** Rolling moves sample i to position (i + k) mod n. */
  lemma RollMoves(a: seq<real>, k: int, i: nat)
    requires i < |a|
    ensures Roll(a, k)[(i + k) % |a|] == a[i]
  {
    var n := |a|;
    var q := (i + k) / n;
    var j := (i + k) % n;
    assert i + k == q * n + j;
    ModUnique(j - k, n, -q, i);
  }

  /** Two rolls compose into one roll by the sum of the shifts. */
  lemma RollCompose(a: seq<real>, j: int, k: int)
    ensures Roll(Roll(a, j), k) == Roll(a, j + k)
  {
    var n := |a|;
    if n > 0 {
      var once := Roll(a, j);
      var twice := Roll(once, k);
      var direct := Roll(a, j + k);
      forall i | 0 <= i < n
        ensures twice[i] == direct[i]
      {
        var m := (i - k) % n;
        assert twice[i] == once[m];
        assert once[m] == a[(m - j) % n];
        assert direct[i] == a[(i - (j + k)) % n];
        ModCompose(i, j, k, n);
      }
    }
  }

  /** Rolling back by the same shift restores the input. */
  lemma RollInverse(a: seq<real>, k: int)
    ensures Roll(Roll(a, k), -k) == a
  {
    var n := |a|;
    if n > 0 {
      var once := Roll(a, k);
      var back := Roll(once, -k);
      forall i | 0 <= i < n
        ensures back[i] == a[i]
      {
        var m := (i + k) % n;
        assert back[i] == once[m];
        assert once[m] == a[(m - k) % n];
        ModCompose(i, k, -k, n);
        ModUnique(i, n, 0, i);
      }
    }
  }

  /** A roll by zero places is the identity. */
  lemma RollZero(a: seq<real>)
    ensures Roll(a, 0) == a
  {
    var n := |a|;
    if n > 0 {
      var r := Roll(a, 0);
      forall i | 0 <= i < n
        ensures r[i] == a[i]
      {
        assert r[i] == a[(i - 0) % n];
        ModUnique(i, n, 0, i);
      }
    }
  }

  /** `np.linspace(a, b, n)` with the end point included: numpy computes
      a + i*(b-a)/(n-1) and then stores b itself as the last sample. */
  function Linspace(a: real, b: real, n: nat): (r: seq<real>)
    ensures |r| == n
    ensures n >= 1 ==> r[0] == a
    ensures n >= 2 ==> r[n - 1] == b
  {
    if n == 1 then [a]
    else
      seq(n, i requires 0 <= i < n =>
        if i == n - 1 then b else a + (i as real) * ((b - a) / ((n - 1) as real)))
  }

  /** `np.linspace(a, b, n, endpoint=False)`: n points a + i*(b-a)/n. */
  function LinspaceOpen(a: real, b: real, n: nat): (r: seq<real>)
    ensures |r| == n
    ensures n >= 1 ==> r[0] == a
  {
    if n == 0 then [] else seq(n, i requires 0 <= i < n => a + (i as real) * ((b - a) / (n as real)))
  }

  /** Linear interpolation on the segment of xp that holds x, scanning from j. */
  function Segment(x: real, xp: seq<real>, fp: seq<real>, j: nat): real
    requires j < |xp| - 1 && |fp| == |xp|
    requires xp[j] <= x < xp[|xp| - 1]
    decreases |xp| - j
  {
    if x < xp[j + 1] then
      var slope := (fp[j + 1] - fp[j]) / (xp[j + 1] - xp[j]);
      fp[j] + slope * (x - xp[j])
    else Segment(x, xp, fp, j + 1)
  }

  /** `np.interp(x, xp, fp, left=0, right=0)` for a non-empty grid xp. */
  function Interp(x: real, xp: seq<real>, fp: seq<real>): real
    requires |xp| >= 1 && |fp| == |xp|
  {
    var last := |xp| - 1;
    if x < xp[0] || x > xp[last] then 0.0
    else if x == xp[last] then fp[last]
    else Segment(x, xp, fp, 0)
  }

  predicate StrictlyIncreasing(xs: seq<real>) {
    forall i, j :: 0 <= i < j < |xs| ==> xs[i] < xs[j]
  }

  lemma {:induction false} SegmentAtSample(xp: seq<real>, fp: seq<real>, j: nat, k: nat)
    requires StrictlyIncreasing(xp) && |fp| == |xp|
    requires j <= k < |xp| - 1
    ensures Segment(xp[k], xp, fp, j) == fp[k]
    decreases k - j
  {
    if j < k {
      assert xp[j + 1] <= xp[k];
      SegmentAtSample(xp, fp, j + 1, k);
    } else {
      assert xp[k] < xp[k + 1];
    }
  }

  /** On a strictly increasing grid, interpolating at a grid point returns its sample. */
  lemma InterpAtSample(xp: seq<real>, fp: seq<real>, k: nat)
    requires StrictlyIncreasing(xp) && |fp| == |xp| && k < |xp|
    ensures Interp(xp[k], xp, fp) == fp[k]
  {
    if k < |xp| - 1 {
      SegmentAtSample(xp, fp, 0, k);
    }
  }

  lemma {:induction false} SegmentBetween(x: real, xp: seq<real>, fp: seq<real>, j: nat, k: nat)
    requires StrictlyIncreasing(xp) && |fp| == |xp|
    requires j <= k < |xp| - 1 && xp[j] <= x && xp[k] <= x < xp[k + 1]
    ensures Segment(x, xp, fp, j)
      == fp[k] + (fp[k + 1] - fp[k]) / (xp[k + 1] - xp[k]) * (x - xp[k])
    decreases k - j
  {
    if j < k {
      assert xp[j + 1] <= xp[k];
      SegmentBetween(x, xp, fp, j + 1, k);
    }
  }

  /** Strictly inside a segment [xp[k], xp[k+1]) of a strictly increasing
      grid, interpolation is the straight line through its two samples. */
  lemma InterpBetween(x: real, xp: seq<real>, fp: seq<real>, k: nat)
    requires StrictlyIncreasing(xp) && |fp| == |xp|
    requires k < |xp| - 1 && xp[k] <= x < xp[k + 1]
    ensures Interp(x, xp, fp)
      == fp[k] + (fp[k + 1] - fp[k]) / (xp[k + 1] - xp[k]) * (x - xp[k])
  {
    assert xp[0] <= xp[k] && xp[k + 1] <= xp[|xp| - 1];
    SegmentBetween(x, xp, fp, 0, k);
  }

  lemma {:induction false} SegmentOfZero(x: real, xp: seq<real>, fp: seq<real>, j: nat)
    requires j < |xp| - 1 && |fp| == |xp| && xp[j] <= x < xp[|xp| - 1]
    requires AllZero(fp)
    ensures Segment(x, xp, fp, j) == 0.0
    decreases |xp| - j
  {
    if x >= xp[j + 1] {
      SegmentOfZero(x, xp, fp, j + 1);
    }
  }

  /** Interpolating an all-zero sample sequence gives zero everywhere. */
  lemma InterpOfZero(x: real, xp: seq<real>, fp: seq<real>)
    requires |xp| >= 1 && |fp| == |xp| && AllZero(fp)
    ensures Interp(x, xp, fp) == 0.0
  {
    if xp[0] <= x < xp[|xp| - 1] {
      SegmentOfZero(x, xp, fp, 0);
    }
  }

  /** A numpy float array that either holds known real samples or holds at
      least one inf or NaN; for the latter only the length is kept. */
  datatype Samples = Finite(values: seq<real>) | NotFinite(length: nat)
  {
    function Length(): nat {
      if Finite? then |values| else length
    }
  }

  /** Evaluates a function that may give a non-finite value at every point. */
  function Tabulate(f: real -> Option<real>, zs: seq<real>): (r: Samples)
    ensures r.Length() == |zs|
    ensures r.Finite? <==> forall i :: 0 <= i < |zs| ==> f(zs[i]).Some?
    ensures r.Finite? ==> forall i :: 0 <= i < |zs| ==> r.values[i] == f(zs[i]).value
  {
    if forall i :: 0 <= i < |zs| ==> f(zs[i]).Some? then
      Finite(seq(|zs|, i requires 0 <= i < |zs| => f(zs[i]).value))
    else
      NotFinite(|zs|)
  }
}
