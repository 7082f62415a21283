/** The foreign numerics the scripts call, taken as parameters: `np.sqrt`,
    `np.fft.rfft` and `np.fft.irfft` are not defined here. What the model relies
    on about them is stated in `SqrtLaw`, `RfftLaw` and `IrfftLaw`; `np.fft.rfftfreq` and zero padding are
    plain index arithmetic and are defined outright. */
module NumPy {
  import opened Complexes
  import opened Series

  /** `np.pi`, as the double nearest to it. */
  const Pi: real := 3.141592653589793

  datatype Library = Library(
    sqrt: real -> real,
    rfft: seq<real> -> seq<Complex>,
    irfft: (seq<Complex>, nat) -> seq<real>)

  /** `np.sqrt` is the non-negative square root. */
  ghost predicate SqrtLaw(lib: Library) {
    forall x: real :: x >= 0.0 ==> lib.sqrt(x) >= 0.0 && lib.sqrt(x) * lib.sqrt(x) == x
  }

  /** `np.fft.rfft` of `n >= 1` samples has `n / 2 + 1` bins, the first (DC)
      bin being the sum of the samples. */
  ghost predicate RfftLaw(lib: Library) {
    forall x: seq<real> {:trigger lib.rfft(x)} :: |x| > 0 ==> |lib.rfft(x)| == |x| / 2 + 1 && lib.rfft(x)[0] == FromReal(Sum(x))
  }

  /** `np.fft.irfft(X, m)` returns `m` samples. */
  ghost predicate IrfftLaw(lib: Library) {
    forall X: seq<Complex>, m: nat :: |lib.irfft(X, m)| == m
  }

  /** A number with the square of `r` equal to `x` and `r >= 0` is `sqrt(x)`. */
  lemma SqrtUnique(lib: Library, x: real, r: real)
    requires SqrtLaw(lib)
    requires r >= 0.0 && r * r == x
    ensures lib.sqrt(x) == r
  {
    var s := lib.sqrt(x);
    SquareNonNegative(r);
    assert s >= 0.0 && s * s == x;
    if s < r {
      ProductBelow(s, r);
      assert false;
    } else if r < s {
      ProductBelow(r, s);
      assert false;
    }
  }

  /** `np.sqrt` is monotone on the non-negative reals. */
  lemma SqrtMonotone(lib: Library, a: real, b: real)
    requires SqrtLaw(lib)
    requires 0.0 <= a <= b
    ensures lib.sqrt(a) <= lib.sqrt(b)
  {
    var sa, sb := lib.sqrt(a), lib.sqrt(b);
    assert sa >= 0.0 && sa * sa == a;
    assert sb >= 0.0 && sb * sb == b;
    if sb < sa {
      ProductBelow(sb, sa);
      assert false;
    }
  }

  lemma ProductBelow(s: real, r: real)
    requires 0.0 <= s < r
    ensures s * s < r * r
  {
    calc {
      s * s;
    <= s * r;
    < r * r;
    }
  }

  /** `np.abs` of a complex number. */
  function Modulus(lib: Library, z: Complex): real {
    lib.sqrt(NormSq(z))
  }

  lemma ModulusNonNegative(lib: Library, z: Complex)
    requires SqrtLaw(lib)
    ensures Modulus(lib, z) >= 0.0
  {
    NormSqPositive(z);
  }

  /** On the real axis the complex modulus is the absolute value. */
  lemma ModulusOfReal(lib: Library, x: real)
    requires SqrtLaw(lib)
    ensures Modulus(lib, FromReal(x)) == Abs(x)
  {
    calc {
      NormSq(FromReal(x));
    == x * x + 0.0 * 0.0;
    == Abs(x) * Abs(x);
    }
    SqrtUnique(lib, NormSq(FromReal(x)), Abs(x));
  }

  /** `np.fft.rfftfreq(n, d)`: `n / 2 + 1` frequencies `k * (1 / (n * d))`. */
  function RfftFreq(n: nat, d: real): (f: seq<real>)
    requires n > 0 && d != 0.0
    ensures |f| == n / 2 + 1
  {
    var step := 1.0 / ((n as real) * d);
    seq(n / 2 + 1, k requires 0 <= k < n / 2 + 1 => (k as real) * step)
  }

  /** The grid starts at 0 Hz and is evenly spaced by the frequency
      resolution `1 / (n * d)`. */
  lemma RfftFreqGrid(n: nat, d: real)
    requires n > 0 && d != 0.0
    ensures RfftFreq(n, d)[0] == 0.0
    ensures forall k :: 0 <= k < n / 2 ==> RfftFreq(n, d)[k + 1] - RfftFreq(n, d)[k] == 1.0 / ((n as real) * d)
  {
    var f := RfftFreq(n, d);
    var step := 1.0 / ((n as real) * d);
    forall k | 0 <= k < n / 2
      ensures f[k + 1] - f[k] == step
    {
      Spacing(k, step);
    }
  }

  /** With a positive sample spacing the grid is strictly increasing. */
  lemma RfftFreqIncreasing(n: nat, d: real)
    requires n > 0 && d > 0.0
    ensures forall j, k :: 0 <= j < k <= n / 2 ==> RfftFreq(n, d)[j] < RfftFreq(n, d)[k]
  {
    var f := RfftFreq(n, d);
    var step := 1.0 / ((n as real) * d);
    StepPositive(n, d);
    forall j, k | 0 <= j < k <= n / 2
      ensures f[j] < f[k]
    {
      Increasing(j, k, step);
    }
  }

  lemma Spacing(k: nat, step: real)
    ensures ((k + 1) as real) * step - (k as real) * step == step
  {
  }

  lemma StepPositive(n: nat, d: real)
    requires n > 0 && d > 0.0
    ensures 1.0 / ((n as real) * d) > 0.0
  {
    assert (n as real) * d > 0.0;
  }

  lemma Increasing(j: nat, k: nat, step: real)
    requires j < k && step > 0.0
    ensures (j as real) * step < (k as real) * step
  {
    assert (k as real) * step - (j as real) * step == ((k - j) as real) * step;
  }

  /** The buffer numpy builds for `rfft(x, n=m)` with `m >= |x|`: the samples
      followed by zeros. */
  function ZeroPad(x: seq<real>, m: nat): (r: seq<real>)
    requires |x| <= m
    ensures |r| == m
  {
    x + seq(m - |x|, _ => 0.0)
  }

  /** Padding with zeros keeps the samples in front and does not change the sum. */
  lemma {:induction false} ZeroPadSum(x: seq<real>, m: nat)
    requires |x| <= m
    ensures ZeroPad(x, m)[..|x|] == x
    ensures forall i :: |x| <= i < m ==> ZeroPad(x, m)[i] == 0.0
    ensures Sum(ZeroPad(x, m)) == Sum(x)
  {
    var padded := ZeroPad(x, m);
    if m > |x| {
      ZeroPadSum(x, m - 1);
      var shorter := ZeroPad(x, m - 1);
      assert padded[..m - 1] == shorter;
      assert padded[m - 1] == 0.0;
      assert Sum(padded) == Sum(shorter) + 0.0;
    } else {
      assert padded == x;
    }
  }
}
