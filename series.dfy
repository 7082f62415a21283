/** Reductions over a sampled series, the numpy vector operations the scripts
    use (`np.sum`, `np.mean`, `np.max`, `np.abs`, subtraction of a scalar). */
module Series {

  function Abs(x: real): real {
    if x < 0.0 then -x else x
  }

  /** The sum of the samples. */
  function Sum(s: seq<real>): real {
    if s == [] then 0.0 else Sum(s[..|s| - 1]) + s[|s| - 1]
  }

  /** The arithmetic mean, `np.mean`; numpy yields NaN for an empty series,
      which callers model separately. */
  function Mean(s: seq<real>): real
    requires |s| > 0
  {
    Sum(s) / (|s| as real)
  }

  /** `s - c` for a scalar `c`. */
  function Shift(s: seq<real>, c: real): (r: seq<real>)
    ensures |r| == |s|
  {
    seq(|s|, i requires 0 <= i < |s| => s[i] - c)
  }

  /** `np.abs` elementwise. */
  function AbsAll(s: seq<real>): (r: seq<real>)
    ensures |r| == |s|
  {
    seq(|s|, i requires 0 <= i < |s| => Abs(s[i]))
  }

  /** `np.max`: an element of the series that no element exceeds. */
  function Max(s: seq<real>): (m: real)
    requires |s| > 0
    ensures forall i :: 0 <= i < |s| ==> s[i] <= m
    ensures exists i :: 0 <= i < |s| && s[i] == m
  {
    if |s| == 1 then s[0]
    else
      var m := Max(s[..|s| - 1]);
      if s[|s| - 1] > m then s[|s| - 1] else m
  }

  /** `np.max(np.abs(s))`: the largest magnitude in the series. */
  function MaxAbs(s: seq<real>): (m: real)
    requires |s| > 0
    ensures m >= 0.0
    ensures forall i :: 0 <= i < |s| ==> Abs(s[i]) <= m
    ensures exists i :: 0 <= i < |s| && Abs(s[i]) == m
  {
    var a := AbsAll(s);
    var m := Max(a);
    assert a[0] == Abs(s[0]) >= 0.0;
    assert forall i :: 0 <= i < |s| ==> Abs(s[i]) == a[i] <= m;
    m
  }

  lemma {:induction false} SumShift(s: seq<real>, c: real)
    ensures Sum(Shift(s, c)) == Sum(s) - (|s| as real) * c
  {
    if s != [] {
      var n := |s|;
      assert Shift(s, c)[..n - 1] == Shift(s[..n - 1], c);
      SumShift(s[..n - 1], c);
      calc {
        Sum(Shift(s, c));
      == Sum(Shift(s[..n - 1], c)) + (s[n - 1] - c);
      == Sum(s[..n - 1]) - ((n - 1) as real) * c + (s[n - 1] - c);
      == { assert ((n - 1) as real) * c + c == (n as real) * c; }
        Sum(s) - (n as real) * c;
      }
    }
  }

  /** Subtracting the mean leaves a series whose mean is zero. */
  lemma MeanShiftZero(s: seq<real>)
    requires |s| > 0
    ensures Mean(Shift(s, Mean(s))) == 0.0
  {
    var n := |s| as real;
    SumShift(s, Mean(s));
    calc {
      Sum(Shift(s, Mean(s)));
    == Sum(s) - n * (Sum(s) / n);
    == 0.0;
    }
  }

  /** `n` copies of `c`. */
  function Constant(c: real, n: nat): (r: seq<real>)
    ensures |r| == n
  {
    seq(n, _ => c)
  }

  lemma {:induction false} SumConstant(c: real, n: nat)
    ensures Sum(Constant(c, n)) == (n as real) * c
  {
    if n > 0 {
      assert Constant(c, n)[..n - 1] == Constant(c, n - 1);
      SumConstant(c, n - 1);
    }
  }
}
