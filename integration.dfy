/** Velocity and displacement from acceleration: baseline correction, then
    integration in the frequency domain over a zero-padded record. */
module Integration {
  import opened Wrappers
  import opened Complexes
  import opened Series
  import opened NumPy

  /** Seconds at the start of the record whose mean is the baseline. */
  const BaselineWindowSec: real := 1.0
  /** The padded length is this many times the record length. */
  const DefaultPadFactor: int := 4

  // ----- Baseline correction ---------------------------------------------------

  /** Python's `int()` on a float: truncation toward zero. */
  function Trunc(x: real): (r: int)
    ensures 0.0 <= x ==> r as real <= x < r as real + 1.0
    ensures x < 0.0 ==> r as real - 1.0 < x <= r as real
  {
    if x >= 0.0 then x.Floor else -((-x).Floor)
  }

  /** The stop of the slice `s[:k]` for `|s| == len`: a negative `k` counts
      from the end, and the stop is clamped to `0..len`. */
  function SliceStop(len: nat, k: int): (r: nat)
    ensures r <= len
    ensures 0 <= k <= len ==> r == k
  {
    if k >= 0 then (if k <= len then k else len)
    else if len + k >= 0 then len + k else 0
  }

  /** `min(int(window_sec * sampling_rate), len(data))`. */
  function WindowSamples(len: nat, rate: real, windowSec: real): (r: int)
    ensures r <= len
    ensures windowSec * rate >= 1.0 && len > 0 ==> r >= 1
  {
    var k := Trunc(windowSec * rate);
    if k <= len then k else len
  }

  /** The samples `data[:n_samples]` averages. */
  function Window(data: seq<real>, rate: real, windowSec: real): (w: nat)
    ensures w <= |data|
  {
    SliceStop(|data|, WindowSamples(|data|, rate, windowSec))
  }

  /** `apply_baseline_correction`: subtract the mean of the first
      `window_sec` seconds from every sample. An empty window has no mean
      (numpy returns NaN) and yields `None`. */
  function BaselineCorrection(data: seq<real>, rate: real, windowSec: real): (r: Option<seq<real>>)
    ensures r.None? <==> Window(data, rate, windowSec) == 0
    ensures r.Some? ==> |r.value| == |data|
    ensures r.Some? ==> forall i, j :: 0 <= i < |data| && 0 <= j < |data| ==> data[i] - r.value[i] == data[j] - r.value[j]
  {
    var w := Window(data, rate, windowSec);
    if w == 0 then None else Some(Shift(data, Mean(data[..w])))
  }

  /** After correction the first window has mean zero: the baseline it
      measured is gone. */
  lemma BaselineRemoved(data: seq<real>, rate: real, windowSec: real)
    requires BaselineCorrection(data, rate, windowSec).Some?
    ensures var w := Window(data, rate, windowSec);
      Mean(BaselineCorrection(data, rate, windowSec).value[..w]) == 0.0
  {
    var w := Window(data, rate, windowSec);
    var c := Mean(data[..w]);
    assert Shift(data, c)[..w] == Shift(data[..w], c);
    MeanShiftZero(data[..w]);
  }

  /** With the default one-second window, any record of at least one sample
      taken at one hertz or faster is corrected. */
  lemma DefaultWindowNonEmpty(data: seq<real>, rate: real)
    requires |data| > 0 && rate >= 1.0
    ensures BaselineCorrection(data, rate, BaselineWindowSec).Some?
  {
  }

  // ----- Frequency-domain integration -----------------------------------------

  /** `omega = 2 * np.pi * rfftfreq(m, dt)` with `omega[0] = 1.0`: no entry is
      zero, so every bin can be divided by `1j * omega`. */
  function Omega(m: nat, dt: real): (w: seq<real>)
    requires m > 0 && dt != 0.0
    ensures |w| == m / 2 + 1 && w[0] == 1.0
    ensures forall k :: 0 <= k < |w| ==> w[k] != 0.0
  {
    var f := RfftFreq(m, dt);
    FrequenciesNonZero(m, dt);
    seq(|f|, k requires 0 <= k < |f| => if k == 0 then 1.0 else 2.0 * Pi * f[k])
  }

  lemma FrequenciesNonZero(m: nat, dt: real)
    requires m > 0 && dt != 0.0
    ensures forall k :: 0 < k < |RfftFreq(m, dt)| ==> 2.0 * Pi * RfftFreq(m, dt)[k] != 0.0
  {
    var step := 1.0 / ((m as real) * dt);
    assert (m as real) * dt != 0.0;
    assert step != 0.0;
    forall k | 0 < k < |RfftFreq(m, dt)|
      ensures 2.0 * Pi * RfftFreq(m, dt)[k] != 0.0
    {
      assert RfftFreq(m, dt)[k] == (k as real) * step;
      assert (k as real) * step != 0.0;
    }
  }

  /** Division of every bin by `1j * omega`, with the DC bin set to zero. */
  function Integrate(x: seq<Complex>, w: seq<real>): (r: seq<Complex>)
    requires |x| == |w| && forall k :: 0 <= k < |w| ==> w[k] != 0.0
    ensures |r| == |x|
  {
    seq(|x|, k requires 0 <= k < |x| => if k == 0 then Zero else Div(x[k], JOmega(w[k])))
  }

  /** Integration inverts differentiation on every bin but the DC bin, which
      it zeroes whatever the input held there. */
  lemma IntegrateInverts(x: seq<Complex>, w: seq<real>)
    requires |x| == |w| && forall k :: 0 <= k < |w| ==> w[k] != 0.0
    ensures |x| > 0 ==> Integrate(x, w)[0] == Zero
    ensures forall k :: 1 <= k < |x| ==> Mul(Integrate(x, w)[k], JOmega(w[k])) == x[k]
  {
    forall k | 1 <= k < |x|
      ensures Mul(Integrate(x, w)[k], JOmega(w[k])) == x[k]
    {
      assert JOmega(w[k]) != Zero;
    }
  }

  /** Integrating twice divides by `(1j * omega)^2 = -omega^2`:
      `D_k * -omega_k^2 = A_k` on every bin but the DC bin. */
  lemma DoubleIntegration(x: seq<Complex>, w: seq<real>)
    requires |x| == |w| && forall k :: 0 <= k < |w| ==> w[k] != 0.0
    ensures forall k :: 1 <= k < |x| ==> Scale(-(w[k] * w[k]), Integrate(Integrate(x, w), w)[k]) == x[k]
  {
    var v := Integrate(x, w);
    var d := Integrate(v, w);
    IntegrateInverts(x, w);
    IntegrateInverts(v, w);
    forall k | 1 <= k < |x|
      ensures Scale(-(w[k] * w[k]), d[k]) == x[k]
    {
      calc {
        x[k];
        Mul(v[k], JOmega(w[k]));
        Mul(Mul(d[k], JOmega(w[k])), JOmega(w[k]));
        { TimesJOmegaTwice(d[k], w[k]); }
        Scale(-(w[k] * w[k]), d[k]);
      }
    }
  }


  /** `x[:n] - np.mean(x[:n])`: truncation back to the record length and
      removal of the residual drift. */
  function Detrend(x: seq<real>, n: nat): (r: seq<real>)
    requires 0 < n <= |x|
    ensures |r| == n && Mean(r) == 0.0
  {
    MeanShiftZero(x[..n]);
    Shift(x[..n], Mean(x[..n]))
  }

  /** `n_padded = pad_factor * n_original`: never shorter than the record
      when the factor is at least one. */
  function BufferLength(n: nat, padFactor: int): (m: int)
    ensures padFactor >= 1 ==> m >= n
    ensures padFactor >= 1 && n > 0 ==> m > 0
  {
    if padFactor >= 1 then
      assert padFactor * n == n + (padFactor - 1) * n;
      padFactor * n
    else padFactor * n
  }

  /** The two series `integrate_fft_padded` returns. */
  datatype Motion = Motion(velocity: seq<real>, displacement: seq<real>)

  /** `integrate_fft_padded(data, sampling_rate, pad_factor)`. `None` stands
      for the exceptions: a zero rate (`ZeroDivisionError`), a negative
      buffer length, a buffer shorter than the record, or `rfft` of an empty
      buffer (`ValueError`). */
  method IntegrateFftPadded(lib: Library, data: seq<real>, rate: real, padFactor: int) returns (r: Option<Motion>)
    requires RfftLaw(lib) && IrfftLaw(lib)
    ensures r.None? <==> |data| == 0 || padFactor < 1 || rate == 0.0
    ensures r.Some? ==> |r.value.velocity| == |r.value.displacement| == |data|
    ensures r.Some? ==> Mean(r.value.velocity) == 0.0 && Mean(r.value.displacement) == 0.0
    ensures r.Some? ==>
      var m := BufferLength(|data|, padFactor);
      var w := Omega(m, 1.0 / rate);
      var acc := lib.rfft(ZeroPad(data, m));
      && r.value.velocity == Detrend(lib.irfft(Integrate(acc, w), m), |data|)
      && r.value.displacement == Detrend(lib.irfft(Integrate(Integrate(acc, w), w), m), |data|)
  {
    var n := |data|;
    if n == 0 || padFactor < 1 || rate == 0.0 {
      return None;
    }
    var m := BufferLength(n, padFactor);
    var dt := 1.0 / rate;
    var padded := PadBuffer(data, m);
    var acc := lib.rfft(padded);
    var omega := AngularFrequencies(m, dt);
    var vel, disp := DivideBins(acc, omega);
    var velocity := lib.irfft(vel, m);
    var displacement := lib.irfft(disp, m);
    r := Some(Motion(Detrend(velocity, n), Detrend(displacement, n)));
  }

  /** `np.zeros(m)` with the record copied into its first `|data|` entries. */
  method PadBuffer(data: seq<real>, m: nat) returns (padded: seq<real>)
    requires |data| <= m
    ensures padded == ZeroPad(data, m)
  {
    var buffer := new real[m];
    forall k | 0 <= k < m {
      buffer[k] := 0.0;
    }
    forall k | 0 <= k < |data| {
      buffer[k] := data[k];
    }
    padded := buffer[..];
  }

  /** `omega = 2 * np.pi * freq`, then `omega[0] = 1.0`. */
  method AngularFrequencies(m: nat, dt: real) returns (w: seq<real>)
    requires m > 0 && dt != 0.0
    ensures w == Omega(m, dt)
  {
    var freq := RfftFreq(m, dt);
    var omega := new real[|freq|];
    forall k | 0 <= k < |freq| {
      omega[k] := 2.0 * Pi * freq[k];
    }
    omega[0] := 1.0;
    w := omega[..];
  }

  /** `fft_vel = fft_acc / (1j * omega)`, `fft_disp = fft_vel / (1j * omega)`,
      then both DC bins set to zero. */
  method DivideBins(acc: seq<Complex>, w: seq<real>) returns (vel: seq<Complex>, disp: seq<Complex>)
    requires |acc| == |w| && forall k :: 0 <= k < |w| ==> w[k] != 0.0
    ensures vel == Integrate(acc, w) && disp == Integrate(Integrate(acc, w), w)
  {
    var n := |acc|;
    var v := new Complex[n];
    forall k | 0 <= k < n {
      v[k] := Div(acc[k], JOmega(w[k]));
    }
    var d := new Complex[n];
    forall k | 0 <= k < n {
      d[k] := Div(v[k], JOmega(w[k]));
    }
    if n > 0 {
      v[0] := Zero;
      d[0] := Zero;
    }
    vel, disp := v[..], d[..];
  }
}
