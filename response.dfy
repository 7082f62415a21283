/** The elastic response spectrum of a damped single-degree-of-freedom
    oscillator, computed per natural period in the frequency domain, and the
    horizontal SRSS combination of two such spectra. */
module Response {
  import opened Wrappers
  import opened Complexes
  import opened Series
  import opened NumPy
  import Peaks

  /** The damping ratio `h` of every oscillator. */
  const DampingRatio: real := 0.05

  // ----- FFT length ------------------------------------------------------------

  function Pow2(k: nat): (r: nat)
    ensures r >= 1
  {
    if k == 0 then 1 else 2 * Pow2(k - 1)
  }

  /** `ceil(log2(n))`: the least `c` with `2^c >= n`. */
  function CeilLog2(n: nat): (c: nat)
    requires n >= 1
    ensures Pow2(c) >= n
    ensures c > 0 ==> Pow2(c - 1) < n
    decreases n
  {
    if n == 1 then 0 else 1 + CeilLog2((n + 1) / 2)
  }

  /** `n_fft = 2 ** int(ceil(log2(n)) + 1)`: a power of two at least twice
      the record and less than four times it. */
  function FftLength(n: nat): (m: nat)
    requires n >= 1
    ensures exists c: nat :: m == Pow2(c)
    ensures 2 * n <= m < 4 * n
  {
    var c := CeilLog2(n);
    assert c > 0 ==> Pow2(c - 1) < n;
    Pow2(c + 1)
  }

  // ----- Transfer function -----------------------------------------------------

  /** Python's `x ** n` for a natural exponent. */
  function Pow(x: real, n: nat): real {
    if n == 0 then 1.0 else x * Pow(x, n - 1)
  }

  lemma Square(x: real)
    ensures Pow(x, 2) == x * x
  {
    assert Pow(x, 1) == x;
  }

  /** `omega = 2 * np.pi * freq`. */
  function Angular(freq: seq<real>): (w: seq<real>)
    ensures |w| == |freq|
  {
    seq(|freq|, k requires 0 <= k < |freq| => 2.0 * Pi * freq[k])
  }

  /** `omega_n**2 - omega**2 + 2j * h * omega_n * omega`. */
  function Denominator(w: real, wn: real, h: real): Complex {
    Complex(Pow(wn, 2) - Pow(w, 2), 2.0 * h * wn * w)
  }

  /** No angular frequency sits on an undamped resonance. */
  predicate Damped(w: seq<real>, wn: real, h: real) {
    forall k :: 0 <= k < |w| ==> Denominator(w[k], wn, h) != Zero
  }

  /** With non-zero damping and natural frequency no denominator vanishes:
      its imaginary part is zero only at `omega = 0`, where its real part is
      `omega_n**2 > 0`. */
  lemma DampingPreventsResonance(w: seq<real>, wn: real, h: real)
    requires h != 0.0 && wn != 0.0
    ensures Damped(w, wn, h)
  {
    forall k | 0 <= k < |w|
      ensures Denominator(w[k], wn, h) != Zero
    {
      DenominatorNonZero(w[k], wn, h);
    }
  }

  lemma DenominatorNonZero(x: real, wn: real, h: real)
    requires h != 0.0 && wn != 0.0
    ensures Denominator(x, wn, h) != Zero
  {
    if x == 0.0 {
      SquareZero(x);
      SquareNonZero(wn);
    } else {
      NonZeroProduct(2.0 * h, wn);
      NonZeroProduct(2.0 * h * wn, x);
    }
  }

  lemma SquareNonZero(x: real)
    requires x != 0.0
    ensures Pow(x, 2) != 0.0
  {
    assert Pow(x, 1) == x;
    NonZeroProduct(x, Pow(x, 1));
  }

  lemma SquareZero(x: real)
    requires x == 0.0
    ensures Pow(x, 2) == 0.0
  {
    ZeroProduct(x, Pow(x, 1));
  }

  lemma NonZeroProduct(a: real, b: real)
    requires a != 0.0 && b != 0.0
    ensures a * b != 0.0
  {
  }

  lemma ZeroProduct(a: real, b: real)
    requires a == 0.0
    ensures a * b == 0.0
  {
  }

  /** `sdof_transfer_function`: `H = -1 / (omega_n**2 - omega**2 + 2j h omega_n omega)`
      at `omega = 2 pi f` for each frequency `f`; every entry times its
      denominator is `-1`. */
  function Transfer(freq: seq<real>, wn: real, h: real): (r: seq<Complex>)
    requires Damped(Angular(freq), wn, h)
    ensures |r| == |freq|
    ensures forall k :: 0 <= k < |freq| ==> Mul(r[k], Denominator(Angular(freq)[k], wn, h)) == FromReal(-1.0)
  {
    var w := Angular(freq);
    seq(|freq|, k requires 0 <= k < |freq| => Div(FromReal(-1.0), Denominator(w[k], wn, h)))
  }

  /** At zero frequency the transfer function is the static compliance
      `-1 / omega_n**2`. */
  lemma TransferAtRest(wn: real, h: real)
    requires wn != 0.0
    ensures Damped(Angular([0.0]), wn, h)
    ensures Transfer([0.0], wn, h)[0].im == 0.0
    ensures Transfer([0.0], wn, h)[0].re * Pow(wn, 2) == -1.0
  {
    var w := Angular([0.0]);
    assert w[0] == 0.0;
    SquareZero(w[0]);
    SquareNonZero(wn);
    var p := Pow(wn, 2);
    assert Denominator(w[0], wn, h) == FromReal(p);
    var q := Transfer([0.0], wn, h)[0];
    assert Mul(q, FromReal(p)) == FromReal(-1.0);
    assert q.re * p == -1.0 && q.im * p == 0.0;
  }

  // ----- Response bins ---------------------------------------------------------

  /** The spectra `calculate_response_fft` builds from the padded input
      spectrum at the frequencies `freq`. */
  datatype Bins = Bins(transfer: seq<Complex>, disp: seq<Complex>, vel: seq<Complex>, absAcc: seq<Complex>)

  /** `disp_fft = acc_fft * H`, `vel_fft = 1j * omega * disp_fft` and
      `abs_acc_fft = acc_fft + (-omega**2 * disp_fft)`. */
  function ResponseBins(acc: seq<Complex>, freq: seq<real>, wn: real, h: real): (b: Bins)
    requires |acc| == |freq| && Damped(Angular(freq), wn, h)
    ensures |b.transfer| == |b.disp| == |b.vel| == |b.absAcc| == |freq|
  {
    var w := Angular(freq);
    var tf := Transfer(freq, wn, h);
    var disp := Product(acc, tf);
    Bins(tf, disp, Velocity(w, disp), AbsoluteAcceleration(acc, w, disp))
  }

  /** `acc_fft * H`. */
  function Product(x: seq<Complex>, y: seq<Complex>): (r: seq<Complex>)
    requires |x| == |y|
    ensures |r| == |x|
  {
    seq(|x|, k requires 0 <= k < |x| => Mul(x[k], y[k]))
  }

  /** `1j * omega * disp_fft`. */
  function Velocity(w: seq<real>, disp: seq<Complex>): (r: seq<Complex>)
    requires |w| == |disp|
    ensures |r| == |w|
  {
    seq(|w|, k requires 0 <= k < |w| => Mul(JOmega(w[k]), disp[k]))
  }

  /** `acc_fft + (-omega**2 * disp_fft)`: the input plus the relative
      acceleration `(1j * omega)**2 * disp`. */
  function AbsoluteAcceleration(acc: seq<Complex>, w: seq<real>, disp: seq<Complex>): (r: seq<Complex>)
    requires |acc| == |w| == |disp|
    ensures |r| == |w|
  {
    seq(|w|, k requires 0 <= k < |w| => Add(acc[k], Scale(-Pow(w[k], 2), disp[k])))
  }

  /** Every bin satisfies the oscillator's equation of motion: the absolute
      acceleration is `-(omega_n**2 * disp + 2 h omega_n * vel)`, the
      velocity is `1j * omega` times the displacement, and the relative
      acceleration `absAcc - acc` is `1j * omega` times the velocity. */
  lemma EquationOfMotion(acc: seq<Complex>, freq: seq<real>, wn: real, h: real)
    requires |acc| == |freq| && Damped(Angular(freq), wn, h)
    ensures var b := ResponseBins(acc, freq, wn, h);
      forall k :: 0 <= k < |freq| ==>
        && b.absAcc[k] == Scale(-1.0, Add(Scale(Pow(wn, 2), b.disp[k]), Scale(2.0 * h * wn, b.vel[k])))
        && b.vel[k] == Mul(JOmega(Angular(freq)[k]), b.disp[k])
        && Sub(b.absAcc[k], acc[k]) == Mul(JOmega(Angular(freq)[k]), b.vel[k])
  {
    var b := ResponseBins(acc, freq, wn, h);
    var w := Angular(freq);
    forall k | 0 <= k < |freq|
      ensures b.absAcc[k] == Scale(-1.0, Add(Scale(Pow(wn, 2), b.disp[k]), Scale(2.0 * h * wn, b.vel[k])))
      ensures b.vel[k] == Mul(JOmega(w[k]), b.disp[k])
      ensures Sub(b.absAcc[k], acc[k]) == Mul(JOmega(w[k]), b.vel[k])
    {
      assert b.disp == Product(acc, b.transfer);
      assert b.vel == Velocity(w, b.disp);
      assert b.absAcc == AbsoluteAcceleration(acc, w, b.disp);
      Cancel(acc[k], b.transfer[k], Denominator(w[k], wn, h));
      BinMotion(acc[k], Denominator(w[k], wn, h), w[k], 2.0 * h * wn, Pow(w[k], 2), Pow(wn, 2), b.disp[k], b.vel[k], b.absAcc[k]);
      JOmegaSquared(b.disp[k], w[k]);
    }
  }

  /** One bin of the equation of motion, for a displacement `d` with
      `d * den = -a` where `den = q - p + 1j c omega`, velocity
      `v = 1j omega d` and absolute acceleration `y = a - p * d`. */
  lemma BinMotion(a: Complex, den: Complex, w: real, c: real, p: real, q: real, d: Complex, v: Complex, y: Complex)
    requires den == Complex(q - p, c * w) && Mul(d, den) == Scale(-1.0, a)
    requires v == Mul(JOmega(w), d) && y == Add(a, Scale(-p, d))
    ensures y == Scale(-1.0, Add(Scale(q, d), Scale(c, v)))
  {
    var m := Mul(d, den);
    assert m.re == -1.0 * a.re && m.im == -1.0 * a.im;
    BinMotionRe(a.re, d.re, d.im, den.re, den.im, v.re, p, q, c, w);
    BinMotionIm(a.im, d.re, d.im, den.re, den.im, v.im, p, q, c, w);
  }

  /** Multiplying `a * t` by a `den` with `t * den = -1` gives `-a`. */
  lemma Cancel(a: Complex, t: Complex, den: Complex)
    requires Mul(t, den) == FromReal(-1.0)
    ensures Mul(Mul(a, t), den) == Scale(-1.0, a)
  {
    MulAssociates(a, t, den);
  }

  /** The real part of `BinMotion`, as arithmetic on reals. */
  lemma BinMotionRe(are: real, dre: real, dim: real, denRe: real, denIm: real, vre: real, p: real, q: real, c: real, w: real)
    requires dre * denRe - dim * denIm == -1.0 * are
    requires denRe == q - p && denIm == c * w && vre == 0.0 * dre - w * dim
    ensures are + -p * dre == -1.0 * (q * dre + c * vre)
  {
  }

  /** The imaginary part of `BinMotion`, as arithmetic on reals. */
  lemma BinMotionIm(aim: real, dre: real, dim: real, denRe: real, denIm: real, vim: real, p: real, q: real, c: real, w: real)
    requires dre * denIm + dim * denRe == -1.0 * aim
    requires denRe == q - p && denIm == c * w && vim == 0.0 * dim + w * dre
    ensures aim + -p * dim == -1.0 * (q * dim + c * vim)
  {
  }

  /** `(1j * omega)**2 = -omega**2`. */
  lemma JOmegaSquared(d: Complex, w: real)
    ensures Mul(JOmega(w), Mul(JOmega(w), d)) == Scale(-Pow(w, 2), d)
  {
    var p := Pow(w, 2);
    Square(w);
    var z := Mul(JOmega(w), d);
    assert z.re == -(w * d.im) && z.im == w * d.re;
    var y := Mul(JOmega(w), z);
    assert y.re == -(w * z.im) && y.im == w * z.re;
    assert w * (w * d.re) == p * d.re;
    assert w * (w * d.im) == p * d.im;
  }

  // ----- One oscillator --------------------------------------------------------

  /** `omega_n = 2 * np.pi / period`. */
  function NaturalFrequency(period: real): real
    requires period != 0.0
  {
    2.0 * Pi / period
  }

  lemma NaturalFrequencyNonZero(period: real)
    requires period != 0.0
    ensures NaturalFrequency(period) != 0.0
  {
    assert NaturalFrequency(period) * period == 2.0 * Pi;
  }

  /** The response time histories, each cut back to the record length `n`. */
  datatype Motion = Motion(disp: seq<real>, vel: seq<real>, absAcc: seq<real>)

  /** The body of `calculate_response_fft` past the `period == 0` branch: pad
      the record to `n_fft` samples, transform, apply the oscillator, transform
      back and keep the first `n` samples. A bin on an undamped resonance, a
      division by zero that numpy turns into `inf`/`nan`, gives `None`. */
  function MotionOf(lib: Library, acc: seq<real>, dt: real, period: real, h: real): (r: Option<Motion>)
    requires RfftLaw(lib) && IrfftLaw(lib)
    requires |acc| > 0 && dt != 0.0 && period != 0.0
    ensures r.None? <==> !Damped(Angular(RfftFreq(FftLength(|acc|), dt)), NaturalFrequency(period), h)
    ensures r.Some? ==> |r.value.disp| == |r.value.vel| == |r.value.absAcc| == |acc|
  {
    var n := |acc|;
    var m := FftLength(n);
    var freq := RfftFreq(m, dt);
    var wn := NaturalFrequency(period);
    if !Damped(Angular(freq), wn, h) then None
    else
      var spectrum := lib.rfft(ZeroPad(acc, m));
      var b := ResponseBins(spectrum, freq, wn, h);
      Some(Motion(lib.irfft(b.disp, m)[..n], lib.irfft(b.vel, m)[..n], lib.irfft(b.absAcc, m)[..n]))
  }

  /** The peak responses `(sd, sv, sa)` of one oscillator. */
  datatype Maxima = Maxima(sd: real, sv: real, sa: real)

  /** `m` is the largest magnitude in `s`. */
  ghost predicate IsPeak(s: seq<real>, m: real) {
    (forall i :: 0 <= i < |s| ==> Abs(s[i]) <= m) && exists i :: 0 <= i < |s| && Abs(s[i]) == m
  }

  /** `calculate_response_fft`. A zero period is a rigid oscillator: no
      relative motion, and the absolute acceleration is the ground's. numpy
      raises on an empty record (`np.max` of nothing, `log2(0)`) and on
      `dt == 0` (`rfftfreq` divides by it): `None`. */
  function ResponseFft(lib: Library, acc: seq<real>, dt: real, period: real, h: real): (r: Option<Maxima>)
    requires RfftLaw(lib) && IrfftLaw(lib)
    ensures period == 0.0 ==> r == if |acc| == 0 then None else Some(Maxima(0.0, 0.0, MaxAbs(acc)))
    ensures period != 0.0 ==>
      (r.Some? <==> |acc| > 0 && dt != 0.0 && Damped(Angular(RfftFreq(FftLength(|acc|), dt)), NaturalFrequency(period), h))
    ensures r.Some? ==> r.value.sd >= 0.0 && r.value.sv >= 0.0 && r.value.sa >= 0.0
    ensures r.Some? && period != 0.0 ==>
      var motion := MotionOf(lib, acc, dt, period, h).value;
      IsPeak(motion.disp, r.value.sd) && IsPeak(motion.vel, r.value.sv) && IsPeak(motion.absAcc, r.value.sa)
  {
    if period == 0.0 then
      if |acc| == 0 then None else Some(Maxima(0.0, 0.0, MaxAbs(acc)))
    else if |acc| == 0 || dt == 0.0 then None
    else
      match MotionOf(lib, acc, dt, period, h)
      case None => None
      case Some(motion) => Some(Maxima(MaxAbs(motion.disp), MaxAbs(motion.vel), MaxAbs(motion.absAcc)))
  }

  /** With the damping the scripts use, every non-empty record with a
      non-zero time step has a response at every period. */
  lemma ResponseDefined(lib: Library, acc: seq<real>, dt: real, period: real)
    requires RfftLaw(lib) && IrfftLaw(lib)
    requires |acc| > 0 && dt != 0.0
    ensures ResponseFft(lib, acc, dt, period, DampingRatio).Some?
  {
    if period != 0.0 {
      NaturalFrequencyNonZero(period);
      DampingPreventsResonance(Angular(RfftFreq(FftLength(|acc|), dt)), NaturalFrequency(period), DampingRatio);
    }
  }

  /** At a zero period the spectral acceleration is the peak ground
      acceleration, the magnitude of `calc_signed_peak`. */
  lemma RigidOscillator(lib: Library, acc: seq<real>, dt: real, h: real)
    requires RfftLaw(lib) && IrfftLaw(lib)
    requires |acc| > 0
    ensures ResponseFft(lib, acc, dt, 0.0, h) == Some(Maxima(0.0, 0.0, Abs(Peaks.SignedPeak(acc).value)))
  {
    Peaks.SignedPeakMagnitude(acc);
  }

  // ----- Spectrum over periods -------------------------------------------------

  /** `{'SD', 'SV', 'SA', 'pSV'}`, one entry per period. */
  datatype Spectra = Spectra(sd: seq<real>, sv: seq<real>, sa: seq<real>, psv: seq<real>)

  /** `pSV = (2 pi / T) * SD` where `T > 0`, and `0` elsewhere. */
  function PseudoVelocity(period: real, sd: real): real {
    if period > 0.0 then NaturalFrequency(period) * sd else 0.0
  }

  /** pSV is `omega_n * SD`: the displacement peak of a harmonic motion at the
      natural frequency turned into a velocity. It is never negative. */
  lemma PseudoVelocityScales(period: real, sd: real)
    requires sd >= 0.0
    ensures PseudoVelocity(period, sd) >= 0.0
    ensures period > 0.0 ==> PseudoVelocity(period, sd) == NaturalFrequency(period) * sd
    ensures period > 0.0 ==> PseudoVelocity(period, sd) * period == 2.0 * Pi * sd
  {
    if period > 0.0 {
      var wn := 2.0 * Pi / period;
      assert wn * period == 2.0 * Pi;
      assert wn > 0.0;
      calc {
        (wn * sd) * period;
        (wn * period) * sd;
        2.0 * Pi * sd;
      }
    }
  }

  /** `calculate_response_spectrum`: the response at every period, then pSV
      from SD through the `periods > 0` mask. Any period whose response
      raises makes the whole call raise: `None`. */
  method ResponseSpectrum(lib: Library, acc: seq<real>, dt: real, periods: seq<real>, h: real) returns (r: Option<Spectra>)
    requires RfftLaw(lib) && IrfftLaw(lib)
    ensures r.None? <==> exists i :: 0 <= i < |periods| && ResponseFft(lib, acc, dt, periods[i], h).None?
    ensures r.Some? ==> |r.value.sd| == |r.value.sv| == |r.value.sa| == |r.value.psv| == |periods|
    ensures r.Some? ==> forall i :: 0 <= i < |periods| ==>
      ResponseFft(lib, acc, dt, periods[i], h) == Some(Maxima(r.value.sd[i], r.value.sv[i], r.value.sa[i]))
    ensures r.Some? ==> r.value.psv == PseudoVelocities(periods, r.value.sd)
  {
    var sweep := PeriodSweep(period => ResponseFft(lib, acc, dt, period, h), periods);
    if sweep.None? {
      return None;
    }
    var (sd, sv, sa) := sweep.value;
    var psv := PseudoVelocityMask(periods, sd);
    return Some(Spectra(sd, sv, sa, psv));
  }

  /** The `for i, T in enumerate(periods)` loop of `calculate_response_spectrum`,
      filling the zeroed `sd`, `sv` and `sa` arrays with the peaks `respond`
      (`calculate_response_fft` on the record) gives for each period. */
  method PeriodSweep(respond: real -> Option<Maxima>, periods: seq<real>)
      returns (r: Option<(seq<real>, seq<real>, seq<real>)>)
    ensures r.None? <==> exists i :: 0 <= i < |periods| && respond(periods[i]).None?
    ensures r.Some? ==> |r.value.0| == |r.value.1| == |r.value.2| == |periods|
    ensures r.Some? ==> forall i :: 0 <= i < |periods| ==>
      respond(periods[i]) == Some(Maxima(r.value.0[i], r.value.1[i], r.value.2[i]))
  {
    var n := |periods|;
    var sd := new real[n](_ => 0.0);
    var sv := new real[n](_ => 0.0);
    var sa := new real[n](_ => 0.0);
    for i := 0 to n
      invariant forall j :: 0 <= j < i ==> respond(periods[j]) == Some(Maxima(sd[j], sv[j], sa[j]))
    {
      var resp := respond(periods[i]);
      if resp.None? {
        return None;
      }
      sd[i], sv[i], sa[i] := resp.value.sd, resp.value.sv, resp.value.sa;
    }
    return Some((sd[..], sv[..], sa[..]));
  }

  /** pSV period by period. */
  function PseudoVelocities(periods: seq<real>, sd: seq<real>): (r: seq<real>)
    requires |sd| == |periods|
    ensures |r| == |periods|
  {
    seq(|periods|, i requires 0 <= i < |periods| => PseudoVelocity(periods[i], sd[i]))
  }

  /** `psv = np.zeros_like(sd)` and `psv[periods > 0] = (2 * np.pi / periods[periods > 0]) * sd[periods > 0]`. */
  method PseudoVelocityMask(periods: seq<real>, sd: seq<real>) returns (psv: seq<real>)
    requires |sd| == |periods|
    ensures psv == PseudoVelocities(periods, sd)
  {
    var buffer := new real[|periods|](_ => 0.0);
    forall i | 0 <= i < |periods| && periods[i] > 0.0 {
      buffer[i] := NaturalFrequency(periods[i]) * sd[i];
    }
    psv := buffer[..];
  }

  // ----- Horizontal combination ------------------------------------------------

  /** All four series of a spectrum have the same length. */
  predicate Aligned(s: Spectra) {
    |s.sd| == |s.sv| == |s.sa| == |s.psv|
  }

  /** `results['H']`: each series of the horizontal spectrum is the SRSS
      `np.sqrt(ns**2 + ew**2)` of the NS and EW series, entry by entry. */
  function Horizontal(lib: Library, ns: Spectra, ew: Spectra): (r: Spectra)
    requires Aligned(ns) && Aligned(ew) && |ns.sd| == |ew.sd|
    ensures Aligned(r) && |r.sd| == |ns.sd|
  {
    Spectra(
      Peaks.HorizontalNorms(lib, ns.sd, ew.sd),
      Peaks.HorizontalNorms(lib, ns.sv, ew.sv),
      Peaks.HorizontalNorms(lib, ns.sa, ew.sa),
      Peaks.HorizontalNorms(lib, ns.psv, ew.psv))
  }

  /** Every horizontal entry is non-negative and bounds both components. */
  lemma HorizontalBounds(lib: Library, ns: Spectra, ew: Spectra)
    requires SqrtLaw(lib)
    requires Aligned(ns) && Aligned(ew) && |ns.sd| == |ew.sd|
    ensures var r := Horizontal(lib, ns, ew);
      forall i :: 0 <= i < |ns.sd| ==>
        && Bounds(r.sd[i], ns.sd[i], ew.sd[i])
        && Bounds(r.sv[i], ns.sv[i], ew.sv[i])
        && Bounds(r.sa[i], ns.sa[i], ew.sa[i])
        && Bounds(r.psv[i], ns.psv[i], ew.psv[i])
  {
    var r := Horizontal(lib, ns, ew);
    forall i | 0 <= i < |ns.sd|
      ensures Bounds(r.sd[i], ns.sd[i], ew.sd[i]) && Bounds(r.sv[i], ns.sv[i], ew.sv[i])
      ensures Bounds(r.sa[i], ns.sa[i], ew.sa[i]) && Bounds(r.psv[i], ns.psv[i], ew.psv[i])
    {
      Peaks.NormsNonNegative(lib, ns.sd[i], ew.sd[i], 0.0);
      Peaks.NormsNonNegative(lib, ns.sv[i], ew.sv[i], 0.0);
      Peaks.NormsNonNegative(lib, ns.sa[i], ew.sa[i], 0.0);
      Peaks.NormsNonNegative(lib, ns.psv[i], ew.psv[i], 0.0);
    }
  }

  /** `c` is at least the magnitude of each of `a` and `b`. */
  predicate Bounds(c: real, a: real, b: real) {
    Abs(a) <= c && Abs(b) <= c
  }
}
