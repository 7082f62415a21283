/** The Fourier amplitude spectrum of one acceleration component, with the
    single-sided normalisation used in earthquake engineering, and the
    sampling rate it is computed at. */
module Fourier {
  import opened Wrappers
  import opened Complexes
  import opened Series
  import opened NumPy

  /** The sampling rate assumed when the metadata does not give one. */
  const DefaultRate: real := 100.0

  /** The YAML values a metadata file may hold. */
  datatype Yaml = Null | Number(x: real) | Text(s: string) | Mapping(fields: map<string, Yaml>)

  /** Why the sampling rate cannot be used: `.get` on something that is not
      a mapping (`AttributeError`), or a rate that is not a number, which
      `1.0 / sampling_rate` refuses (`TypeError`). */
  datatype RateError = NotAMapping | NotANumber

  /** `metadata.get('record', {}).get('sampling_rate_hz', 100)`, or 100 when
      there is no metadata file (`None`). */
  function SamplingRate(metadata: Option<Yaml>): (r: Result<real, RateError>)
    ensures metadata.None? ==> r == Ok(DefaultRate)
    ensures metadata.Some? && metadata.value.Mapping? && "record" !in metadata.value.fields ==> r == Ok(DefaultRate)
    ensures metadata.Some? && metadata.value.Mapping? && "record" in metadata.value.fields
            && metadata.value.fields["record"].Mapping?
            ==> var record := metadata.value.fields["record"].fields;
                && ("sampling_rate_hz" !in record ==> r == Ok(DefaultRate))
                && ("sampling_rate_hz" in record && record["sampling_rate_hz"].Number?
                    ==> r == Ok(record["sampling_rate_hz"].x))
    ensures r.Err? <==> metadata.Some? && (!metadata.value.Mapping? || RecordField(metadata.value.fields).Err?)
  {
    match metadata
    case None => Ok(DefaultRate)
    case Some(Mapping(fields)) => RecordField(fields)
    case Some(_) => Err(NotAMapping)
  }

  /** The second `.get`, on the `record` entry or on the `{}` default. */
  function RecordField(fields: map<string, Yaml>): Result<real, RateError> {
    if "record" !in fields then Ok(DefaultRate)
    else match fields["record"]
      case Mapping(record) =>
        if "sampling_rate_hz" !in record then Ok(DefaultRate)
        else if record["sampling_rate_hz"].Number? then Ok(record["sampling_rate_hz"].x)
        else Err(NotANumber)
      case _ => Err(NotAMapping)
  }

  /** The two arrays `calculate_fourier_spectrum` returns. */
  datatype Spectrum = Spectrum(freq: seq<real>, amplitude: seq<real>)

  /** Bin `k` of `n / 2 + 1` is the DC bin or, for even `n`, the Nyquist
      bin: the bins a single-sided spectrum does not double. */
  predicate Unpaired(n: nat, k: nat) {
    k == 0 || (n % 2 == 0 && k == n / 2)
  }

  /** `np.abs` of each bin. */
  function Magnitudes(lib: Library, spectrum: seq<Complex>): (r: seq<real>)
    ensures |r| == |spectrum|
  {
    seq(|spectrum|, k requires 0 <= k < |spectrum| => Modulus(lib, spectrum[k]))
  }

  /** The single-sided normalisation: `|F_k| * dt * 2` for each bin, with the
      DC bin and, for even `n`, the Nyquist bin not doubled. */
  function Normalised(mags: seq<real>, n: nat, dt: real): (r: seq<real>)
    ensures |r| == |mags|
  {
    seq(|mags|, k requires 0 <= k < |mags| => if Unpaired(n, k) then mags[k] * dt else mags[k] * dt * 2.0)
  }

  /** `calculate_fourier_spectrum(data, sampling_rate)`: the `rfftfreq` grid
      and the amplitudes, doubled for every bin and then halved back in place
      at the first and, for even `n`, the last index. `None` stands for the
      exceptions: `rfft` of no samples (`ValueError`) and a zero rate
      (`ZeroDivisionError`). */
  method FourierSpectrum(lib: Library, data: seq<real>, rate: real) returns (r: Option<Spectrum>)
    requires RfftLaw(lib)
    ensures r.None? <==> |data| == 0 || rate == 0.0
    ensures r.Some? ==> |r.value.freq| == |r.value.amplitude| == |data| / 2 + 1
    ensures r.Some? ==> rate != 0.0 && |data| > 0 && r.value.freq == RfftFreq(|data|, 1.0 / rate)
    ensures r.Some? ==> r.value.amplitude == Normalised(Magnitudes(lib, lib.rfft(data)), |data|, 1.0 / rate)
  {
    var n := |data|;
    if n == 0 || rate == 0.0 {
      return None;
    }
    var dt := 1.0 / rate;
    var spectrum := lib.rfft(data);
    var freq := RfftFreq(n, dt);
    var mags := Magnitudes(lib, spectrum);
    var amplitude := Normalise(mags, n, dt);
    r := Some(Spectrum(freq, amplitude));
  }

  /** The amplitude array of `calculate_fourier_spectrum`: every bin is
      scaled by `dt * 2`, then the first and, for even `n`, the last entry are
      halved in place. */
  method Normalise(mags: seq<real>, n: nat, dt: real) returns (amp: seq<real>)
    requires n > 0 && |mags| == n / 2 + 1
    ensures amp == Normalised(mags, n, dt)
  {
    var m := |mags|;
    var amplitude := new real[m];
    forall k | 0 <= k < m {
      amplitude[k] := mags[k] * dt * 2.0;
    }
    ghost var doubled := amplitude[..];
    amplitude[0] := amplitude[0] / 2.0;
    if n % 2 == 0 {
      amplitude[m - 1] := amplitude[m - 1] / 2.0;
    }
    amp := amplitude[..];
    HalvedBins(amp, doubled, mags, n, dt);
  }

  /** Doubling every bin and halving the unpaired ones back is the
      normalisation rule. */
  lemma HalvedBins(amp: seq<real>, doubled: seq<real>, mags: seq<real>, n: nat, dt: real)
    requires |amp| == |doubled| == |mags|
    requires forall k :: 0 <= k < |doubled| ==> doubled[k] == mags[k] * dt * 2.0
    requires forall k :: 0 <= k < |amp| ==> amp[k] == if Unpaired(n, k) then doubled[k] / 2.0 else doubled[k]
    ensures amp == Normalised(mags, n, dt)
  {
    forall k | 0 <= k < |amp|
      ensures amp[k] == Normalised(mags, n, dt)[k]
    {
      var a := mags[k] * dt;
      if Unpaired(n, k) {
        assert amp[k] == a * 2.0 / 2.0 == a;
      }
    }
  }

  /** A DC bin holding the real number `total` has amplitude `dt * |total|`;
      under `RfftLaw` that number is the sum of the samples. */
  lemma SpectrumDc(lib: Library, spectrum: seq<Complex>, n: nat, dt: real, total: real)
    requires SqrtLaw(lib) && |spectrum| > 0 && spectrum[0] == FromReal(total)
    ensures Normalised(Magnitudes(lib, spectrum), n, dt)[0] == Abs(total) * dt
  {
    ModulusOfReal(lib, total);
  }

  /** The DC amplitude of a record is `dt * |sum of the samples|`. */
  lemma RecordDc(lib: Library, data: seq<real>, dt: real)
    requires SqrtLaw(lib) && RfftLaw(lib) && |data| > 0
    ensures var spectrum := lib.rfft(data);
      |spectrum| > 0 && Normalised(Magnitudes(lib, spectrum), |data|, dt)[0] == Abs(Sum(data)) * dt
  {
    SpectrumDc(lib, lib.rfft(data), |data|, dt, Sum(data));
  }

  /** For even `n` the last bin is the Nyquist bin and is not doubled; for odd
      `n > 1` it keeps the factor 2 of the interior bins. */
  lemma SpectrumLastBin(mags: seq<real>, n: nat, dt: real)
    requires n > 0 && |mags| == n / 2 + 1
    ensures n % 2 == 0 ==> Normalised(mags, n, dt)[n / 2] == mags[n / 2] * dt
    ensures n % 2 == 1 && n > 1 ==> Normalised(mags, n, dt)[n / 2] == mags[n / 2] * dt * 2.0
  {
  }

  /** With a positive sampling rate every amplitude is non-negative. */
  lemma SpectrumNonNegative(lib: Library, spectrum: seq<Complex>, n: nat, dt: real)
    requires SqrtLaw(lib) && dt > 0.0
    ensures forall k :: 0 <= k < |spectrum| ==> Normalised(Magnitudes(lib, spectrum), n, dt)[k] >= 0.0
  {
    var mags := Magnitudes(lib, spectrum);
    forall k | 0 <= k < |spectrum|
      ensures Normalised(mags, n, dt)[k] >= 0.0
    {
      ModulusNonNegative(lib, spectrum[k]);
      ProductNonNegative(mags[k], dt);
    }
  }

  lemma ProductNonNegative(a: real, b: real)
    requires a >= 0.0 && b > 0.0
    ensures a * b >= 0.0 && a * b * 2.0 >= 0.0
  {
  }

  /** The grid in terms of the sampling rate: bin `k` lies at `k * rate / n`
      hertz, so the last bin is the Nyquist frequency `rate / 2` for even `n`. */
  lemma FrequencyOfBin(n: nat, rate: real, k: nat)
    requires n > 0 && rate != 0.0 && k <= n / 2
    ensures RfftFreq(n, 1.0 / rate)[k] == (k as real) * rate / (n as real)
    ensures n % 2 == 0 && k == n / 2 ==> RfftFreq(n, 1.0 / rate)[k] == rate / 2.0
  {
    var nr := n as real;
    var kr := k as real;
    Resolution(nr, rate);
    assert RfftFreq(n, 1.0 / rate)[k] == kr * (rate / nr);
    Regroup(kr, rate, nr);
    if n % 2 == 0 && k == n / 2 {
      assert nr == 2.0 * kr;
      Halve(kr, rate);
    }
  }

  /** The frequency resolution `1 / (n * dt)` is `rate / n` when `dt = 1 / rate`. */
  lemma Resolution(nr: real, rate: real)
    requires nr > 0.0 && rate != 0.0
    ensures 1.0 / (nr * (1.0 / rate)) == rate / nr
  {
    var dt := 1.0 / rate;
    var x := rate / nr;
    assert dt * rate == 1.0;
    assert x * nr == rate;
    calc {
      x * (nr * dt);
      (x * nr) * dt;
      rate * dt;
      1.0;
    }
  }

  lemma Regroup(kr: real, rate: real, nr: real)
    requires nr > 0.0
    ensures kr * (rate / nr) == kr * rate / nr
  {
    var x := rate / nr;
    assert x * nr == rate;
    assert (kr * x) * nr == kr * rate;
  }

  lemma Halve(kr: real, rate: real)
    requires kr > 0.0
    ensures kr * rate / (2.0 * kr) == rate / 2.0
  {
    var x := rate / 2.0;
    assert x * (2.0 * kr) == kr * rate;
  }

  /** A constant record `c` of `n` samples has DC amplitude `|c| * n * dt`. */
  lemma ConstantDc(c: real, n: nat, dt: real)
    ensures dt * Abs(Sum(Constant(c, n))) == Abs(c) * (n as real) * dt
  {
    SumConstant(c, n);
    if c < 0.0 {
      assert (n as real) * c <= 0.0;
    } else {
      assert (n as real) * c >= 0.0;
    }
  }
}
