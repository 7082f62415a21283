# Seismic record processing, modelled in Dafny

This project models the numerical core of a set of Python scripts that turn
strong-motion earthquake records into engineering quantities:

- **Conversion** (`02_code/001_01_convert_seismic.py`). It reads the NIED
  (K-NET / KiK-net) fixed-width ASCII format: a 17-line header with values from
  column 18, a `N(gal)/D` scale factor, and integer counts after the header.
  It reads the header of the JMA CSV format (`KEY=value` lines). It groups NIED
  files into `.EW`/`.NS`/`.UD` triples, cuts the three components of a station
  to a common length, and takes the signed, horizontal and three-axis peaks.
- **Fourier spectrum** (`02_code/002_01_calculate_fourier.py`). The
  single-sided amplitude spectrum `|F_k| * dt * 2`, with the DC bin and, for an
  even record, the Nyquist bin not doubled. It also models the sampling rate
  read from the metadata with its default of 100 Hz.
- **Velocity and displacement** (`02_code/003_01_calculate_velocity_and_displacement.py`).
  Baseline correction by the mean of the first second. Then integration in the
  frequency domain: a zero-padded buffer, division of every bin by `1j * omega`
  with the DC guard `omega[0] = 1` and zeroed DC bins, truncation back to the
  record length, and removal of the residual mean. The peak helpers of this
  script (lines 160-175) are the same functions as those of the conversion
  script and are modelled once, in `Peaks`.
- **Response spectrum** (`02_code/004_01_calculate_response_spectrum.py`). The
  transfer function of a damped single-degree-of-freedom oscillator, the
  response at one natural period (with the rigid case `T = 0`), the sweep over
  a period grid filling the SD/SV/SA arrays, the pseudo-velocity mask, and the
  SRSS horizontal combination.

Values are exact `real`s. `np.sqrt`, `np.fft.rfft` and `np.fft.irfft` are
parameters (`NumPy.Library`). Each proof states the laws it relies on:
- `SqrtLaw`: the non-negative square root;
- `RfftLaw`: `n / 2 + 1` bins, DC bin = sum of the samples;
- `IrfftLaw`: `irfft(X, m)` has `m` samples.

`np.fft.rfftfreq`, zero padding, `np.mean`, `np.max` and `np.argmax` are
defined outright. Python's `float()` is a parameter `toFloat`. `int()`,
`str.strip`, `str.split`, `str.replace`, `str.upper`, `Path.stem` and
`Path.suffix` are defined on ASCII text in `Text` and `Stations`.

Exceptions the scripts would raise are modelled as `None` / `Err` results:
- an empty record;
- a zero sampling rate;
- a malformed header field;
- a non-numeric token;
- a zero scale denominator;
- an undamped resonance, where numpy would give `inf`/`nan`.

Modules, leaves first: `Wrappers`, `Complexes`, `Series`, `NumPy`, `Text`,
`Peaks`, `Nied`, `Stations`, `Jma`, `Fourier`, `Integration`, `Response`.

Edge cases of the code that the model keeps as they are:

- Only a zero sampling rate fails; a negative rate is accepted, by the code
  and by the model. The frequency grid is then decreasing, which is why
  `NumPy.RfftFreqIncreasing` asks for `d > 0`.
- pSV is zero for every period `T <= 0`, not only at `T = 0`: the mask is
  `periods > 0`.
- Negative periods and a zero damping ratio are not refused. A zero damping
  ratio only fails (`None`) when some bin lands exactly on the resonance.
- The baseline window is `int(window_sec * rate)`, which truncates toward zero,
  used as a slice stop. A negative value counts from the end of the record. An
  empty window gives numpy's NaN mean, modelled as `None`.
- The absolute-acceleration spectrum is the retained formula `A - omega**2 * D`
  at lines 119-120 of the response script. The expression computed at line 115
  is overwritten before use and is not modelled.

## Model

| member | source | states |
|---|---|---|
| `Series.Max` | 02_code/001_01_convert_seismic.py:53 | `np.max`: an element of the series that no element exceeds |
| `Series.MaxAbs` | 02_code/004_01_calculate_response_spectrum.py:128-130 | `np.max(np.abs(s))` is non-negative, bounds every magnitude and is the magnitude of some sample |
| `Series.MeanShiftZero` | 02_code/003_01_calculate_velocity_and_displacement.py:154-155 | subtracting its mean leaves a series of mean zero |
| `Peaks.ArgMaxAbs` | 02_code/001_01_convert_seismic.py:43 | `np.argmax(np.abs(s))` is an index of largest magnitude with every earlier sample strictly smaller (first occurrence) |
| `Peaks.FirstPeakIndexUnique` | 02_code/001_01_convert_seismic.py:43 | the first-occurrence peak index is unique, so the argmax contract determines the result |
| `Peaks.SignedPeak` | 02_code/001_01_convert_seismic.py:41-45 | `calc_signed_peak` fails exactly on an empty series; otherwise it is the signed sample at the first index of largest magnitude (the same helper is at lines 160-163 of the integration script) |
| `Peaks.SignedPeakMagnitude` | 02_code/001_01_convert_seismic.py:41-45 | the signed peak's magnitude equals `max abs` of the series |
| `Peaks.NormsNonNegative` | 02_code/001_01_convert_seismic.py:48-62 | per sample, `0 <= sqrt(a²+b²) <= sqrt(a²+b²+c²)` and `sqrt(a²+b²)` bounds `abs a` and `abs b` |
| `Peaks.PeakHorizontal` | 02_code/001_01_convert_seismic.py:48-53 | `calc_peak_horizontal` fails exactly on an empty record; otherwise it is non-negative, bounds every sample's horizontal norm and equals one of them (same helper at lines 166-169 of the integration script) |
| `Peaks.PeakTotal` | 02_code/001_01_convert_seismic.py:56-62 | `calc_peak_total` fails exactly on an empty record; otherwise it is non-negative, bounds every three-axis norm and equals one of them (same helper at lines 172-175 of the integration script) |
| `Peaks.PeakOrdering` | 02_code/001_01_convert_seismic.py:48-62 | total peak ≥ horizontal peak ≥ max abs of NS and of EW, for the same aligned components |
| `Peaks.TotalSymmetric` | 02_code/001_01_convert_seismic.py:56-62 | the total peak does not depend on the order of the components |
| `Peaks.Summary` | 02_code/001_01_convert_seismic.py:178-182 | the five stored peaks: defined exactly for non-empty records, NS/EW magnitudes ≤ H, `0 <= H <= total`, UD magnitude ≤ total |
| `Text.Strip` | 02_code/001_01_convert_seismic.py:76 | `str.strip()` returns text with no whitespace at either end |
| `Text.StripSlice` | 02_code/001_01_convert_seismic.py:76 | the stripped text is a slice of the input with only whitespace cut on either side |
| `Text.StripPadded` | 02_code/001_01_convert_seismic.py:76-100 | a trimmed value with any whitespace around it strips back to itself |
| `Text.StripIdempotent` | 02_code/001_01_convert_seismic.py:76 | stripping twice is stripping once |
| `Text.WordsShape` | 02_code/001_01_convert_seismic.py:116 | `str.split()` yields non-empty, whitespace-free words, so the `if val:` test at line 118 always passes |
| `Text.WordsOfJoin` | 02_code/001_01_convert_seismic.py:116 | `str.split()` recovers any list of non-empty whitespace-free words from their space-joined text |
| `Text.SplitOn` | 02_code/001_01_convert_seismic.py:242 | `str.split(c)` gives at least one piece and no piece contains `c` |
| `Text.JoinSplitOn` | 02_code/001_01_convert_seismic.py:242 | `c.join(s.split(c)) == s` |
| `Text.SplitOnJoin` | 02_code/001_01_convert_seismic.py:242 | `c.join(parts).split(c) == parts` for non-empty lists of `c`-free pieces |
| `Text.AfterFirst` | 02_code/001_01_convert_seismic.py:241 | `s.split(c, 1)[1]` fails exactly when `c` is absent and is everything after the first `c` |
| `Text.SecondPiece` | 02_code/001_01_convert_seismic.py:242-248 | `s.split(c)[1]` fails exactly when `c` is absent and contains no `c` |
| `Text.AfterFirstAndSecondPiece` | 02_code/001_01_convert_seismic.py:241-242 | `split(c, 1)[1]` is the remaining pieces re-joined, and `split(c)[1]` is its first piece |
| `Text.RemoveAll` | 02_code/001_01_convert_seismic.py:86 | `s.replace(p, '')` never lengthens the text, shortens it exactly when `p` occurs, and leaves it unchanged otherwise |
| `Text.RemoveSuffix` | 02_code/001_01_convert_seismic.py:86 | removing `Hz` from `<text>Hz` gives `<text>` when the text holds no `H` |
| `Text.Upper` | 02_code/001_01_convert_seismic.py:426 | `str.upper()` keeps the length and upper-cases each ASCII letter |
| `Text.UpperIdempotent` | 02_code/001_01_convert_seismic.py:426 | upper-casing is idempotent and leaves no lower-case letter |
| `Text.DigitGroups` | 02_code/001_01_convert_seismic.py:119 | what `int()` accepts after the sign starts and ends with a digit |
| `Text.ParseIntShape` | 02_code/001_01_convert_seismic.py:119 | `int()` refuses blank text, and a negative result comes from a leading minus sign |
| `Text.NumberOfDecimal` | 02_code/001_01_convert_seismic.py:94-95 | the digits `str(n)` writes spell `n` |
| `Text.DecimalValue` | 02_code/001_01_convert_seismic.py:94-95 | `int()` of the decimal digits of `n` is `n` |
| `Text.ParseIntOfStripped` | 02_code/001_01_convert_seismic.py:86-87 | `int(s.strip()) == int(s)`: `int` strips its argument itself |
| `Text.ParseFormatInt` | 02_code/001_01_convert_seismic.py:87 | `int(str(n))` is `n`, whatever whitespace surrounds the text |
| `Text.ParseFormatted` | 02_code/001_01_convert_seismic.py:119 | `int(str(n)) == n` for every integer |
| `Nied.Field` | 02_code/001_01_convert_seismic.py:76-100 | `line[18:]` is empty for a line of 18 characters or fewer, else the line minus its 18-character caption |
| `Nied.Blank` | 02_code/001_01_convert_seismic.py:76-80 | `text or None` is `None` exactly for blank text and the text otherwise |
| `Nied.FieldTextOfLabelledLine` | 02_code/001_01_convert_seismic.py:76-100 | a value written after an 18-character caption, with any whitespace around it, is read back exactly |
| `Nied.DigitRun` | 02_code/001_01_convert_seismic.py:92 | the `\d+` run is the longest all-digit prefix |
| `Nied.ParseScale` | 02_code/001_01_convert_seismic.py:90-97 | the text is refused exactly when no prefix matches `(\d+)\(gal\)/(\d+)`. An accepted scale is the two numbers the greedy digit groups of such a match spell, and anything may follow the second group |
| `Nied.ParseScaleOfRendering` | 02_code/001_01_convert_seismic.py:90-97 | `str(num) + "(gal)/" + str(den)`, followed by any non-digit text, parses to `(num, den)` |
| `Nied.Decode` | 02_code/001_01_convert_seismic.py:75-100 | the header converts exactly when the three coordinates, the frequency, the duration, the scale and the maximum convert. A refused `float()` names line 6, 7, 8 or 14, a refused `int()` line 10 or 11. The first five fields are `None` exactly when blank; every other field is its text or that text's conversion |
| `Nied.ParseHeader` | 02_code/001_01_convert_seismic.py:69-102 | `parse_nied_header` succeeds exactly when every conversion of the stripped column-18 fields does. Each of the sixteen fields is its stripped column-18 text (the first five `None` when blank) or that text's conversion; the frequency has `Hz` removed first |
| `Nied.HeaderReadsSixteenLines` | 02_code/001_01_convert_seismic.py:72-73 | the header depends only on the first sixteen lines: line 17 and the data never change it |
| `Nied.FrequencyWithUnit` | 02_code/001_01_convert_seismic.py:86 | a sampling frequency written `100Hz` reads as 100 |
| `Nied.Rows` | 02_code/001_01_convert_seismic.py:112-116 | one word list per line after the 17 header lines |
| `Nied.Converted` | 02_code/001_01_convert_seismic.py:117-119 | one `int()` result per token, row by row |
| `Nied.CollectSpec` | 02_code/001_01_convert_seismic.py:117-119 | the read succeeds exactly when every token converts, and then yields each token's value in order |
| `Nied.FlattenAppend` | 02_code/001_01_convert_seismic.py:115-119 | appending row by row reads the rows in file order |
| `Nied.ScaleAll` | 02_code/001_01_convert_seismic.py:119 | one sample in gal per count |
| `Nied.ParseData` | 02_code/001_01_convert_seismic.py:105-121 | the nested loop equals the specification `Samples`: `None` on a zero denominator or a token `int()` refuses, else `int(token) * num / den` for every token in file order |
| `Nied.RowWords` | 02_code/001_01_convert_seismic.py:116 | a data line written as space-separated counts splits back into their decimal texts |
| `Nied.RowConverts` | 02_code/001_01_convert_seismic.py:119 | each written count converts back to itself |
| `Nied.RenderedRowsConvert` | 02_code/001_01_convert_seismic.py:112-119 | every token of every written row converts back to its count |
| `Nied.SamplesOfRenderedRows` | 02_code/001_01_convert_seismic.py:105-121 | a file of 17 header lines then rows of counts reads back as those counts, in order, times `num / den` |
| `Stations.RFind` | 02_code/001_01_convert_seismic.py:426-427 | the last position of a character, or -1 when it is absent |
| `Stations.StemSuffix` | 02_code/001_01_convert_seismic.py:426-427 | `Path.stem + Path.suffix` is the name, and a suffix is empty or a dot followed by dot-free text |
| `Stations.GroupStations` | 02_code/001_01_convert_seismic.py:422-430 | the grouping loop builds exactly the specification map `Groups(files)` |
| `Stations.GroupsSound` | 02_code/001_01_convert_seismic.py:425-430 | every grouped entry is one of the files, with that stem and that upper-cased component suffix |
| `Stations.GroupsComplete` | 02_code/001_01_convert_seismic.py:425-430 | every `.EW`/`.NS`/`.UD` file, in any letter case, is filed under its stem |
| `Stations.GroupsNonEmpty` | 02_code/001_01_convert_seismic.py:428-430 | no recording's group is empty |
| `Stations.GroupsSpec` | 02_code/001_01_convert_seismic.py:425-430 | grouping is sound and complete, and each group is a non-empty subset of the three components; other suffixes are ignored |
| `Stations.CompleteGroup` | 02_code/001_01_convert_seismic.py:435 | `len(components) == 3` exactly when all three components are present |
| `Stations.CountSuccesses` | 02_code/001_01_convert_seismic.py:433-442 | `success_count` is the number of complete recordings that processing reports done, in any iteration order |
| `Stations.SuccessesBound` | 02_code/001_01_convert_seismic.py:433-442 | the count never exceeds the number of recordings with all three components |
| `Stations.TrimToCommon` | 02_code/001_01_convert_seismic.py:152-155 | the three trimmed components have one length, each is a prefix of its original, and one is whole |
| `Stations.TrimKeepsCommonPrefix` | 02_code/001_01_convert_seismic.py:152-155 | the common length is at least any length all three reach (the minimum), and trimming again changes nothing |
| `Stations.Component` | 02_code/001_01_convert_seismic.py:128-150 | a component file yields its header and its data in gal with that header's own scale, or fails when either fails |
| `Stations.Assemble` | 02_code/001_01_convert_seismic.py:152-182 | a station exists exactly when no component is empty. Its components are the three trimmed to the length of the shortest (`TrimToCommon`), and its peaks are their `Summary`. The code and header come from the EW file |
| `Stations.LoadStation` | 02_code/001_01_convert_seismic.py:126-218 | processing a station succeeds exactly when the three component files load, none is empty, the EW record time parses, the EW sampling frequency is non-zero, and (with an origin time) every non-blank earthquake field converts; it is then the assembled station |
| `Jma.Value` | 02_code/001_01_convert_seismic.py:242-248 | `line.split('=')[1].strip()` fails exactly on a line without `=` and is trimmed and `=`-free |
| `Jma.NameValue` | 02_code/001_01_convert_seismic.py:241 | `line.split('=', 1)[1].strip()` fails exactly on a line without `=` and is trimmed |
| `Jma.Decode` | 02_code/001_01_convert_seismic.py:240-252 | the header is accepted exactly when all six lines have `=`, both coordinates and the frequency convert, and the time has at least six words. The name, unit, coordinates and frequency come from their texts, and the record time is `Y/M/D h:m:s` of the first six words. A missing `=` names a line that lacks it; a short time reports fewer than six words |
| `Jma.Raw` | 02_code/001_01_convert_seismic.py:237-247 | each of the six header texts is missing exactly when its stripped line has no `=`; the values are stripped and, except the name, `=`-free |
| `Jma.ParseJmaHeader` | 02_code/001_01_convert_seismic.py:234-252 | `parse_jma_header` succeeds exactly when each of the first six lines has a `=`, both coordinates and the frequency convert, and the time has six words. A missing `=` is reported on a line that lacks it. The name is everything after the first `=`, stripped, and the record time is `Y/M/D h:m:s` of the time's first six words |
| `Jma.JmaHeaderReadsSixLines` | 02_code/001_01_convert_seismic.py:237-238 | only the first six header lines matter |
| `Jma.ValueOfKeyLine` | 02_code/001_01_convert_seismic.py:242-248 | `KEY=value` reads back the value whatever whitespace surrounds it |
| `Jma.NameOfKeyLine` | 02_code/001_01_convert_seismic.py:241 | a station name is everything after the first `=`, further `=` included |
| `Jma.RecordTimeOfWords` | 02_code/001_01_convert_seismic.py:248-250 | six or more space-joined words split back into themselves, so the record time is `Y/M/D h:m:s` of the words written |
| `Jma.FrequencyOfRendering` | 02_code/001_01_convert_seismic.py:244 | `<spaces><n>Hz` reads as `n` |
| `NumPy.SqrtUnique` | 02_code/001_01_convert_seismic.py:52 | under the square-root law, `sqrt(r*r) == r` for `r >= 0` |
| `NumPy.SqrtMonotone` | 02_code/001_01_convert_seismic.py:52 | `np.sqrt` is monotone on non-negative reals |
| `NumPy.ModulusNonNegative` | 02_code/002_01_calculate_fourier.py:65 | `np.abs` of a complex bin is non-negative |
| `NumPy.ModulusOfReal` | 02_code/002_01_calculate_fourier.py:65 | on the real axis `np.abs` is the absolute value |
| `NumPy.RfftFreq` | 02_code/002_01_calculate_fourier.py:61 | `rfftfreq(n, d)` has `n / 2 + 1` entries |
| `NumPy.RfftFreqGrid` | 02_code/002_01_calculate_fourier.py:61 | the grid starts at 0 Hz and is evenly spaced by `1 / (n d)` |
| `NumPy.RfftFreqIncreasing` | 02_code/002_01_calculate_fourier.py:61 | with a positive spacing the grid is strictly increasing |
| `NumPy.ZeroPad` | 02_code/003_01_calculate_velocity_and_displacement.py:124-125 | the padded buffer has the requested length |
| `NumPy.ZeroPadSum` | 02_code/003_01_calculate_velocity_and_displacement.py:124-125 | the buffer holds the record in front and zeros after it, and has the record's sum |
| `Complexes.Div` | 02_code/004_01_calculate_response_spectrum.py:63 | complex division: the quotient times the divisor is the dividend |
| `Complexes.MulAssociates` | 02_code/004_01_calculate_response_spectrum.py:107 | complex multiplication is associative |
| `Complexes.TimesJOmegaTwice` | 02_code/003_01_calculate_velocity_and_displacement.py:138-139 | multiplying twice by `1j * omega` scales by `-omega**2` |
| `Fourier.SamplingRate` | 02_code/002_01_calculate_fourier.py:99-103 | the rate is 100 with no metadata, without a `record` entry or without `sampling_rate_hz`, and the stored number otherwise; a non-mapping or non-number fails |
| `Fourier.FourierSpectrum` | 02_code/002_01_calculate_fourier.py:36-72 | fails exactly on an empty record or a zero rate; otherwise both arrays have `n / 2 + 1` entries, the grid is `rfftfreq(n, 1 / rate)` and the amplitudes follow the single-sided rule |
| `Fourier.Normalise` | 02_code/002_01_calculate_fourier.py:65-70 | the in-place doubling and halving equals the rule `Normalised`: `|F_k| dt` on the DC and even-length Nyquist bins, `2 |F_k| dt` elsewhere |
| `Fourier.HalvedBins` | 02_code/002_01_calculate_fourier.py:68-70 | doubling every bin then halving the unpaired ones is that rule |
| `Fourier.SpectrumDc` | 02_code/002_01_calculate_fourier.py:65-68 | a real DC bin `total` has amplitude `abs(total) * dt` |
| `Fourier.RecordDc` | 02_code/002_01_calculate_fourier.py:58-68 | the DC amplitude of a record is `dt * abs(sum of samples)` |
| `Fourier.SpectrumLastBin` | 02_code/002_01_calculate_fourier.py:69-70 | for even `n` the last bin is not doubled; for odd `n > 1` it keeps the factor 2 |
| `Fourier.SpectrumNonNegative` | 02_code/002_01_calculate_fourier.py:65-70 | with a positive rate every amplitude is non-negative |
| `Fourier.FrequencyOfBin` | 02_code/002_01_calculate_fourier.py:55-61 | bin `k` lies at `k * rate / n` Hz; for even `n` the last bin is `rate / 2` |
| `Fourier.ConstantDc` | 02_code/002_01_calculate_fourier.py:65-68 | a constant record `c` of `n` samples has DC amplitude `abs(c) * n * dt` |
| `Integration.Trunc` | 02_code/003_01_calculate_velocity_and_displacement.py:64 | `int()` on a float truncates toward zero |
| `Integration.SliceStop` | 02_code/003_01_calculate_velocity_and_displacement.py:66 | the stop of `data[:k]` lies in `0..len` and is `k` when `k` is in range |
| `Integration.WindowSamples` | 02_code/003_01_calculate_velocity_and_displacement.py:64-65 | `min(int(window_sec * rate), n)` never exceeds `n` and is at least 1 when `window_sec * rate >= 1` |
| `Integration.Window` | 02_code/003_01_calculate_velocity_and_displacement.py:64-66 | the averaged window never exceeds the record |
| `Integration.BaselineCorrection` | 02_code/003_01_calculate_velocity_and_displacement.py:45-67 | fails exactly on an empty window; otherwise keeps the length and shifts every sample by one constant |
| `Integration.BaselineRemoved` | 02_code/003_01_calculate_velocity_and_displacement.py:64-67 | after correction the first window has mean zero |
| `Integration.DefaultWindowNonEmpty` | 02_code/003_01_calculate_velocity_and_displacement.py:30 | with the 1-second window, any non-empty record sampled at 1 Hz or faster is corrected |
| `Integration.Omega` | 02_code/003_01_calculate_velocity_and_displacement.py:132-133 | `omega` has `m / 2 + 1` entries, `omega[0] == 1` and no entry is zero |
| `Integration.FrequenciesNonZero` | 02_code/003_01_calculate_velocity_and_displacement.py:129-132 | every non-DC angular frequency is non-zero |
| `Integration.Integrate` | 02_code/003_01_calculate_velocity_and_displacement.py:138-143 | one integration keeps the number of bins |
| `Integration.IntegrateInverts` | 02_code/003_01_calculate_velocity_and_displacement.py:138-143 | the DC bin is zero whatever the input held, and every other bin times `1j * omega` gives the input back |
| `Integration.DoubleIntegration` | 02_code/003_01_calculate_velocity_and_displacement.py:138-139 | `D_k * -omega_k**2 = A_k` on every non-DC bin |
| `Integration.Detrend` | 02_code/003_01_calculate_velocity_and_displacement.py:150-155 | truncation to `n` samples and mean removal give `n` samples of mean zero |
| `Integration.BufferLength` | 02_code/003_01_calculate_velocity_and_displacement.py:120 | `pad_factor * n` is at least `n`, and positive for a non-empty record, when the factor is at least 1 |
| `Integration.IntegrateFftPadded` | 02_code/003_01_calculate_velocity_and_displacement.py:98-157 | fails exactly on an empty record, a factor below 1 or a zero rate; otherwise both outputs have `n` samples and mean zero, and are the detrended inverse transforms of the once- and twice-integrated padded spectrum |
| `Integration.PadBuffer` | 02_code/003_01_calculate_velocity_and_displacement.py:124-125 | the zero buffer with the record copied in front is `ZeroPad` |
| `Integration.AngularFrequencies` | 02_code/003_01_calculate_velocity_and_displacement.py:132-133 | the in-place guard builds `Omega` |
| `Integration.DivideBins` | 02_code/003_01_calculate_velocity_and_displacement.py:138-143 | the divisions and DC zeroing build the once- and twice-integrated spectra |
| `Response.CeilLog2` | 02_code/004_01_calculate_response_spectrum.py:99 | `ceil(log2(n))` is the least `c` with `2**c >= n` |
| `Response.FftLength` | 02_code/004_01_calculate_response_spectrum.py:99 | `n_fft` is a power of two with `2n <= n_fft < 4n` |
| `Response.Angular` | 02_code/004_01_calculate_response_spectrum.py:62 | `2 * pi * freq` keeps the length |
| `Response.DampingPreventsResonance` | 02_code/004_01_calculate_response_spectrum.py:63 | with non-zero damping and natural frequency no denominator vanishes |
| `Response.DenominatorNonZero` | 02_code/004_01_calculate_response_spectrum.py:63 | one bin of the above |
| `Response.Transfer` | 02_code/004_01_calculate_response_spectrum.py:42-64 | `H` has one entry per frequency, and each times its denominator is `-1` |
| `Response.TransferAtRest` | 02_code/004_01_calculate_response_spectrum.py:62-63 | `H(0)` is real and `H(0) * omega_n**2 == -1`, that is `H(0) = -1 / omega_n**2` |
| `Response.ResponseBins` | 02_code/004_01_calculate_response_spectrum.py:104-120 | the four spectra have one bin per frequency |
| `Response.EquationOfMotion` | 02_code/004_01_calculate_response_spectrum.py:107-120 | every bin obeys the oscillator's equation, `AbsAcc = -(omega_n**2 D + 2 h omega_n V)`; the velocity is `1j omega D` and the relative acceleration `AbsAcc - A` is `1j omega V` |
| `Response.JOmegaSquared` | 02_code/004_01_calculate_response_spectrum.py:119 | `(1j omega)**2 D = -omega**2 D` |
| `Response.NaturalFrequencyNonZero` | 02_code/004_01_calculate_response_spectrum.py:96 | `2 pi / T` is non-zero |
| `Response.MotionOf` | 02_code/004_01_calculate_response_spectrum.py:95-125 | fails exactly when some bin is on an undamped resonance; otherwise the three time histories have the record's length |
| `Response.ResponseFft` | 02_code/004_01_calculate_response_spectrum.py:67-132 | at `T == 0`: `(0, 0, max abs acc)`, or failure for an empty record. Otherwise it is defined exactly for a non-empty record, a non-zero `dt` and no resonant bin, and SD, SV, SA are the non-negative peaks of the three histories |
| `Response.ResponseDefined` | 02_code/004_01_calculate_response_spectrum.py:26 | with `DAMPING_RATIO = 0.05` every non-empty record with non-zero `dt` has a response at every period |
| `Response.RigidOscillator` | 02_code/004_01_calculate_response_spectrum.py:91-93 | at `T = 0`, SA is the magnitude of `calc_signed_peak` of the record |
| `Response.PseudoVelocityScales` | 02_code/004_01_calculate_response_spectrum.py:166-169 | pSV is non-negative, `(2 pi / T) SD` and `pSV * T == 2 pi SD` for `T > 0` |
| `Response.ResponseSpectrum` | 02_code/004_01_calculate_response_spectrum.py:135-176 | fails exactly when some period's response fails; otherwise four arrays of `len(periods)` entries, entry `i` the response at `periods[i]`, and pSV masked by `T > 0` |
| `Response.PeriodSweep` | 02_code/004_01_calculate_response_spectrum.py:156-164 | the zeroed arrays filled in the loop hold, at each index, the response at that period, or the sweep fails at the first failing period |
| `Response.PseudoVelocities` | 02_code/004_01_calculate_response_spectrum.py:166-169 | one pSV per period |
| `Response.PseudoVelocityMask` | 02_code/004_01_calculate_response_spectrum.py:167-169 | the masked write into a zero array equals `PseudoVelocities` |
| `Response.Horizontal` | 02_code/004_01_calculate_response_spectrum.py:229-234 | the SRSS spectrum has four aligned series of the components' length |
| `Response.HorizontalBounds` | 02_code/004_01_calculate_response_spectrum.py:229-234 | every SRSS entry is non-negative and at least the magnitude of both components, for SD, SV, SA and pSV |

## Left out

- File and directory I/O, encodings (ASCII, CP932), YAML and CSV reading and
  writing, pandas DataFrames, logging, and the per-station `try/except` that
  turns any exception into `False`. Lines are given as a sequence of strings,
  metadata as a `Yaml` value, and failures as `None`/`Err`.
- Python's `float()`: it is the parameter `toFloat` of the header parsers.
  Its grammar (exponents, `inf`, `nan`) is not modelled.
- `generate_datetime_series` and the time stamps built from it; also
  `generate_summary_csv` and `flatten_metadata`. These are persistence
  projections over `datetime` and dictionaries.
- Rounding to three decimals, the
  JMA `max.csv` lookup, `parse_jma_data` and `process_jma_station`. The JMA
  header parser is modelled; the rest reads tables through pandas and builds
  output dictionaries.
- The Butterworth high-pass filter `apply_highpass_filter` (scipy
  `signal.butter` / `filtfilt`). It is foreign numerics; the integration model
  takes its input after whatever filter the caller applied.
- `np.fft.rfft` and `np.fft.irfft` themselves. Only the length laws and "the
  DC bin is the sum of the samples" are assumed, as hypotheses.
- Floating point: IEEE rounding, NaN and infinities are not modelled. Results
  numpy would turn into `inf`/`nan` are `None`. `np.pi` is its nearest double
  as an exact rational, and `np.logspace` is not modelled (the period grid is
  any sequence).
- `Response.FftLength`: `int(np.ceil(np.log2(n)))` is taken as the exact
  ceiling of the base-2 logarithm. The float `log2` could round differently
  for very large `n`.
- `Response.Transfer`: `omega_n**2` and `omega**2` are modelled as `Pow(x, 2)`;
  the contract holds only where the denominator is non-zero. numpy's `inf`
  at an exact resonance is the `None` of `Response.MotionOf`.
- `Stations.LoadStation`: whether `datetime.strptime` accepts the record time
  is the parameter `parsesTime`; the date grammar itself is not modelled, and
  neither are failures of the output writes (`mkdir`, `to_csv`, `yaml.dump`).
- `Peaks.PeakHorizontal`, `Peaks.PeakTotal` and `Peaks.Summary` require equal
  component lengths. numpy would broadcast a length-one array or raise on other
  mismatches; every caller passes components already cut to a common length.
- `Fourier.SamplingRate`: YAML values are reduced to null, numbers, text and
  mappings. `safe_load` of an empty file gives `None`, modelled as the `Null`
  value, which `.get` refuses.
- The dead absolute-acceleration expression at line 115 of the response script
  is overwritten at line 120 and is not modelled.
- The sorting and intensity helpers of the comparison viewers, the Leaflet map
  script and the documentation-data script are outside this core.
