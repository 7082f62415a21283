/** The header of a JMA strong-motion CSV file: seven `KEY=value` lines, of
    which the first six are used. */
module Jma {
  import opened Wrappers
  import opened Text
  import Nied

  /** Lines read before the data table. */
  const HeaderLines: nat := 7

  /** `f.readline().strip()` for line `k`. */
  function HeaderLine(lines: seq<string>, k: nat): string {
    Strip(Nied.Line(lines, k))
  }

  /** `line.split('=')[1].strip()`: the text between the first and second
      `=`; `None` (an `IndexError`) when the line has no `=`. */
  function Value(line: string): (r: Option<string>)
    ensures r.None? <==> '=' !in line
    ensures r.Some? ==> Trimmed(r.value) && '=' !in r.value
  {
    match SecondPiece(line, '=')
    case None => None
    case Some(v) =>
      var t := Strip(v);
      StripSlice(v);
      var i :| StrippedAt(v, t, i);
      assert forall k :: 0 <= k < |t| ==> t[k] == v[i + k];
      Some(t)
  }

  /** `line.split('=', 1)[1].strip()`: everything after the first `=`, so a
      station name may itself contain `=`. */
  function NameValue(line: string): (r: Option<string>)
    ensures r.None? <==> '=' !in line
    ensures r.Some? ==> Trimmed(r.value)
  {
    match AfterFirst(line, '=')
    case None => None
    case Some(v) => Some(Strip(v))
  }

  /** The record time as the script writes it: `Y/M/D h:m:s` from the first
      six words. */
  function FormatTime(parts: seq<string>): string
    requires |parts| >= 6
  {
    parts[0] + "/" + parts[1] + "/" + parts[2] + " " + parts[3] + ":" + parts[4] + ":" + parts[5]
  }

  datatype JmaHeader = JmaHeader(
    stationName: string,
    stationLat: real,
    stationLon: real,
    samplingFreq: int,
    unit: string,
    recordTime: string)

  /** Why a header is refused: a line without `=` (`IndexError`), a number
      `float()` or `int()` refuses (`ValueError`), or fewer than six words in
      the initial time (`IndexError`). */
  datatype JmaError = NoSeparator(line: nat) | BadFloat(line: nat) | BadInt(line: nat) | ShortTime(words: nat)

  /** The six header texts before conversion: `None` where the line has no
      `=`. The frequency is the piece after `=` before `replace`/`strip`. */
  datatype RawJma = RawJma(
    name: Option<string>, lat: Option<string>, lon: Option<string>,
    freq: Option<string>, unit: Option<string>, time: Option<string>)

  /** The six texts of the header lines: a piece is missing exactly where
      its line has no `=`, and each value is stripped. */
  function Raw(lines: seq<string>): (raw: RawJma)
    ensures raw.name.None? <==> '=' !in HeaderLine(lines, 0)
    ensures raw.lat.None? <==> '=' !in HeaderLine(lines, 1)
    ensures raw.lon.None? <==> '=' !in HeaderLine(lines, 2)
    ensures raw.freq.None? <==> '=' !in HeaderLine(lines, 3)
    ensures raw.unit.None? <==> '=' !in HeaderLine(lines, 4)
    ensures raw.time.None? <==> '=' !in HeaderLine(lines, 5)
    ensures raw.name.Some? ==> Trimmed(raw.name.value)
    ensures raw.lat.Some? ==> Trimmed(raw.lat.value) && '=' !in raw.lat.value
    ensures raw.lon.Some? ==> Trimmed(raw.lon.value) && '=' !in raw.lon.value
    ensures raw.freq.Some? ==> '=' !in raw.freq.value
    ensures raw.unit.Some? ==> Trimmed(raw.unit.value) && '=' !in raw.unit.value
    ensures raw.time.Some? ==> Trimmed(raw.time.value) && '=' !in raw.time.value
  {
    var h0, h1, h2 := HeaderLine(lines, 0), HeaderLine(lines, 1), HeaderLine(lines, 2);
    var h3, h4, h5 := HeaderLine(lines, 3), HeaderLine(lines, 4), HeaderLine(lines, 5);
    RawJma(NameValue(h0), Value(h1), Value(h2), SecondPiece(h3, '='), Value(h4), Value(h5))
  }

  /** Header line `k` (of the first six) has no `=`. */
  predicate Missing(raw: RawJma, k: nat) {
    match k
    case 0 => raw.name.None?
    case 1 => raw.lat.None?
    case 2 => raw.lon.None?
    case 3 => raw.freq.None?
    case 4 => raw.unit.None?
    case 5 => raw.time.None?
    case _ => false
  }

  /** `int(text.replace('Hz', '').strip())`. */
  function FrequencyOf(text: string): Option<int> {
    ParseInt(Strip(RemoveAll(text, "Hz")))
  }

  /** The conversions of `parse_jma_header`, in the script's order of
      evaluation. Python's `float()` is the parameter `toFloat`. */
  function Decode(raw: RawJma, toFloat: string -> Option<real>): (r: Result<JmaHeader, JmaError>)
    ensures r.Ok? <==> raw.name.Some? && raw.lat.Some? && toFloat(raw.lat.value).Some?
                       && raw.lon.Some? && toFloat(raw.lon.value).Some?
                       && raw.freq.Some? && FrequencyOf(raw.freq.value).Some?
                       && raw.unit.Some? && raw.time.Some? && |Words(raw.time.value)| >= 6
    ensures r.Ok? ==> Some(r.value.stationName) == raw.name && Some(r.value.unit) == raw.unit
                      && Some(r.value.stationLat) == toFloat(raw.lat.value)
                      && Some(r.value.stationLon) == toFloat(raw.lon.value)
                      && Some(r.value.samplingFreq) == FrequencyOf(raw.freq.value)
                      && r.value.recordTime == FormatTime(Words(raw.time.value))
    ensures r.Err? && r.error.NoSeparator? ==> Missing(raw, r.error.line)
    ensures r.Err? && r.error.ShortTime? ==> r.error.words < 6
  {
    if raw.name.None? then Err(NoSeparator(0))
    else if raw.lat.None? then Err(NoSeparator(1))
    else if toFloat(raw.lat.value).None? then Err(BadFloat(1))
    else if raw.lon.None? then Err(NoSeparator(2))
    else if toFloat(raw.lon.value).None? then Err(BadFloat(2))
    else if raw.freq.None? then Err(NoSeparator(3))
    else if FrequencyOf(raw.freq.value).None? then Err(BadInt(3))
    else if raw.unit.None? then Err(NoSeparator(4))
    else if raw.time.None? then Err(NoSeparator(5))
    else
      var parts := Words(raw.time.value);
      if |parts| < 6 then Err(ShortTime(|parts|))
      else Ok(JmaHeader(raw.name.value, toFloat(raw.lat.value).value, toFloat(raw.lon.value).value,
                        FrequencyOf(raw.freq.value).value, raw.unit.value, FormatTime(parts)))
  }

  /** `parse_jma_header`: read seven stripped lines and convert six. The
      header is accepted exactly when each of the first six lines has a `=`
      and every conversion succeeds; a missing `=` is reported on a line
      that lacks it. */
  function ParseJmaHeader(lines: seq<string>, toFloat: string -> Option<real>): (r: Result<JmaHeader, JmaError>)
    ensures var raw := Raw(lines);
      r.Ok? <==> && '=' in HeaderLine(lines, 0) && '=' in HeaderLine(lines, 1) && '=' in HeaderLine(lines, 2)
                 && '=' in HeaderLine(lines, 3) && '=' in HeaderLine(lines, 4) && '=' in HeaderLine(lines, 5)
                 && toFloat(raw.lat.value).Some? && toFloat(raw.lon.value).Some?
                 && FrequencyOf(raw.freq.value).Some? && |Words(raw.time.value)| >= 6
    ensures r.Err? && r.error.NoSeparator? ==> r.error.line < 6 && '=' !in HeaderLine(lines, r.error.line)
    ensures r.Err? && r.error.ShortTime? ==> r.error.words < 6
    ensures var raw := Raw(lines);
      r.Ok? ==> && Some(r.value.stationName) == NameValue(HeaderLine(lines, 0)) && Trimmed(r.value.stationName)
                && Some(r.value.unit) == Value(HeaderLine(lines, 4)) && '=' !in r.value.unit
                && Some(r.value.stationLat) == toFloat(raw.lat.value)
                && Some(r.value.stationLon) == toFloat(raw.lon.value)
                && Some(r.value.samplingFreq) == FrequencyOf(raw.freq.value)
                && r.value.recordTime == FormatTime(Words(raw.time.value))
  {
    var raw := Raw(lines);
    var r := Decode(raw, toFloat);
    if r.Err? && r.error.NoSeparator? then
      MissingLine(lines, r.error.line);
      r
    else r
  }

  /** A piece reported missing belongs to one of the six lines and that line
      has no `=`. */
  lemma MissingLine(lines: seq<string>, k: nat)
    requires Missing(Raw(lines), k)
    ensures k < 6 && '=' !in HeaderLine(lines, k)
  {
    if k == 0 {} else if k == 1 {} else if k == 2 {} else if k == 3 {} else if k == 4 {} else {}
  }

  /** Only the first six lines matter: the seventh is read but unused, and
      the data table never changes the header. */
  lemma JmaHeaderReadsSixLines(lines: seq<string>, other: seq<string>, toFloat: string -> Option<real>)
    requires forall k: nat :: k < 6 ==> Nied.Line(lines, k) == Nied.Line(other, k)
    ensures ParseJmaHeader(lines, toFloat) == ParseJmaHeader(other, toFloat)
  {
    assert Raw(lines) == Raw(other);
  }

  /** `KEY=value`: the value is read back whatever whitespace surrounds it. */
  lemma ValueOfKeyLine(key: string, a: string, v: string, b: string)
    requires '=' !in key && '=' !in a + v + b
    requires AllSpace(a) && AllSpace(b) && Trimmed(v)
    ensures Value(key + "=" + (a + v + b)) == Some(v)
  {
    var line := key + "=" + (a + v + b);
    SplitOnJoin([key, a + v + b], '=');
    assert JoinOn([key, a + v + b], '=') == line;
    StripPadded(a, v, b);
  }

  /** A station name keeps every `=` after the first. */
  lemma NameOfKeyLine(key: string, name: string)
    requires '=' !in key && Trimmed(name)
    ensures NameValue(key + "=" + name) == Some(name)
  {
    var line := key + "=" + name;
    assert line[|key|] == '=';
    assert IndexOf(line, '=') == |key|;
    assert line[|key| + 1..] == name;
    StripPadded("", name, "");
    assert "" + name + "" == name;
  }

  /** `INITIAL TIME= 2025 12 08 23 15 30` becomes `2025/12/08 23:15:30`:
      six or more words separated by spaces are formatted from the first six. */
  lemma RecordTimeOfWords(parts: seq<string>)
    requires |parts| >= 6
    requires forall k :: 0 <= k < |parts| ==> |parts[k]| > 0 && NoSpace(parts[k])
    ensures |Words(JoinSpaced(parts))| >= 6 && FormatTime(Words(JoinSpaced(parts))) == FormatTime(parts)
  {
    WordsOfJoin(parts);
  }

  /** Neither spaces nor a rendered integer contain the `H` of `Hz`. */
  lemma NoUnitLetter(a: string, f: int)
    requires AllSpace(a)
    ensures 'H' !in a + FormatInt(f)
  {
    var t := FormatInt(f);
    var d := Decimal(if f < 0 then -f else f);
    assert t == (if f < 0 then "-" else "") + d;
    forall k | 0 <= k < |a + t| ensures (a + t)[k] != 'H' {
      if k < |a| {
        assert IsSpace(a[k]);
      } else if f < 0 && k == |a| {
      } else {
        assert IsDigit(d[k - |a| - |t| + |d|]);
      }
    }
  }

  /** `SAMPLING RATE= 100Hz`: the `Hz` unit is dropped and the integer read
      back, with any spaces in front of it. */
  lemma FrequencyOfRendering(a: string, f: int)
    requires AllSpace(a)
    ensures FrequencyOf(a + FormatInt(f) + "Hz") == Some(f)
  {
    var t := FormatInt(f);
    NoUnitLetter(a, f);
    calc {
      FrequencyOf(a + t + "Hz");
      ParseInt(Strip(RemoveAll(a + t + "Hz", "Hz")));
      { RemoveSuffix(a + t, "Hz"); }
      ParseInt(Strip(a + t));
      { ParseIntOfStripped(a + t); }
      ParseInt(a + t);
      { assert a + t + "" == a + t; }
      ParseInt(a + t + "");
      { ParseFormatInt(f, a, ""); }
      Some(f);
    }
  }
}
