/** The NIED (K-NET / KiK-net) ASCII format: a 17-line header whose values
    start at column 18, then whitespace-separated integer counts that the
    header's scale factor converts to gal. Also the grouping of the `.EW`,
    `.NS`, `.UD` files of one recording and the trimming of the three
    components to a common length. */
module Nied {
  import opened Wrappers
  import opened Text

  /** Lines of header before the data. */
  const HeaderLines: nat := 17
  /** Column where every header value starts. */
  const ValueColumn: nat := 18

  /** `f.readline()` for line `k`: the empty string past the end of the file. */
  function Line(lines: seq<string>, k: nat): string {
    if k < |lines| then lines[k] else ""
  }

  /** `line[18:]`: the empty string for a line of 18 characters or fewer. */
  function Field(lines: seq<string>, k: nat): (v: string)
    ensures |Line(lines, k)| <= ValueColumn ==> v == ""
    ensures |Line(lines, k)| > ValueColumn ==> Line(lines, k) == Line(lines, k)[..ValueColumn] + v
  {
    var l := Line(lines, k);
    if |l| <= ValueColumn then "" else l[ValueColumn..]
  }

  /** `line[18:].strip()`. */
  function FieldText(lines: seq<string>, k: nat): string {
    Strip(Field(lines, k))
  }

  /** `text or None`: blank text becomes `None`. */
  function Blank(text: string): (r: Option<string>)
    ensures r.None? <==> text == ""
    ensures r.Some? ==> r.value == text
  {
    if text == "" then None else Some(text)
  }

  /** A value written after an 18-character caption, with any whitespace around
      it, is read back exactly. */
  lemma FieldTextOfLabelledLine(lines: seq<string>, k: nat, caption: string, a: string, v: string, b: string)
    requires k < |lines| && |caption| == ValueColumn
    requires AllSpace(a) && AllSpace(b) && Trimmed(v) && |a + v + b| > 0
    requires lines[k] == caption + (a + v + b)
    ensures FieldText(lines, k) == v
  {
    assert lines[k][ValueColumn..] == a + v + b;
    StripPadded(a, v, b);
  }

  /** Length of the leading run of decimal digits. */
  function DigitRun(t: string): (n: nat)
    ensures n <= |t|
    ensures AllDigits(t[..n])
    ensures n < |t| ==> !IsDigit(t[n])
  {
    if |t| == 0 || !IsDigit(t[0]) then 0 else 1 + DigitRun(t[1..])
  }

  lemma DigitRunOf(d: string, rest: string)
    requires AllDigits(d)
    requires |rest| > 0 ==> !IsDigit(rest[0])
    ensures DigitRun(d + rest) == |d|
  {
    if |d| > 0 {
      assert (d + rest)[1..] == d[1..] + rest;
      DigitRunOf(d[1..], rest);
    } else {
      assert d + rest == rest;
    }
  }

  /** The scale factor `numerator(gal)/denominator`: a count times
      numerator / denominator is an acceleration in gal. */
  datatype Scale = Scale(numerator: nat, denominator: nat)

  const GalSeparator: string := "(gal)/"

  /** `text` begins with a match of `(\d+)\(gal\)/(\d+)` whose two groups
      have `n1` and `n2` digits. */
  predicate ScaleMatch(text: string, n1: nat, n2: nat) {
    && 0 < n1 && 0 < n2 && n1 + |GalSeparator| + n2 <= |text|
    && AllDigits(text[..n1]) && text[n1..n1 + |GalSeparator|] == GalSeparator
    && AllDigits(text[n1 + |GalSeparator|..n1 + |GalSeparator| + n2])
  }

  /** The second group ends at `end`: `\d+` is greedy, so no digit follows it. */
  predicate GroupEnds(text: string, end: nat) {
    end < |text| ==> !IsDigit(text[end])
  }

  /** `re.match(r'(\d+)\(gal\)/(\d+)', text)`: a match anchored at the start
      only, so anything may follow the second number. The text is refused
      (`None`, the script's `ValueError`) exactly when no match exists; a
      match yields the numbers its two greedy groups spell. */
  function ParseScale(text: string): (r: Option<Scale>)
    ensures r.None? <==> forall n1: nat, n2: nat :: !ScaleMatch(text, n1, n2)
    ensures r.Some? ==> exists n1: nat, n2: nat ::
      && ScaleMatch(text, n1, n2) && GroupEnds(text, n1 + |GalSeparator| + n2)
      && r.value == Scale(Number(text[..n1]), Number(text[n1 + |GalSeparator|..n1 + |GalSeparator| + n2]))
  {
    var n1 := DigitRun(text);
    var rest := text[n1..];
    if n1 == 0 || |rest| < |GalSeparator| || rest[..|GalSeparator|] != GalSeparator then
      NoScaleMatch(text);
      None
    else
      var tail := rest[|GalSeparator|..];
      var n2 := DigitRun(tail);
      if n2 == 0 then
        NoScaleMatch(text);
        None
      else
        MatchOfRuns(text, n1, n2);
        Some(Scale(Number(text[..n1]), Number(tail[..n2])))
  }

  /** A leading digit run, `(gal)/` and a second digit run make a match
      whose second group ends where the run does. */
  lemma MatchOfRuns(text: string, n1: nat, n2: nat)
    requires n1 == DigitRun(text) && 0 < n1 && |text| - n1 >= |GalSeparator|
    requires text[n1..][..|GalSeparator|] == GalSeparator
    requires n2 == DigitRun(text[n1..][|GalSeparator|..]) && 0 < n2
    ensures ScaleMatch(text, n1, n2) && GroupEnds(text, n1 + |GalSeparator| + n2)
    ensures text[n1 + |GalSeparator|..n1 + |GalSeparator| + n2] == text[n1..][|GalSeparator|..][..n2]
  {
    var g := |GalSeparator|;
    var tail := text[n1..][g..];
    assert AllDigits(tail[..n2]) && (n2 < |tail| ==> !IsDigit(tail[n2]));
    MatchOfSlices(text, n1, n2);
  }

  /** The same match, stated on the slices alone. */
  lemma MatchOfSlices(text: string, n1: nat, n2: nat)
    requires 0 < n1 && 0 < n2 && n1 + |GalSeparator| + n2 <= |text|
    requires AllDigits(text[..n1]) && text[n1..][..|GalSeparator|] == GalSeparator
    requires AllDigits(text[n1..][|GalSeparator|..][..n2])
    requires n2 < |text[n1..][|GalSeparator|..]| ==> !IsDigit(text[n1..][|GalSeparator|..][n2])
    ensures ScaleMatch(text, n1, n2) && GroupEnds(text, n1 + |GalSeparator| + n2)
    ensures text[n1 + |GalSeparator|..n1 + |GalSeparator| + n2] == text[n1..][|GalSeparator|..][..n2]
  {
    var g := |GalSeparator|;
    assert text[n1..][..g] == text[n1..n1 + g];
    assert text[n1..][g..][..n2] == text[n1 + g..n1 + g + n2];
    if n1 + g + n2 < |text| {
      assert text[n1 + g + n2] == text[n1..][g..][n2];
    }
  }

  /** When the leading digit run is not followed by `(gal)/` and a digit,
      nothing matches. */
  lemma NoScaleMatch(text: string)
    requires var n1 := DigitRun(text);
      n1 == 0 || |text| - n1 < |GalSeparator| || text[n1..][..|GalSeparator|] != GalSeparator
      || DigitRun(text[n1..][|GalSeparator|..]) == 0
    ensures forall n1: nat, n2: nat :: !ScaleMatch(text, n1, n2)
  {
    forall n1: nat, n2: nat
      ensures !ScaleMatch(text, n1, n2)
    {
      MatchForcesRuns(text, n1, n2);
    }
  }

  /** A match's first group is the whole leading digit run, and its second
      group lies inside the digit run after `(gal)/`. */
  lemma MatchForcesRuns(text: string, n1: nat, n2: nat)
    ensures ScaleMatch(text, n1, n2) ==>
      && DigitRun(text) == n1 && |text| - n1 >= |GalSeparator|
      && text[n1..][..|GalSeparator|] == GalSeparator
      && DigitRun(text[n1..][|GalSeparator|..]) >= n2
  {
    if ScaleMatch(text, n1, n2) {
      FirstGroupIsRun(text, n1);
      SecondGroupInRun(text, n1, n2);
    }
  }

  lemma FirstGroupIsRun(text: string, n1: nat)
    requires 0 < n1 && n1 + |GalSeparator| <= |text| && AllDigits(text[..n1])
    requires text[n1..n1 + |GalSeparator|] == GalSeparator
    ensures DigitRun(text) == n1 && text[n1..][..|GalSeparator|] == GalSeparator
  {
    var d, rest := text[..n1], text[n1..];
    assert text == d + rest;
    assert rest[..|GalSeparator|] == text[n1..n1 + |GalSeparator|];
    assert rest[0] == GalSeparator[0] == '(';
    DigitRunOf(d, rest);
  }

  lemma SecondGroupInRun(text: string, n1: nat, n2: nat)
    requires n1 + |GalSeparator| + n2 <= |text|
    requires AllDigits(text[n1 + |GalSeparator|..n1 + |GalSeparator| + n2])
    ensures DigitRun(text[n1..][|GalSeparator|..]) >= n2
  {
    var g := |GalSeparator|;
    var tail := text[n1..][g..];
    assert tail[..n2] == text[n1 + g..n1 + g + n2];
    DigitRunAtLeast(tail, n2);
  }

  lemma {:induction false} DigitRunAtLeast(t: string, n: nat)
    requires n <= |t| && AllDigits(t[..n])
    ensures DigitRun(t) >= n
  {
    if n > 0 {
      assert IsDigit(t[0]);
      assert t[1..][..n - 1] == t[1..n];
      DigitRunAtLeast(t[1..], n - 1);
    }
  }

  /** The scale is read back from its rendering `str(num) + "(gal)/" +
      str(den)`, whatever non-digit text follows. */
  lemma {:induction false} ParseScaleOfRendering(num: nat, den: nat, trailer: string)
    requires |trailer| > 0 ==> !IsDigit(trailer[0])
    ensures ParseScale(Decimal(num) + GalSeparator + Decimal(den) + trailer) == Some(Scale(num, den))
  {
    var a := Decimal(num);
    var b := Decimal(den);
    var text := a + GalSeparator + b + trailer;
    NumberOfDecimal(num);
    NumberOfDecimal(den);
    assert text == a + (GalSeparator + b + trailer);
    DigitRunOf(a, GalSeparator + b + trailer);
    var rest := text[|a|..];
    assert rest == GalSeparator + b + trailer;
    assert rest[..|GalSeparator|] == GalSeparator;
    var tail := rest[|GalSeparator|..];
    assert tail == b + trailer;
    DigitRunOf(b, trailer);
    assert text[..|a|] == a;
    assert tail[..|b|] == b;
  }

  /** The parsed header (`parse_nied_header`). The first five fields are
      `None` when blank. */
  datatype Header = Header(
    originTime: Option<string>,
    eqLat: Option<string>,
    eqLon: Option<string>,
    eqDepth: Option<string>,
    eqMag: Option<string>,
    stationCode: string,
    stationLat: real,
    stationLon: real,
    stationHeight: real,
    recordTime: string,
    samplingFreq: int,
    duration: int,
    direction: string,
    scale: Scale,
    maxAcc: real,
    lastCorrection: string)

  /** Why a header is refused: the `ValueError` of `float()` or `int()` on a
      given line, or a scale factor that does not match. */
  datatype HeaderError = BadFloat(line: nat) | BadInt(line: nat) | BadScale(text: string)

  /** The sampling-frequency text: `Hz` removed from the raw field, then stripped. */
  function FrequencyText(lines: seq<string>): string {
    Strip(RemoveAll(Field(lines, 10), "Hz"))
  }

  /** All conversions of the header succeed. */
  predicate HeaderConvertible(lines: seq<string>, toFloat: string -> Option<real>) {
    && toFloat(FieldText(lines, 6)).Some?
    && toFloat(FieldText(lines, 7)).Some?
    && toFloat(FieldText(lines, 8)).Some?
    && ParseInt(FrequencyText(lines)).Some?
    && ParseInt(FieldText(lines, 11)).Some?
    && ParseScale(FieldText(lines, 13)).Some?
    && toFloat(FieldText(lines, 14)).Some?
  }

  /** The header as text: the sixteen stripped value texts and the
      frequency text with its unit removed. */
  datatype RawHeader = RawHeader(texts: seq<string>, frequency: string)

  function Raw(lines: seq<string>): (raw: RawHeader)
    ensures |raw.texts| == 16 && raw.frequency == FrequencyText(lines)
    ensures forall k :: 0 <= k < 16 ==> raw.texts[k] == FieldText(lines, k)
  {
    RawHeader(seq(16, k requires 0 <= k < 16 => FieldText(lines, k)), FrequencyText(lines))
  }

  /** The conversions of `parse_nied_header`, in line order; the first that
      fails is the error reported. */
  function Decode(raw: RawHeader, toFloat: string -> Option<real>): (r: Result<Header, HeaderError>)
    requires |raw.texts| == 16
    ensures r.Ok? <==> (toFloat(raw.texts[6]).Some? && toFloat(raw.texts[7]).Some? && toFloat(raw.texts[8]).Some?
                        && ParseInt(raw.frequency).Some? && ParseInt(raw.texts[11]).Some?
                        && ParseScale(raw.texts[13]).Some? && toFloat(raw.texts[14]).Some?)
    ensures r.Err? && r.error.BadFloat? ==> r.error.line in {6, 7, 8, 14}
    ensures r.Err? && r.error.BadInt? ==> r.error.line in {10, 11}
    ensures r.Ok? ==> && r.value.originTime == Blank(raw.texts[0]) && r.value.eqLat == Blank(raw.texts[1])
                      && r.value.eqLon == Blank(raw.texts[2]) && r.value.eqDepth == Blank(raw.texts[3])
                      && r.value.eqMag == Blank(raw.texts[4])
    ensures r.Ok? ==> && r.value.stationCode == raw.texts[5] && Some(r.value.stationLat) == toFloat(raw.texts[6])
                      && Some(r.value.stationLon) == toFloat(raw.texts[7])
                      && Some(r.value.stationHeight) == toFloat(raw.texts[8])
    ensures r.Ok? ==> && r.value.recordTime == raw.texts[9] && Some(r.value.samplingFreq) == ParseInt(raw.frequency)
                      && Some(r.value.duration) == ParseInt(raw.texts[11]) && r.value.direction == raw.texts[12]
    ensures r.Ok? ==> && Some(r.value.scale) == ParseScale(raw.texts[13]) && Some(r.value.maxAcc) == toFloat(raw.texts[14])
                      && r.value.lastCorrection == raw.texts[15]
  {
    var t := raw.texts;
    var lat := toFloat(t[6]);
    var lon := toFloat(t[7]);
    var height := toFloat(t[8]);
    var freq := ParseInt(raw.frequency);
    var duration := ParseInt(t[11]);
    var scale := ParseScale(t[13]);
    var maxAcc := toFloat(t[14]);
    if lat.None? then Err(BadFloat(6))
    else if lon.None? then Err(BadFloat(7))
    else if height.None? then Err(BadFloat(8))
    else if freq.None? then Err(BadInt(10))
    else if duration.None? then Err(BadInt(11))
    else if scale.None? then Err(BadScale(t[13]))
    else if maxAcc.None? then Err(BadFloat(14))
    else Ok(Header(
      Blank(t[0]), Blank(t[1]), Blank(t[2]), Blank(t[3]), Blank(t[4]),
      t[5], lat.value, lon.value, height.value, t[9],
      freq.value, duration.value, t[12], scale.value, maxAcc.value, t[15]))
  }

  /** `parse_nied_header` on the lines of a file. Python's `float()` is the
      parameter `toFloat` (`None` for a `ValueError`). */
  function ParseHeader(lines: seq<string>, toFloat: string -> Option<real>): (r: Result<Header, HeaderError>)
    ensures r.Ok? <==> HeaderConvertible(lines, toFloat)
    ensures r.Err? && r.error.BadFloat? ==> r.error.line in {6, 7, 8, 14}
    ensures r.Err? && r.error.BadInt? ==> r.error.line in {10, 11}
    ensures r.Ok? ==> && r.value.originTime == Blank(FieldText(lines, 0)) && r.value.eqLat == Blank(FieldText(lines, 1))
                      && r.value.eqLon == Blank(FieldText(lines, 2)) && r.value.eqDepth == Blank(FieldText(lines, 3))
                      && r.value.eqMag == Blank(FieldText(lines, 4))
    ensures r.Ok? ==> r.value.stationCode == FieldText(lines, 5) && Trimmed(r.value.stationCode)
    ensures r.Ok? ==> && Some(r.value.stationLat) == toFloat(FieldText(lines, 6))
                      && Some(r.value.stationLon) == toFloat(FieldText(lines, 7))
                      && Some(r.value.stationHeight) == toFloat(FieldText(lines, 8))
    ensures r.Ok? ==> && r.value.recordTime == FieldText(lines, 9)
                      && Some(r.value.samplingFreq) == ParseInt(FrequencyText(lines))
                      && Some(r.value.duration) == ParseInt(FieldText(lines, 11))
                      && r.value.direction == FieldText(lines, 12)
    ensures r.Ok? ==> && Some(r.value.scale) == ParseScale(FieldText(lines, 13))
                      && Some(r.value.maxAcc) == toFloat(FieldText(lines, 14))
                      && r.value.lastCorrection == FieldText(lines, 15)
  {
    var raw := Raw(lines);
    var r := Decode(raw, toFloat);
    assert raw.texts[5] == FieldText(lines, 5);
    r
  }

  /** Only the first sixteen lines matter to the header: line 17 is read but
      unused, and the data that follows never changes it. */
  lemma HeaderReadsSixteenLines(lines: seq<string>, other: seq<string>, toFloat: string -> Option<real>)
    requires forall k: nat :: k < 16 ==> Line(lines, k) == Line(other, k)
    ensures ParseHeader(lines, toFloat) == ParseHeader(other, toFloat)
  {
    SameRaw(lines, other);
    assert ParseHeader(lines, toFloat) == Decode(Raw(lines), toFloat);
    assert ParseHeader(other, toFloat) == Decode(Raw(other), toFloat);
  }

  lemma SameRaw(lines: seq<string>, other: seq<string>)
    requires forall k: nat :: k < 16 ==> Line(lines, k) == Line(other, k)
    ensures Raw(lines) == Raw(other)
  {
    SameFields(lines, other, 0, 16);
    SameFrequency(lines, other);
    var a, b := Raw(lines), Raw(other);
    SameSeq(a.texts, b.texts);
  }

  lemma SameFrequency(lines: seq<string>, other: seq<string>)
    requires Line(lines, 10) == Line(other, 10)
    ensures FrequencyText(lines) == FrequencyText(other)
  {
    assert Field(lines, 10) == Field(other, 10);
  }

  lemma SameSeq(a: seq<string>, b: seq<string>)
    requires |a| == |b| && forall k :: 0 <= k < |a| ==> a[k] == b[k]
    ensures a == b
  {
  }

  lemma SameFields(lines: seq<string>, other: seq<string>, lo: nat, hi: nat)
    requires forall k: nat :: lo <= k < hi ==> Line(lines, k) == Line(other, k)
    ensures forall k: nat :: lo <= k < hi ==> FieldText(lines, k) == FieldText(other, k)
  {
    forall k: nat | lo <= k < hi
      ensures FieldText(lines, k) == FieldText(other, k)
    {
      assert Field(lines, k) == Field(other, k);
    }
  }

  /** A sampling frequency written as `100Hz` is read as 100. */
  lemma FrequencyWithUnit(lines: seq<string>, caption: string, f: nat)
    requires |lines| > 10 && |caption| == ValueColumn
    requires lines[10] == caption + Decimal(f) + "Hz"
    ensures ParseInt(FrequencyText(lines)) == Some(f)
  {
    assert Field(lines, 10) == Decimal(f) + "Hz" by {
      assert lines[10] == caption + (Decimal(f) + "Hz");
    }
    UnitRemoved(f);
    DecimalParses(f);
  }

  lemma UnitRemoved(f: nat)
    ensures RemoveAll(Decimal(f) + "Hz", "Hz") == Decimal(f)
  {
    var d := Decimal(f);
    assert 'H' !in d by {
      assert forall k :: 0 <= k < |d| ==> IsDigit(d[k]);
    }
    RemoveSuffix(d, "Hz");
  }

  lemma DecimalParses(f: nat)
    ensures ParseInt(Strip(Decimal(f))) == Some(f)
  {
    var d := Decimal(f);
    assert FormatInt(f) == d;
    FormatIntTrimmed(f);
    assert "" + d + "" == d;
    StripPadded("", d, "");
    SignedFormat(f);
  }

  // ----- Data part -----------------------------------------------------------

  /** The lines the data loop iterates over: whatever follows the header. */
  function DataLines(lines: seq<string>): seq<string> {
    if |lines| <= HeaderLines then [] else lines[HeaderLines..]
  }

  /** `line.strip().split()` for each data line, in file order. */
  function Rows(lines: seq<string>): (rows: seq<seq<string>>)
    ensures |rows| == |DataLines(lines)|
  {
    var body := DataLines(lines);
    seq(|body|, i requires 0 <= i < |body| => Words(Strip(body[i])))
  }

  /** `int(token)` for every token of every row; `None` where `int()` raises. */
  function Converted(rows: seq<seq<string>>): (c: seq<seq<Option<int>>>)
    ensures |c| == |rows| && forall i :: 0 <= i < |rows| ==> |c[i]| == |rows[i]|
  {
    seq(|rows|, i requires 0 <= i < |rows| =>
      seq(|rows[i]|, j requires 0 <= j < |rows[i]| => ParseInt(rows[i][j])))
  }

  /** The rows one after the other. */
  function Flatten<T>(rows: seq<seq<T>>): seq<T> {
    if |rows| == 0 then [] else Flatten(rows[..|rows| - 1]) + rows[|rows| - 1]
  }

  lemma {:induction false} FlattenAppend<T>(a: seq<seq<T>>, b: seq<seq<T>>)
    ensures Flatten(a + b) == Flatten(a) + Flatten(b)
  {
    if |b| > 0 {
      var b' := b[..|b| - 1];
      FlattenAppend(a, b');
      assert (a + b)[..|a + b| - 1] == a + b';
    } else {
      assert a + b == a;
    }
  }

  /** All conversions in order, or `None` at the first that failed. */
  function Collect(vs: seq<Option<int>>): (r: Option<seq<int>>)
    ensures r.Some? ==> |r.value| == |vs|
  {
    if |vs| == 0 then Some([])
    else
      match Collect(vs[..|vs| - 1])
      case None => None
      case Some(d) => if vs[|vs| - 1].None? then None else Some(d + [vs[|vs| - 1].value])
  }

  /** The read succeeds exactly when every token converts, and then yields
      each token's value in order. */
  lemma {:induction false} CollectSpec(vs: seq<Option<int>>)
    ensures Collect(vs).Some? <==> forall k :: 0 <= k < |vs| ==> vs[k].Some?
    ensures Collect(vs).Some? ==> forall k :: 0 <= k < |vs| ==> Collect(vs).value[k] == vs[k].value
  {
    if |vs| > 0 {
      var init := vs[..|vs| - 1];
      CollectSpec(init);
      assert forall k :: 0 <= k < |init| ==> vs[k] == init[k];
    }
  }

  lemma CollectSnoc(vs: seq<Option<int>>, d: seq<int>, v: int)
    requires Collect(vs) == Some(d)
    ensures Collect(vs + [Some(v)]) == Some(d + [v])
  {
    assert (vs + [Some(v)])[..|vs|] == vs;
  }

  lemma {:induction false} CollectFails(vs: seq<Option<int>>, more: seq<Option<int>>)
    requires Collect(vs).None?
    ensures Collect(vs + more).None?
  {
    if |more| > 0 {
      var m' := more[..|more| - 1];
      CollectFails(vs, m');
      assert (vs + more)[..|vs + more| - 1] == vs + m';
    } else {
      assert vs + more == vs;
    }
  }

  /** A count times the scale factor: an acceleration in gal. */
  function Gal(count: int, factor: real): real {
    (count as real) * factor
  }

  function ScaleAll(counts: seq<int>, factor: real): (r: seq<real>)
    ensures |r| == |counts|
  {
    seq(|counts|, k requires 0 <= k < |counts| => Gal(counts[k], factor))
  }

  lemma ScaleAllSnoc(counts: seq<int>, v: int, factor: real)
    ensures ScaleAll(counts + [v], factor) == ScaleAll(counts, factor) + [Gal(v, factor)]
  {
    var longer := counts + [v];
    assert forall k :: 0 <= k < |counts| ==> longer[k] == counts[k];
  }

  /** The factor `numerator / denominator` of a scale with a non-zero denominator. */
  function Factor(scale: Scale): real
    requires scale.denominator != 0
  {
    (scale.numerator as real) / (scale.denominator as real)
  }

  /** `parse_nied_data`: the counts after the header, in gal. A zero
      denominator is Python's `ZeroDivisionError`, raised before any data is
      read; a token `int()` refuses is a `ValueError`. */
  function Samples(lines: seq<string>, scale: Scale): Option<seq<real>> {
    if scale.denominator == 0 then None
    else
      match Collect(Flatten(Converted(Rows(lines))))
      case None => None
      case Some(c) => Some(ScaleAll(c, Factor(scale)))
  }

  /** One more converted token extends the values read so far. */
  lemma StepToken(rows: seq<seq<Option<int>>>, i: nat, j: nat, counts: seq<int>, v: int)
    requires i < |rows| && j < |rows[i]| && rows[i][j] == Some(v)
    requires Collect(Flatten(rows[..i]) + rows[i][..j]) == Some(counts)
    ensures Collect(Flatten(rows[..i]) + rows[i][..j + 1]) == Some(counts + [v])
  {
    var seen := Flatten(rows[..i]) + rows[i][..j];
    assert seen + [Some(v)] == Flatten(rows[..i]) + rows[i][..j + 1];
    CollectSnoc(seen, counts, v);
  }

  /** A finished row joins the rows read so far. */
  lemma StepRow<T>(rows: seq<seq<T>>, i: nat)
    requires i < |rows|
    ensures Flatten(rows[..i]) + rows[i][..|rows[i]|] == Flatten(rows[..i + 1])
  {
    assert rows[i][..|rows[i]|] == rows[i];
    assert rows[..i + 1][..i] == rows[..i];
  }

  /** A token that does not convert fails the whole read. */
  lemma StepFails(rows: seq<seq<Option<int>>>, i: nat, j: nat)
    requires i < |rows| && j < |rows[i]| && rows[i][j].None?
    ensures Collect(Flatten(rows)).None?
  {
    var pre, row, post := rows[..i], rows[i], rows[i + 1..];
    assert rows == pre + ([row] + post);
    FlattenAppend(pre, [row] + post);
    FlattenAppend([row], post);
    FlattenSingle(row);
    var all := Flatten(rows);
    assert all == Flatten(pre) + (row + Flatten(post));
    assert all[|Flatten(pre)| + j] == row[j];
    CollectNoneAt(all, |Flatten(pre)| + j);
  }

  lemma FlattenSingle<T>(row: seq<T>)
    ensures Flatten([row]) == row
  {
    assert [row][..0] == [];
  }

  lemma CollectNoneAt(vs: seq<Option<int>>, k: nat)
    requires k < |vs| && vs[k].None?
    ensures Collect(vs).None?
  {
    CollectSpec(vs);
  }

  /** `parse_nied_data`, line by line and token by token. */
  method ParseData(lines: seq<string>, scale: Scale) returns (r: Option<seq<real>>)
    ensures r == Samples(lines, scale)
  {
    if scale.denominator == 0 {
      return None;
    }
    var factor := Factor(scale);
    var body := DataLines(lines);
    ghost var conv := Converted(Rows(lines));
    ghost var counts: seq<int> := [];
    var data: seq<real> := [];
    var i := 0;
    while i < |body|
      invariant 0 <= i <= |body|
      invariant Collect(Flatten(conv[..i])) == Some(counts)
      invariant data == ScaleAll(counts, factor)
    {
      var words := Words(Strip(body[i]));
      assert |conv[i]| == |words|;
      assert Flatten(conv[..i]) + conv[i][..0] == Flatten(conv[..i]);
      var j := 0;
      while j < |words|
        invariant 0 <= j <= |words|
        invariant Collect(Flatten(conv[..i]) + conv[i][..j]) == Some(counts)
        invariant data == ScaleAll(counts, factor)
      {
        var v := ParseInt(words[j]);
        assert v == conv[i][j];
        if v.None? {
          StepFails(conv, i, j);
          return None;
        }
        StepToken(conv, i, j, counts, v.value);
        ScaleAllSnoc(counts, v.value, factor);
        counts := counts + [v.value];
        data := data + [Gal(v.value, factor)];
        j := j + 1;
      }
      StepRow(conv, i);
      i := i + 1;
    }
    assert conv[..i] == conv;
    return Some(data);
  }

  /** A data row as written: the counts in decimal, separated by spaces. */
  function Render(row: seq<int>): string {
    JoinSpaced(Formatted(row))
  }

  function Formatted(row: seq<int>): (ws: seq<string>)
    ensures |ws| == |row|
  {
    seq(|row|, j requires 0 <= j < |row| => FormatInt(row[j]))
  }

  function Lift(xs: seq<int>): (r: seq<Option<int>>)
    ensures |r| == |xs|
  {
    seq(|xs|, k requires 0 <= k < |xs| => Some(xs[k]))
  }

  lemma FormatIntIsWord(n: int)
    ensures |FormatInt(n)| > 0 && NoSpace(FormatInt(n))
  {
    var m: nat := if n < 0 then -n else n;
    var d := Decimal(m);
    assert forall k :: 0 <= k < |d| ==> !IsSpace(d[k]);
    if n < 0 {
      assert FormatInt(n) == "-" + d;
      assert forall k :: 1 <= k < |FormatInt(n)| ==> FormatInt(n)[k] == d[k - 1];
    }
  }

  /** Non-empty words joined by spaces neither start nor end with whitespace. */
  lemma {:induction false} JoinSpacedTrimmed(ws: seq<string>)
    requires forall k :: 0 <= k < |ws| ==> |ws[k]| > 0 && NoSpace(ws[k])
    ensures Trimmed(JoinSpaced(ws))
    ensures |ws| > 0 ==> |JoinSpaced(ws)| > 0 && JoinSpaced(ws)[0] == ws[0][0]
                         && JoinSpaced(ws)[|JoinSpaced(ws)| - 1] == ws[|ws| - 1][|ws[|ws| - 1]| - 1]
  {
    if |ws| > 1 {
      JoinSpacedTrimmed(ws[1..]);
      var j := JoinSpaced(ws[1..]);
      assert JoinSpaced(ws) == ws[0] + " " + j;
    }
  }

  /** A rendered row splits back into the decimal texts of its counts. */
  lemma RowWords(row: seq<int>)
    ensures Words(Strip(Render(row))) == Formatted(row)
  {
    var ws := Formatted(row);
    forall k | 0 <= k < |ws|
      ensures |ws[k]| > 0 && NoSpace(ws[k])
    {
      FormatIntIsWord(row[k]);
    }
    JoinSpacedTrimmed(ws);
    var j := JoinSpaced(ws);
    StripPadded("", j, "");
    assert "" + j + "" == j;
    WordsOfJoin(ws);
  }

  /** Every rendered count converts back to itself. */
  lemma RowConverts(row: seq<int>)
    ensures seq(|row|, j requires 0 <= j < |row| => ParseInt(Formatted(row)[j])) == Lift(row)
  {
    forall j | 0 <= j < |row|
      ensures ParseInt(Formatted(row)[j]) == Some(row[j])
    {
      ParseFormatted(row[j]);
    }
  }

  lemma {:induction false} CollectLift(xs: seq<int>)
    ensures Collect(Lift(xs)) == Some(xs)
  {
    if |xs| > 0 {
      var init := xs[..|xs| - 1];
      CollectLift(init);
      assert Lift(xs)[..|xs| - 1] == Lift(init);
      assert xs == init + [xs[|xs| - 1]];
    }
  }

  function LiftRows(rows: seq<seq<int>>): (r: seq<seq<Option<int>>>)
    ensures |r| == |rows|
  {
    seq(|rows|, i requires 0 <= i < |rows| => Lift(rows[i]))
  }

  lemma {:induction false} FlattenLift(rows: seq<seq<int>>)
    ensures Flatten(LiftRows(rows)) == Lift(Flatten(rows))
  {
    if |rows| > 0 {
      var init := rows[..|rows| - 1];
      FlattenLift(init);
      assert LiftRows(rows)[..|rows| - 1] == LiftRows(init);
      assert Lift(Flatten(rows)) == Lift(Flatten(init)) + Lift(rows[|rows| - 1]);
    }
  }

  /** The data lines of a file: one rendered line per row of counts. */
  function RenderRows(rows: seq<seq<int>>): (body: seq<string>)
    ensures |body| == |rows|
  {
    seq(|rows|, i requires 0 <= i < |rows| => Render(rows[i]))
  }

  /** Every token of every rendered row converts back to its count. */
  lemma RenderedRowsConvert(header: seq<string>, rows: seq<seq<int>>)
    requires |header| == HeaderLines
    ensures Converted(Rows(header + RenderRows(rows))) == LiftRows(rows)
  {
    var lines := header + RenderRows(rows);
    assert DataLines(lines) == RenderRows(rows);
    var conv := Converted(Rows(lines));
    forall i | 0 <= i < |rows|
      ensures conv[i] == LiftRows(rows)[i]
    {
      RowWords(rows[i]);
      assert Rows(lines)[i] == Formatted(rows[i]);
      RowConverts(rows[i]);
    }
  }

  /** A file of seventeen header lines followed by rows of decimal counts
      reads back as those counts, in row order, times the scale factor. */
  lemma SamplesOfRenderedRows(header: seq<string>, rows: seq<seq<int>>, scale: Scale)
    requires |header| == HeaderLines && scale.denominator != 0
    ensures Samples(header + RenderRows(rows), scale) == Some(ScaleAll(Flatten(rows), Factor(scale)))
  {
    RenderedRowsConvert(header, rows);
    FlattenLift(rows);
    CollectLift(Flatten(rows));
  }
}
