/** Turning a directory of NIED files into stations: file names are grouped
    by recording (the stem) and component (the upper-cased suffix), only
    complete groups of three are processed, and a station's three
    components are cut to a common length before their peaks are taken. */
module Stations {
  import opened Wrappers
  import opened Text
  import opened NumPy
  import Nied
  import Peaks

  /** `s.rfind(c)`: the last position of `c`, or -1. */
  function RFind(s: string, c: char): (i: int)
    ensures -1 <= i < |s|
    ensures i >= 0 ==> s[i] == c
    ensures forall k :: i < k < |s| ==> s[k] != c
  {
    if |s| == 0 then -1
    else if s[|s| - 1] == c then |s| - 1
    else
      var p := s[..|s| - 1];
      var i := RFind(p, c);
      assert forall k :: i < k < |s| - 1 ==> s[k] == p[k];
      i
  }

  /** `PurePath(name).suffix`: from the last dot, unless that dot is the
      first or the last character. */
  function Suffix(name: string): string {
    var i := RFind(name, '.');
    if 0 < i < |name| - 1 then name[i..] else ""
  }

  /** `PurePath(name).stem`: the name without its suffix. */
  function Stem(name: string): string {
    var i := RFind(name, '.');
    if 0 < i < |name| - 1 then name[..i] else name
  }

  /** A name is its stem followed by its suffix, and a suffix is either
      empty or a dot followed by at least one character, none a dot. */
  lemma StemSuffix(name: string)
    ensures Stem(name) + Suffix(name) == name
    ensures Suffix(name) == "" || (|Suffix(name)| >= 2 && Suffix(name)[0] == '.' && '.' !in Suffix(name)[1..])
  {
    var i := RFind(name, '.');
    if 0 < i < |name| - 1 {
      assert name[..i] + name[i..] == name;
      assert name[i..][1..] == name[i + 1..];
    }
  }

  /** The component suffixes of one recording. */
  const Components: set<string> := {".EW", ".NS", ".UD"}

  /** One recording: upper-cased suffix to file name. */
  type Group = map<string, string>

  /** One step of the grouping loop: a file of a known component is filed
      under its stem, replacing an earlier file of the same component. */
  function AddFile(groups: map<string, Group>, f: string): map<string, Group> {
    var key := Upper(Suffix(f));
    if key in Components then
      var base := Stem(f);
      var g := if base in groups then groups[base] else map[];
      groups[base := g[key := f]]
    else groups
  }

  /** `station_groups` after the grouping loop over `files`. */
  function Groups(files: seq<string>): map<string, Group> {
    if |files| == 0 then map[] else AddFile(Groups(files[..|files| - 1]), files[|files| - 1])
  }

  /** `f` belongs to recording `base` as component `key`. */
  predicate Files(f: string, base: string, key: string) {
    Stem(f) == base && Upper(Suffix(f)) == key && key in Components
  }

  /** Every entry of the grouping is a file of that stem and component. */
  lemma {:induction false} GroupsSound(files: seq<string>, b: string, k: string)
    requires b in Groups(files) && k in Groups(files)[b]
    ensures Groups(files)[b][k] in files && Files(Groups(files)[b][k], b, k)
  {
    var init := files[..|files| - 1];
    var f := files[|files| - 1];
    assert files == init + [f];
    var g := Groups(init);
    if !(b in g && k in g[b] && Groups(files)[b][k] == g[b][k]) {
      assert Groups(files)[b][k] == f;
    } else {
      GroupsSound(init, b, k);
    }
  }

  /** Grouping one more file keeps every entry already made. */
  lemma AddFileKeeps(groups: map<string, Group>, f: string, b: string, k: string)
    requires b in groups && k in groups[b]
    ensures b in AddFile(groups, f) && k in AddFile(groups, f)[b]
  {
  }

  /** Every file of a known component is filed under its stem. */
  lemma {:induction false} GroupsComplete(files: seq<string>, i: nat)
    requires i < |files| && Upper(Suffix(files[i])) in Components
    ensures Stem(files[i]) in Groups(files) && Upper(Suffix(files[i])) in Groups(files)[Stem(files[i])]
  {
    var init := files[..|files| - 1];
    var f := files[|files| - 1];
    if i < |files| - 1 {
      assert init[i] == files[i];
      GroupsComplete(init, i);
      AddFileKeeps(Groups(init), f, Stem(files[i]), Upper(Suffix(files[i])));
    }
  }

  lemma {:induction false} GroupsNonEmpty(files: seq<string>, b: string)
    requires b in Groups(files)
    ensures |Groups(files)[b]| > 0
  {
    var init := files[..|files| - 1];
    var f := files[|files| - 1];
    var g := Groups(init);
    if b in g && Groups(files)[b] == g[b] {
      GroupsNonEmpty(init, b);
    } else {
      assert Upper(Suffix(f)) in Groups(files)[b];
    }
  }

  /** The grouping files every `.EW`/`.NS`/`.UD` name (any letter case) under
      its stem, keeps nothing else, and each entry is a file of that stem and
      component. */
  lemma GroupsSpec(files: seq<string>)
    ensures forall b, k :: b in Groups(files) && k in Groups(files)[b] ==>
              Groups(files)[b][k] in files && Files(Groups(files)[b][k], b, k)
    ensures forall f :: f in files && Upper(Suffix(f)) in Components ==>
              Stem(f) in Groups(files) && Upper(Suffix(f)) in Groups(files)[Stem(f)]
    ensures forall b :: b in Groups(files) ==> Groups(files)[b].Keys <= Components && |Groups(files)[b]| > 0
  {
    var groups := Groups(files);
    forall b, k | b in groups && k in groups[b]
      ensures groups[b][k] in files && Files(groups[b][k], b, k)
    {
      GroupsSound(files, b, k);
    }
    forall f | f in files && Upper(Suffix(f)) in Components
      ensures Stem(f) in groups && Upper(Suffix(f)) in groups[Stem(f)]
    {
      var i :| 0 <= i < |files| && files[i] == f;
      GroupsComplete(files, i);
    }
    forall b | b in groups
      ensures groups[b].Keys <= Components && |groups[b]| > 0
    {
      GroupsNonEmpty(files, b);
    }
  }

  /** `len(components) != 3` is the same as "some component is missing". */
  lemma CompleteGroup(g: Group)
    requires g.Keys <= Components
    ensures |g| == 3 <==> g.Keys == Components
  {
    assert ".EW"[1] == 'E' && ".NS"[1] == 'N' && ".UD"[1] == 'U';
    assert |Components| == 3;
    assert |g| == |g.Keys|;
    if g.Keys != Components {
      var x :| x in Components && x !in g.Keys;
      SubsetCardinality(g.Keys, Components - {x});
      assert |Components - {x}| == 2;
    }
  }

  /** The grouping loop of `process_all_nied`. */
  method GroupStations(files: seq<string>) returns (groups: map<string, Group>)
    ensures groups == Groups(files)
  {
    groups := map[];
    var i := 0;
    while i < |files|
      invariant 0 <= i <= |files|
      invariant groups == Groups(files[..i])
    {
      var f := files[i];
      ghost var before := groups;
      var key := Upper(Suffix(f));
      if key in Components {
        var base := Stem(f);
        if base !in groups {
          groups := groups[base := map[]];
        }
        groups := groups[base := groups[base][key := f]];
      }
      assert groups == AddFile(before, f);
      assert files[..i + 1][..i] == files[..i] && files[..i + 1][i] == f;
      assert Groups(files[..i + 1]) == AddFile(Groups(files[..i]), f);
      i := i + 1;
    }
    assert files[..i] == files;
  }

  /** The recordings that are complete and that `process` handles
      successfully. */
  function Successes(groups: map<string, Group>, process: (string, Group) -> bool): set<string> {
    set b | b in groups && |groups[b]| == 3 && process(b, groups[b])
  }

  /** The counting loop of `process_all_nied`: incomplete groups are skipped
      and `success_count` counts the rest that `process_nied_station`
      reports as done. The order of the recordings does not matter. */
  method CountSuccesses(groups: map<string, Group>, process: (string, Group) -> bool) returns (count: nat)
    ensures count == |Successes(groups, process)|
  {
    count := 0;
    var remaining := groups.Keys;
    ghost var done: set<string> := {};
    ghost var wins := Successes(groups, process);
    while remaining != {}
      invariant remaining + done == groups.Keys && remaining !! done
      invariant count == |wins * done|
      decreases |remaining|
    {
      var b :| b in remaining;
      var succeeded := |groups[b]| == 3 && process(b, groups[b]);
      SuccessMember(groups, process, b);
      IntersectStep(wins, done, b);
      MoveOne(remaining, done, b);
      if succeeded {
        count := count + 1;
      }
      remaining := remaining - {b};
      done := done + {b};
    }
    assert wins * done == wins;
  }

  lemma SuccessMember(groups: map<string, Group>, process: (string, Group) -> bool, b: string)
    requires b in groups
    ensures b in Successes(groups, process) <==> |groups[b]| == 3 && process(b, groups[b])
  {
  }

  lemma MoveOne<T>(remaining: set<T>, done: set<T>, b: T)
    requires b in remaining && remaining !! done
    ensures b !in done
    ensures (remaining - {b}) + (done + {b}) == remaining + done && (remaining - {b}) !! (done + {b})
  {
  }

  lemma IntersectStep<T>(s: set<T>, done: set<T>, b: T)
    requires b !in done
    ensures b in s ==> |s * (done + {b})| == |s * done| + 1
    ensures b !in s ==> s * (done + {b}) == s * done
  {
    if b in s {
      assert s * (done + {b}) == (s * done) + {b};
    }
  }

  lemma {:induction false} SubsetCardinality<T>(a: set<T>, b: set<T>)
    requires a <= b
    ensures |a| <= |b|
    decreases |b|
  {
    if a != {} {
      var x :| x in a;
      SubsetCardinality(a - {x}, b - {x});
    }
  }

  /** The count never exceeds the number of complete recordings, and a
      recording is complete exactly when all three components were seen. */
  lemma SuccessesBound(files: seq<string>, process: (string, Group) -> bool)
    ensures |Successes(Groups(files), process)| <= |set b | b in Groups(files) && Groups(files)[b].Keys == Components|
  {
    var groups := Groups(files);
    GroupsSpec(files);
    forall b | b in Successes(groups, process)
      ensures groups[b].Keys == Components
    {
      CompleteGroup(groups[b]);
    }
    SubsetCardinality(Successes(groups, process), set b | b in groups && groups[b].Keys == Components);
  }

  // ----- One station --------------------------------------------------------

  /** `x[:m]` for each component, with `m` the shortest length. */
  function TrimToCommon(ew: seq<real>, ns: seq<real>, ud: seq<real>): (r: (seq<real>, seq<real>, seq<real>))
    ensures |r.0| == |r.1| == |r.2|
    ensures r.0 <= ew && r.1 <= ns && r.2 <= ud
    ensures r.0 == ew || r.1 == ns || r.2 == ud
  {
    var m := if |ew| <= |ns| && |ew| <= |ud| then |ew| else if |ns| <= |ud| then |ns| else |ud|;
    (ew[..m], ns[..m], ud[..m])
  }

  /** The common length is the longest one all three components have:
      trimming keeps every common prefix, and trimming twice changes nothing. */
  lemma TrimKeepsCommonPrefix(ew: seq<real>, ns: seq<real>, ud: seq<real>, n: nat)
    requires n <= |ew| && n <= |ns| && n <= |ud|
    ensures n <= |TrimToCommon(ew, ns, ud).0|
    ensures var t := TrimToCommon(ew, ns, ud); TrimToCommon(t.0, t.1, t.2) == t
  {
    var t := TrimToCommon(ew, ns, ud);
    assert t.0[..|t.0|] == t.0 && t.1[..|t.1|] == t.1 && t.2[..|t.2|] == t.2;
  }

  /** A processed station: its code, the EW header, the three components in
      gal with a common length, and their peaks. */
  datatype Station = Station(code: string, header: Nied.Header, ns: seq<real>, ew: seq<real>, ud: seq<real>, peaks: Peaks.PeakSet)

  /** One component file: its header, then its data part in gal with the
      header's own scale. */
  function Component(lines: seq<string>, toFloat: string -> Option<real>): (r: Option<(Nied.Header, seq<real>)>)
    ensures r.None? ==> Nied.ParseHeader(lines, toFloat).Err?
                        || Nied.Samples(lines, Nied.ParseHeader(lines, toFloat).value.scale).None?
    ensures r.Some? ==> Nied.ParseHeader(lines, toFloat) == Ok(r.value.0)
                        && Nied.Samples(lines, r.value.0.scale) == Some(r.value.1)
  {
    match Nied.ParseHeader(lines, toFloat)
    case Err(_) => None
    case Ok(h) =>
      match Nied.Samples(lines, h.scale)
      case None => None
      case Some(data) => Some((h, data))
  }

  /** The three components cut to a common length, and their peaks; an
      empty record fails (its first time stamp does not exist). */
  function Assemble(lib: Library, header: Nied.Header, ew: seq<real>, ns: seq<real>, ud: seq<real>): (r: Option<Station>)
    requires SqrtLaw(lib)
    ensures r.Some? <==> |ew| > 0 && |ns| > 0 && |ud| > 0
    ensures r.Some? ==> |r.value.ns| == |r.value.ew| == |r.value.ud| > 0
    ensures r.Some? ==> r.value.header == header && r.value.code == header.stationCode
    ensures r.Some? ==> r.value.ew <= ew && r.value.ns <= ns && r.value.ud <= ud
    ensures r.Some? ==> (r.value.ew, r.value.ns, r.value.ud) == TrimToCommon(ew, ns, ud)
    ensures r.Some? ==> Peaks.Summary(lib, r.value.ns, r.value.ew, r.value.ud) == Some(r.value.peaks)
  {
    var t := TrimToCommon(ew, ns, ud);
    if |t.0| == 0 then None
    else
      var peaks := Peaks.Summary(lib, t.1, t.0, t.2);
      Some(Station(header.stationCode, header, t.1, t.0, t.2, peaks.value))
  }

  /** The time stamps of the EW header can be generated:
      `datetime.strptime(record_time, "%Y/%m/%d %H:%M:%S")` accepts the
      record time (the parameter `parsesTime`) and `1 / sampling_freq` does
      not divide by zero. */
  predicate Timestamps(h: Nied.Header, parsesTime: string -> bool) {
    parsesTime(h.recordTime) && h.samplingFreq != 0
  }

  /** The earthquake block of the metadata: when the origin time is given,
      every non-blank hypocentre field goes through `float()`. */
  predicate EarthquakeConverts(h: Nied.Header, toFloat: string -> Option<real>) {
    h.originTime.Some? ==>
      && (h.eqLat.Some? ==> toFloat(h.eqLat.value).Some?)
      && (h.eqLon.Some? ==> toFloat(h.eqLon.value).Some?)
      && (h.eqDepth.Some? ==> toFloat(h.eqDepth.value).Some?)
      && (h.eqMag.Some? ==> toFloat(h.eqMag.value).Some?)
  }

  /** The computations of `process_nied_station`: three headers, three data
      parts each with its own scale, a common length, the time stamps, the
      peaks and the earthquake block. Any failure makes it report `False`
      (`None`); the station code and the header come from the EW file.
      Python's `float()` and the `strptime` test are the parameters
      `toFloat` and `parsesTime`. */
  function LoadStation(lib: Library, ewLines: seq<string>, nsLines: seq<string>, udLines: seq<string>,
                       toFloat: string -> Option<real>, parsesTime: string -> bool): (r: Option<Station>)
    requires SqrtLaw(lib)
    ensures r.Some? <==> && Component(ewLines, toFloat).Some? && Component(nsLines, toFloat).Some?
                         && Component(udLines, toFloat).Some?
                         && |Component(ewLines, toFloat).value.1| > 0 && |Component(nsLines, toFloat).value.1| > 0
                         && |Component(udLines, toFloat).value.1| > 0
                         && Timestamps(Component(ewLines, toFloat).value.0, parsesTime)
                         && EarthquakeConverts(Component(ewLines, toFloat).value.0, toFloat)
    ensures r.Some? ==> r == Assemble(lib, Component(ewLines, toFloat).value.0, Component(ewLines, toFloat).value.1,
                                      Component(nsLines, toFloat).value.1, Component(udLines, toFloat).value.1)
  {
    var ew := Component(ewLines, toFloat);
    var ns := Component(nsLines, toFloat);
    var ud := Component(udLines, toFloat);
    if ew.None? || ns.None? || ud.None? then None
    else if !Timestamps(ew.value.0, parsesTime) || !EarthquakeConverts(ew.value.0, toFloat) then None
    else Assemble(lib, ew.value.0, ew.value.1, ns.value.1, ud.value.1)
  }
}
