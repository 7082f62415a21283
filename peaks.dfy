/** Peak extraction: the signed peak of one component and the peaks of the
    horizontal (two-axis) and total (three-axis) vector norms. The same helpers
    appear in the conversion script and, unchanged, in the integration script. */
module Peaks {
  import opened Wrappers
  import opened Complexes
  import opened Series
  import opened NumPy

  /** `i` is where `np.argmax(np.abs(s))` stops: a sample of largest magnitude
      with no earlier sample of the same magnitude. */
  ghost predicate IsFirstPeakIndex(s: seq<real>, i: int) {
    && 0 <= i < |s|
    && (forall j :: 0 <= j < |s| ==> Abs(s[j]) <= Abs(s[i]))
    && (forall j :: 0 <= j < i ==> Abs(s[j]) < Abs(s[i]))
  }

  /** `np.argmax(np.abs(s))` for a non-empty series. */
  function ArgMaxAbs(s: seq<real>): (i: nat)
    requires |s| > 0
    ensures IsFirstPeakIndex(s, i)
  {
    if |s| == 1 then 0
    else
      var k := ArgMaxAbs(s[..|s| - 1]);
      if Abs(s[|s| - 1]) > Abs(s[k]) then |s| - 1 else k
  }

  /** At most one index is the first peak index, so the contract of
      `ArgMaxAbs` fixes its result. */
  lemma FirstPeakIndexUnique(s: seq<real>, i: int, j: int)
    requires IsFirstPeakIndex(s, i) && IsFirstPeakIndex(s, j)
    ensures i == j
  {
    assert Abs(s[j]) <= Abs(s[i]);
    assert Abs(s[i]) <= Abs(s[j]);
  }

  /** `calc_signed_peak`: the sample of largest magnitude, sign kept, first
      occurrence on ties. numpy raises on an empty series: `None`. */
  function SignedPeak(s: seq<real>): (r: Option<real>)
    ensures r.None? <==> |s| == 0
    ensures r.Some? ==> exists i :: IsFirstPeakIndex(s, i) && r.value == s[i]
  {
    if |s| == 0 then None else Some(s[ArgMaxAbs(s)])
  }

  /** The signed peak's magnitude is the series' largest magnitude. */
  lemma SignedPeakMagnitude(s: seq<real>)
    requires |s| > 0
    ensures SignedPeak(s).Some? && Abs(SignedPeak(s).value) == MaxAbs(s)
  {
    var i := ArgMaxAbs(s);
    var m := MaxAbs(s);
    var j :| 0 <= j < |s| && Abs(s[j]) == m;
    assert Abs(s[j]) <= Abs(s[i]) <= m;
  }

  /** `np.sqrt(a**2 + b**2)` for one sample. */
  function Norm2(lib: Library, a: real, b: real): real {
    lib.sqrt(a * a + b * b)
  }

  /** `np.sqrt(a**2 + b**2 + c**2)` for one sample. */
  function Norm3(lib: Library, a: real, b: real, c: real): real {
    lib.sqrt(a * a + b * b + c * c)
  }

  function HorizontalNorms(lib: Library, ns: seq<real>, ew: seq<real>): (r: seq<real>)
    requires |ns| == |ew|
    ensures |r| == |ns|
  {
    seq(|ns|, i requires 0 <= i < |ns| => Norm2(lib, ns[i], ew[i]))
  }

  function TotalNorms(lib: Library, ns: seq<real>, ew: seq<real>, ud: seq<real>): (r: seq<real>)
    requires |ns| == |ew| == |ud|
    ensures |r| == |ns|
  {
    seq(|ns|, i requires 0 <= i < |ns| => Norm3(lib, ns[i], ew[i], ud[i]))
  }

  lemma NormsNonNegative(lib: Library, a: real, b: real, c: real)
    requires SqrtLaw(lib)
    ensures a * a + b * b >= 0.0 && a * a + b * b + c * c >= a * a + b * b
    ensures 0.0 <= Norm2(lib, a, b) <= Norm3(lib, a, b, c)
    ensures Abs(a) <= Norm2(lib, a, b) && Abs(b) <= Norm2(lib, a, b)
  {
    SquareNonNegative(a);
    SquareNonNegative(b);
    SquareNonNegative(c);
    SqrtMonotone(lib, a * a + b * b, a * a + b * b + c * c);
    SqrtMonotone(lib, a * a, a * a + b * b);
    SqrtMonotone(lib, b * b, a * a + b * b);
    SqrtUnique(lib, a * a, Abs(a));
    SqrtUnique(lib, b * b, Abs(b));
  }

  /** `calc_peak_horizontal`: the largest horizontal norm over the record,
      never negative. numpy raises on an empty record: `None`. */
  function PeakHorizontal(lib: Library, ns: seq<real>, ew: seq<real>): (r: Option<real>)
    requires SqrtLaw(lib)
    requires |ns| == |ew|
    ensures r.None? <==> |ns| == 0
    ensures r.Some? ==> r.value >= 0.0
    ensures r.Some? ==> forall i :: 0 <= i < |ns| ==> Norm2(lib, ns[i], ew[i]) <= r.value
    ensures r.Some? ==> exists i :: 0 <= i < |ns| && Norm2(lib, ns[i], ew[i]) == r.value
  {
    if |ns| == 0 then None
    else
      var norms := HorizontalNorms(lib, ns, ew);
      NormsNonNegative(lib, ns[0], ew[0], 0.0);
      var m := Max(norms);
      assert norms[0] <= m;
      assert forall i :: 0 <= i < |ns| ==> Norm2(lib, ns[i], ew[i]) == norms[i] <= m;
      Some(m)
  }

  /** `calc_peak_total`: the largest three-axis norm over the record, never
      negative. numpy raises on an empty record: `None`. */
  function PeakTotal(lib: Library, ns: seq<real>, ew: seq<real>, ud: seq<real>): (r: Option<real>)
    requires SqrtLaw(lib)
    requires |ns| == |ew| == |ud|
    ensures r.None? <==> |ns| == 0
    ensures r.Some? ==> r.value >= 0.0
    ensures r.Some? ==> forall i :: 0 <= i < |ns| ==> Norm3(lib, ns[i], ew[i], ud[i]) <= r.value
    ensures r.Some? ==> exists i :: 0 <= i < |ns| && Norm3(lib, ns[i], ew[i], ud[i]) == r.value
  {
    if |ns| == 0 then None
    else
      var norms := TotalNorms(lib, ns, ew, ud);
      NormsNonNegative(lib, ns[0], ew[0], ud[0]);
      var m := Max(norms);
      assert norms[0] <= m;
      assert forall i :: 0 <= i < |ns| ==> Norm3(lib, ns[i], ew[i], ud[i]) == norms[i] <= m;
      Some(m)
  }

  /** For the same aligned components, the total peak is at least the
      horizontal peak, which is at least either horizontal component's peak magnitude. */
  lemma PeakOrdering(lib: Library, ns: seq<real>, ew: seq<real>, ud: seq<real>)
    requires SqrtLaw(lib)
    requires |ns| == |ew| == |ud| > 0
    ensures PeakTotal(lib, ns, ew, ud).value >= PeakHorizontal(lib, ns, ew).value
    ensures PeakHorizontal(lib, ns, ew).value >= MaxAbs(ns)
    ensures PeakHorizontal(lib, ns, ew).value >= MaxAbs(ew)
  {
    var h := PeakHorizontal(lib, ns, ew).value;
    var i :| 0 <= i < |ns| && Norm2(lib, ns[i], ew[i]) == h;
    NormsNonNegative(lib, ns[i], ew[i], ud[i]);
    var j :| 0 <= j < |ns| && Abs(ns[j]) == MaxAbs(ns);
    NormsNonNegative(lib, ns[j], ew[j], ud[j]);
    var k :| 0 <= k < |ew| && Abs(ew[k]) == MaxAbs(ew);
    NormsNonNegative(lib, ns[k], ew[k], ud[k]);
  }

  /** The five peaks the scripts store per derived quantity. */
  datatype PeakSet = PeakSet(ns: real, ew: real, ud: real, h: real, total: real)

  /** The `max_acceleration` (and calculated velocity / displacement) summary:
      signed component peaks and the two combined peaks, which dominate them. */
  function Summary(lib: Library, ns: seq<real>, ew: seq<real>, ud: seq<real>): (r: Option<PeakSet>)
    requires SqrtLaw(lib)
    requires |ns| == |ew| == |ud|
    ensures r.None? <==> |ns| == 0
    ensures r.Some? ==> Abs(r.value.ns) <= r.value.h && Abs(r.value.ew) <= r.value.h
    ensures r.Some? ==> 0.0 <= r.value.h <= r.value.total && Abs(r.value.ud) <= r.value.total
  {
    if |ns| == 0 then None
    else
      SignedPeakMagnitude(ns);
      SignedPeakMagnitude(ew);
      SignedPeakMagnitude(ud);
      PeakOrdering(lib, ns, ew, ud);
      PeakOrdering(lib, ud, ew, ns);
      TotalSymmetric(lib, ns, ew, ud);
      Some(PeakSet(SignedPeak(ns).value, SignedPeak(ew).value, SignedPeak(ud).value,
                   PeakHorizontal(lib, ns, ew).value, PeakTotal(lib, ns, ew, ud).value))
  }

  /** The three-axis norm does not depend on which component is named first. */
  lemma TotalSymmetric(lib: Library, ns: seq<real>, ew: seq<real>, ud: seq<real>)
    requires SqrtLaw(lib)
    requires |ns| == |ew| == |ud| > 0
    ensures PeakTotal(lib, ns, ew, ud) == PeakTotal(lib, ud, ew, ns)
  {
    assert TotalNorms(lib, ns, ew, ud) == TotalNorms(lib, ud, ew, ns) by {
      forall i | 0 <= i < |ns|
        ensures Norm3(lib, ns[i], ew[i], ud[i]) == Norm3(lib, ud[i], ew[i], ns[i])
      {
        assert ns[i] * ns[i] + ew[i] * ew[i] + ud[i] * ud[i] == ud[i] * ud[i] + ew[i] * ew[i] + ns[i] * ns[i];
      }
    }
  }
}
