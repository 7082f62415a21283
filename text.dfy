/** The Python string operations the header parsers rely on, on ASCII text:
    `str.strip()`, `str.split()`, `str.split(c)`, `str.split(c, 1)`,
    `str.replace(p, '')`, `str.upper()` and `int(str)`. */
module Text {
  import opened Wrappers

  /** `str.isspace` restricted to ASCII: space, `\t \n \x0b \x0c \r` and the
      four separators `\x1c`..`\x1f`. */
  predicate IsSpace(c: char) {
    c == ' ' || 9 <= c as int <= 13 || 28 <= c as int <= 31
  }

  predicate AllSpace(s: string) {
    forall k :: 0 <= k < |s| ==> IsSpace(s[k])
  }

  predicate NoSpace(s: string) {
    forall k :: 0 <= k < |s| ==> !IsSpace(s[k])
  }

  /** Neither end of `s` is whitespace: what `strip` returns. */
  predicate Trimmed(s: string) {
    |s| > 0 ==> !IsSpace(s[0]) && !IsSpace(s[|s| - 1])
  }

  /** `str.lstrip()`. */
  function TrimLeft(s: string): (r: string)
    ensures |r| <= |s| && r == s[|s| - |r|..]
    ensures |r| > 0 ==> !IsSpace(r[0])
  {
    if |s| > 0 && IsSpace(s[0]) then TrimLeft(s[1..]) else s
  }

  /** `str.rstrip()`. */
  function TrimRight(s: string): (r: string)
    ensures |r| <= |s| && r == s[..|r|]
    ensures |r| > 0 ==> !IsSpace(r[|r| - 1])
  {
    if |s| > 0 && IsSpace(s[|s| - 1]) then TrimRight(s[..|s| - 1]) else s
  }

  /** `lstrip` removes whitespace only. */
  lemma {:induction false} TrimLeftCuts(s: string)
    ensures AllSpace(s[..|s| - |TrimLeft(s)|])
  {
    if |s| > 0 && IsSpace(s[0]) {
      var tail := s[1..];
      TrimLeftCuts(tail);
      var cut := s[..|s| - |TrimLeft(s)|];
      var tailCut := tail[..|tail| - |TrimLeft(tail)|];
      assert TrimLeft(s) == TrimLeft(tail);
      forall k | 0 <= k < |cut|
        ensures IsSpace(cut[k])
      {
        if k > 0 {
          assert cut[k] == tailCut[k - 1];
        }
      }
    }
  }

  /** `rstrip` removes whitespace only. */
  lemma {:induction false} TrimRightCuts(s: string)
    ensures AllSpace(s[|TrimRight(s)|..])
  {
    if |s| > 0 && IsSpace(s[|s| - 1]) {
      var p := s[..|s| - 1];
      TrimRightCuts(p);
      assert s[|TrimRight(s)|..] == p[|TrimRight(p)|..] + [s[|s| - 1]];
    }
  }

  /** `str.strip()`: the middle slice of `s` left once the whitespace runs at
      both ends are cut away. */
  function Strip(s: string): (r: string)
    ensures Trimmed(r)
  {
    TrimRight(TrimLeft(s))
  }

  /** What `strip` cuts away is whitespace only: its result is a slice of the
      text with nothing but whitespace on either side. */
  lemma StripSlice(s: string)
    ensures exists i :: StrippedAt(s, Strip(s), i)
  {
    var t := TrimLeft(s);
    var r := TrimRight(t);
    var i := |s| - |t|;
    TrimLeftCuts(s);
    TrimRightCuts(t);
    assert s[i..i + |r|] == r;
    assert s[i + |r|..] == t[|r|..];
    assert Strip(s) == r;
    assert StrippedAt(s, r, i);
  }

  /** `r` is the slice of `s` starting at `i`, with only whitespace around it. */
  predicate StrippedAt(s: string, r: string, i: int) {
    0 <= i <= i + |r| <= |s| && r == s[i..i + |r|] && AllSpace(s[..i]) && AllSpace(s[i + |r|..])
  }

  lemma TrimLeftPadded(a: string, t: string)
    requires AllSpace(a) && (|t| > 0 ==> !IsSpace(t[0]))
    ensures TrimLeft(a + t) == t
  {
    if |a| > 0 {
      assert (a + t)[1..] == a[1..] + t;
      TrimLeftPadded(a[1..], t);
    } else {
      assert a + t == t;
    }
  }

  lemma {:induction false} TrimRightPadded(t: string, b: string)
    requires AllSpace(b) && (|t| > 0 ==> !IsSpace(t[|t| - 1]))
    ensures TrimRight(t + b) == t
    decreases |b|
  {
    var s := t + b;
    if |b| > 0 {
      var b' := b[..|b| - 1];
      assert s[|s| - 1] == b[|b| - 1];
      assert IsSpace(s[|s| - 1]);
      assert s[..|s| - 1] == t + b';
      assert AllSpace(b') by {
        assert forall k :: 0 <= k < |b'| ==> b'[k] == b[k];
      }
      TrimRightPadded(t, b');
      assert TrimRight(s) == TrimRight(t + b');
    } else {
      assert s == t;
    }
  }

  /** Padding a trimmed text with whitespace on either side and stripping it
      gives the text back; in particular `Strip` is idempotent. */
  lemma {:induction false} StripPadded(a: string, t: string, b: string)
    requires AllSpace(a) && AllSpace(b) && Trimmed(t)
    ensures Strip(a + t + b) == t
  {
    if |t| == 0 {
      assert a + t + b == a + b;
      TrimLeftPadded(a + b, "");
      assert a + b + "" == a + b;
      assert TrimRight("") == "";
    } else {
      assert a + t + b == a + (t + b);
      TrimLeftPadded(a, t + b);
      TrimRightPadded(t, b);
    }
  }

  lemma StripIdempotent(s: string)
    ensures Strip(Strip(s)) == Strip(s)
  {
    var r := Strip(s);
    assert r == "" + r + "";
    StripPadded("", r, "");
  }

  /** Length of the leading run of non-whitespace characters. */
  function WordEnd(t: string): (n: nat)
    ensures n <= |t|
    ensures n < |t| ==> IsSpace(t[n])
  {
    if |t| == 0 || IsSpace(t[0]) then 0 else 1 + WordEnd(t[1..])
  }

  lemma {:induction false} WordEndShape(t: string)
    ensures NoSpace(t[..WordEnd(t)])
  {
    if |t| > 0 && !IsSpace(t[0]) {
      WordEndShape(t[1..]);
      assert t[..WordEnd(t)] == [t[0]] + t[1..][..WordEnd(t[1..])];
    }
  }

  /** `str.split()` with no separator: the maximal whitespace-free runs, in
      order, with no empty words. */
  function Words(s: string): seq<string>
    decreases |s|
  {
    var t := TrimLeft(s);
    if |t| == 0 then []
    else
      var n := WordEnd(t);
      [t[..n]] + Words(t[n..])
  }

  /** The words are non-empty and hold no whitespace. */
  lemma {:induction false} WordsShape(s: string)
    ensures forall k :: 0 <= k < |Words(s)| ==> |Words(s)[k]| > 0 && NoSpace(Words(s)[k])
    decreases |s|
  {
    var t := TrimLeft(s);
    if |t| > 0 {
      var n := WordEnd(t);
      assert n > 0;
      WordEndShape(t);
      var rest := t[n..];
      WordsShape(rest);
      var ws := Words(s);
      assert ws == [t[..n]] + Words(rest);
      forall k | 0 <= k < |ws|
        ensures |ws[k]| > 0 && NoSpace(ws[k])
      {
        if k > 0 {
          assert ws[k] == Words(rest)[k - 1];
        }
      }
    }
  }

  /** Words separated by single spaces: the text `str.split()` undoes. */
  function JoinSpaced(ws: seq<string>): string {
    if |ws| == 0 then ""
    else if |ws| == 1 then ws[0]
    else ws[0] + " " + JoinSpaced(ws[1..])
  }

  lemma {:induction false} WordEndOfWord(w: string, rest: string)
    requires NoSpace(w) && (|rest| > 0 ==> IsSpace(rest[0]))
    ensures WordEnd(w + rest) == |w|
    decreases |w|
  {
    var t := w + rest;
    if |w| > 0 {
      assert t[0] == w[0] && !IsSpace(t[0]);
      assert t[1..] == w[1..] + rest;
      assert NoSpace(w[1..]) by {
        forall k | 0 <= k < |w| - 1
          ensures !IsSpace(w[1..][k])
        {
          assert w[1..][k] == w[k + 1];
        }
      }
      WordEndOfWord(w[1..], rest);
      assert WordEnd(t) == 1 + WordEnd(t[1..]);
    } else {
      assert t == rest;
    }
  }

  /** A leading word is split off whole when whitespace (or nothing) follows it. */
  lemma WordsCons(w: string, rest: string)
    requires |w| > 0 && NoSpace(w) && (|rest| > 0 ==> IsSpace(rest[0]))
    ensures Words(w + rest) == [w] + Words(rest)
  {
    TrimLeftPadded("", w + rest);
    assert "" + (w + rest) == w + rest;
    WordEndOfWord(w, rest);
    assert (w + rest)[..|w|] == w;
    assert (w + rest)[|w|..] == rest;
  }

  lemma WordsAfterSpace(j: string)
    ensures Words(" " + j) == Words(j)
  {
    assert (" " + j)[1..] == j;
    assert TrimLeft(" " + j) == TrimLeft(j);
  }

  lemma WordsConsSpaced(w: string, j: string)
    requires |w| > 0 && NoSpace(w)
    ensures Words(w + (" " + j)) == [w] + Words(j)
  {
    WordsCons(w, " " + j);
    WordsAfterSpace(j);
  }

  lemma WordsOfJoinStep(ws: seq<string>)
    requires |ws| >= 2 && |ws[0]| > 0 && NoSpace(ws[0])
    requires Words(JoinSpaced(ws[1..])) == ws[1..]
    ensures Words(JoinSpaced(ws)) == ws
  {
    var j := JoinSpaced(ws[1..]);
    assert JoinSpaced(ws) == ws[0] + (" " + j);
    WordsConsSpaced(ws[0], j);
    HeadTail(ws);
  }

  lemma HeadTail<T>(s: seq<T>)
    requires |s| > 0
    ensures s == [s[0]] + s[1..]
  {
  }

  lemma WordsSingle(w: string)
    requires |w| > 0 && NoSpace(w)
    ensures Words(w) == [w]
  {
    WordsCons(w, "");
    assert w + "" == w;
    assert TrimLeft("") == "";
  }

  /** `str.split()` recovers any list of non-empty, whitespace-free words
      from their space-separated join. */
  lemma {:induction false} WordsOfJoin(ws: seq<string>)
    requires forall k :: 0 <= k < |ws| ==> |ws[k]| > 0 && NoSpace(ws[k])
    ensures Words(JoinSpaced(ws)) == ws
  {
    if |ws| == 0 {
      assert TrimLeft("") == "";
    } else if |ws| == 1 {
      WordsSingle(ws[0]);
    } else {
      WordsOfJoin(ws[1..]);
      WordsOfJoinStep(ws);
    }
  }

  /** The first position of `c` in `s`. */
  function IndexOf(s: string, c: char): (i: nat)
    requires c in s
    ensures i < |s| && s[i] == c && c !in s[..i]
  {
    if s[0] == c then 0
    else
      var i := 1 + IndexOf(s[1..], c);
      assert s[..i] == [s[0]] + s[1..][..i - 1];
      i
  }

  /** `str.split(c)`: the pieces between occurrences of `c`, never an empty list. */
  function SplitOn(s: string, c: char): (parts: seq<string>)
    ensures |parts| >= 1
    ensures forall k :: 0 <= k < |parts| ==> c !in parts[k]
    decreases |s|
  {
    if c !in s then [s]
    else
      var i := IndexOf(s, c);
      [s[..i]] + SplitOn(s[i + 1..], c)
  }

  /** `c.join(parts)`. */
  function JoinOn(parts: seq<string>, c: char): string {
    if |parts| == 0 then ""
    else if |parts| == 1 then parts[0]
    else parts[0] + [c] + JoinOn(parts[1..], c)
  }

  /** `c.join(s.split(c)) == s`. */
  lemma {:induction false} JoinSplitOn(s: string, c: char)
    ensures JoinOn(SplitOn(s, c), c) == s
    decreases |s|
  {
    if c in s {
      var i := IndexOf(s, c);
      var head, tail := s[..i], s[i + 1..];
      JoinSplitOn(tail, c);
      var rest := SplitOn(tail, c);
      assert SplitOn(s, c) == [head] + rest;
      JoinOnCons(head, rest, c);
      CutAt(s, i);
    }
  }

  lemma JoinOnCons(head: string, rest: seq<string>, c: char)
    requires |rest| >= 1
    ensures JoinOn([head] + rest, c) == head + [c] + JoinOn(rest, c)
  {
    var parts := [head] + rest;
    assert parts[0] == head && parts[1..] == rest;
  }

  lemma CutAt(s: string, i: nat)
    requires i < |s|
    ensures s == s[..i] + [s[i]] + s[i + 1..]
  {
  }

  /** `s.split(c)` takes apart any non-empty list of `c`-free pieces joined
      with `c`. */
  lemma {:induction false} SplitOnJoin(parts: seq<string>, c: char)
    requires |parts| >= 1
    requires forall k :: 0 <= k < |parts| ==> c !in parts[k]
    ensures SplitOn(JoinOn(parts, c), c) == parts
  {
    if |parts| > 1 {
      var p := parts[0];
      var tail := JoinOn(parts[1..], c);
      var s := p + [c] + tail;
      assert JoinOn(parts, c) == s;
      assert s[|p|] == c && s[..|p|] == p;
      assert c in s;
      assert IndexOf(s, c) == |p|;
      assert s[|p| + 1..] == tail;
      assert SplitOn(s, c) == [p] + SplitOn(tail, c);
      SplitOnJoin(parts[1..], c);
      assert parts == [p] + parts[1..];
    }
  }

  /** `s.split(c, 1)[1]`: everything after the first `c`; an `IndexError`
      (`None`) when `c` does not occur. */
  function AfterFirst(s: string, c: char): (r: Option<string>)
    ensures r.None? <==> c !in s
    ensures r.Some? ==> exists i :: 0 <= i < |s| && s[i] == c && c !in s[..i] && r.value == s[i + 1..]
  {
    if c !in s then None else Some(s[IndexOf(s, c) + 1..])
  }

  /** `s.split(c)[1]`: the piece between the first and second `c`; an
      `IndexError` (`None`) when `c` does not occur. */
  function SecondPiece(s: string, c: char): (r: Option<string>)
    ensures r.None? <==> c !in s
    ensures r.Some? ==> c !in r.value
  {
    var parts := SplitOn(s, c);
    if |parts| < 2 then None else Some(parts[1])
  }

  /** Both field extractions agree with `str.split`: `split(c, 1)[1]` is the
      rest of the pieces re-joined, and `split(c)[1]` is its first piece. */
  lemma AfterFirstAndSecondPiece(s: string, c: char)
    requires c in s
    ensures AfterFirst(s, c) == Some(JoinOn(SplitOn(s, c)[1..], c))
    ensures SecondPiece(s, c) == Some(SplitOn(AfterFirst(s, c).value, c)[0])
  {
    var i := IndexOf(s, c);
    var rest := s[i + 1..];
    var parts := SplitOn(s, c);
    assert parts == [s[..i]] + SplitOn(rest, c);
    assert parts[1..] == SplitOn(rest, c);
    JoinSplitOn(rest, c);
    assert AfterFirst(s, c) == Some(rest);
  }

  predicate OccursAt(p: string, s: string, i: int) {
    0 <= i && i + |p| <= |s| && s[i..i + |p|] == p
  }

  predicate Occurs(p: string, s: string) {
    exists i :: 0 <= i <= |s| && OccursAt(p, s, i)
  }

  /** `s.replace(p, '')`: occurrences of `p` removed left to right, without
      overlap; the text shrinks exactly when `p` occurs in it. */
  function RemoveAll(s: string, p: string): (r: string)
    requires |p| > 0
    ensures |r| <= |s|
    ensures Occurs(p, s) ==> |r| < |s|
    ensures !Occurs(p, s) ==> r == s
  {
    if |s| < |p| then s
    else if s[..|p|] == p then
      assert OccursAt(p, s, 0);
      RemoveAll(s[|p|..], p)
    else
      var r := [s[0]] + RemoveAll(s[1..], p);
      assert Occurs(p, s) ==> Occurs(p, s[1..]) by {
        if Occurs(p, s) {
          var i :| 0 <= i <= |s| && OccursAt(p, s, i);
          assert s[0..|p|] == s[..|p|];
          assert i > 0;
          assert s[1..][i - 1..i - 1 + |p|] == s[i..i + |p|];
          assert OccursAt(p, s[1..], i - 1);
        }
      }
      assert !Occurs(p, s) ==> r == s by {
        OccursInTail(p, s);
        HeadTail(s);
      }
      r
  }

  /** An occurrence in the tail is an occurrence in the whole text. */
  lemma OccursInTail(p: string, s: string)
    requires |s| > 0
    ensures Occurs(p, s[1..]) ==> Occurs(p, s)
  {
    if Occurs(p, s[1..]) {
      var i :| 0 <= i <= |s[1..]| && OccursAt(p, s[1..], i);
      assert s[i + 1..i + 1 + |p|] == s[1..][i..i + |p|];
      assert OccursAt(p, s, i + 1);
    }
  }

  /** A unit suffix such as `Hz` is removed from text that does not contain
      its first letter: `"100Hz".replace('Hz', '') == "100"`. */
  lemma {:induction false} RemoveSuffix(x: string, p: string)
    requires |p| > 0 && p[0] !in x
    ensures RemoveAll(x + p, p) == x
  {
    if |x| == 0 {
      assert x + p == p;
      assert p[|p|..] == "";
      assert RemoveAll("", p) == "";
    } else {
      var s := x + p;
      assert s[..|p|] != p by { assert s[0] == x[0] != p[0]; }
      assert s[1..] == x[1..] + p;
      RemoveSuffix(x[1..], p);
      assert x == [x[0]] + x[1..];
    }
  }

  /** `str.upper()` on one ASCII character. */
  function UpperChar(c: char): char {
    if 'a' <= c <= 'z' then (c as int - 32) as char else c
  }

  /** `str.upper()` on ASCII text. */
  function Upper(s: string): (r: string)
    ensures |r| == |s|
    ensures forall k :: 0 <= k < |s| ==> r[k] == UpperChar(s[k])
  {
    seq(|s|, k requires 0 <= k < |s| => UpperChar(s[k]))
  }

  /** Upper-casing twice is upper-casing once, and it never produces a
      lower-case letter. */
  lemma UpperIdempotent(s: string)
    ensures Upper(Upper(s)) == Upper(s)
    ensures forall k :: 0 <= k < |s| ==> !('a' <= Upper(s)[k] <= 'z')
  {
  }

  predicate IsDigit(c: char) {
    '0' <= c <= '9'
  }

  function DigitValue(c: char): nat
    requires IsDigit(c)
  {
    c as int - '0' as int
  }

  predicate AllDigits(t: string) {
    forall k :: 0 <= k < |t| ==> IsDigit(t[k])
  }

  /** The number a run of decimal digits spells (`int()` of it). */
  function Number(t: string): nat
    requires AllDigits(t)
  {
    if |t| == 0 then 0 else 10 * Number(t[..|t| - 1]) + DigitValue(t[|t| - 1])
  }

  /** The body `int()` accepts after the sign, read as a number: decimal
      digits, with single underscores allowed between two digits; `None` for
      anything else. */
  function DigitGroups(t: string): (r: Option<nat>)
    ensures r.Some? ==> |t| > 0 && IsDigit(t[0]) && IsDigit(t[|t| - 1])
    decreases |t|
  {
    if |t| == 0 || !IsDigit(t[|t| - 1]) then None
    else
      var d := DigitValue(t[|t| - 1]);
      if |t| == 1 then Some(d)
      else
        var p := t[..|t| - 1];
        var q := if IsDigit(p[|p| - 1]) then p else if p[|p| - 1] == '_' then p[..|p| - 1] else [];
        match DigitGroups(q)
        case None => None
        case Some(v) => Some(10 * v + d)
  }

  /** `int(s)` on ASCII text: surrounding whitespace is ignored, an optional
      sign, then digit groups; anything else is a `ValueError` (`None`). */
  function ParseInt(s: string): Option<int> {
    ParseSigned(Strip(s))
  }

  /** `int()` of text with no surrounding whitespace. */
  function ParseSigned(t: string): Option<int> {
    if |t| > 0 && (t[0] == '+' || t[0] == '-') then
      match DigitGroups(t[1..])
      case None => None
      case Some(v) => Some(if t[0] == '-' then -(v as int) else v)
    else DigitGroups(t)
  }

  /** Blank text is not a number, and a negative number is written with a
      leading minus sign. */
  lemma ParseIntShape(s: string)
    ensures AllSpace(s) ==> ParseInt(s).None?
    ensures ParseInt(s).Some? && ParseInt(s).value < 0 ==> Strip(s)[0] == '-'
  {
    if AllSpace(s) {
      StripSlice(s);
      var i :| StrippedAt(s, Strip(s), i);
      assert |Strip(s)| == 0;
    }
    SignedShape(Strip(s));
  }

  lemma SignedShape(t: string)
    ensures |t| == 0 ==> ParseSigned(t).None?
    ensures ParseSigned(t).Some? && ParseSigned(t).value < 0 ==> t[0] == '-'
  {
  }

  function DigitChar(d: nat): (c: char)
    requires d < 10
    ensures IsDigit(c) && DigitValue(c) == d
  {
    ('0' as int + d) as char
  }

  /** The decimal digits of `n`, most significant first, as `str(n)` writes them. */
  function Decimal(n: nat): (t: string)
    ensures |t| > 0 && AllDigits(t)
  {
    if n < 10 then [DigitChar(n)] else Decimal(n / 10) + [DigitChar(n % 10)]
  }

  /** `str(n)`. */
  function FormatInt(n: int): string {
    if n < 0 then "-" + Decimal(-n) else Decimal(n)
  }

  lemma {:induction false} NumberOfDecimal(n: nat)
    ensures Number(Decimal(n)) == n
  {
    if n >= 10 {
      NumberOfDecimal(n / 10);
      var t := Decimal(n);
      assert t[..|t| - 1] == Decimal(n / 10);
    }
  }

  /** A plain run of digits is valid digit groups with its ordinary value. */
  lemma {:induction false} DigitGroupsOfDigits(t: string)
    requires |t| > 0 && AllDigits(t)
    ensures DigitGroups(t) == Some(Number(t))
  {
    if |t| > 1 {
      DigitGroupsOfDigits(t[..|t| - 1]);
    }
  }

  lemma DecimalValue(n: nat)
    ensures DigitGroups(Decimal(n)) == Some(n)
  {
    NumberOfDecimal(n);
    DigitGroupsOfDigits(Decimal(n));
  }

  /** `int()` strips its argument itself, so stripping first changes nothing. */
  lemma ParseIntOfStripped(s: string)
    ensures ParseInt(Strip(s)) == ParseInt(s)
  {
    StripIdempotent(s);
  }

  /** `int(str(n)) == n`, also with whitespace around the text. */
  lemma ParseFormatInt(n: int, a: string, b: string)
    requires AllSpace(a) && AllSpace(b)
    ensures ParseInt(a + FormatInt(n) + b) == Some(n)
  {
    FormatIntTrimmed(n);
    StripPadded(a, FormatInt(n), b);
    SignedFormat(n);
  }

  /** `int(str(n)) == n`. */
  lemma ParseFormatted(n: int)
    ensures ParseInt(FormatInt(n)) == Some(n)
  {
    var f := FormatInt(n);
    FormatIntTrimmed(n);
    assert "" + f + "" == f;
    StripPadded("", f, "");
    SignedFormat(n);
  }

  lemma FormatIntTrimmed(n: int)
    ensures Trimmed(FormatInt(n))
  {
    var f := FormatInt(n);
    var m: nat := if n < 0 then -n else n;
    var d := Decimal(m);
    assert f[|f| - 1] == d[|d| - 1];
  }

  lemma SignedFormat(n: int)
    ensures ParseSigned(FormatInt(n)) == Some(n)
  {
    var f := FormatInt(n);
    var m: nat := if n < 0 then -n else n;
    var d := Decimal(m);
    DecimalValue(m);
    if n < 0 {
      assert f[0] == '-' && f[1..] == d;
    } else {
      assert f == d && IsDigit(f[0]);
    }
  }
}
