/** The string operations the query gate relies on: Python's `str.strip()`,
    `str.upper()` (ASCII letters), `str.startswith`, the `in` substring test,
    and `"\n".join` together with its inverse `split("\n")`. */
module Text {

  /** The characters Python's `str.isspace()` accepts; `str.strip()` with no
      argument removes exactly these from both ends. */
  predicate IsSpace(c: char) {
    ('\t' <= c <= '\r') || ('\U{1C}' <= c <= ' ') || c == '\U{85}' || c == '\U{A0}'
    || c == '\U{1680}' || ('\U{2000}' <= c <= '\U{200A}') || c == '\U{2028}' || c == '\U{2029}'
    || c == '\U{202F}' || c == '\U{205F}' || c == '\U{3000}'
  }

  predicate AllSpace(s: string) {
    forall i :: 0 <= i < |s| ==> IsSpace(s[i])
  }

  /** Upper-casing of one character; only the ASCII letters change. */
  function UpperChar(c: char): (u: char)
    ensures IsSpace(u) == IsSpace(c)
    ensures 'a' <= c <= 'z' ==> 'A' <= u <= 'Z'
  {
    if 'a' <= c <= 'z' then (c as int - 'a' as int + 'A' as int) as char else c
  }

  function Upper(s: string): (u: string)
    ensures |u| == |s|
    ensures forall i :: 0 <= i < |s| ==> u[i] == UpperChar(s[i])
  {
    seq(|s|, i requires 0 <= i < |s| => UpperChar(s[i]))
  }

  lemma UpperConcat(a: string, b: string)
    ensures Upper(a + b) == Upper(a) + Upper(b)
  {
    assert forall i :: 0 <= i < |a + b| ==> Upper(a + b)[i] == (Upper(a) + Upper(b))[i];
  }

  lemma UpperSlice(s: string, i: nat, j: nat)
    requires i <= j <= |s|
    ensures Upper(s[i..j]) == Upper(s)[i..j]
  {
  }

  /** Python's `s.lstrip()`: `s` without its leading whitespace. */
  function LStrip(s: string): (r: string)
    ensures |r| <= |s|
    decreases |s|
  {
    if |s| > 0 && IsSpace(s[0]) then LStrip(s[1..]) else s
  }

  /** Python's `s.rstrip()`: `s` without its trailing whitespace. */
  function RStrip(s: string): (r: string)
    ensures |r| <= |s|
    decreases |s|
  {
    if |s| > 0 && IsSpace(s[|s| - 1]) then RStrip(s[..|s| - 1]) else s
  }

  /** Python's `s.strip()`. */
  function Strip(s: string): (r: string)
    ensures |r| <= |s|
  {
    RStrip(LStrip(s))
  }

  /** `lstrip` keeps the longest suffix that does not start with whitespace:
      everything it removes is whitespace. */
  lemma {:induction false} LStripShape(s: string)
    ensures var r := LStrip(s);
      && r == s[|s| - |r|..]
      && AllSpace(s[..|s| - |r|])
      && (r == [] || !IsSpace(r[0]))
    decreases |s|
  {
    if |s| > 0 && IsSpace(s[0]) {
      LStripShape(s[1..]);
      var n := |s| - |LStrip(s)|;
      assert s[1..][n - 1..] == s[n..];
      assert s[..n] == [s[0]] + s[1..][..n - 1];
    }
  }

  /** `rstrip` keeps the longest prefix that does not end with whitespace:
      everything it removes is whitespace. */
  lemma {:induction false} RStripShape(s: string)
    ensures var r := RStrip(s);
      && r == s[..|r|]
      && AllSpace(s[|r|..])
      && (r == [] || !IsSpace(r[|r| - 1]))
    decreases |s|
  {
    if |s| > 0 && IsSpace(s[|s| - 1]) {
      var t := s[..|s| - 1];
      RStripShape(t);
      var m := |RStrip(s)|;
      assert t[..m] == s[..m];
      assert s[m..] == t[m..] + [s[|s| - 1]];
    }
  }

  /** `strip` keeps the slice of `s` that starts where the leading whitespace
      ends. */
  lemma StripSlice(s: string)
    ensures var i := |s| - |LStrip(s)|; var r := Strip(s);
      i + |r| <= |s| && r == s[i..i + |r|]
  {
    var l := LStrip(s);
    var i := |s| - |l|;
    LStripShape(s);
    RStripShape(l);
    assert Strip(s) == l[..|Strip(s)|];
  }

  /** `strip` removes only whitespace: every other character of `s` lies in
      the kept slice. */
  lemma StripKeepsNonSpace(s: string)
    ensures var i := |s| - |LStrip(s)|;
      forall j :: 0 <= j < |s| && !IsSpace(s[j]) ==> i <= j < i + |Strip(s)|
  {
    var l := LStrip(s);
    var i := |s| - |l|;
    var n := |Strip(s)|;
    LStripShape(s);
    RStripShape(l);
    assert forall m :: 0 <= m < i ==> s[..i][m] == s[m];
    assert forall m :: i + n <= m < |s| ==> l[n..][m - i - n] == s[m];
  }

  /** `strip` keeps the slice of `s` that starts where the leading whitespace
      ends; only whitespace lies outside it, and it neither starts nor ends with
      whitespace. */
  lemma StripShape(s: string)
    ensures var i := |s| - |LStrip(s)|; var r := Strip(s);
      && i + |r| <= |s| && r == s[i..i + |r|]
      && AllSpace(s[..i]) && AllSpace(s[i + |r|..])
      && (r == [] || (!IsSpace(r[0]) && !IsSpace(r[|r| - 1])))
  {
    var l := LStrip(s);
    var r := Strip(s);
    var i := |s| - |l|;
    LStripShape(s);
    RStripShape(l);
    StripSlice(s);
    assert s[i + |r|..] == l[|r|..];
    if r != [] {
      assert r[0] == l[0];
    }
  }

  /** Stripping whitespace that was added around a string gives the same
      result as stripping the string itself. */
  lemma {:induction false} LStripSpacePrefix(w: string, x: string)
    requires AllSpace(w)
    ensures LStrip(w + x) == LStrip(x)
    decreases |w|
  {
    if w != [] {
      assert (w + x)[1..] == w[1..] + x;
      LStripSpacePrefix(w[1..], x);
    } else {
      assert w + x == x;
    }
  }

  lemma {:induction false} RStripSpaceSuffix(x: string, w: string)
    requires AllSpace(w)
    ensures RStrip(x + w) == RStrip(x)
    decreases |w|
  {
    if w != [] {
      assert (x + w)[..|x + w| - 1] == x + w[..|w| - 1];
      RStripSpaceSuffix(x, w[..|w| - 1]);
    } else {
      assert x + w == x;
    }
  }

  lemma {:induction false} LStripAppend(x: string, y: string)
    ensures LStrip(x) != [] ==> LStrip(x + y) == LStrip(x) + y
    ensures LStrip(x) == [] && AllSpace(y) ==> LStrip(x + y) == []
    decreases |x|
  {
    if x == [] {
      assert x + y == y;
      if AllSpace(y) { LStripSpacePrefix(y, []); assert y + [] == y; }
    } else if IsSpace(x[0]) {
      assert (x + y)[1..] == x[1..] + y;
      LStripAppend(x[1..], y);
    }
  }

  lemma StripPadding(w1: string, q: string, w2: string)
    requires AllSpace(w1) && AllSpace(w2)
    ensures Strip(w1 + q + w2) == Strip(q)
  {
    assert w1 + q + w2 == w1 + (q + w2);
    LStripSpacePrefix(w1, q + w2);
    LStripAppend(q, w2);
    if LStrip(q) != [] {
      RStripSpaceSuffix(LStrip(q), w2);
    }
  }

  lemma {:induction false} LStripUpper(s: string)
    ensures LStrip(Upper(s)) == Upper(LStrip(s))
    decreases |s|
  {
    if |s| > 0 && IsSpace(s[0]) {
      assert Upper(s)[1..] == Upper(s[1..]);
      LStripUpper(s[1..]);
    }
  }

  lemma {:induction false} RStripUpper(s: string)
    ensures RStrip(Upper(s)) == Upper(RStrip(s))
    decreases |s|
  {
    if |s| > 0 && IsSpace(s[|s| - 1]) {
      assert Upper(s)[..|s| - 1] == Upper(s[..|s| - 1]);
      RStripUpper(s[..|s| - 1]);
    }
  }

  /** Upper-casing and stripping commute. */
  lemma StripUpper(s: string)
    ensures Strip(Upper(s)) == Upper(Strip(s))
  {
    LStripUpper(s);
    RStripUpper(LStrip(s));
  }

  lemma UpperIdempotent(s: string)
    ensures Upper(Upper(s)) == Upper(s)
  {
  }

  /** Python's `s.startswith(p)`. */
  predicate StartsWith(s: string, p: string) {
    |p| <= |s| && s[..|p|] == p
  }

  predicate OccursAt(s: string, p: string, k: nat) {
    k + |p| <= |s| && s[k..k + |p|] == p
  }

  /** Python's `p in s`. */
  predicate Contains(s: string, p: string)
    decreases |s|
  {
    StartsWith(s, p) || (|s| > 0 && Contains(s[1..], p))
  }

  /** `p in s` holds exactly when `p` occurs at some position of `s`. */
  lemma {:induction false} ContainsIff(s: string, p: string)
    ensures Contains(s, p) <==> exists k: nat :: OccursAt(s, p, k)
    decreases |s|
  {
    if StartsWith(s, p) {
      assert OccursAt(s, p, 0);
    } else if |s| > 0 {
      ContainsIff(s[1..], p);
      if Contains(s[1..], p) {
        var k: nat :| OccursAt(s[1..], p, k);
        assert s[1..][k..k + |p|] == s[k + 1..k + 1 + |p|];
        assert OccursAt(s, p, k + 1);
      }
      if k: nat :| OccursAt(s, p, k) {
        assert k != 0;
        assert s[1..][k - 1..k - 1 + |p|] == s[k..k + |p|];
        assert OccursAt(s[1..], p, k - 1);
      }
    }
  }

  predicate Solid(p: string) {
    forall i :: 0 <= i < |p| ==> !IsSpace(p[i])
  }

  /** An occurrence in the stripped string is an occurrence in the string,
      shifted by the length of the leading whitespace. */
  lemma OccurrenceOutsideStrip(s: string, p: string, k: nat)
    requires OccursAt(Strip(s), p, k)
    ensures OccursAt(s, p, |s| - |LStrip(s)| + k)
  {
    var t := Strip(s);
    var i := |s| - |LStrip(s)|;
    StripSlice(s);
    forall j | 0 <= j < |p| ensures s[i + k + j] == p[j] {
      assert t[k..k + |p|][j] == t[k + j];
    }
    assert s[i + k..i + k + |p|] == p;
  }

  /** An occurrence of a whitespace-free pattern lies inside the stripped part. */
  lemma OccurrenceInsideStrip(s: string, p: string, k: nat)
    requires p != [] && Solid(p) && OccursAt(s, p, k)
    ensures var i := |s| - |LStrip(s)|; i <= k && OccursAt(Strip(s), p, k - i)
  {
    var t := Strip(s);
    var i := |s| - |LStrip(s)|;
    var e := k + |p| - 1;
    assert s[k..k + |p|][0] == s[k] && !IsSpace(s[k]);
    assert s[k..k + |p|][|p| - 1] == s[e] && !IsSpace(s[e]);
    StripKeepsNonSpace(s);
    StripSlice(s);
    forall j | 0 <= j < |p| ensures t[k - i + j] == p[j] {
      assert s[k..k + |p|][j] == s[k + j];
    }
    assert t[k - i..k - i + |p|] == p;
  }

  /** A pattern without whitespace occurs in a string exactly when it occurs in
      the string's stripped form. */
  lemma StripKeepsSolid(s: string, p: string)
    requires p != [] && Solid(p)
    ensures Contains(Strip(s), p) <==> Contains(s, p)
  {
    var t := Strip(s);
    ContainsIff(t, p);
    ContainsIff(s, p);
    if Contains(t, p) {
      var k: nat :| OccursAt(t, p, k);
      OccurrenceOutsideStrip(s, p, k);
    }
    if Contains(s, p) {
      var k: nat :| OccursAt(s, p, k);
      OccurrenceInsideStrip(s, p, k);
    }
  }

  /** Python's `"\n".join(lines)`. */
  function JoinLines(lines: seq<string>): string
    decreases |lines|
  {
    if lines == [] then "" else if |lines| == 1 then lines[0]
    else lines[0] + "\n" + JoinLines(lines[1..])
  }

  /** Python's `s.split("\n")`: always at least one piece, and no piece holds
      a newline. */
  function SplitLines(s: string): (pieces: seq<string>)
    ensures |pieces| >= 1
    ensures forall k :: 0 <= k < |pieces| ==> '\n' !in pieces[k]
    decreases |s|
  {
    if s == [] then [""]
    else
      var rest := SplitLines(s[1..]);
      if s[0] == '\n' then [""] + rest
      else [[s[0]] + rest[0]] + rest[1..]
  }

  lemma {:induction false} SplitAfterLine(line: string, tail: string)
    requires '\n' !in line
    ensures SplitLines(line + "\n" + tail) == [line] + SplitLines(tail)
    decreases |line|
  {
    if line == [] {
      assert line + "\n" + tail == "\n" + tail;
      assert ("\n" + tail)[1..] == tail;
    } else {
      assert (line + "\n" + tail)[1..] == line[1..] + "\n" + tail;
      assert '\n' !in line[1..] by {
        forall k | 0 <= k < |line[1..]| ensures line[1..][k] != '\n' {
          assert line[1..][k] == line[k + 1];
        }
      }
      SplitAfterLine(line[1..], tail);
      assert [line[0]] + line[1..] == line;
    }
  }

  lemma {:induction false} SplitLineAlone(line: string)
    requires '\n' !in line
    ensures SplitLines(line) == [line]
    decreases |line|
  {
    if line != [] {
      assert '\n' !in line[1..] by {
        forall k | 0 <= k < |line[1..]| ensures line[1..][k] != '\n' {
          assert line[1..][k] == line[k + 1];
        }
      }
      SplitLineAlone(line[1..]);
      assert [line[0]] + line[1..] == line;
    }
  }

  /** Splitting on newlines undoes joining with newlines, as long as no line
      holds a newline of its own. */
  lemma {:induction false} SplitJoin(lines: seq<string>)
    requires lines != []
    requires forall k :: 0 <= k < |lines| ==> '\n' !in lines[k]
    ensures SplitLines(JoinLines(lines)) == lines
    decreases |lines|
  {
    if |lines| == 1 {
      SplitLineAlone(lines[0]);
    } else {
      SplitAfterLine(lines[0], JoinLines(lines[1..]));
      SplitJoin(lines[1..]);
    }
  }
}
