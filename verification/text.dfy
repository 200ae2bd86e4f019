/** The four Python `str` operations the SSE helpers rely on: `strip()`,
    `splitlines()`, `startswith` and the substring test `t in s`. The
    character classes are Python's own: `str.isspace` and the line
    boundaries `str.splitlines` recognises. */
module Text {

  /** `c.isspace()` in Python. */
  predicate IsSpace(c: char) {
    || ('\U{9}' <= c <= '\U{D}')
    || ('\U{1C}' <= c <= ' ')
    || c == '\U{85}' || c == '\U{A0}' || c == '\U{1680}'
    || ('\U{2000}' <= c <= '\U{200A}')
    || c == '\U{2028}' || c == '\U{2029}' || c == '\U{202F}'
    || c == '\U{205F}' || c == '\U{3000}'
  }

  /** A character `str.splitlines` treats as a line boundary (`\r\n` is the
      one two-character boundary, handled in `SplitLines`). */
  predicate IsLineBreak(c: char) {
    || c == '\n' || c == '\r' || c == '\U{B}' || c == '\U{C}'
    || c == '\U{1C}' || c == '\U{1D}' || c == '\U{1E}'
    || c == '\U{85}' || c == '\U{2028}' || c == '\U{2029}'
  }

  predicate AllSpace(s: string) {
    forall k :: 0 <= k < |s| ==> IsSpace(s[k])
  }

  predicate NoLineBreak(s: string) {
    forall k :: 0 <= k < |s| ==> !IsLineBreak(s[k])
  }

  // ---------------------------------------------------------------- strip

  /** `s.lstrip()`: drop the leading whitespace. */
  function TrimStart(s: string): (r: string)
    ensures |r| <= |s|
    ensures r != [] ==> !IsSpace(r[0])
  {
    if |s| > 0 && IsSpace(s[0]) then TrimStart(s[1..]) else s
  }

  /** `s.rstrip()`: drop the trailing whitespace. */
  function TrimEnd(s: string): (r: string)
    ensures |r| <= |s|
    ensures r != [] ==> !IsSpace(r[|r| - 1]) && r[0] == s[0]
  {
    if |s| > 0 && IsSpace(s[|s| - 1]) then TrimEnd(s[..|s| - 1]) else s
  }

  /** Neither end of `p` is whitespace, and `p` is not empty. */
  predicate Trimmed(p: string) {
    |p| > 0 && !IsSpace(p[0]) && !IsSpace(p[|p| - 1])
  }

  /** `s.strip()`: remove leading and trailing whitespace. */
  function Strip(s: string): (r: string)
    ensures |r| <= |s|
    ensures r != [] ==> Trimmed(r)
  {
    TrimEnd(TrimStart(s))
  }

  /** `r` is `s[i..j]` with only whitespace outside it. */
  ghost predicate StripSplit(s: string, r: string, i: int, j: int) {
    0 <= i <= j <= |s| && r == s[i..j] && AllSpace(s[..i]) && AllSpace(s[j..])
  }

  /** `s` is `pre + r + post` where the outer parts are whitespace and `r`
      neither starts nor ends with whitespace: what `s.strip()` returns. */
  ghost predicate IsStripOf(s: string, r: string) {
    && (exists i, j :: StripSplit(s, r, i, j))
    && (r != [] ==> Trimmed(r))
  }

  /** `TrimStart` drops a whitespace prefix. */
  lemma {:induction false} TrimStartDropsSpace(s: string)
    ensures TrimStart(s) == s[|s| - |TrimStart(s)|..]
    ensures AllSpace(s[..|s| - |TrimStart(s)|])
  {
    if |s| > 0 && IsSpace(s[0]) {
      var t := s[1..];
      TrimStartDropsSpace(t);
      var n := |s| - |TrimStart(s)|;
      assert t[|t| - |TrimStart(t)|..] == s[n..];
      forall k | 0 <= k < n ensures IsSpace(s[..n][k]) {
        if k > 0 { assert s[..n][k] == t[..n - 1][k - 1]; }
      }
    }
  }

  /** `TrimEnd` drops a whitespace suffix. */
  lemma {:induction false} TrimEndDropsSpace(s: string)
    ensures TrimEnd(s) == s[..|TrimEnd(s)|]
    ensures AllSpace(s[|TrimEnd(s)|..])
  {
    if |s| > 0 && IsSpace(s[|s| - 1]) {
      var t := s[..|s| - 1];
      TrimEndDropsSpace(t);
      var n := |TrimEnd(s)|;
      assert t[..n] == s[..n];
      forall k | 0 <= k < |s| - n ensures IsSpace(s[n..][k]) {
        if k < |s| - 1 - n { assert s[n..][k] == t[n..][k]; }
      }
    } else {
      assert s[|s|..] == [];
    }
  }

  /** What `Strip` returns is the strip of its argument. */
  lemma StripSpec(s: string)
    ensures IsStripOf(s, Strip(s))
  {
    TrimStartDropsSpace(s);
    var t := TrimStart(s);
    TrimEndDropsSpace(t);
    var i := |s| - |t|;
    var r := Strip(s);
    assert t == s[i..];
    assert r == s[i..i + |r|];
    assert s[i + |r|..] == t[|r|..];
    assert StripSplit(s, r, i, i + |r|);
  }

  lemma SpaceBefore(s: string, i: int, k: int)
    requires 0 <= k < i <= |s| && AllSpace(s[..i])
    ensures IsSpace(s[k])
  {
    assert s[k] == s[..i][k];
  }

  lemma SpaceAfter(s: string, j: int, k: int)
    requires 0 <= j <= k < |s| && AllSpace(s[j..])
    ensures IsSpace(s[k])
  {
    assert s[k] == s[j..][k - j];
  }

  /** After a whitespace prefix that ends at a non-space, `TrimStart`
      returns the rest. */
  lemma {:induction false} TrimStartAt(s: string, i: nat)
    requires i <= |s| && AllSpace(s[..i]) && (i < |s| ==> !IsSpace(s[i]))
    ensures TrimStart(s) == s[i..]
  {
    if i > 0 {
      SpaceBefore(s, i, 0);
      assert s[1..][..i - 1] == s[..i][1..];
      TrimStartAt(s[1..], i - 1);
      assert s[1..][i - 1..] == s[i..];
    }
  }

  /** Before a whitespace suffix that starts after a non-space, `TrimEnd`
      returns the front. */
  lemma {:induction false} TrimEndAt(s: string, j: nat)
    requires j <= |s| && AllSpace(s[j..]) && (0 < j ==> !IsSpace(s[j - 1]))
    ensures TrimEnd(s) == s[..j]
  {
    if j < |s| {
      SpaceAfter(s, j, |s| - 1);
      var t := s[..|s| - 1];
      assert AllSpace(t[j..]) by {
        forall k | 0 <= k < |t| - j ensures IsSpace(t[j..][k]) {
          SpaceAfter(s, j, j + k);
        }
      }
      TrimEndAt(t, j);
      assert t[..j] == s[..j];
    } else {
      assert s[..j] == s;
    }
  }

  /** A characterised strip is what `Strip` computes: together with
      `StripSpec`, `Strip` is exactly `str.strip`. */
  lemma StripOfIsStrip(s: string, r: string)
    requires IsStripOf(s, r)
    ensures Strip(s) == r
  {
    var i, j :| StripSplit(s, r, i, j);
    if r == [] {
      assert AllSpace(s[..|s|]) by {
        forall k | 0 <= k < |s| ensures IsSpace(s[..|s|][k]) {
          if k < i { SpaceBefore(s, i, k); } else { SpaceAfter(s, j, k); }
        }
      }
      assert s[..|s|] == s && s[|s|..] == [];
      TrimStartAt(s, |s|);
    } else {
      assert s[i] == r[0] && s[j - 1] == r[|r| - 1];
      TrimStartAt(s, i);
      var t := s[i..];
      assert t[j - i..] == s[j..];
      TrimEndAt(t, j - i);
      assert t[..j - i] == r;
    }
  }

  /** Whitespace on either side of a trimmed text is exactly what `strip`
      removes. */
  lemma StripOfPadded(lead: string, core: string, trail: string)
    requires AllSpace(lead) && AllSpace(trail) && Trimmed(core)
    ensures Strip(lead + core + trail) == core
  {
    var s := lead + core + trail;
    assert StripSplit(s, core, |lead|, |lead| + |core|) by {
      assert s[..|lead|] == lead;
      assert s[|lead|..|lead| + |core|] == core;
      assert s[|lead| + |core|..] == trail;
    }
    StripOfIsStrip(s, core);
  }

  /** Stripping twice is stripping once. */
  lemma StripIdempotent(s: string)
    ensures Strip(Strip(s)) == Strip(s)
  {
    var r := Strip(s);
    assert StripSplit(r, r, 0, |r|) by {
      assert r == r[0..|r|] && r[..0] == [] && r[|r|..] == [];
    }
    StripOfIsStrip(r, r);
  }

  // ------------------------------------------------------------ startswith

  /** `s.startswith(p)`. */
  predicate StartsWith(s: string, p: string) {
    |p| <= |s| && s[..|p|] == p
  }

  /** `s.startswith(p)` holds exactly when `s` is `p` followed by something. */
  lemma StartsWithIff(s: string, p: string)
    ensures StartsWith(s, p) <==> exists rest :: s == p + rest
  {
    if StartsWith(s, p) {
      assert s == p + s[|p|..];
    }
    if exists rest :: s == p + rest {
      var rest :| s == p + rest;
      assert s[..|p|] == p;
    }
  }

  // ------------------------------------------------------------ splitlines

  /** Index of the first line boundary in `s`, or `|s|` when there is none. */
  function BreakIndex(s: string): (i: nat)
    ensures i <= |s|
    ensures NoLineBreak(s[..i])
    ensures i < |s| ==> IsLineBreak(s[i])
  {
    if |s| == 0 || IsLineBreak(s[0]) then 0
    else
      var i := 1 + BreakIndex(s[1..]);
      assert s[..i] == [s[0]] + s[1..][..i - 1];
      i
  }

  /** Width of the boundary at `s[i]`: two for `\r\n`, one otherwise. */
  function BreakWidth(s: string, i: nat): (w: nat)
    requires i < |s|
    ensures 1 <= w <= |s| - i
  {
    if s[i] == '\r' && i + 1 < |s| && s[i + 1] == '\n' then 2 else 1
  }

  /** `s.splitlines()`: the lines of `s` without their boundaries; a final
      boundary does not start another (empty) line. */
  function SplitLines(s: string): (lines: seq<string>)
    ensures forall k :: 0 <= k < |lines| ==> NoLineBreak(lines[k])
    ensures |lines| <= |s|
    decreases |s|
  {
    if s == [] then []
    else
      var i := BreakIndex(s);
      if i == |s| then [s]
      else [s[..i]] + SplitLines(s[i + BreakWidth(s, i)..])
  }

  lemma NoLineBreakConcat(a: string, b: string)
    requires NoLineBreak(a) && NoLineBreak(b)
    ensures NoLineBreak(a + b)
  {
    forall k | 0 <= k < |a + b| ensures !IsLineBreak((a + b)[k]) {
      if k >= |a| { assert (a + b)[k] == b[k - |a|]; }
    }
  }

  /** A boundary `str.splitlines` recognises as one line end. */
  predicate IsTerminator(t: string) {
    t == "\r\n" || (|t| == 1 && IsLineBreak(t[0]))
  }

  /** Each line followed by its own ending: `"".join(l + t for l, t in zip(lines, ends))`. */
  function Join(lines: seq<string>, ends: seq<string>): (s: string)
    requires |ends| == |lines|
  {
    if lines == [] then [] else lines[0] + ends[0] + Join(lines[1..], ends[1..])
  }

  /** Text that `splitlines` reads back as exactly `lines`: every line is
      free of boundaries and ends with one boundary of its own choosing,
      except that the last line may be left unterminated when it is not
      empty; and a lone `\r` is never followed by an empty line that ends
      in `\n` (the two would read as one `\r\n`). */
  predicate WellTerminated(lines: seq<string>, ends: seq<string>) {
    && |ends| == |lines|
    && (forall k :: 0 <= k < |lines| ==> NoLineBreak(lines[k]))
    && (forall k :: 0 <= k < |lines| ==>
          IsTerminator(ends[k]) || (k == |lines| - 1 && ends[k] == [] && lines[k] != []))
    && (forall k :: 0 <= k < |lines| - 1 && ends[k] == "\r" && lines[k + 1] == [] ==> ends[k + 1] != "\n")
  }

  /** Splitting joined lines gives them back, whatever mix of boundaries
      ends them and whether or not the last one is terminated:
      `"".join(l + t for l, t in zip(lines, ends)).splitlines() == lines`. */
  lemma {:induction false} SplitLinesOfJoin(lines: seq<string>, ends: seq<string>)
    requires WellTerminated(lines, ends)
    ensures SplitLines(Join(lines, ends)) == lines
  {
    if lines != [] {
      var l, t := lines[0], ends[0];
      var rest := Join(lines[1..], ends[1..]);
      assert Join(lines, ends) == l + t + rest;
      assert NoLineBreak(l);
      WellTerminatedTail(lines, ends);
      if t == [] {
        assert |lines| == 1 && l != [] && rest == [];
        assert l + t + rest == l;
        SplitLinesOfLine(l);
      } else {
        if t == "\r" && |rest| > 0 { JoinHeadNotNewline(lines, ends); }
        SplitLinesStep(l, t, rest);
        SplitLinesOfJoin(lines[1..], ends[1..]);
      }
    }
  }

  /** A non-empty text without boundaries is one line. */
  lemma SplitLinesOfLine(l: string)
    requires NoLineBreak(l) && l != []
    ensures SplitLines(l) == [l]
  {
    assert BreakIndex(l) == |l|;
  }

  /** A line, its boundary, and the rest: the line comes first, and
      splitting goes on after the boundary. */
  lemma SplitLinesStep(l: string, t: string, rest: string)
    requires NoLineBreak(l) && IsTerminator(t)
    requires t == "\r" && |rest| > 0 ==> rest[0] != '\n'
    ensures SplitLines(l + t + rest) == [l] + SplitLines(rest)
  {
    BreakAfterLine(l, t, rest);
    SplitLinesAtBreak(l + t + rest, |l|, |t|);
    SlicesAround(l, t, rest);
  }

  /** The first boundary after a line is its terminator. */
  lemma BreakAfterLine(l: string, t: string, rest: string)
    requires NoLineBreak(l) && IsTerminator(t)
    requires t == "\r" && |rest| > 0 ==> rest[0] != '\n'
    ensures |l| < |l + t + rest| && BreakIndex(l + t + rest) == |l|
    ensures BreakWidth(l + t + rest, |l|) == |t|
  {
    assert l + t + rest == l + (t + rest);
    BreakIndexAfterLine(l, t + rest);
    BreakWidthOfTerminator(l, t, rest);
  }

  /** `splitlines` cuts at the first boundary, of width `w`. */
  lemma SplitLinesAtBreak(s: string, i: nat, w: nat)
    requires i < |s| && BreakIndex(s) == i && BreakWidth(s, i) == w
    ensures SplitLines(s) == [s[..i]] + SplitLines(s[i + w..])
  {
  }

  lemma SlicesAround(l: string, t: string, rest: string)
    ensures (l + t + rest)[..|l|] == l && (l + t + rest)[|l| + |t|..] == rest
  {
  }

  /** The boundary after a line is exactly its terminator. */
  lemma BreakWidthOfTerminator(l: string, t: string, rest: string)
    requires IsTerminator(t)
    requires t == "\r" && |rest| > 0 ==> rest[0] != '\n'
    ensures |l| < |l + t + rest| && BreakWidth(l + t + rest, |l|) == |t|
  {
    var s := l + t + rest;
    assert s[|l|] == t[0];
    if t == "\r\n" {
      assert s[|l| + 1] == '\n';
    } else if |rest| > 0 {
      assert s[|l| + 1] == rest[0];
    }
  }

  /** Dropping the first line keeps text well terminated. */
  lemma WellTerminatedTail(lines: seq<string>, ends: seq<string>)
    requires WellTerminated(lines, ends) && lines != []
    ensures WellTerminated(lines[1..], ends[1..])
  {
    var ls, es := lines[1..], ends[1..];
    forall k | 0 <= k < |ls|
      ensures NoLineBreak(ls[k])
      ensures IsTerminator(es[k]) || (k == |ls| - 1 && es[k] == [] && ls[k] != [])
    {
      assert ls[k] == lines[k + 1] && es[k] == ends[k + 1];
    }
    forall k | 0 <= k < |ls| - 1 && es[k] == "\r" && ls[k + 1] == []
      ensures es[k + 1] != "\n"
    {
      assert es[k] == ends[k + 1] && ls[k + 1] == lines[k + 2] && es[k + 1] == ends[k + 2];
    }
  }

  /** After a line ended by a lone `\r`, the rest of the text does not
      start with `\n`. */
  lemma JoinHeadNotNewline(lines: seq<string>, ends: seq<string>)
    requires WellTerminated(lines, ends) && |lines| >= 2 && ends[0] == "\r"
    ensures Join(lines[1..], ends[1..])[0] != '\n'
  {
    var l, t := lines[1], ends[1];
    var rest := Join(lines[2..], ends[2..]);
    assert lines[1..][1..] == lines[2..] && ends[1..][1..] == ends[2..];
    assert Join(lines[1..], ends[1..]) == l + t + rest;
    if l != [] {
      assert NoLineBreak(l);
      assert (l + t + rest)[0] == l[0];
    } else {
      assert IsTerminator(t) && t != "\n";
      assert (l + t + rest)[0] == t[0];
    }
  }

  /** The first boundary after a boundary-free prefix is at the prefix's end. */
  lemma {:induction false} BreakIndexAfterLine(l: string, tail: string)
    requires NoLineBreak(l)
    requires |tail| > 0 && IsLineBreak(tail[0])
    ensures BreakIndex(l + tail) == |l|
  {
    if l != [] {
      assert (l + tail)[1..] == l[1..] + tail;
      BreakIndexAfterLine(l[1..], tail);
    } else {
      assert l + tail == tail;
    }
  }

  // -------------------------------------------------------------- substring

  /** `t` occurs in `s` starting at index `i`. */
  predicate OccursAt(s: string, t: string, i: nat) {
    i + |t| <= |s| && s[i..i + |t|] == t
  }

  /** Python's `t in s` for strings. */
  function Contains(s: string, t: string): (b: bool)
    ensures b <==> exists i: nat :: OccursAt(s, t, i)
    decreases |s|
  {
    if StartsWith(s, t) then
      assert OccursAt(s, t, 0);
      true
    else if |s| == 0 then
      assert forall i: nat :: !OccursAt(s, t, i);
      false
    else
      var b := Contains(s[1..], t);
      if b then
        var i: nat :| OccursAt(s[1..], t, i);
        OccursShift(s, t, i);
        b
      else
        assert !OccursAt(s, t, 0);
        assert forall i: nat :: 0 < i ==> !OccursAt(s, t, i) by {
          forall i: nat | 0 < i ensures !OccursAt(s, t, i) {
            OccursShift(s, t, i - 1);
          }
        }
        b
  }

  /** Dropping the first character shifts every occurrence by one. */
  lemma OccursShift(s: string, t: string, i: nat)
    requires |s| > 0
    ensures OccursAt(s[1..], t, i) <==> OccursAt(s, t, i + 1)
  {
    if i + 1 + |t| <= |s| {
      assert s[1..][i..i + |t|] == s[i + 1..i + 1 + |t|];
    }
  }

  /** An occurrence survives text added on either side. */
  lemma {:induction false} ContainsExtended(s: string, t: string, pre: string, post: string)
    requires Contains(s, t)
    ensures Contains(pre + s + post, t)
  {
    var i: nat :| OccursAt(s, t, i);
    var u := pre + s + post;
    assert u[|pre| + i..|pre| + i + |t|] == s[i..i + |t|];
    assert OccursAt(u, t, |pre| + i);
  }
}
