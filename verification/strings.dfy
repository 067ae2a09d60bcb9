/**
 The handful of Python `str` operations the client relies on: `endswith`,
 `split(sep)[0]`, `split(sep, 1)[1]`, single-character `replace` and `strip`.
 */
module Strings {

  /** `s.endswith(suffix)`. */
  predicate EndsWith(s: string, suffix: string) {
    |suffix| <= |s| && s[|s| - |suffix|..] == suffix
  }

  /** `s.split(sep)[0]`: everything before the first `sep`, or all of `s` when there is none. */
  function PrefixBefore(s: string, sep: char): (r: string)
    ensures |r| <= |s| && r == s[..|r|]
    ensures sep !in r
    ensures |r| < |s| ==> s[|r|] == sep
  {
    if |s| == 0 then []
    else if s[0] == sep then []
    else [s[0]] + PrefixBefore(s[1..], sep)
  }

  /** `s.split(sep, 1)[1] if sep in s else s`: what follows the first `sep`. */
  function AfterFirst(s: string, sep: char): (r: string)
    ensures sep in s ==> s == PrefixBefore(s, sep) + [sep] + r
    ensures sep !in s ==> r == s
  {
    var head := PrefixBefore(s, sep);
    if |head| < |s| then
      assert s == head + [sep] + s[|head| + 1..];
      s[|head| + 1..]
    else s
  }

  /** `s.replace(from, to)` for one-character `from` and `to`. */
  function Replace(s: string, from: char, to: char): (r: string)
    ensures |r| == |s|
    ensures forall i :: 0 <= i < |s| ==> r[i] == (if s[i] == from then to else s[i])
  {
    if |s| == 0 then [] else Replace(s[..|s| - 1], from, to) + [if s[|s| - 1] == from then to else s[|s| - 1]]
  }

  /** The characters Python's `str.isspace` accepts (and so `str.strip()` removes). */
  const Whitespace: set<char> := {
    ' ', '\t', '\n', '\r', '\U{000B}', '\U{000C}',
    '\U{001C}', '\U{001D}', '\U{001E}', '\U{001F}',
    '\U{0085}', '\U{00A0}', '\U{1680}',
    '\U{2000}', '\U{2001}', '\U{2002}', '\U{2003}', '\U{2004}', '\U{2005}',
    '\U{2006}', '\U{2007}', '\U{2008}', '\U{2009}', '\U{200A}',
    '\U{2028}', '\U{2029}', '\U{202F}', '\U{205F}', '\U{3000}'}

  predicate IsSpace(c: char) {
    c in Whitespace
  }

  /** Every character of `s` is white space. */
  predicate AllSpace(s: string) {
    All(s, IsSpace)
  }

  // The trimming below is proved for any character test `p`; `strip` is the
  // case `p == IsSpace`.

  /** Every character of `s` passes `p`. */
  predicate All(s: string, p: char -> bool) {
    forall i :: 0 <= i < |s| ==> p(s[i])
  }

  /** Drops the leading characters that pass `p`. */
  function TrimStart(s: string, p: char -> bool): (r: string)
    ensures |r| <= |s| && r == s[|s| - |r|..]
    ensures All(s[..|s| - |r|], p)
    ensures |r| > 0 ==> !p(r[0])
  {
    if |s| > 0 && p(s[0]) then
      var r := TrimStart(s[1..], p);
      TrimStartStep(s, s[1..], r, p);
      r
    else
      assert s[..0] == [] && s[0..] == s;
      s
  }

  lemma TrimStartStep(s: string, tail: string, r: string, p: char -> bool)
    requires |s| > 0 && p(s[0]) && tail == s[1..]
    requires |r| <= |tail| && r == tail[|tail| - |r|..] && All(tail[..|tail| - |r|], p)
    ensures r == s[|s| - |r|..] && All(s[..|s| - |r|], p)
  {
    var k := |tail| - |r|;
    assert tail[k..] == s[k + 1..];
    var front := s[..k + 1];
    forall j | 0 <= j < |front| ensures p(front[j]) {
      if j > 0 {
        assert front[j] == tail[..k][j - 1];
      }
    }
  }

  /** Drops the trailing characters that pass `p`. */
  function TrimEnd(s: string, p: char -> bool): (r: string)
    ensures |r| <= |s| && r == s[..|r|]
    ensures All(s[|r|..], p)
    ensures |r| > 0 ==> !p(r[|r| - 1])
  {
    if |s| > 0 && p(s[|s| - 1]) then
      var r := TrimEnd(s[..|s| - 1], p);
      TrimEndStep(s, s[..|s| - 1], r, p);
      r
    else s
  }

  lemma TrimEndStep(s: string, init: string, r: string, p: char -> bool)
    requires |s| > 0 && p(s[|s| - 1]) && init == s[..|s| - 1]
    requires |r| <= |init| && r == init[..|r|] && All(init[|r|..], p)
    ensures r == s[..|r|] && All(s[|r|..], p)
  {
    var k := |r|;
    assert init[..k] == s[..k];
    var back := s[k..];
    forall j | 0 <= j < |back| ensures p(back[j]) {
      if j < |init| - k {
        assert back[j] == init[k..][j];
      }
    }
  }

  /**
   Trimming both ends: `l` is `s` without its leading run and `r` is `l`
   without its trailing run, so `r` is a slice of `s` between two runs, empty
   exactly when every character of `s` passes.
   */
  lemma TrimBoth(s: string, l: string, r: string, p: char -> bool)
    requires |l| <= |s| && l == s[|s| - |l|..] && All(s[..|s| - |l|], p) && (|l| > 0 ==> !p(l[0]))
    requires |r| <= |l| && r == l[..|r|] && All(l[|r|..], p) && (|r| > 0 ==> !p(r[|r| - 1]))
    ensures var i := |s| - |l|;
      && 0 <= i <= i + |r| <= |s| && r == s[i..i + |r|]
      && All(s[..i], p) && All(s[i + |r|..], p)
    ensures |r| > 0 ==> !p(r[0]) && !p(r[|r| - 1])
    ensures |r| == 0 <==> All(s, p)
  {
    var i := |s| - |l|;
    assert r == s[i..i + |r|];
    assert s[i + |r|..] == l[|r|..];
    if |r| > 0 {
      assert r[0] == l[0];
    } else {
      assert s == s[..i] + l;
      forall j | 0 <= j < |s| ensures p(s[j]) {
        if j < i {
          assert s[j] == s[..i][j];
        }
      }
    }
  }

  /** `s.lstrip()`: drops the leading white space. */
  function LStrip(s: string): (r: string)
    ensures |r| <= |s| && r == s[|s| - |r|..]
    ensures AllSpace(s[..|s| - |r|])
    ensures |r| > 0 ==> !IsSpace(r[0])
  {
    TrimStart(s, IsSpace)
  }

  /** `s.rstrip()`: drops the trailing white space. */
  function RStrip(s: string): (r: string)
    ensures |r| <= |s| && r == s[..|r|]
    ensures AllSpace(s[|r|..])
    ensures |r| > 0 ==> !IsSpace(r[|r| - 1])
  {
    TrimEnd(s, IsSpace)
  }

  /** `s.strip()`: the slice of `s` left once white space is removed from both ends. */
  function Strip(s: string): (r: string)
    ensures var i := |s| - |LStrip(s)|;
      && 0 <= i <= i + |r| <= |s| && r == s[i..i + |r|]
      && AllSpace(s[..i]) && AllSpace(s[i + |r|..])
    ensures |r| > 0 ==> !IsSpace(r[0]) && !IsSpace(r[|r| - 1])
    ensures |r| == 0 <==> AllSpace(s)
  {
    StripBoth(s);
    RStrip(LStrip(s))
  }

  lemma StripBoth(s: string)
    ensures var l := LStrip(s); var r := RStrip(l); var i := |s| - |l|;
      && 0 <= i <= i + |r| <= |s| && r == s[i..i + |r|]
      && AllSpace(s[..i]) && AllSpace(s[i + |r|..])
      && (|r| > 0 ==> !IsSpace(r[0]) && !IsSpace(r[|r| - 1]))
      && (|r| == 0 <==> AllSpace(s))
  {
    TrimBoth(s, LStrip(s), RStrip(LStrip(s)), IsSpace);
  }

  /** A string that starts and ends with visible characters is its own `strip()`. */
  lemma StripTrimmed(s: string)
    requires |s| > 0 && !IsSpace(s[0]) && !IsSpace(s[|s| - 1])
    ensures Strip(s) == s
  {
    var l := LStrip(s);
    assert |l| == |s|;
    var r := RStrip(l);
    assert |r| == |l|;
  }
}
