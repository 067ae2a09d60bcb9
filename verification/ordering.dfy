/**
 Python's default ordering of `str` values (code point by code point, a
 proper prefix first) and the `list.sort()` the client applies to directory
 listings, as an insertion sort.
 */
module Ordering {
  import opened Seqs

  /** `a <= b` on Python strings. */
  predicate LessEq(a: string, b: string)
    decreases |a|
  {
    |a| == 0 || (|b| > 0 && (a[0] < b[0] || (a[0] == b[0] && LessEq(a[1..], b[1..]))))
  }

  /**
   The same order stated without recursion: `a` is a prefix of `b`, or the
   two agree up to some position where `a` has the smaller character.
   */
  predicate LessEqAt(a: string, b: string) {
    || (|a| <= |b| && a == b[..|a|])
    || (exists i :: 0 <= i < |a| && i < |b| && a[..i] == b[..i] && a[i] < b[i])
  }

  /** The recursive order and the one stated without recursion agree. */
  lemma {:induction false} LessEqMeaning(a: string, b: string)
    ensures LessEq(a, b) <==>
      (|a| <= |b| && a == b[..|a|]) ||
      (exists i :: 0 <= i < |a| && i < |b| && a[..i] == b[..i] && a[i] < b[i])
    decreases |a|
  {
    if |a| > 0 && |b| > 0 {
      LessEqMeaning(a[1..], b[1..]);
      if a[0] == b[0] {
        LessEqAtCons(a, b);
      } else if a[0] < b[0] {
        assert a[..0] == b[..0];
      }
    }
  }

  /** With equal first characters, the order without recursion is decided by the rests. */
  lemma LessEqAtCons(a: string, b: string)
    requires |a| > 0 && |b| > 0 && a[0] == b[0]
    ensures LessEqAt(a, b) <==> LessEqAt(a[1..], b[1..])
  {
    var a', b' := a[1..], b[1..];
    if exists i :: 0 <= i < |a'| && i < |b'| && a'[..i] == b'[..i] && a'[i] < b'[i] {
      var i :| 0 <= i < |a'| && i < |b'| && a'[..i] == b'[..i] && a'[i] < b'[i];
      SmallerAfterCons(a, b, i);
    }
    if exists i :: 0 <= i < |a| && i < |b| && a[..i] == b[..i] && a[i] < b[i] {
      var i :| 0 <= i < |a| && i < |b| && a[..i] == b[..i] && a[i] < b[i];
      SmallerBeforeCons(a, b, i);
    }
    PrefixCons(a, b);
  }

  lemma SmallerAfterCons(a: string, b: string, i: nat)
    requires |a| > 0 && |b| > 0 && a[0] == b[0]
    requires i < |a| - 1 && i < |b| - 1 && a[1..][..i] == b[1..][..i] && a[1..][i] < b[1..][i]
    ensures a[..i + 1] == b[..i + 1] && a[i + 1] < b[i + 1]
  {
    assert a[..i + 1] == [a[0]] + a[1..][..i];
    assert b[..i + 1] == [b[0]] + b[1..][..i];
  }

  lemma SmallerBeforeCons(a: string, b: string, i: nat)
    requires |a| > 0 && |b| > 0 && a[0] == b[0]
    requires i < |a| && i < |b| && a[..i] == b[..i] && a[i] < b[i]
    ensures i > 0 && a[1..][..i - 1] == b[1..][..i - 1] && a[1..][i - 1] < b[1..][i - 1]
  {
    assert a[1..][..i - 1] == a[..i][1..];
    assert b[1..][..i - 1] == b[..i][1..];
  }

  lemma PrefixCons(a: string, b: string)
    requires |a| > 0 && |b| > 0 && a[0] == b[0]
    ensures (|a| <= |b| && a == b[..|a|]) <==> (|a| - 1 <= |b| - 1 && a[1..] == b[1..][..|a| - 1])
  {
    if |a| <= |b| && a == b[..|a|] {
      assert a[1..] == b[1..][..|a| - 1];
    }
    if |a| - 1 <= |b| - 1 && a[1..] == b[1..][..|a| - 1] {
      assert a == [a[0]] + a[1..];
      assert b[..|a|] == [b[0]] + b[1..][..|a| - 1];
    }
  }

  lemma {:induction false} LessEqTotal(a: string, b: string)
    ensures LessEq(a, b) || LessEq(b, a)
    decreases |a|
  {
    if |a| > 0 && |b| > 0 && a[0] == b[0] {
      LessEqTotal(a[1..], b[1..]);
    }
  }

  lemma {:induction false} LessEqAntisymmetric(a: string, b: string)
    requires LessEq(a, b) && LessEq(b, a)
    ensures a == b
    decreases |a|
  {
    if |a| > 0 {
      LessEqAntisymmetric(a[1..], b[1..]);
      assert a == [a[0]] + a[1..];
      assert b == [b[0]] + b[1..];
    }
  }

  lemma {:induction false} LessEqTransitive(a: string, b: string, c: string)
    requires LessEq(a, b) && LessEq(b, c)
    ensures LessEq(a, c)
    decreases |a|
  {
    if |a| > 0 && a[0] == b[0] && b[0] == c[0] {
      LessEqTransitive(a[1..], b[1..], c[1..]);
    }
  }

  /** Every element is `<=` every later one. */
  predicate Sorted(s: seq<string>) {
    forall i, j :: 0 <= i < j < |s| ==> LessEq(s[i], s[j])
  }

  /** Puts `x` in front of the first element it is `<=`. */
  function Insert(x: string, s: seq<string>): (r: seq<string>)
    requires Sorted(s)
    ensures Sorted(r)
    ensures multiset(r) == multiset(s) + multiset{x}
  {
    if |s| == 0 then [x]
    else if LessEq(x, s[0]) then
      InsertFront(x, s);
      [x] + s
    else
      var rest := Insert(x, s[1..]);
      InsertBehind(x, s, rest);
      [s[0]] + rest
  }

  lemma InsertFront(x: string, s: seq<string>)
    requires Sorted(s) && |s| > 0 && LessEq(x, s[0])
    ensures Sorted([x] + s)
  {
    forall j | 0 < j < |s| ensures LessEq(x, s[j]) {
      LessEqTransitive(x, s[0], s[j]);
    }
  }

  lemma InsertBehind(x: string, s: seq<string>, rest: seq<string>)
    requires Sorted(s) && |s| > 0 && !LessEq(x, s[0])
    requires Sorted(rest) && multiset(rest) == multiset(s[1..]) + multiset{x}
    ensures Sorted([s[0]] + rest)
    ensures multiset([s[0]] + rest) == multiset(s) + multiset{x}
  {
    LessEqTotal(x, s[0]);
    forall j | 0 <= j < |rest| ensures LessEq(s[0], rest[j]) {
      assert rest[j] in multiset(rest);
      if rest[j] != x {
        assert rest[j] in multiset(s[1..]);
        var k :| 0 <= k < |s[1..]| && s[1..][k] == rest[j];
        assert s[k + 1] == rest[j];
      }
    }
    assert s == [s[0]] + s[1..];
  }

  /** `list.sort()`: an ascending rearrangement of `s`. */
  function Sort(s: seq<string>): (r: seq<string>)
    ensures Sorted(r)
    ensures multiset(r) == multiset(s)
    ensures |r| == |s|
    ensures forall x :: x in r <==> x in s
  {
    if |s| == 0 then []
    else
      var r := Insert(s[0], Sort(s[1..]));
      SortStep(s, r);
      r
  }

  lemma SortStep(s: seq<string>, r: seq<string>)
    requires |s| > 0 && multiset(r) == multiset(s[1..]) + multiset{s[0]}
    ensures multiset(r) == multiset(s) && |r| == |s|
    ensures forall x :: x in r <==> x in s
  {
    assert s == [s[0]] + s[1..];
    assert multiset(r) == multiset(s);
    assert |r| == |multiset(r)| == |multiset(s)| == |s|;
    forall x ensures x in r <==> x in s {
      assert x in r <==> x in multiset(r);
      assert x in s <==> x in multiset(s);
    }
  }

  /** Keeping the elements of a sorted sequence that pass a test leaves it sorted. */
  lemma {:induction false} FilterSorted(s: seq<string>, p: string -> bool)
    requires Sorted(s)
    ensures Sorted(Filter(s, p))
    decreases |s|
  {
    if |s| > 0 {
      var init := s[..|s| - 1];
      var last := s[|s| - 1];
      FilterSorted(init, p);
      var f := Filter(init, p);
      assert Sorted(init) by {
        forall i, j | 0 <= i < j < |init| ensures LessEq(init[i], init[j]) {
          assert init[i] == s[i] && init[j] == s[j];
        }
      }
      if p(last) {
        forall i | 0 <= i < |f| ensures LessEq(f[i], last) {
          var k :| 0 <= k < |init| && init[k] == f[i];
          assert s[k] == f[i];
        }
        SortedSnoc(f, last);
      }
    }
  }

  /** Appending an element no smaller than any other keeps a sequence sorted. */
  lemma SortedSnoc(s: seq<string>, x: string)
    requires Sorted(s)
    requires forall i :: 0 <= i < |s| ==> LessEq(s[i], x)
    ensures Sorted(s + [x])
  {
    var t := s + [x];
    forall i, j | 0 <= i < j < |t| ensures LessEq(t[i], t[j]) {
      assert t[i] == s[i];
    }
  }
}
