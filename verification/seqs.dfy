/** List comprehensions with a condition, `[x for x in s if p(x)]`. */
module Seqs {

  function Filter<T>(s: seq<T>, p: T -> bool): (r: seq<T>)
    ensures |r| <= |s|
    ensures forall i :: 0 <= i < |r| ==> r[i] in s && p(r[i])
    ensures forall i :: 0 <= i < |s| && p(s[i]) ==> s[i] in r
    ensures multiset(r) <= multiset(s)
  {
    if |s| == 0 then []
    else
      var init := Filter(s[..|s| - 1], p);
      var last := s[|s| - 1];
      assert s == s[..|s| - 1] + [last];
      if p(last) then init + [last] else init
  }

  /** The comprehension `[f(x) for x in s]`. */
  function Map<T, U>(s: seq<T>, f: T -> U): (r: seq<U>)
    ensures |r| == |s|
    ensures forall i :: 0 <= i < |s| ==> r[i] == f(s[i])
  {
    if |s| == 0 then [] else Map(s[..|s| - 1], f) + [f(s[|s| - 1])]
  }

  lemma MapAppend<T, U>(a: seq<T>, b: seq<T>, f: T -> U)
    ensures Map(a + b, f) == Map(a, f) + Map(b, f)
  {
  }

  /**
   Splitting a sequence by a condition and its negation and mapping both
   parts gives, side by side, a rearrangement of the mapped sequence.
   */
  lemma {:induction false} MapPartition<T, U>(s: seq<T>, p: T -> bool, q: T -> bool, f: T -> U)
    requires forall x :: q(x) == !p(x)
    ensures multiset(Map(Filter(s, p), f) + Map(Filter(s, q), f)) == multiset(Map(s, f))
    decreases |s|
  {
    if |s| > 0 {
      var init := s[..|s| - 1];
      var last := s[|s| - 1];
      MapPartition(init, p, q, f);
      MapSnoc(s, f);
      MapFilterSnoc(s, p, f);
      MapFilterSnoc(s, q, f);
      RearrangeSnoc(Map(Filter(init, p), f), Map(Filter(init, q), f), Map(init, f), f(last), p(last));
    }
  }

  lemma MapSnoc<T, U>(s: seq<T>, f: T -> U)
    requires |s| > 0
    ensures Map(s, f) == Map(s[..|s| - 1], f) + [f(s[|s| - 1])]
  {
  }

  lemma MapFilterSnoc<T, U>(s: seq<T>, p: T -> bool, f: T -> U)
    requires |s| > 0
    ensures Map(Filter(s, p), f)
      == Map(Filter(s[..|s| - 1], p), f) + (if p(s[|s| - 1]) then [f(s[|s| - 1])] else [])
  {
    FilterSnoc(s, p);
    MapAppend(Filter(s[..|s| - 1], p), if p(s[|s| - 1]) then [s[|s| - 1]] else [], f);
  }

  /** One more element, added to either part, keeps the parts a rearrangement of the whole. */
  lemma RearrangeSnoc<U>(a: seq<U>, b: seq<U>, all: seq<U>, x: U, toFirst: bool)
    requires multiset(a + b) == multiset(all)
    ensures multiset((a + (if toFirst then [x] else [])) + (b + (if toFirst then [] else [x])))
      == multiset(all + [x])
  {
    if toFirst {
      MultisetMiddle(a, x, b);
      assert b + [] == b && a + [x] + b == (a + [x]) + b;
    } else {
      assert a + [] == a && a + (b + [x]) == a + b + [x];
    }
  }

  /** The comprehension over a non-empty sequence: its prefix's, and the last element when it is kept. */
  lemma FilterSnoc<T>(s: seq<T>, p: T -> bool)
    requires |s| > 0
    ensures Filter(s, p) == Filter(s[..|s| - 1], p) + (if p(s[|s| - 1]) then [s[|s| - 1]] else [])
  {
  }

  /** Taking one element out of the middle of a sequence takes one copy out of its multiset. */
  lemma MultisetMiddle<T>(a: seq<T>, x: T, b: seq<T>)
    ensures multiset(a + [x] + b) == multiset(a + b) + multiset{x}
  {
  }

  lemma {:induction false} FilterAppend<T>(a: seq<T>, b: seq<T>, p: T -> bool)
    ensures Filter(a + b, p) == Filter(a, p) + Filter(b, p)
    decreases |b|
  {
    if |b| > 0 {
      var b' := b[..|b| - 1];
      assert (a + b)[..|a + b| - 1] == a + b';
      FilterAppend(a, b', p);
    } else {
      assert a + b == a;
    }
  }

  /** Keeping what is already kept changes nothing. */
  lemma {:induction false} FilterKeepsAll<T>(s: seq<T>, p: T -> bool)
    requires forall i :: 0 <= i < |s| ==> p(s[i])
    ensures Filter(s, p) == s
    decreases |s|
  {
    if |s| > 0 {
      var init := s[..|s| - 1];
      forall i | 0 <= i < |init| ensures p(init[i]) {
        assert init[i] == s[i];
      }
      FilterKeepsAll(init, p);
      assert s == init + [s[|s| - 1]];
    }
  }

  /** The comprehension keeps every copy of a kept value and no copy of a dropped one. */
  lemma {:induction false} FilterCount<T>(s: seq<T>, p: T -> bool, x: T)
    ensures multiset(Filter(s, p))[x] == if p(x) then multiset(s)[x] else 0
    decreases |s|
  {
    if |s| > 0 {
      var init := s[..|s| - 1];
      FilterCount(init, p, x);
      FilterSnoc(s, p);
      assert s == init + [s[|s| - 1]];
    }
  }

  /** Filtering a rearrangement gives a rearrangement of the filtered sequence. */
  lemma FilterPermutes<T>(a: seq<T>, b: seq<T>, p: T -> bool)
    requires multiset(a) == multiset(b)
    ensures multiset(Filter(a, p)) == multiset(Filter(b, p))
  {
    forall x ensures multiset(Filter(a, p))[x] == multiset(Filter(b, p))[x] {
      FilterCount(a, p, x);
      FilterCount(b, p, x);
    }
  }

  /** Keeping what fails everywhere leaves nothing. */
  lemma {:induction false} FilterDropsAll<T>(s: seq<T>, p: T -> bool)
    requires forall i :: 0 <= i < |s| ==> !p(s[i])
    ensures Filter(s, p) == []
    decreases |s|
  {
    if |s| > 0 {
      FilterDropsAll(s[..|s| - 1], p);
    }
  }
}
