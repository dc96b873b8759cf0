/** Sequence helpers that model the JavaScript idioms the rewriter uses:
    `[...new Set(xs)]` (deduplicate, keeping the first occurrence of each
    element in insertion order) and `xs.filter((e) => !s.has(e))`. */
module Sequences {

  /** No element occurs twice. */
  predicate NoDuplicates<T(==)>(s: seq<T>) {
    forall a, b :: 0 <= a < b < |s| ==> s[a] != s[b]
  }

  /** Index of the first occurrence of `x` in `s`. */
  function FirstIndex<T(==)>(s: seq<T>, x: T): (k: nat)
    requires x in s
    ensures k < |s| && s[k] == x
    ensures forall j :: 0 <= j < k ==> s[j] != x
  {
    if s[0] == x then 0 else 1 + FirstIndex(s[1..], x)
  }

  /** `r` lists elements of `s` in the order of their first occurrence in `s`. */
  predicate FirstOccurrenceOrder<T(==)>(r: seq<T>, s: seq<T>) {
    (forall x :: x in r ==> x in s) &&
    forall a, b :: 0 <= a < b < |r| ==> FirstIndex(s, r[a]) < FirstIndex(s, r[b])
  }

  /** `[...new Set(s)]`: a JavaScript Set keeps insertion order, so the
      element at the end of `s` is added only if it was not seen before. */
  function Dedup<T(==,!new)>(s: seq<T>): (r: seq<T>)
    ensures NoDuplicates(r)
    ensures forall x :: x in r <==> x in s
    ensures |r| <= |s|
  {
    if s == [] then []
    else
      var init, last := s[..|s| - 1], s[|s| - 1];
      assert s == init + [last];
      if last in init then Dedup(init) else Dedup(init) + [last]
  }

  /** `s.filter((e) => !excluded.has(e))`. */
  function Without<T(==,!new)>(s: seq<T>, excluded: set<T>): (r: seq<T>)
    ensures forall x :: x in r <==> x in s && x !in excluded
    ensures |r| <= |s|
  {
    if s == [] then []
    else
      var init, last := s[..|s| - 1], s[|s| - 1];
      assert s == init + [last];
      if last in excluded then Without(init, excluded) else Without(init, excluded) + [last]
  }

  /** Appending an element does not move the first occurrence of anything
      that was already there, and a new element is first seen at the end. */
  lemma FirstIndexSnoc<T>(s: seq<T>, y: T, x: T)
    requires x in s + [y]
    ensures x in s ==> FirstIndex(s + [y], x) == FirstIndex(s, x)
    ensures x !in s ==> x == y && FirstIndex(s + [y], x) == |s|
  {
    var t := s + [y];
    var k := FirstIndex(t, x);
    if x in s {
      var k' := FirstIndex(s, x);
      assert t[k'] == x;
      assert k <= k';
      assert s[k] == x;
    } else {
      assert forall j :: 0 <= j < |s| ==> t[j] != x;
    }
  }

  /** The order kept by `[...new Set(s)]` is the order of first occurrence. */
  lemma {:induction false} DedupOrder<T(!new)>(s: seq<T>)
    ensures FirstOccurrenceOrder(Dedup(s), s)
  {
    if s != [] {
      var init, last := s[..|s| - 1], s[|s| - 1];
      assert s == init + [last];
      DedupOrder(init);
      var d := Dedup(init);
      forall x | x in d
        ensures FirstIndex(s, x) == FirstIndex(init, x) && FirstIndex(init, x) < |init|
      {
        FirstIndexSnoc(init, last, x);
      }
      if last !in init {
        FirstIndexSnoc(init, last, last);
        var r := d + [last];
        forall a, b | 0 <= a < b < |r|
          ensures FirstIndex(s, r[a]) < FirstIndex(s, r[b])
        {
          assert r[a] == d[a];
          if b < |d| {
            assert r[b] == d[b];
          }
        }
      }
    }
  }

  /** Dropping elements keeps the relative order of those that remain. */
  lemma {:induction false} WithoutKeepsOrder<T(!new)>(r: seq<T>, s: seq<T>, excluded: set<T>)
    requires FirstOccurrenceOrder(r, s)
    ensures FirstOccurrenceOrder(Without(r, excluded), s)
  {
    if r != [] {
      var init, last := r[..|r| - 1], r[|r| - 1];
      assert r == init + [last];
      assert FirstOccurrenceOrder(init, s) by {
        forall a, b | 0 <= a < b < |init|
          ensures FirstIndex(s, init[a]) < FirstIndex(s, init[b])
        {
          assert init[a] == r[a] && init[b] == r[b];
        }
      }
      WithoutKeepsOrder(init, s, excluded);
      if last !in excluded {
        var w := Without(init, excluded);
        var w' := w + [last];
        forall a, b | 0 <= a < b < |w'|
          ensures FirstIndex(s, w'[a]) < FirstIndex(s, w'[b])
        {
          assert w'[a] == w[a];
          if b < |w| {
            assert w'[b] == w[b];
          } else {
            assert w[a] in w;
            var i :| 0 <= i < |init| && init[i] == w[a];
            assert r[i] == w[a] && r[|r| - 1] == last;
          }
        }
      }
    }
  }

  /** Filtering a duplicate-free sequence leaves it duplicate-free. */
  lemma {:induction false} WithoutKeepsNoDuplicates<T(!new)>(s: seq<T>, excluded: set<T>)
    requires NoDuplicates(s)
    ensures NoDuplicates(Without(s, excluded))
  {
    if s != [] {
      var init, last := s[..|s| - 1], s[|s| - 1];
      assert s == init + [last];
      assert NoDuplicates(init) by {
        forall a, b | 0 <= a < b < |init| ensures init[a] != init[b] {
          assert init[a] == s[a] && init[b] == s[b];
        }
      }
      WithoutKeepsNoDuplicates(init, excluded);
      assert last !in init by {
        forall a | 0 <= a < |init| ensures init[a] != last {
          assert s[a] == init[a];
        }
      }
    }
  }

  /** Splicing out the element at index `j` removes exactly one copy of it. */
  lemma MultisetRemove<T>(s: seq<T>, j: nat)
    requires j < |s|
    ensures multiset(s[..j] + s[j + 1..]) + multiset{s[j]} == multiset(s)
  {
    assert s == s[..j] + [s[j]] + s[j + 1..];
    calc {
      multiset(s);
      multiset(s[..j] + [s[j]] + s[j + 1..]);
      multiset(s[..j]) + multiset{s[j]} + multiset(s[j + 1..]);
      multiset(s[..j] + s[j + 1..]) + multiset{s[j]};
    }
  }

  /** Two equal entries at distinct indices mean at least two copies. */
  lemma DuplicateCount<T>(s: seq<T>, i: nat, j: nat)
    requires i < j < |s| && s[i] == s[j]
    ensures multiset(s)[s[i]] >= 2
  {
    assert s == s[..i] + [s[i]] + s[i + 1..j] + [s[j]] + s[j + 1..];
    assert multiset(s) == multiset(s[..i]) + multiset{s[i]} + multiset(s[i + 1..j]) + multiset{s[j]} + multiset(s[j + 1..]);
  }

  /** A sequence without duplicates holds at most one copy of anything. */
  lemma {:induction false} NoDuplicatesCount<T>(s: seq<T>, x: T)
    requires NoDuplicates(s)
    ensures multiset(s)[x] <= 1
  {
    if s != [] {
      var init, last := s[..|s| - 1], s[|s| - 1];
      assert s == init + [last];
      assert NoDuplicates(init) by {
        forall a, b | 0 <= a < b < |init| ensures init[a] != init[b] {
          assert init[a] == s[a] && init[b] == s[b];
        }
      }
      NoDuplicatesCount(init, x);
      if x == last {
        assert last !in init by {
          forall a | 0 <= a < |init| ensures init[a] != last {
            assert s[a] == init[a];
          }
        }
      }
    }
  }

  /** Part of a duplicate-free collection is duplicate-free. */
  lemma SubMultisetNoDuplicates<T>(a: seq<T>, b: seq<T>)
    requires multiset(a) <= multiset(b) && NoDuplicates(b)
    ensures NoDuplicates(a)
  {
    forall i, j | 0 <= i < j < |a| ensures a[i] != a[j] {
      if a[i] == a[j] {
        DuplicateCount(a, i, j);
        NoDuplicatesCount(b, a[i]);
      }
    }
  }

  /** Sequences that agree on their first `k` elements and on the element at
      `k` agree on their first `k + 1`. */
  lemma PrefixExtends<T>(s1: seq<T>, s2: seq<T>, k: nat)
    requires k < |s1| && k < |s2| && s1[..k] == s2[..k] && s1[k] == s2[k]
    ensures s1[..k + 1] == s2[..k + 1]
  {
    assert s1[..k + 1] == s1[..k] + [s1[k]] && s2[..k + 1] == s2[..k] + [s2[k]];
  }

  /** Sequences with the same first `k` elements agree at every index below `k`. */
  lemma PrefixAgrees<T>(s1: seq<T>, s2: seq<T>, k: nat)
    requires k <= |s1| && k <= |s2| && s1[..k] == s2[..k]
    ensures forall l :: 0 <= l < k ==> s1[l] == s2[l]
  {
    forall l | 0 <= l < k ensures s1[l] == s2[l] {
      assert s1[l] == s1[..k][l] && s2[l] == s2[..k][l];
    }
  }
}
