/**
 * `Array.prototype.filter` and `map` on sequences, with what they preserve:
 * membership, multiplicities and order. The stores and pages build their
 * updated lists with these.
 */
module Seqs {

  /** `s.filter(p)`. */
  function Filter<T>(s: seq<T>, p: T -> bool): (r: seq<T>)
    ensures |r| <= |s|
    ensures forall i :: 0 <= i < |r| ==> p(r[i])
  {
    if s == [] then []
    else Filter(s[..|s| - 1], p) + (if p(s[|s| - 1]) then [s[|s| - 1]] else [])
  }

  /** `s.map(f)`. */
  function Map<T, U>(s: seq<T>, f: T -> U): (r: seq<U>)
    ensures |r| == |s|
    ensures forall i :: 0 <= i < |s| ==> r[i] == f(s[i])
  {
    if s == [] then []
    else Map(s[..|s| - 1], f) + [f(s[|s| - 1])]
  }

  /** `sub` is `s` with some elements left out, the rest in their original order. */
  predicate IsSubsequence<T(==)>(sub: seq<T>, s: seq<T>)
    decreases |s|
  {
    if sub == [] then true
    else if s == [] then false
    else if sub[|sub| - 1] == s[|s| - 1] && IsSubsequence(sub[..|sub| - 1], s[..|s| - 1]) then true
    else IsSubsequence(sub, s[..|s| - 1])
  }

  /** Filtering keeps every element that passes, as often as it occurs, and drops every other. */
  lemma {:induction false} FilterMultiset<T>(s: seq<T>, p: T -> bool)
    ensures forall x :: p(x) ==> multiset(Filter(s, p))[x] == multiset(s)[x]
    ensures forall x :: !p(x) ==> multiset(Filter(s, p))[x] == 0
  {
    if s != [] {
      var front, last := s[..|s| - 1], s[|s| - 1];
      FilterMultiset(front, p);
      assert s == front + [last];
      assert multiset(s) == multiset(front) + multiset{last};
    }
  }

  lemma FilterMembership<T>(s: seq<T>, p: T -> bool)
    ensures forall x :: x in Filter(s, p) <==> x in s && p(x)
  {
    FilterMultiset(s, p);
    forall x ensures x in Filter(s, p) <==> x in s && p(x) {
      assert x in Filter(s, p) <==> x in multiset(Filter(s, p));
      assert x in s <==> x in multiset(s);
    }
  }

  lemma {:induction false} FilterIsSubsequence<T>(s: seq<T>, p: T -> bool)
    ensures IsSubsequence(Filter(s, p), s)
  {
    if s != [] {
      var front, last := s[..|s| - 1], s[|s| - 1];
      FilterIsSubsequence(front, p);
      if p(last) {
        assert Filter(s, p)[..|Filter(s, p)| - 1] == Filter(front, p);
      } else {
        assert Filter(s, p) == Filter(front, p);
        SubsequenceOfPrefix(Filter(s, p), s);
      }
    }
  }

  /** When no two elements share a key, no two elements of a filtered sequence do. */
  lemma {:induction false} FilterKeepsDistinctKeys<T, K>(s: seq<T>, p: T -> bool, key: T -> K)
    requires forall i, j :: 0 <= i < j < |s| ==> key(s[i]) != key(s[j])
    ensures forall i, j :: 0 <= i < j < |Filter(s, p)| ==> key(Filter(s, p)[i]) != key(Filter(s, p)[j])
  {
    if s != [] {
      var front, last := s[..|s| - 1], s[|s| - 1];
      FilterKeepsDistinctKeys(front, p, key);
      var r := Filter(s, p);
      var fr := Filter(front, p);
      if p(last) {
        assert r == fr + [last];
        forall i, j | 0 <= i < j < |r| ensures key(r[i]) != key(r[j]) {
          if j == |r| - 1 {
            assert r[i] == fr[i] && fr[i] in fr;
            FilteredFrom(front, p, fr[i]);
            var k :| 0 <= k < |front| && front[k] == r[i];
            assert s[k] == front[k];
          } else {
            assert r[i] == fr[i] && r[j] == fr[j];
          }
        }
      }
    }
  }

  /** An element of a filtered sequence stands somewhere in the sequence. */
  lemma FilteredFrom<T>(s: seq<T>, p: T -> bool, x: T)
    requires x in Filter(s, p)
    ensures exists k :: 0 <= k < |s| && s[k] == x
  {
    FilterMembership(s, p);
  }

  lemma SubsequenceOfPrefix<T>(sub: seq<T>, s: seq<T>)
    requires s != [] && IsSubsequence(sub, s[..|s| - 1])
    ensures IsSubsequence(sub, s)
  {
  }

  /** Filtering distributes over concatenation: what came first still comes first. */
  lemma {:induction false} FilterConcat<T>(a: seq<T>, b: seq<T>, p: T -> bool)
    ensures Filter(a + b, p) == Filter(a, p) + Filter(b, p)
    decreases |b|
  {
    if b == [] {
      assert a + b == a;
    } else {
      assert (a + b)[..|a + b| - 1] == a + b[..|b| - 1];
      assert (a + b)[|a + b| - 1] == b[|b| - 1];
      FilterConcat(a, b[..|b| - 1], p);
    }
  }

  /** A filter every element passes leaves the sequence as it is. */
  lemma {:induction false} FilterAll<T>(s: seq<T>, p: T -> bool)
    requires forall i :: 0 <= i < |s| ==> p(s[i])
    ensures Filter(s, p) == s
  {
    if s != [] {
      FilterAll(s[..|s| - 1], p);
    }
  }

  /** A filter no element passes leaves nothing. */
  lemma {:induction false} FilterNone<T>(s: seq<T>, p: T -> bool)
    requires forall i :: 0 <= i < |s| ==> !p(s[i])
    ensures Filter(s, p) == []
  {
    if s != [] {
      FilterNone(s[..|s| - 1], p);
    }
  }

  /** `s.filter((_, index) => index !== k)`: `s` without position `k` (all of `s` when `k` is out of range). */
  function WithoutIndex<T>(s: seq<T>, k: int): (r: seq<T>)
    ensures 0 <= k < |s| ==> |r| == |s| - 1
    ensures !(0 <= k < |s|) ==> |r| == |s|
  {
    if s == [] then []
    else WithoutIndex(s[..|s| - 1], k) + (if |s| - 1 != k then [s[|s| - 1]] else [])
  }

  /** Dropping position `k` is splicing it out; out of range it changes nothing. */
  lemma {:induction false} WithoutIndexSplice<T>(s: seq<T>, k: int)
    ensures WithoutIndex(s, k) == if 0 <= k < |s| then s[..k] + s[k + 1..] else s
  {
    if s != [] {
      var n := |s|;
      var front, last := s[..n - 1], s[n - 1];
      WithoutIndexSplice(front, k);
      if 0 <= k < n - 1 {
        var a, b := front[..k], front[k + 1..];
        assert WithoutIndex(s, k) == (a + b) + [last];
        assert a == s[..k];
        assert b + [last] == s[k + 1..];
        assert (a + b) + [last] == a + (b + [last]);
      } else if k == n - 1 {
        assert WithoutIndex(s, k) == front;
        assert s[k + 1..] == [];
        assert s[..k] + [] == front;
      } else {
        assert WithoutIndex(s, k) == front + [last];
        assert front + [last] == s;
      }
    }
  }

  /** `s.findIndex(p)`: the first position whose element passes, or -1. */
  function FindIndex<T>(s: seq<T>, p: T -> bool): (k: int)
    ensures -1 <= k < |s|
    ensures k >= 0 ==> p(s[k]) && forall j :: 0 <= j < k ==> !p(s[j])
    ensures k == -1 ==> forall j :: 0 <= j < |s| ==> !p(s[j])
  {
    if s == [] then -1
    else if p(s[0]) then 0
    else var k := FindIndex(s[1..], p); if k < 0 then -1 else k + 1
  }

  /** `Array.from(new Set(s))`: each distinct element once, in order of first appearance. */
  function Distinct<T(==)>(s: seq<T>): (r: seq<T>)
    ensures forall i :: 0 <= i < |r| ==> r[i] in s
    ensures forall i :: 0 <= i < |s| ==> s[i] in r
    ensures forall i, j :: 0 <= i < j < |r| ==> r[i] != r[j]
  {
    if s == [] then []
    else
      var front := Distinct(s[..|s| - 1]);
      if s[|s| - 1] in front then front else front + [s[|s| - 1]]
  }

  /**
   * The distinct elements of a prefix come first, in the same order: so an
   * element whose first occurrence is earlier is listed earlier.
   */
  lemma {:induction false} DistinctOfPrefix<T>(s: seq<T>, k: nat)
    requires k <= |s|
    ensures Distinct(s[..k]) <= Distinct(s)
    decreases |s|
  {
    if k < |s| {
      var front := s[..|s| - 1];
      assert front[..k] == s[..k];
      DistinctOfPrefix(front, k);
    } else {
      assert s[..k] == s;
    }
  }

  /** Distinct elements keep the order of their first occurrence in `s`. */
  lemma DistinctFirstOccurrence<T>(s: seq<T>, i: nat, j: nat)
    requires i < |s| && j < |s| && s[i] != s[j]
    requires forall k :: 0 <= k < i ==> s[k] != s[i]
    requires forall k :: 0 <= k < j ==> s[k] != s[j]
    requires i < j
    ensures exists a, b :: 0 <= a < b < |Distinct(s)| && Distinct(s)[a] == s[i] && Distinct(s)[b] == s[j]
  {
    var p := Distinct(s[..j]);
    var q := Distinct(s[..j + 1]);
    DistinctOfPrefix(s, j);
    DistinctOfPrefix(s, j + 1);
    assert s[..j + 1][..j] == s[..j];
    assert s[i] in s[..j];
    assert s[j] !in s[..j];
    assert q == p + [s[j]];
    var a :| 0 <= a < |p| && p[a] == s[i];
    assert Distinct(s)[a] == s[i] && Distinct(s)[|p|] == s[j];
  }

  /** Filters whose predicates agree on every element of `s` pick the same elements. */
  lemma {:induction false} FilterCongruent<T>(s: seq<T>, p: T -> bool, q: T -> bool)
    requires forall i :: 0 <= i < |s| ==> p(s[i]) == q(s[i])
    ensures Filter(s, p) == Filter(s, q)
  {
    if s != [] {
      FilterCongruent(s[..|s| - 1], p, q);
    }
  }

  /** Mapping a prefix gives the prefix of the mapped sequence. */
  lemma MapPrefix<T, U>(s: seq<T>, f: T -> U, k: nat)
    requires k <= |s|
    ensures Map(s[..k], f) == Map(s, f)[..k]
  {
  }

  /** Mapping preserves the prefix relation. */
  lemma MapOfPrefix<T, U>(a: seq<T>, b: seq<T>, f: T -> U)
    requires a <= b
    ensures Map(a, f) <= Map(b, f)
  {
    assert a == b[..|a|];
    MapPrefix(b, f, |a|);
  }

  /** One more element: listed at the end unless it was already there. */
  lemma DistinctSnoc<T>(s: seq<T>, x: T)
    ensures Distinct(s + [x]) == if x in Distinct(s) then Distinct(s) else Distinct(s) + [x]
  {
    assert (s + [x])[..|s|] == s;
  }

  /** A sequence without repetitions is its own set of distinct elements. */
  lemma {:induction false} DistinctOfUnique<T>(s: seq<T>)
    requires forall i, j :: 0 <= i < j < |s| ==> s[i] != s[j]
    ensures Distinct(s) == s
  {
    if s != [] {
      var front := s[..|s| - 1];
      DistinctOfUnique(front);
      assert s[|s| - 1] !in front;
      assert front + [s[|s| - 1]] == s;
    }
  }

  /** Appending a run of one repeated element adds that element at most once. */
  lemma {:induction false} DistinctAppendRun<T>(p: seq<T>, s: seq<T>, x: T)
    requires |s| >= 1 && forall i :: 0 <= i < |s| ==> s[i] == x
    ensures Distinct(p + s) == if x in Distinct(p) then Distinct(p) else Distinct(p) + [x]
    decreases |s|
  {
    var front := s[..|s| - 1];
    assert p + s == (p + front) + [x];
    DistinctSnoc(p + front, x);
    if |s| == 1 {
      assert p + front == p;
    } else {
      DistinctAppendRun(p, front, x);
    }
  }
}

