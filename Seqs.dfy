/** The array methods the modelled code uses on immutable lists:
    `find`/`findIndex`, `filter`, `some` and `flatMap`. */
module Seqs {

  /** `s.findIndex(p)`: the first position satisfying `p`, or -1. */
  function FindIndex<T>(s: seq<T>, p: T -> bool): (k: int)
    ensures -1 <= k < |s|
    ensures k >= 0 ==> p(s[k])
    ensures forall j :: 0 <= j < |s| && (k == -1 || j < k) ==> !p(s[j])
  {
    if s == [] then -1
    else if p(s[0]) then 0
    else
      var k := FindIndex(s[1..], p);
      assert forall j :: 1 <= j < |s| ==> s[j] == s[1..][j - 1];
      if k == -1 then -1 else k + 1
  }

  /** `s.some(p)`. */
  predicate Any<T>(s: seq<T>, p: T -> bool)
  {
    exists i :: 0 <= i < |s| && p(s[i])
  }

  /** `find` finds something exactly when something satisfies `p`. */
  lemma FindIndexFound<T>(s: seq<T>, p: T -> bool)
    ensures FindIndex(s, p) >= 0 <==> Any(s, p)
  {
  }

  /** `s.filter(p)`: the elements satisfying `p`, in their order. */
  function Filter<T>(s: seq<T>, p: T -> bool): (r: seq<T>)
    ensures |r| <= |s|
    ensures forall i :: 0 <= i < |r| ==> r[i] in s && p(r[i])
    ensures forall i :: 0 <= i < |s| && p(s[i]) ==> s[i] in r
    ensures multiset(r) <= multiset(s)
  {
    if s == [] then []
    else
      assert s == [s[0]] + s[1..];
      if p(s[0]) then [s[0]] + Filter(s[1..], p) else Filter(s[1..], p)
  }

  /** Filtering distributes over concatenation, so it keeps the order of
      what it keeps. */
  lemma {:induction false} FilterAppend<T>(a: seq<T>, b: seq<T>, p: T -> bool)
    ensures Filter(a + b, p) == Filter(a, p) + Filter(b, p)
  {
    if a == [] {
      assert a + b == b;
    } else {
      assert (a + b)[0] == a[0];
      assert (a + b)[1..] == a[1..] + b;
      FilterAppend(a[1..], b, p);
    }
  }

  /** A filter that keeps everything changes nothing. */
  lemma {:induction false} FilterAll<T>(s: seq<T>, p: T -> bool)
    requires forall i :: 0 <= i < |s| ==> p(s[i])
    ensures Filter(s, p) == s
  {
    if s != [] {
      FilterAll(s[1..], p);
    }
  }

  /** A filter removes exactly the elements failing `p`: counted with
      multiplicity, each element satisfying `p` is kept as often as it
      occurs. */
  lemma {:induction false} FilterCount<T>(s: seq<T>, p: T -> bool, x: T)
    ensures multiset(Filter(s, p))[x] == if p(x) then multiset(s)[x] else 0
  {
    if s != [] {
      assert s == [s[0]] + s[1..];
      FilterCount(s[1..], p, x);
    }
  }

  /** `a` is `b` with some elements left out: what is kept keeps its
      order. */
  predicate Subsequence<T(==)>(a: seq<T>, b: seq<T>)
    decreases |b|
  {
    if a == [] then true
    else if b == [] then false
    else if a[0] == b[0] then Subsequence(a[1..], b[1..])
    else Subsequence(a, b[1..])
  }

  /** A filter keeps the order of what it keeps. */
  lemma {:induction false} FilterSubsequence<T>(s: seq<T>, p: T -> bool)
    ensures Subsequence(Filter(s, p), s)
  {
    if s != [] {
      FilterSubsequence(s[1..], p);
    }
  }

  /** No two elements share a key. */
  predicate DistinctBy<T, K(==)>(s: seq<T>, key: T -> K)
  {
    forall i, j :: 0 <= i < j < |s| ==> key(s[i]) != key(s[j])
  }

  /** Distinct keys mean no element occurs twice. */
  lemma {:induction false} DistinctByCounts<T, K>(a: seq<T>, key: T -> K)
    requires DistinctBy(a, key)
    ensures forall x :: multiset(a)[x] <= 1
  {
    if a != [] {
      assert a == [a[0]] + a[1..];
      DistinctByCounts(a[1..], key);
      forall k | 0 <= k < |a[1..]|
        ensures a[1..][k] != a[0]
      {
        assert key(a[0]) != key(a[k + 1]);
      }
      assert multiset(a[1..])[a[0]] == 0;
    }
  }

  /** A list in which nothing occurs twice has no repeated element. */
  lemma {:induction false} NoRepeats<T>(b: seq<T>)
    requires forall x :: multiset(b)[x] <= 1
    ensures forall i, j :: 0 <= i < j < |b| ==> b[i] != b[j]
  {
    if b != [] {
      assert b == [b[0]] + b[1..];
      assert multiset(b) == multiset([b[0]]) + multiset(b[1..]);
      assert multiset(b)[b[0]] <= 1;
      assert multiset(b[1..])[b[0]] == 0;
      forall x
        ensures multiset(b[1..])[x] <= 1
      {
        assert multiset(b)[x] >= multiset(b[1..])[x];
      }
      NoRepeats(b[1..]);
      forall i, j | 0 <= i < j < |b|
        ensures b[i] != b[j]
      {
        assert b[j] == b[1..][j - 1];
        if i == 0 {
          assert multiset(b[1..])[b[j]] >= 1;
        } else {
          assert b[i] == b[1..][i - 1];
        }
      }
    }
  }

  /** Rearranging a list keeps its keys distinct. */
  lemma PermutationDistinctBy<T, K>(a: seq<T>, b: seq<T>, key: T -> K)
    requires multiset(a) == multiset(b) && DistinctBy(a, key)
    ensures DistinctBy(b, key)
  {
    DistinctByCounts(a, key);
    NoRepeats(b);
    forall i, j | 0 <= i < j < |b|
      ensures key(b[i]) != key(b[j])
    {
      assert b[i] in multiset(a) && b[j] in multiset(a);
      var p :| 0 <= p < |a| && a[p] == b[i];
      var q :| 0 <= q < |a| && a[q] == b[j];
      if p < q {
        assert key(a[p]) != key(a[q]);
      } else {
        assert key(a[q]) != key(a[p]);
      }
    }
  }
}
