/** Sorting newest first, as `list.sort((a, b) => b.timestamp - a.timestamp)`
    does in the notification store and in the notifications center.
    ECMAScript requires `Array.prototype.sort` to be stable, and a stable
    sort has exactly one possible result, so the stable insertion sort
    below gives the same order as the source. */
module Sorting {
  import opened Seqs

  /** Keys never increase from left to right. */
  predicate SortedDesc<T>(s: seq<T>, key: T -> int)
  {
    forall i, j :: 0 <= i < j < |s| ==> key(s[i]) >= key(s[j])
  }

  /** Places `x` after every leading element whose key is at least
      `key(x)`: equal keys keep `x` behind the elements already there. */
  function InsertDesc<T>(s: seq<T>, x: T, key: T -> int): (r: seq<T>)
    ensures |r| == |s| + 1
  {
    if s == [] then [x]
    else if key(s[0]) >= key(x) then [s[0]] + InsertDesc(s[1..], x, key)
    else [x] + s
  }

  /** An insertion adds exactly `x`. */
  lemma {:induction false} InsertDescPermutes<T>(s: seq<T>, x: T, key: T -> int)
    ensures multiset(InsertDesc(s, x, key)) == multiset(s) + multiset{x}
  {
    if s != [] {
      assert s == [s[0]] + s[1..];
      InsertDescPermutes(s[1..], x, key);
    }
  }

  /** No key exceeds `bound`. */
  predicate AtMost<T>(s: seq<T>, bound: int, key: T -> int)
  {
    forall j :: 0 <= j < |s| ==> key(s[j]) <= bound
  }

  /** A sorted list stays sorted under a head whose key bounds it. */
  lemma SortedCons<T>(h: T, tail: seq<T>, key: T -> int)
    requires SortedDesc(tail, key) && AtMost(tail, key(h), key)
    ensures SortedDesc([h] + tail, key)
  {
    var r := [h] + tail;
    forall i, j | 0 <= i < j < |r|
      ensures key(r[i]) >= key(r[j])
    {
      assert r[j] == tail[j - 1];
      if i > 0 {
        assert r[i] == tail[i - 1];
      }
    }
  }

  /** The tail of a sorted list is sorted and bounded by its head. */
  lemma SortedTail<T>(s: seq<T>, key: T -> int)
    requires s != [] && SortedDesc(s, key)
    ensures SortedDesc(s[1..], key) && AtMost(s[1..], key(s[0]), key)
  {
    forall j | 0 <= j < |s[1..]|
      ensures key(s[1..][j]) <= key(s[0])
    {
      assert s[1..][j] == s[j + 1];
    }
  }

  /** Inserting an element under a bound keeps the bound. */
  lemma {:induction false} InsertDescAtMost<T>(s: seq<T>, x: T, bound: int, key: T -> int)
    requires AtMost(s, bound, key) && key(x) <= bound
    ensures AtMost(InsertDesc(s, x, key), bound, key)
  {
    if s != [] && key(s[0]) >= key(x) {
      assert AtMost(s[1..], bound, key) by {
        forall j | 0 <= j < |s[1..]| ensures key(s[1..][j]) <= bound {
          assert s[1..][j] == s[j + 1];
        }
      }
      InsertDescAtMost(s[1..], x, bound, key);
      var r := [s[0]] + InsertDesc(s[1..], x, key);
      forall j | 0 <= j < |r| ensures key(r[j]) <= bound {
        if j > 0 { assert r[j] == InsertDesc(s[1..], x, key)[j - 1]; }
      }
    } else if s != [] {
      var r := [x] + s;
      forall j | 0 <= j < |r| ensures key(r[j]) <= bound {
        if j > 0 { assert r[j] == s[j - 1]; }
      }
    }
  }

  /** An insertion into a sorted list keeps it sorted. */
  lemma {:induction false} InsertDescSorted<T>(s: seq<T>, x: T, key: T -> int)
    requires SortedDesc(s, key)
    ensures SortedDesc(InsertDesc(s, x, key), key)
  {
    if s != [] {
      SortedTail(s, key);
      if key(s[0]) >= key(x) {
        InsertDescSorted(s[1..], x, key);
        InsertDescAtMost(s[1..], x, key(s[0]), key);
        SortedCons(s[0], InsertDesc(s[1..], x, key), key);
      } else {
        assert AtMost(s, key(x), key);
        SortedCons(x, s, key);
      }
    }
  }

  /** The stable sort, newest first: a permutation of its input, sorted. */
  function SortDesc<T>(s: seq<T>, key: T -> int): (r: seq<T>)
    ensures |r| == |s|
    ensures multiset(r) == multiset(s)
    ensures SortedDesc(r, key)
  {
    if s == [] then []
    else
      var init := s[..|s| - 1];
      assert s == init + [s[|s| - 1]];
      var sorted := SortDesc(init, key);
      InsertDescPermutes(sorted, s[|s| - 1], key);
      InsertDescSorted(sorted, s[|s| - 1], key);
      InsertDesc(sorted, s[|s| - 1], key)
  }

  /** How many leading elements of `s` have a key at least `key(x)`. */
  function InsertIndex<T>(s: seq<T>, x: T, key: T -> int): (k: nat)
    ensures k <= |s|
    ensures forall i :: 0 <= i < k ==> key(s[i]) >= key(x)
    ensures k < |s| ==> key(s[k]) < key(x)
  {
    if s == [] then 0
    else if key(s[0]) >= key(x) then
      var k := InsertIndex(s[1..], x, key);
      assert forall i :: 1 <= i < k + 1 ==> s[i] == s[1..][i - 1];
      k + 1
    else 0
  }

  /** Where the insertion lands: after the longest prefix whose keys are
      at least `key(x)`, in front of the first element with a smaller key. */
  lemma {:induction false} InsertDescShape<T>(s: seq<T>, x: T, key: T -> int)
    ensures InsertDesc(s, x, key) == s[..InsertIndex(s, x, key)] + [x] + s[InsertIndex(s, x, key)..]
  {
    if s != [] && key(s[0]) >= key(x) {
      InsertDescShape(s[1..], x, key);
      var k := InsertIndex(s[1..], x, key);
      assert InsertIndex(s, x, key) == k + 1;
      InsertDescShapeStep(s, x, key, k);
    } else {
      assert InsertIndex(s, x, key) == 0;
      assert s[..0] == [] && s[0..] == s;
    }
  }

  /** The inductive step of `InsertDescShape`. */
  lemma InsertDescShapeStep<T>(s: seq<T>, x: T, key: T -> int, k: nat)
    requires s != [] && key(s[0]) >= key(x) && k < |s|
    requires InsertDesc(s[1..], x, key) == s[1..][..k] + [x] + s[1..][k..]
    ensures InsertDesc(s, x, key) == s[..k + 1] + [x] + s[k + 1..]
  {
    assert InsertDesc(s, x, key) == [s[0]] + InsertDesc(s[1..], x, key);
    ConsSlices(s, k, x);
  }

  /** Putting the head back in front of a split tail. */
  lemma ConsSlices<T>(s: seq<T>, k: nat, x: T)
    requires k < |s|
    ensures [s[0]] + (s[1..][..k] + [x] + s[1..][k..]) == s[..k + 1] + [x] + s[k + 1..]
  {
    var t := s[1..];
    assert s[..k + 1] == [s[0]] + t[..k];
    assert s[k + 1..] == t[k..];
  }

  /** An element whose key is not larger than the last one's goes at the
      end of a sorted list. */
  lemma InsertDescAtEnd<T>(s: seq<T>, x: T, key: T -> int)
    requires SortedDesc(s, key)
    requires s == [] || key(s[|s| - 1]) >= key(x)
    ensures InsertDesc(s, x, key) == s + [x]
  {
    InsertDescShape(s, x, key);
    var k := InsertIndex(s, x, key);
    assert s[..|s|] == s;
  }

  /** The prefixes of a sorted list are sorted. */
  lemma SortedInit<T>(s: seq<T>, key: T -> int)
    requires s != [] && SortedDesc(s, key)
    ensures SortedDesc(s[..|s| - 1], key)
    ensures |s| > 1 ==> key(s[..|s| - 1][|s| - 2]) >= key(s[|s| - 1])
  {
    var init := s[..|s| - 1];
    forall i, j | 0 <= i < j < |init| ensures key(init[i]) >= key(init[j]) {
      assert init[i] == s[i] && init[j] == s[j];
    }
  }

  /** Sorting a list that is already newest first leaves it as it is. */
  lemma {:induction false} SortDescOfSorted<T>(s: seq<T>, key: T -> int)
    requires SortedDesc(s, key)
    ensures SortDesc(s, key) == s
  {
    if s != [] {
      var init, last := s[..|s| - 1], s[|s| - 1];
      SortedInit(s, key);
      SortDescOfSorted(init, key);
      assert SortDesc(s, key) == InsertDesc(SortDesc(init, key), last, key);
      InsertDescAtEnd(init, last, key);
      assert s == init + [last];
    }
  }

  /** Adding one element to a sorted list and sorting is one stable
      insertion. */
  lemma SortDescAppend<T>(s: seq<T>, x: T, key: T -> int)
    requires SortedDesc(s, key)
    ensures SortDesc(s + [x], key) == InsertDesc(s, x, key)
  {
    assert (s + [x])[..|s + [x]| - 1] == s;
    SortDescOfSorted(s, key);
  }

  /** Filtering keeps a bound. */
  lemma FilterAtMost<T>(s: seq<T>, p: T -> bool, bound: int, key: T -> int)
    requires AtMost(s, bound, key)
    ensures AtMost(Filter(s, p), bound, key)
  {
    var r := Filter(s, p);
    forall j | 0 <= j < |r| ensures key(r[j]) <= bound {
      var m :| 0 <= m < |s| && s[m] == r[j];
    }
  }

  /** Filtering a sorted list leaves it sorted. */
  lemma {:induction false} FilterSortedDesc<T>(s: seq<T>, p: T -> bool, key: T -> int)
    requires SortedDesc(s, key)
    ensures SortedDesc(Filter(s, p), key)
  {
    if s != [] {
      SortedTail(s, key);
      FilterSortedDesc(s[1..], p, key);
      if p(s[0]) {
        FilterAtMost(s[1..], p, key(s[0]), key);
        SortedCons(s[0], Filter(s[1..], p), key);
      }
    }
  }
}
