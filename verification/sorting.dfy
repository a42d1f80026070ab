/**
 * `qsort` with a `strcmp` comparator on a string key, as the writer uses it
 * for devices (by id) and for a device's months (by period). The sort is
 * modelled as insertion sort; the source's `qsort` is not stable, but on
 * keys that are pairwise distinct every sorted permutation is the same
 * sequence (`SortedUnique`), so the choice does not show.
 */
module Sorting {
  import opened CStrings

  /** Ascending by key under `strcmp`. */
  predicate SortedBy<T>(s: seq<T>, key: T -> string) {
    forall i, j :: 0 <= i < j < |s| ==> StrCmp(key(s[i]), key(s[j])) <= 0
  }

  /** Strictly ascending by key: sorted, and no key repeats. */
  predicate StrictlySortedBy<T>(s: seq<T>, key: T -> string) {
    forall i, j :: 0 <= i < j < |s| ==> StrCmp(key(s[i]), key(s[j])) < 0
  }

  /** No two elements share a key. */
  predicate DistinctKeys<T>(s: seq<T>, key: T -> string) {
    forall i, j :: 0 <= i < j < |s| ==> key(s[i]) != key(s[j])
  }

  /** Every key of s compares at least as large as k. */
  predicate AllAtLeast<T>(k: string, s: seq<T>, key: T -> string) {
    forall i :: 0 <= i < |s| ==> StrCmp(k, key(s[i])) <= 0
  }

  /** Every key of s compares larger than k. */
  predicate AllAbove<T>(k: string, s: seq<T>, key: T -> string) {
    forall i :: 0 <= i < |s| ==> StrCmp(k, key(s[i])) < 0
  }

  /**
   * Sorted exactly when every element compares at most as large as its
   * successor: the pairs a comparison sort checks are enough.
   */
  lemma {:induction false} SortedByAdjacent<T>(s: seq<T>, key: T -> string)
    ensures SortedBy(s, key) <==> forall i :: 0 < i < |s| ==> StrCmp(key(s[i - 1]), key(s[i])) <= 0
    decreases |s|
  {
    if |s| > 1 && forall i :: 0 < i < |s| ==> StrCmp(key(s[i - 1]), key(s[i])) <= 0 {
      var n := |s| - 1;
      var p := s[..n];
      forall i | 0 < i < |p|
        ensures StrCmp(key(p[i - 1]), key(p[i])) <= 0
      {
        assert p[i - 1] == s[i - 1] && p[i] == s[i];
      }
      SortedByAdjacent(p, key);
      forall i, j | 0 <= i < j < |s|
        ensures StrCmp(key(s[i]), key(s[j])) <= 0
      {
        if j < n {
          assert s[i] == p[i] && s[j] == p[j];
        } else if i < n - 1 {
          assert s[i] == p[i] && s[n - 1] == p[n - 1];
          StrCmpTransitive(key(s[i]), key(s[n - 1]), key(s[n]));
        }
      }
    }
  }

  /** An element of a permutation of s + [x] is x or an element of s. */
  lemma FromMultiset<T>(s: seq<T>, t: seq<T>, x: T, i: nat) returns (j: int)
    requires multiset(t) == multiset(s) + multiset{x} && i < |t|
    ensures j == -1 ==> t[i] == x
    ensures j != -1 ==> 0 <= j < |s| && s[j] == t[i]
  {
    assert t[i] in multiset(t);
    if t[i] == x {
      j := -1;
    } else {
      assert t[i] in multiset(s);
      j :| 0 <= j < |s| && s[j] == t[i];
    }
  }

  lemma AllAtLeastMultiset<T>(k: string, s: seq<T>, t: seq<T>, x: T, key: T -> string)
    requires AllAtLeast(k, s, key) && StrCmp(k, key(x)) <= 0
    requires multiset(t) == multiset(s) + multiset{x}
    ensures AllAtLeast(k, t, key)
  {
    forall i | 0 <= i < |t|
      ensures StrCmp(k, key(t[i])) <= 0
    {
      var j := FromMultiset(s, t, x, i);
    }
  }

  lemma AllAboveMultiset<T>(k: string, s: seq<T>, t: seq<T>, x: T, key: T -> string)
    requires AllAbove(k, s, key) && StrCmp(k, key(x)) < 0
    requires multiset(t) == multiset(s) + multiset{x}
    ensures AllAbove(k, t, key)
  {
    forall i | 0 <= i < |t|
      ensures StrCmp(k, key(t[i])) < 0
    {
      var j := FromMultiset(s, t, x, i);
    }
  }

  /** An element no larger than the head of a sorted sequence is no larger than any of it. */
  lemma BelowHead<T>(x: T, s: seq<T>, key: T -> string)
    requires SortedBy(s, key) && s != [] && StrCmp(key(x), key(s[0])) <= 0
    ensures AllAtLeast(key(x), s, key)
  {
    forall j | 0 <= j < |s| ensures StrCmp(key(x), key(s[j])) <= 0 {
      if j > 0 {
        StrCmpTransitive(key(x), key(s[0]), key(s[j]));
      }
    }
  }

  /** Putting a lower bound in front of a sorted sequence keeps it sorted. */
  lemma ConsSorted<T>(x: T, s: seq<T>, key: T -> string)
    requires SortedBy(s, key) && AllAtLeast(key(x), s, key)
    ensures SortedBy([x] + s, key)
  {
    forall i, j | 0 <= i < j < |s| + 1
      ensures StrCmp(key(([x] + s)[i]), key(([x] + s)[j])) <= 0
    {
      assert ([x] + s)[j] == s[j - 1];
      if i > 0 {
        assert ([x] + s)[i] == s[i - 1];
      }
    }
  }

  /** Insert x before the first element whose key is not smaller. */
  function Insert<T>(x: T, s: seq<T>, key: T -> string): (r: seq<T>)
    requires SortedBy(s, key)
    ensures SortedBy(r, key)
    ensures multiset(r) == multiset(s) + multiset{x}
    ensures |r| == |s| + 1
  {
    if s == [] then [x]
    else if StrCmp(key(x), key(s[0])) <= 0 then
      BelowHead(x, s, key);
      ConsSorted(x, s, key);
      [x] + s
    else
      var rest := Insert(x, s[1..], key);
      StrCmpAntiSymmetric(key(x), key(s[0]));
      assert AllAtLeast(key(s[0]), s[1..], key);
      AllAtLeastMultiset(key(s[0]), s[1..], rest, x, key);
      ConsSorted(s[0], rest, key);
      assert s == [s[0]] + s[1..];
      [s[0]] + rest
  }

  /** Into a strictly sorted sequence that lacks x's key, insertion keeps the order strict. */
  lemma {:induction false} InsertStrict<T>(x: T, s: seq<T>, key: T -> string)
    requires StrictlySortedBy(s, key)
    requires forall j :: 0 <= j < |s| ==> key(s[j]) != key(x)
    ensures StrictlySortedBy(Insert(x, s, key), key)
  {
    if s != [] {
      if StrCmp(key(x), key(s[0])) <= 0 {
        StrCmpZero(key(x), key(s[0]));
        assert AllAbove(key(x), s, key) by {
          forall j | 0 < j < |s| ensures StrCmp(key(x), key(s[j])) < 0 {
            StrCmpStrictTransitive(key(x), key(s[0]), key(s[j]));
          }
        }
      } else {
        var rest := Insert(x, s[1..], key);
        InsertStrict(x, s[1..], key);
        StrCmpAntiSymmetric(key(x), key(s[0]));
        assert AllAbove(key(s[0]), s[1..], key);
        AllAboveMultiset(key(s[0]), s[1..], rest, x, key);
      }
    }
  }

  /** `qsort` by key: a sorted permutation of the input. */
  function SortBy<T>(s: seq<T>, key: T -> string): (r: seq<T>)
    ensures SortedBy(r, key)
    ensures multiset(r) == multiset(s)
    ensures |r| == |s|
  {
    if s == [] then []
    else
      assert s == [s[0]] + s[1..];
      Insert(s[0], SortBy(s[1..], key), key)
  }

  /** On pairwise distinct keys the sorted order is strict. */
  lemma {:induction false} SortStrict<T>(s: seq<T>, key: T -> string)
    requires DistinctKeys(s, key)
    ensures StrictlySortedBy(SortBy(s, key), key)
  {
    if s != [] {
      var rest := SortBy(s[1..], key);
      SortStrict(s[1..], key);
      forall j | 0 <= j < |rest| ensures key(rest[j]) != key(s[0]) {
        assert rest[j] in multiset(s[1..]);
        var i :| 0 <= i < |s[1..]| && s[1..][i] == rest[j];
        assert s[i + 1] == rest[j];
      }
      InsertStrict(s[0], rest, key);
    }
  }

  /** The first elements of two strictly sorted permutations of each other agree. */
  lemma SortedHeads<T>(a: seq<T>, b: seq<T>, key: T -> string)
    requires StrictlySortedBy(a, key) && StrictlySortedBy(b, key)
    requires multiset(a) == multiset(b) && a != []
    ensures b != [] && a[0] == b[0]
  {
    assert a[0] in multiset(b);
    var j :| 0 <= j < |b| && b[j] == a[0];
    assert b[0] in multiset(a);
    var i :| 0 <= i < |a| && a[i] == b[0];
    if j > 0 {
      if i > 0 {
        assert StrCmp(key(a[0]), key(a[i])) < 0;
        assert StrCmp(key(b[0]), key(b[j])) < 0;
        StrCmpAntiSymmetric(key(a[0]), key(a[i]));
      } else {
        assert StrCmp(key(b[0]), key(b[j])) < 0;
        StrCmpZero(key(b[0]), key(b[j]));
      }
    }
  }

  /** Removing equal first elements from equal multisets leaves equal multisets. */
  lemma TailsSameMultiset<T>(a: seq<T>, b: seq<T>)
    requires a != [] && b != [] && a[0] == b[0] && multiset(a) == multiset(b)
    ensures multiset(a[1..]) == multiset(b[1..])
  {
    assert a == [a[0]] + a[1..] && b == [b[0]] + b[1..];
    assert multiset(a[1..]) == multiset(a) - multiset{a[0]};
    assert multiset(b[1..]) == multiset(b) - multiset{b[0]};
  }

  lemma StrictTail<T>(a: seq<T>, key: T -> string)
    requires a != [] && StrictlySortedBy(a, key)
    ensures StrictlySortedBy(a[1..], key)
  {
    forall i, j | 0 <= i < j < |a| - 1
      ensures StrCmp(key(a[1..][i]), key(a[1..][j])) < 0
    {
      assert a[1..][i] == a[i + 1] && a[1..][j] == a[j + 1];
    }
  }

  /**
   * Two strictly sorted permutations of each other are equal: with distinct
   * keys, the order `qsort` produces does not depend on how it sorts.
   */
  lemma {:induction false} SortedUnique<T>(a: seq<T>, b: seq<T>, key: T -> string)
    requires StrictlySortedBy(a, key) && StrictlySortedBy(b, key)
    requires multiset(a) == multiset(b)
    ensures a == b
    decreases |a|
  {
    if a == [] {
      assert |b| == |multiset(b)| == 0;
    } else {
      SortedHeads(a, b, key);
      TailsSameMultiset(a, b);
      StrictTail(a, key);
      StrictTail(b, key);
      SortedUnique(a[1..], b[1..], key);
      assert a == [a[0]] + a[1..] && b == [b[0]] + b[1..];
    }
  }
}
