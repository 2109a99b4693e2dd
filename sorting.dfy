/**
 * Array.prototype.sort with a comparator of the form (a, b) => key(a) - key(b)
 * (ascending) or key(b) - key(a) (descending, written here as the ascending
 * sort on the negated key). The sort in JavaScript engines is stable, and so
 * is this insertion sort (SortByStable), so the two agree element for element.
 */
module Sorting {
  import opened Common

  /** Keys never decrease along s. */
  ghost predicate SortedBy<T>(s: seq<T>, key: T -> int)
  {
    forall i, j :: 0 <= i < j < |s| ==> key(s[i]) <= key(s[j])
  }

  /** Puts x before the first element whose key is not smaller than x's. */
  function Insert<T>(x: T, s: seq<T>, key: T -> int): (r: seq<T>)
    ensures |r| == |s| + 1
    ensures multiset(r) == multiset(s) + multiset{x}
  {
    if s == [] || key(x) <= key(s[0]) then [x] + s
    else
      assert s == [s[0]] + s[1..];
      [s[0]] + Insert(x, s[1..], key)
  }

  /** A lower bound on the keys of x and of s bounds the keys of the result. */
  lemma {:induction false} InsertLowerBound<T>(x: T, s: seq<T>, key: T -> int, b: int)
    requires b <= key(x) && forall k :: 0 <= k < |s| ==> b <= key(s[k])
    ensures forall j :: 0 <= j < |Insert(x, s, key)| ==> b <= key(Insert(x, s, key)[j])
  {
    var r := Insert(x, s, key);
    if s == [] || key(x) <= key(s[0]) {
      assert r == [x] + s;
      forall j | 0 <= j < |r|
        ensures b <= key(r[j])
      {
        if j > 0 {
          assert r[j] == s[j - 1];
        }
      }
    } else {
      forall k | 0 <= k < |s[1..]|
        ensures b <= key(s[1..][k])
      {
        assert s[1..][k] == s[k + 1];
      }
      InsertLowerBound(x, s[1..], key, b);
      var tail := Insert(x, s[1..], key);
      assert r == [s[0]] + tail;
      forall j | 0 <= j < |r|
        ensures b <= key(r[j])
      {
        if j > 0 {
          assert r[j] == tail[j - 1];
          assert b <= key(tail[j - 1]);
        } else {
          assert r[0] == s[0];
        }
      }
    }
  }

  /** Inserting into a sorted list keeps it sorted. */
  lemma {:induction false} InsertSorted<T>(x: T, s: seq<T>, key: T -> int)
    requires SortedBy(s, key)
    ensures SortedBy(Insert(x, s, key), key)
  {
    var r := Insert(x, s, key);
    if s != [] && key(x) > key(s[0]) {
      var tail := Insert(x, s[1..], key);
      assert SortedBy(s[1..], key) by {
        forall i, j | 0 <= i < j < |s[1..]|
          ensures key(s[1..][i]) <= key(s[1..][j])
        {
          assert s[1..][i] == s[i + 1] && s[1..][j] == s[j + 1];
        }
      }
      InsertSorted(x, s[1..], key);
      forall k | 0 <= k < |s[1..]|
        ensures key(s[0]) <= key(s[1..][k])
      {
        assert s[1..][k] == s[k + 1];
      }
      InsertLowerBound(x, s[1..], key, key(s[0]));
      assert r == [s[0]] + tail;
      forall i, j | 0 <= i < j < |r|
        ensures key(r[i]) <= key(r[j])
      {
        assert r[j] == tail[j - 1];
        if i > 0 {
          assert r[i] == tail[i - 1];
          assert key(tail[i - 1]) <= key(tail[j - 1]);
        } else {
          assert r[0] == s[0];
          assert key(s[0]) <= key(tail[j - 1]);
        }
      }
    }
  }

  /** A stable sort of s by ascending key. */
  function SortBy<T>(s: seq<T>, key: T -> int): (r: seq<T>)
    ensures |r| == |s|
    ensures multiset(r) == multiset(s)
    ensures SortedBy(r, key)
  {
    if s == [] then []
    else
      assert s == [s[0]] + s[1..];
      InsertSorted(s[0], SortBy(s[1..], key), key);
      Insert(s[0], SortBy(s[1..], key), key)
  }

  /** Filtering a list with a known head. */
  lemma FilterCons<T>(a: T, rest: seq<T>, p: T -> bool)
    ensures Filter([a] + rest, p) == (if p(a) then [a] else []) + Filter(rest, p)
  {
    assert ([a] + rest)[0] == a && ([a] + rest)[1..] == rest;
  }

  /** The tail of a sorted list is sorted. */
  lemma SortedTail<T>(t: seq<T>, key: T -> int)
    requires t != [] && SortedBy(t, key)
    ensures SortedBy(t[1..], key)
  {
    forall i, j | 0 <= i < j < |t[1..]|
      ensures key(t[1..][i]) <= key(t[1..][j])
    {
      assert t[1..][i] == t[i + 1] && t[1..][j] == t[j + 1];
    }
  }

  /**
   * Inserting into a sorted list puts x after every element with a smaller
   * key and before every element with the same key, so among the elements
   * of one key, x comes first and the others keep their order.
   */
  lemma {:induction false} InsertKeepsKeyOrder<T>(x: T, t: seq<T>, key: T -> int, k: int, p: T -> bool)
    requires SortedBy(t, key)
    requires forall y :: p(y) ==> key(y) == k
    ensures Filter(Insert(x, t, key), p) == (if p(x) then [x] else []) + Filter(t, p)
  {
    if t == [] || key(x) <= key(t[0]) {
      FilterCons(x, t, p);
    } else {
      SortedTail(t, key);
      InsertKeepsKeyOrder(x, t[1..], key, k, p);
      InsertPastHead(x, t, key, k, p);
    }
  }

  /** The step of InsertKeepsKeyOrder past a head with a smaller key. */
  lemma InsertPastHead<T>(x: T, t: seq<T>, key: T -> int, k: int, p: T -> bool)
    requires t != [] && key(t[0]) < key(x)
    requires p(x) ==> key(x) == k
    requires p(t[0]) ==> key(t[0]) == k
    requires Filter(Insert(x, t[1..], key), p) == (if p(x) then [x] else []) + Filter(t[1..], p)
    ensures Filter(Insert(x, t, key), p) == (if p(x) then [x] else []) + Filter(t, p)
  {
    var rest := Insert(x, t[1..], key);
    assert Insert(x, t, key) == [t[0]] + rest;
    FilterCons(t[0], rest, p);
    assert Filter(t, p) == (if p(t[0]) then [t[0]] else []) + Filter(t[1..], p);
    var ft := Filter(t[1..], p);
    if p(x) {
      assert !p(t[0]);
      assert Filter(Insert(x, t, key), p) == [] + Filter(rest, p) == Filter(rest, p);
      assert Filter(t, p) == [] + ft == ft;
    } else {
      assert Filter(rest, p) == [] + ft == ft;
      assert [] + Filter(t, p) == Filter(t, p);
    }
  }

  /** The sort is stable: the elements of any one key come out in their input order. */
  lemma {:induction false} SortByStable<T>(s: seq<T>, key: T -> int, k: int, p: T -> bool)
    requires forall y :: p(y) ==> key(y) == k
    ensures Filter(SortBy(s, key), p) == Filter(s, p)
  {
    if s != [] {
      SortByStable(s[1..], key, k, p);
      InsertKeepsKeyOrder(s[0], SortBy(s[1..], key), key, k, p);
    }
  }

  /** Sorting on the negated key orders by descending key. */
  lemma SortedDescending<T>(s: seq<T>, key: T -> int)
    ensures var r := SortBy(s, x => -key(x));
      forall i, j :: 0 <= i < j < |r| ==> key(r[i]) >= key(r[j])
  {
    var r := SortBy(s, x => -key(x));
    assert SortedBy(r, x => -key(x));
  }

  /** Sorting keeps exactly the elements it was given. */
  lemma SortByMembers<T>(s: seq<T>, key: T -> int, x: T)
    ensures x in SortBy(s, key) <==> x in s
  {
    var r := SortBy(s, key);
    assert x in r <==> x in multiset(r);
  }

  /**
   * A prefix of a sorted list holds the least elements: an element left out
   * has a key no smaller than any kept one.
   */
  lemma PrefixLeast<T>(s: seq<T>, key: T -> int, r: seq<T>, x: T)
    requires x in s && r <= SortBy(s, key)
    ensures x in r || forall j :: 0 <= j < |r| ==> key(r[j]) <= key(x)
  {
    var sorted := SortBy(s, key);
    SortByMembers(s, key, x);
    var k :| 0 <= k < |sorted| && sorted[k] == x;
    if k < |r| {
      assert r[k] == x;
    } else {
      forall j | 0 <= j < |r|
        ensures key(r[j]) <= key(x)
      {
        assert r[j] == sorted[j];
      }
    }
  }

  /** The first n of a sorted list are the n least. */
  lemma SortedPrefixLeast<T>(s: seq<T>, key: T -> int, n: nat, x: T)
    requires x in s
    ensures var r := Take(SortBy(s, key), n);
      x in r || forall j :: 0 <= j < |r| ==> key(r[j]) <= key(x)
  {
    PrefixLeast(s, key, Take(SortBy(s, key), n), x);
  }
}
