/**
 * The stable "newest first" sort the application uses everywhere it calls
 * `Array.prototype.sort((a, b) => key(b) - key(a))`. ECMAScript 2019 and
 * later require that sort to be stable, and with an integer-valued key the
 * comparator is consistent, so the result is the unique stable descending
 * arrangement; insertion sort computes it.
 */
module Sorting {
  import opened Sequences

  /** Non-increasing by `key`. */
  predicate SortedDesc<T>(s: seq<T>, key: T -> int) {
    forall i, j :: 0 <= i < j < |s| ==> key(s[i]) >= key(s[j])
  }

  /** The elements of `s` whose key is `k`, in their order in `s`. */
  function Ties<T>(s: seq<T>, key: T -> int, k: int): seq<T> {
    if |s| == 0 then []
    else (if key(s[0]) == k then [s[0]] else []) + Ties(s[1..], key, k)
  }

  /** Places `x` in front of the first element whose key is not greater than its own. */
  function Insert<T>(x: T, s: seq<T>, key: T -> int): (r: seq<T>)
    requires SortedDesc(s, key)
    ensures SortedDesc(r, key)
    ensures multiset(r) == multiset(s) + multiset{x}
  {
    if |s| == 0 || key(s[0]) <= key(x) then
      [x] + s
    else
      var rest := Insert(x, s[1..], key);
      assert s == [s[0]] + s[1..];
      BoundedByParts(rest, s[1..], x, key, key(s[0]));
      [s[0]] + rest
  }

  /** A rearrangement of `s` and `x` stays below any bound both respect. */
  lemma BoundedByParts<T>(r: seq<T>, s: seq<T>, x: T, key: T -> int, b: int)
    requires multiset(r) == multiset(s) + multiset{x}
    requires key(x) <= b && forall m :: 0 <= m < |s| ==> key(s[m]) <= b
    ensures forall j :: 0 <= j < |r| ==> key(r[j]) <= b
  {
    forall j | 0 <= j < |r| ensures key(r[j]) <= b {
      assert r[j] in multiset(r);
      if r[j] != x {
        var m :| 0 <= m < |s| && s[m] == r[j];
      }
    }
  }

  function SortDesc<T>(s: seq<T>, key: T -> int): (r: seq<T>)
    ensures SortedDesc(r, key)
    ensures multiset(r) == multiset(s)
    ensures |r| == |s|
  {
    if |s| == 0 then
      []
    else
      assert s == [s[0]] + s[1..];
      var r := Insert(s[0], SortDesc(s[1..], key), key);
      assert |r| == |multiset(r)|;
      r
  }

  /** `Ties` of a sequence with a given first element. */
  lemma TiesCons<T>(y: T, t: seq<T>, key: T -> int, k: int)
    ensures Ties([y] + t, key, k) == (if key(y) == k then [y] else []) + Ties(t, key, k)
  {
    assert ([y] + t)[1..] == t;
  }

  lemma {:induction false} InsertTies<T>(x: T, s: seq<T>, key: T -> int, k: int)
    requires SortedDesc(s, key)
    ensures Ties(Insert(x, s, key), key, k) == (if key(x) == k then [x] else []) + Ties(s, key, k)
  {
    if |s| == 0 || key(s[0]) <= key(x) {
      TiesCons(x, s, key, k);
    } else {
      var rest := Insert(x, s[1..], key);
      InsertTies(x, s[1..], key, k);
      TiesCons(s[0], rest, key, k);
      TiesCons(s[0], s[1..], key, k);
      assert s == [s[0]] + s[1..];
      if key(x) == k {
        assert key(s[0]) != k;
      }
    }
  }

  /** Stability: among elements with equal keys, the sort keeps the input order. */
  lemma {:induction false} SortDescStable<T>(s: seq<T>, key: T -> int, k: int)
    ensures Ties(SortDesc(s, key), key, k) == Ties(s, key, k)
  {
    if |s| > 0 {
      SortDescStable(s[1..], key, k);
      InsertTies(s[0], SortDesc(s[1..], key), key, k);
    }
  }

  lemma {:induction false} InsertCount<T>(x: T, s: seq<T>, key: T -> int, p: T -> bool)
    requires SortedDesc(s, key)
    ensures CountIf(Insert(x, s, key), p) == CountIf(s, p) + (if p(x) then 1 else 0)
  {
    if |s| == 0 || key(s[0]) <= key(x) {
      assert ([x] + s)[1..] == s;
    } else {
      var rest := Insert(x, s[1..], key);
      InsertCount(x, s[1..], key, p);
      assert ([s[0]] + rest)[1..] == rest;
    }
  }

  /** Sorting neither adds nor loses an element satisfying any predicate. */
  lemma {:induction false} SortDescCount<T>(s: seq<T>, key: T -> int, p: T -> bool)
    ensures CountIf(SortDesc(s, key), p) == CountIf(s, p)
  {
    if |s| > 0 {
      SortDescCount(s[1..], key, p);
      InsertCount(s[0], SortDesc(s[1..], key), key, p);
    }
  }

  lemma {:induction false} InsertDistinct<T, U>(x: T, s: seq<T>, key: T -> int, f: T -> U)
    requires SortedDesc(s, key) && DistinctBy(s, f)
    requires forall i :: 0 <= i < |s| ==> f(s[i]) != f(x)
    ensures DistinctBy(Insert(x, s, key), f)
  {
    if |s| > 0 && key(s[0]) > key(x) {
      var rest := Insert(x, s[1..], key);
      InsertDistinct(x, s[1..], key, f);
      forall j | 0 <= j < |rest| ensures f(rest[j]) != f(s[0]) {
        assert rest[j] in multiset(rest);
        if rest[j] != x {
          var m :| 0 <= m < |s[1..]| && s[1..][m] == rest[j];
          assert s[m + 1] == rest[j];
        }
      }
    }
  }

  /** Sorting keeps identifiers pairwise distinct. */
  lemma {:induction false} SortDescDistinct<T, U>(s: seq<T>, key: T -> int, f: T -> U)
    requires DistinctBy(s, f)
    ensures DistinctBy(SortDesc(s, key), f)
  {
    if |s| > 0 {
      var sorted := SortDesc(s[1..], key);
      SortDescDistinct(s[1..], key, f);
      forall i | 0 <= i < |sorted| ensures f(sorted[i]) != f(s[0]) {
        assert sorted[i] in multiset(s[1..]);
        var m :| 0 <= m < |s[1..]| && s[1..][m] == sorted[i];
        assert s[m + 1] == sorted[i];
      }
      InsertDistinct(s[0], sorted, key, f);
    }
  }
}
