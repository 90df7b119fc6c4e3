/**
 * Counting, distinctness and concatenation over sequences: the vocabulary
 * in which the model states "how many articles of a day" and "no two
 * articles share an `_id`".
 */
module Sequences {

  /** How many elements of `s` satisfy `p`. */
  function CountIf<T>(s: seq<T>, p: T -> bool): nat {
    if |s| == 0 then 0 else (if p(s[0]) then 1 else 0) + CountIf(s[1..], p)
  }

  lemma {:induction false} CountIfAppend<T>(s: seq<T>, t: seq<T>, p: T -> bool)
    ensures CountIf(s + t, p) == CountIf(s, p) + CountIf(t, p)
  {
    if |s| == 0 {
      assert s + t == t;
    } else {
      assert (s + t)[1..] == s[1..] + t;
      CountIfAppend(s[1..], t, p);
    }
  }

  lemma {:induction false} CountIfAll<T>(s: seq<T>, p: T -> bool)
    requires forall i :: 0 <= i < |s| ==> p(s[i])
    ensures CountIf(s, p) == |s|
  {
    if |s| > 0 {
      CountIfAll(s[1..], p);
    }
  }

  lemma {:induction false} CountIfNone<T>(s: seq<T>, p: T -> bool)
    requires forall i :: 0 <= i < |s| ==> !p(s[i])
    ensures CountIf(s, p) == 0
  {
    if |s| > 0 {
      CountIfNone(s[1..], p);
    }
  }

  /** `s.filter(p)`: the elements of `s` that satisfy `p`, in their order in `s`. */
  function Filter<T>(s: seq<T>, p: T -> bool): (r: seq<T>)
    ensures |r| <= |s|
    ensures forall i :: 0 <= i < |r| ==> r[i] in s && p(r[i])
    ensures forall i :: 0 <= i < |s| && p(s[i]) ==> s[i] in r
  {
    if |s| == 0 then []
    else
      var rest := Filter(s[1..], p);
      assert s == [s[0]] + s[1..];
      (if p(s[0]) then [s[0]] else []) + rest
  }

  lemma {:induction false} FilterAppend<T>(s: seq<T>, t: seq<T>, p: T -> bool)
    ensures Filter(s + t, p) == Filter(s, p) + Filter(t, p)
  {
    if |s| > 0 {
      assert (s + t)[1..] == s[1..] + t;
      FilterAppend(s[1..], t, p);
    } else {
      assert s + t == t;
    }
  }

  /** Filtering keeps every copy of an element that passes and none of one that fails. */
  lemma {:induction false} FilterMultiplicity<T>(s: seq<T>, p: T -> bool, x: T)
    ensures multiset(Filter(s, p))[x] == if p(x) then multiset(s)[x] else 0
  {
    if |s| > 0 {
      FilterMultiplicity(s[1..], p, x);
      assert s == [s[0]] + s[1..];
    }
  }

  /** Filtering with a test every element passes changes nothing. */
  lemma {:induction false} FilterAll<T>(s: seq<T>, p: T -> bool)
    requires forall i :: 0 <= i < |s| ==> p(s[i])
    ensures Filter(s, p) == s
  {
    if |s| > 0 {
      FilterAll(s[1..], p);
      assert s == [s[0]] + s[1..];
    }
  }

  /** Filtering with a test no element passes leaves nothing. */
  lemma {:induction false} FilterNone<T>(s: seq<T>, p: T -> bool)
    requires forall i :: 0 <= i < |s| ==> !p(s[i])
    ensures Filter(s, p) == []
  {
    if |s| > 0 {
      FilterNone(s[1..], p);
    }
  }

  lemma {:induction false} FilterCount<T>(s: seq<T>, p: T -> bool)
    ensures |Filter(s, p)| == CountIf(s, p)
  {
    if |s| > 0 {
      FilterCount(s[1..], p);
    }
  }

  /** No two positions of `s` share an `f`-value (for articles: no two share an `_id`). */
  ghost predicate DistinctBy<T, U>(s: seq<T>, f: T -> U) {
    forall i, j :: 0 <= i < j < |s| ==> f(s[i]) != f(s[j])
  }

  /** Filtering keeps distinctness. */
  lemma {:induction false} FilterDistinct<T, U>(s: seq<T>, p: T -> bool, f: T -> U)
    requires DistinctBy(s, f)
    ensures DistinctBy(Filter(s, p), f)
  {
    if |s| > 0 {
      FilterDistinct(s[1..], p, f);
      var rest := Filter(s[1..], p);
      forall i | 0 <= i < |rest| ensures f(rest[i]) != f(s[0]) {
        var k :| 0 <= k < |s[1..]| && s[1..][k] == rest[i];
        assert s[k + 1] == rest[i];
      }
    }
  }

  /** The blocks of `blocks`, one after the other. */
  function Concat<T>(blocks: seq<seq<T>>): seq<T> {
    if |blocks| == 0 then [] else blocks[0] + Concat(blocks[1..])
  }

  lemma {:induction false} ConcatMember<T>(blocks: seq<seq<T>>, x: T)
    requires x in Concat(blocks)
    ensures exists i :: 0 <= i < |blocks| && x in blocks[i]
  {
    if x !in blocks[0] {
      ConcatMember(blocks[1..], x);
      var i :| 0 <= i < |blocks[1..]| && x in blocks[1..][i];
      assert x in blocks[i + 1];
    }
  }

  lemma {:induction false} ConcatLengthBounds<T>(blocks: seq<seq<T>>, lo: nat, hi: nat)
    requires forall i :: 0 <= i < |blocks| ==> lo <= |blocks[i]| <= hi
    ensures lo * |blocks| <= |Concat(blocks)| <= hi * |blocks|
  {
    if |blocks| > 0 {
      var n := |blocks[1..]|;
      ConcatLengthBounds(blocks[1..], lo, hi);
      assert |Concat(blocks)| == |blocks[0]| + |Concat(blocks[1..])|;
      assert lo * |blocks| == lo + lo * n && hi * |blocks| == hi + hi * n;
    }
  }

  /** When only block `j` holds elements satisfying `p`, the concatenation holds exactly its count. */
  lemma {:induction false} ConcatCountOneBlock<T>(blocks: seq<seq<T>>, p: T -> bool, j: int, n: nat)
    requires forall i :: 0 <= i < |blocks| ==> CountIf(blocks[i], p) == if i == j then n else 0
    ensures CountIf(Concat(blocks), p) == if 0 <= j < |blocks| then n else 0
  {
    if |blocks| > 0 {
      ConcatCountOneBlock(blocks[1..], p, j - 1, n);
      CountIfAppend(blocks[0], Concat(blocks[1..]), p);
    }
  }

  /** Blocks that are distinct inside and share no value across are distinct together. */
  lemma {:induction false} ConcatDistinct<T, U>(blocks: seq<seq<T>>, f: T -> U)
    requires forall i :: 0 <= i < |blocks| ==> DistinctBy(blocks[i], f)
    requires forall i, j, x, y :: 0 <= i < j < |blocks| && x in blocks[i] && y in blocks[j] ==> f(x) != f(y)
    ensures DistinctBy(Concat(blocks), f)
  {
    if |blocks| > 0 {
      var head := blocks[0];
      var rest := Concat(blocks[1..]);
      ConcatDistinct(blocks[1..], f);
      var r := head + rest;
      forall a, b | 0 <= a < b < |r| ensures f(r[a]) != f(r[b]) {
        if b >= |head| && a < |head| {
          assert r[b] == rest[b - |head|];
          ConcatMember(blocks[1..], r[b]);
          var i :| 0 <= i < |blocks[1..]| && r[b] in blocks[1..][i];
          assert r[b] in blocks[i + 1];
          assert r[a] in blocks[0];
        } else if a >= |head| {
          assert r[a] == rest[a - |head|] && r[b] == rest[b - |head|];
        }
      }
    }
  }
}
