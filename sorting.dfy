/** `Array.prototype.sort` with the comparator `(a, b) => a.ts - b.ts`.

    JavaScript's sort is stable (ECMAScript 2019 and later), so the result is
    the unique ordering that is sorted by the key and keeps the input order
    among equal keys. `SortBy` builds it by insertion, and the lemmas below
    show it is sorted, a permutation of its input, and stable. */
module Sorting {

  ghost predicate SortedBy<T>(s: seq<T>, key: T -> int) {
    forall i, j :: 0 <= i < j < |s| ==> key(s[i]) <= key(s[j])
  }

  /** Places `x` after every element whose key is at most `key(x)`. */
  function InsertBy<T>(s: seq<T>, x: T, key: T -> int): (r: seq<T>)
    requires SortedBy(s, key)
    ensures SortedBy(r, key)
    ensures multiset(r) == multiset(s) + multiset{x}
    ensures |r| == |s| + 1
  {
    if |s| == 0 then [x]
    else if key(s[|s| - 1]) <= key(x) then
      assert forall i :: 0 <= i < |s| ==> key(s[i]) <= key(s[|s| - 1]);
      SortedSnoc(s, x, key);
      s + [x]
    else
      var p, last := s[..|s| - 1], s[|s| - 1];
      assert s == p + [last];
      assert SortedBy(p, key);
      var rest := InsertBy(p, x, key);
      BoundedByMultiset(rest, p, x, key, key(last));
      SortedSnoc(rest, last, key);
      rest + [last]
  }

  /** Adding one element to a multiset of elements keeps every key below a
      common bound. */
  lemma BoundedByMultiset<T>(r: seq<T>, s: seq<T>, x: T, key: T -> int, bound: int)
    requires multiset(r) == multiset(s) + multiset{x}
    requires key(x) <= bound && forall i :: 0 <= i < |s| ==> key(s[i]) <= bound
    ensures forall i :: 0 <= i < |r| ==> key(r[i]) <= bound
  {
    forall i | 0 <= i < |r|
      ensures key(r[i]) <= bound
    {
      assert r[i] in multiset(r);
      if r[i] != x {
        assert r[i] in multiset(s);
        var j :| 0 <= j < |s| && s[j] == r[i];
      }
    }
  }

  /** A sorted sequence stays sorted when an element no smaller than all of
      it goes last. */
  lemma SortedSnoc<T>(s: seq<T>, x: T, key: T -> int)
    requires SortedBy(s, key)
    requires forall i :: 0 <= i < |s| ==> key(s[i]) <= key(x)
    ensures SortedBy(s + [x], key)
  {
  }

  function SortBy<T>(s: seq<T>, key: T -> int): (r: seq<T>)
    ensures SortedBy(r, key)
    ensures multiset(r) == multiset(s)
    ensures |r| == |s|
  {
    if |s| == 0 then []
    else
      assert s == s[..|s| - 1] + [s[|s| - 1]];
      InsertBy(SortBy(s[..|s| - 1], key), s[|s| - 1], key)
  }

  /** The elements of `s` whose key is `v`, in their order in `s`. */
  function WithKey<T>(s: seq<T>, key: T -> int, v: int): seq<T> {
    if |s| == 0 then []
    else WithKey(s[..|s| - 1], key, v) + (if key(s[|s| - 1]) == v then [s[|s| - 1]] else [])
  }

  lemma {:induction false} WithKeyAppend<T>(s: seq<T>, t: seq<T>, key: T -> int, v: int)
    ensures WithKey(s + t, key, v) == WithKey(s, key, v) + WithKey(t, key, v)
  {
    if |t| > 0 {
      var t' := t[..|t| - 1];
      assert (s + t)[..|s + t| - 1] == s + t';
      WithKeyAppend(s, t', key, v);
    } else {
      assert s + t == s;
    }
  }

  lemma WithKeySingle<T>(x: T, key: T -> int, v: int)
    ensures WithKey([x], key, v) == if key(x) == v then [x] else []
  {
    assert [x][..0] == [];
  }

  lemma {:induction false} InsertByStable<T>(s: seq<T>, x: T, key: T -> int, v: int)
    requires SortedBy(s, key)
    ensures WithKey(InsertBy(s, x, key), key, v)
         == WithKey(s, key, v) + (if key(x) == v then [x] else [])
  {
    WithKeySingle(x, key, v);
    if |s| == 0 {
      assert InsertBy(s, x, key) == [x];
    } else if key(s[|s| - 1]) <= key(x) {
      assert InsertBy(s, x, key) == s + [x];
      WithKeyAppend(s, [x], key, v);
    } else {
      var p, last := s[..|s| - 1], s[|s| - 1];
      assert SortedBy(p, key);
      var rest := InsertBy(p, x, key);
      assert InsertBy(s, x, key) == rest + [last];
      InsertByStable(p, x, key, v);
      SwapPastLarger(p, rest, last, x, key, v);
      assert s == p + [last];
    }
  }

  /** Moving `x` in front of a larger element does not change which elements
      carry key `v`, nor their order. */
  lemma SwapPastLarger<T>(p: seq<T>, rest: seq<T>, last: T, x: T, key: T -> int, v: int)
    requires key(x) < key(last)
    requires WithKey(rest, key, v) == WithKey(p, key, v) + (if key(x) == v then [x] else [])
    ensures WithKey(rest + [last], key, v)
         == WithKey(p + [last], key, v) + (if key(x) == v then [x] else [])
  {
    var X := if key(x) == v then [x] else [];
    var L := if key(last) == v then [last] else [];
    WithKeyAppend(rest, [last], key, v);
    WithKeyAppend(p, [last], key, v);
    WithKeySingle(last, key, v);
    assert X + L == L + X;
  }

  /** Stability: among elements with equal keys, the sorted sequence keeps
      the input order. */
  lemma {:induction false} SortByStable<T>(s: seq<T>, key: T -> int, v: int)
    ensures WithKey(SortBy(s, key), key, v) == WithKey(s, key, v)
  {
    if |s| > 0 {
      var p := s[..|s| - 1];
      SortByStable(p, key, v);
      InsertByStable(SortBy(p, key), s[|s| - 1], key, v);
    }
  }

  /** Sorting what is already sorted changes nothing. */
  lemma {:induction false} SortBySorted<T>(s: seq<T>, key: T -> int)
    requires SortedBy(s, key)
    ensures SortBy(s, key) == s
  {
    if |s| > 0 {
      var p, last := s[..|s| - 1], s[|s| - 1];
      assert s == p + [last];
      SortedPrefix(p, last, key);
      SortBySorted(p, key);
      InsertLast(p, last, key);
    }
  }

  lemma SortedPrefix<T>(p: seq<T>, last: T, key: T -> int)
    requires SortedBy(p + [last], key)
    ensures SortedBy(p, key)
    ensures forall i :: 0 <= i < |p| ==> key(p[i]) <= key(last)
  {
    assert forall i :: 0 <= i < |p| ==> (p + [last])[i] == p[i];
    assert (p + [last])[|p|] == last;
  }

  /** An element no smaller than every key goes at the end. */
  lemma InsertLast<T>(s: seq<T>, x: T, key: T -> int)
    requires SortedBy(s, key)
    requires forall i :: 0 <= i < |s| ==> key(s[i]) <= key(x)
    ensures InsertBy(s, x, key) == s + [x]
  {
    if |s| > 0 {
      assert key(s[|s| - 1]) <= key(x);
    }
  }
}
