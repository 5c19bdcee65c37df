/** Value types shared by every part of the model.

    JavaScript's `Map` and `Set` remember the order in which keys were first
    inserted, and the analysis depends on that order (it fixes the index of
    every wallet, and so the numbering of bundles). `OrderedMap` is a map
    paired with its keys in insertion order; `Distinct` is the order in which
    `new Set(xs)` enumerates the elements of `xs`. */
module Collections {

  datatype Option<T> = None | Some(value: T)

  ghost predicate NoDuplicates<T>(s: seq<T>) {
    forall i, j :: 0 <= i < j < |s| ==> s[i] != s[j]
  }

  /** The position of the first occurrence of `x` in `s`. */
  function IndexOf<T(==)>(s: seq<T>, x: T): (j: nat)
    requires x in s
    ensures j < |s| && s[j] == x
    ensures forall j' :: 0 <= j' < j ==> s[j'] != x
  {
    if s[0] == x then 0 else 1 + IndexOf(s[1..], x)
  }

  /** A JavaScript `Map`: `keys` lists every key once, in insertion order. */
  datatype OrderedMap<K, V> = OrderedMap(keys: seq<K>, m: map<K, V>)

  ghost predicate ValidMap<K(!new), V>(om: OrderedMap<K, V>) {
    && NoDuplicates(om.keys)
    && (forall k :: k in om.m <==> k in om.keys)
  }

  function EmptyMap<K(!new), V>(): (om: OrderedMap<K, V>)
    ensures ValidMap(om) && om.m == map[]
  {
    OrderedMap([], map[])
  }

  /** `Map.prototype.set`: a key already present keeps its position and gets
      the new value; a new key goes last. */
  function Put<K(!new), V>(om: OrderedMap<K, V>, k: K, v: V): (r: OrderedMap<K, V>)
    requires ValidMap(om)
    ensures ValidMap(r)
    ensures r.m.Keys == om.m.Keys + {k} && r.m[k] == v
    ensures forall k' :: k' in om.m && k' != k ==> r.m[k'] == om.m[k']
    ensures |om.keys| <= |r.keys| && r.keys[..|om.keys|] == om.keys
  {
    if k in om.m then OrderedMap(om.keys, om.m[k := v])
    else OrderedMap(om.keys + [k], om.m[k := v])
  }

  /** `if (!m.has(k)) m.set(k, []); m.get(k).push(v)` */
  function Push<K(!new), V>(om: OrderedMap<K, seq<V>>, k: K, v: V): (r: OrderedMap<K, seq<V>>)
    requires ValidMap(om)
    ensures ValidMap(r)
    ensures r.keys == if k in om.m then om.keys else om.keys + [k]
    ensures r.m.Keys == om.m.Keys + {k}
    ensures r.m[k] == (if k in om.m then om.m[k] else []) + [v]
    ensures forall k' :: k' in om.m && k' != k ==> r.m[k'] == om.m[k']
  {
    Put(om, k, (if k in om.m then om.m[k] else []) + [v])
  }

  /** `if (!m.has(k)) m.set(k, new Set()); m.get(k).add(v)` */
  function AddTo<K(!new), V>(om: OrderedMap<K, set<V>>, k: K, v: V): (r: OrderedMap<K, set<V>>)
    requires ValidMap(om)
    ensures ValidMap(r)
    ensures r.keys == if k in om.m then om.keys else om.keys + [k]
    ensures r.m.Keys == om.m.Keys + {k}
    ensures r.m[k] == (if k in om.m then om.m[k] else {}) + {v}
    ensures forall k' :: k' in om.m && k' != k ==> r.m[k'] == om.m[k']
  {
    Put(om, k, (if k in om.m then om.m[k] else {}) + {v})
  }

  /** The elements of `s` in order of first occurrence, each once: what
      iterating `new Set(s)` yields. */
  function Distinct<T(==,!new)>(s: seq<T>): (r: seq<T>)
    ensures NoDuplicates(r)
    ensures forall x :: x in r <==> x in s
    ensures |r| <= |s|
    ensures forall i, j :: 0 <= i < j < |r| ==> IndexOf(s, r[i]) < IndexOf(s, r[j])
  {
    if |s| == 0 then []
    else
      var p, x := s[..|s| - 1], s[|s| - 1];
      var d := Distinct(p);
      assert forall y :: y in d ==> IndexOf(s, y) == IndexOf(p, y) by {
        forall y | y in d { IndexOfPrefix(s, |p|, y); }
      }
      if x in d then d
      else
        assert IndexOf(s, x) == |p|;
        d + [x]
  }

  /** An element of a prefix first occurs at the same position in the whole. */
  lemma IndexOfPrefix<T>(s: seq<T>, n: nat, x: T)
    requires n <= |s| && x in s[..n]
    ensures IndexOf(s, x) == IndexOf(s[..n], x)
  {
    var j, j' := IndexOf(s, x), IndexOf(s[..n], x);
    assert s[j'] == x;
    assert j <= j';
    assert s[..n][j] == x;
  }

  lemma {:induction false} DistinctOfDistinct<T(!new)>(s: seq<T>)
    requires NoDuplicates(s)
    ensures Distinct(s) == s
  {
    if |s| > 0 {
      var p := s[..|s| - 1];
      assert NoDuplicates(p);
      DistinctOfDistinct(p);
      assert s[|s| - 1] !in p;
      assert p + [s[|s| - 1]] == s;
    }
  }

  /** `f` of each of the first `c` elements of `xs`, joined in order. */
  function Flatten<A, B>(xs: seq<A>, f: A -> seq<B>, c: nat): seq<B>
    requires c <= |xs|
  {
    if c == 0 then [] else Flatten(xs, f, c - 1) + f(xs[c - 1])
  }

  lemma FlattenStep<A, B>(xs: seq<A>, f: A -> seq<B>, c: nat, done: seq<B>)
    requires c < |xs|
    ensures (done + Flatten(xs, f, c)) + f(xs[c]) == done + Flatten(xs, f, c + 1)
  {
  }

  /** Every element of the whole comes from one of the parts ... */
  lemma {:induction false} FlattenIndex<A, B>(xs: seq<A>, f: A -> seq<B>, c: nat, k: nat) returns (d: nat, j: nat)
    requires c <= |xs| && k < |Flatten(xs, f, c)|
    ensures d < c && j < |f(xs[d])| && Flatten(xs, f, c)[k] == f(xs[d])[j]
  {
    var prev := Flatten(xs, f, c - 1);
    if k < |prev| {
      d, j := FlattenIndex(xs, f, c - 1, k);
    } else {
      d, j := c - 1, k - |prev|;
    }
  }

  /** ... and every element of a part is in the whole. */
  lemma {:induction false} FlattenContains<A, B>(xs: seq<A>, f: A -> seq<B>, d: nat, c: nat, x: B)
    requires d < c <= |xs| && x in f(xs[d])
    ensures x in Flatten(xs, f, c)
  {
    if d < c - 1 {
      FlattenContains(xs, f, d, c - 1, x);
    }
  }

  lemma InLeft<T>(x: T, a: seq<T>, b: seq<T>)
    requires x in a
    ensures x in a + b
  {
  }

  lemma InRight<T>(x: T, a: seq<T>, b: seq<T>)
    requires x in b
    ensures x in a + b
  {
  }
}
