/** The disjoint-set forest the bundle detector merges wallets in.

    The abstract view of the forest is a labelling `rep` of the elements
    0..n-1: two elements are in the same set iff they carry the same label.
    `Merge` is what one union does to such a labelling and `MergeAll` what a
    sequence of unions does; the class `DSU` keeps the parent and rank arrays
    and proves that `Find`, `Union` and `Groups` act on `rep` as those
    functions say. */
module UnionFind {
  import opened Collections

  type Labels = seq<nat>

  /** `x` and `y` are in one set of the labelling `r`. */
  ghost predicate Together(r: Labels, x: nat, y: nat)
    requires x < |r| && y < |r|
  {
    r[x] == r[y]
  }

  /** `r1` and `r2` describe the same partition. */
  ghost predicate SamePartition(r1: Labels, r2: Labels) {
    && |r1| == |r2|
    && forall x: nat, y: nat :: x < |r1| && y < |r1| ==> (Together(r1, x, y) <==> Together(r2, x, y))
  }

  /** What `SamePartition` says about two given elements. */
  lemma SamePartitionAt(r1: Labels, r2: Labels, x: nat, y: nat)
    requires SamePartition(r1, r2) && x < |r1| && y < |r1|
    ensures r1[x] == r1[y] <==> r2[x] == r2[y]
  {
    assert Together(r1, x, y) <==> Together(r2, x, y);
  }

  lemma SamePartitionTransitive(r1: Labels, r2: Labels, r3: Labels)
    requires SamePartition(r1, r2) && SamePartition(r2, r3)
    ensures SamePartition(r1, r3)
  {
  }

  /** Every element alone in its set: the forest `new DSU(n)` starts as. */
  function Identity(n: nat): (r: Labels)
    ensures |r| == n && forall x :: 0 <= x < n ==> r[x] == x
  {
    seq(n, x requires 0 <= x < n => x)
  }

  /** The set of `b` joins the set of `a`. */
  function Merge(rep: Labels, a: nat, b: nat): (r: Labels)
    requires a < |rep| && b < |rep|
    ensures |r| == |rep|
  {
    seq(|rep|, x requires 0 <= x < |rep| => if rep[x] == rep[b] then rep[a] else rep[x])
  }

  /** After merging a and b, two elements are together iff they were, or
      one was with a and the other with b. No other set is affected. */
  lemma MergeRelation(rep: Labels, a: nat, b: nat, x: nat, y: nat)
    requires a < |rep| && b < |rep| && x < |rep| && y < |rep|
    ensures Merge(rep, a, b)[x] == Merge(rep, a, b)[y] <==>
              (|| rep[x] == rep[y]
               || (rep[x] == rep[a] && rep[y] == rep[b])
               || (rep[x] == rep[b] && rep[y] == rep[a]))
  {
  }

  /** A union of two elements already together changes nothing. */
  lemma MergeJoined(rep: Labels, a: nat, b: nat)
    requires a < |rep| && b < |rep| && rep[a] == rep[b]
    ensures Merge(rep, a, b) == rep
  {
  }

  /** Which of the two roots survives does not matter for the partition. */
  lemma MergeSymmetric(rep: Labels, a: nat, b: nat)
    requires a < |rep| && b < |rep|
    ensures SamePartition(Merge(rep, a, b), Merge(rep, b, a))
  {
    forall x: nat, y: nat | x < |rep| && y < |rep|
      ensures Together(Merge(rep, a, b), x, y) <==> Together(Merge(rep, b, a), x, y)
    {
      MergeRelation(rep, a, b, x, y);
      MergeRelation(rep, b, a, x, y);
    }
  }

  /** Merging respects the partition, whatever the labels. */
  lemma MergeCongruent(r1: Labels, r2: Labels, a: nat, b: nat)
    requires SamePartition(r1, r2) && a < |r1| && b < |r1|
    ensures SamePartition(Merge(r1, a, b), Merge(r2, a, b))
  {
    forall x: nat, y: nat | x < |r1| && y < |r1|
      ensures Together(Merge(r1, a, b), x, y) <==> Together(Merge(r2, a, b), x, y)
    {
      MergeRelation(r1, a, b, x, y);
      MergeRelation(r2, a, b, x, y);
      SamePartitionAt(r1, r2, x, y);
      SamePartitionAt(r1, r2, x, a);
      SamePartitionAt(r1, r2, x, b);
      SamePartitionAt(r1, r2, y, a);
      SamePartitionAt(r1, r2, y, b);
    }
  }

  type Edge = (nat, nat)

  ghost predicate EdgesIn(edges: seq<Edge>, n: nat) {
    forall k :: 0 <= k < |edges| ==> edges[k].0 < n && edges[k].1 < n
  }

  /** The labelling after `union(e.0, e.1)` for every edge e, in order. */
  function MergeAll(rep: Labels, edges: seq<Edge>): (r: Labels)
    requires EdgesIn(edges, |rep|)
    ensures |r| == |rep|
  {
    if |edges| == 0 then rep
    else
      var e := edges[|edges| - 1];
      Merge(MergeAll(rep, edges[..|edges| - 1]), e.0, e.1)
  }

  lemma {:induction false} MergeAllAppend(rep: Labels, e1: seq<Edge>, e2: seq<Edge>)
    requires EdgesIn(e1, |rep|) && EdgesIn(e2, |rep|)
    ensures EdgesIn(e1 + e2, |rep|)
    ensures MergeAll(rep, e1 + e2) == MergeAll(MergeAll(rep, e1), e2)
  {
    if |e2| == 0 {
      assert e1 + e2 == e1;
    } else {
      var e2' := e2[..|e2| - 1];
      assert (e1 + e2)[..|e1 + e2| - 1] == e1 + e2';
      MergeAllAppend(rep, e1, e2');
    }
  }

  lemma {:induction false} MergeAllCongruent(r1: Labels, r2: Labels, edges: seq<Edge>)
    requires SamePartition(r1, r2) && EdgesIn(edges, |r1|)
    ensures SamePartition(MergeAll(r1, edges), MergeAll(r2, edges))
  {
    if |edges| > 0 {
      var e := edges[|edges| - 1];
      MergeAllCongruent(r1, r2, edges[..|edges| - 1]);
      MergeCongruent(MergeAll(r1, edges[..|edges| - 1]), MergeAll(r2, edges[..|edges| - 1]), e.0, e.1);
    }
  }

  /** Unions never split a set. */
  lemma {:induction false} MergeAllKeeps(rep: Labels, edges: seq<Edge>, x: nat, y: nat)
    requires EdgesIn(edges, |rep|) && x < |rep| && y < |rep| && rep[x] == rep[y]
    ensures MergeAll(rep, edges)[x] == MergeAll(rep, edges)[y]
  {
    if |edges| > 0 {
      MergeAllKeeps(rep, edges[..|edges| - 1], x, y);
    }
  }

  /** Every edge ends inside one set. */
  lemma {:induction false} MergeAllJoins(rep: Labels, edges: seq<Edge>, k: nat)
    requires EdgesIn(edges, |rep|) && k < |edges|
    ensures MergeAll(rep, edges)[edges[k].0] == MergeAll(rep, edges)[edges[k].1]
  {
    var prefix := edges[..|edges| - 1];
    var e := edges[|edges| - 1];
    if k < |edges| - 1 {
      assert prefix[k] == edges[k];
      MergeAllJoins(rep, prefix, k);
      MergeRelation(MergeAll(rep, prefix), e.0, e.1, edges[k].0, edges[k].1);
    }
  }

  /** Sets only ever contain elements with one shared tag (or a single
      element without one). */
  ghost predicate Respects<K>(rep: Labels, tag: nat -> Option<K>) {
    forall x, y :: 0 <= x < |rep| && 0 <= y < |rep| && rep[x] == rep[y] ==>
      x == y || (tag(x).Some? && tag(x) == tag(y))
  }

  /** Unions of equally tagged elements keep sets single-tagged. */
  lemma {:induction false} MergeAllRespects<K>(rep: Labels, edges: seq<Edge>, tag: nat -> Option<K>)
    requires EdgesIn(edges, |rep|) && Respects(rep, tag)
    requires forall k :: 0 <= k < |edges| ==> tag(edges[k].0).Some? && tag(edges[k].0) == tag(edges[k].1)
    ensures Respects(MergeAll(rep, edges), tag)
  {
    if |edges| > 0 {
      var prefix := edges[..|edges| - 1];
      var e := edges[|edges| - 1];
      assert forall k :: 0 <= k < |prefix| ==> prefix[k] == edges[k];
      MergeAllRespects(rep, prefix, tag);
      var m := MergeAll(rep, prefix);
      forall x, y | 0 <= x < |m| && 0 <= y < |m| && Merge(m, e.0, e.1)[x] == Merge(m, e.0, e.1)[y]
        ensures x == y || (tag(x).Some? && tag(x) == tag(y))
      {
        MergeRelation(m, e.0, e.1, x, y);
        if m[x] != m[y] {
          if m[x] == m[e.0] {
            assert x == e.0 || tag(x) == tag(e.0);
            assert y == e.1 || tag(y) == tag(e.1);
          } else {
            assert x == e.1 || tag(x) == tag(e.1);
            assert y == e.0 || tag(y) == tag(e.0);
          }
        }
      }
    }
  }

  /** The identity partition respects every tagging. */
  lemma IdentityRespects<K>(n: nat, tag: nat -> Option<K>)
    ensures Respects(Identity(n), tag)
  {
  }

  /** The smallest index in the set of `x`. */
  ghost function ClassMin(rep: Labels, x: nat): (m: nat)
    requires x < |rep|
    ensures m <= x && rep[m] == rep[x]
    ensures forall y :: 0 <= y < m ==> rep[y] != rep[x]
  {
    FirstWith(rep, rep[x], x + 1)
  }

  /** The least index below `k` labelled `v`, or `k` if there is none. */
  ghost function FirstWith(rep: Labels, v: nat, k: nat): (m: nat)
    requires k <= |rep|
    ensures m <= k && (m < k ==> rep[m] == v)
    ensures forall y :: 0 <= y < m ==> rep[y] != v
  {
    if k == 0 then 0
    else
      var m := FirstWith(rep, v, k - 1);
      if m < k - 1 then m else if rep[k - 1] == v then k - 1 else k
  }

  /** The smallest member of a set does not depend on the labels. */
  lemma ClassMinOfSamePartition(r1: Labels, r2: Labels, x: nat)
    requires SamePartition(r1, r2) && x < |r1|
    ensures ClassMin(r1, x) == ClassMin(r2, x)
  {
    var m1, m2 := ClassMin(r1, x), ClassMin(r2, x);
    SamePartitionAt(r1, r2, m1, x);
    SamePartitionAt(r1, r2, m2, x);
  }

  /** A disjoint-set forest with path compression and union by rank.
      `rep` is the label of every element: the root of its tree. */
  class DSU {
    const p: array<nat>
    const r: array<nat>
    ghost var rep: Labels
    /** An upper bound on every rank: the measure that makes `Find` stop. */
    ghost var maxRank: nat

    ghost predicate Valid()
      reads this, p, r
    {
      && p != r
      && p.Length == r.Length == |rep|
      && (forall x :: 0 <= x < p.Length ==> p[x] < p.Length && rep[x] < p.Length)
      && (forall x {:trigger p[rep[x]]} :: 0 <= x < p.Length ==> p[rep[x]] == rep[x])
      && (forall x {:trigger rep[p[x]]} :: 0 <= x < p.Length ==> rep[p[x]] == rep[x])
      && (forall x :: 0 <= x < p.Length && p[x] == x ==> rep[x] == x)
      && (forall x :: 0 <= x < p.Length && p[x] != x ==> r[x] < r[p[x]] && r[x] < r[rep[x]])
      && (forall x :: 0 <= x < p.Length ==> r[x] <= maxRank)
    }

    /** The forest is well formed and its partition is the one merging
        `edges` into the labelling `r0` gives: the forest stays in step
        with the model's list of unions. */
    ghost predicate Tracks(r0: Labels, edges: seq<Edge>)
      reads this, p, r
    {
      Valid() && |rep| == |r0| && EdgesIn(edges, |r0|) && SamePartition(rep, MergeAll(r0, edges))
    }

    constructor (n: nat)
      ensures Valid() && fresh(p) && fresh(r)
      ensures rep == Identity(n)
    {
      p := new nat[n](i => i);
      r := new nat[n](i => 0);
      rep := Identity(n);
      maxRank := 0;
    }

    /** Returns the root of the tree of `x` and points `x` and every node
        on its path straight at it. The partition does not change. */
    method Find(x: nat) returns (root: nat)
      requires Valid() && x < |rep|
      modifies p
      ensures Valid()
      ensures root == rep[x] && p[root] == root
      decreases maxRank - r[x]
    {
      if p[x] == x {
        root := x;
      } else {
        root := Find(p[x]);
        p[x] := root;
      }
    }

    /** Links the root of lower rank under the other; on equal ranks the
        root of `a` wins and its rank grows by one. */
    method Union(a: nat, b: nat)
      requires Valid() && a < |rep| && b < |rep|
      modifies this, p, r
      ensures Valid()
      ensures SamePartition(rep, Merge(old(rep), a, b))
      ensures rep[a] == rep[b]
      ensures old(rep[a] == rep[b]) ==> rep == old(rep) && r[..] == old(r[..])
    {
      var ra := Find(a);
      var rb := Find(b);
      if ra == rb {
        return;
      }
      if r[ra] < r[rb] {
        Link(rb, ra);
        MergeSymmetric(old(rep), a, b);
      } else {
        Link(ra, rb);
      }
    }

    /** Hangs root `l` under root `w`, which takes over its set. */
    method Link(w: nat, l: nat)
      requires Valid() && w < |rep| && l < |rep| && w != l
      requires p[w] == w && p[l] == l && r[l] <= r[w]
      modifies this, p, r
      ensures Valid()
      ensures rep == Merge(old(rep), w, l)
    {
      assert rep[w] == w && rep[l] == l;
      p[l] := w;
      if r[w] == r[l] {
        r[w] := r[w] + 1;
        if maxRank < r[w] {
          maxRank := r[w];
        }
      }
      rep := Merge(rep, w, l);
    }

    /** `groups()`: every root with the ascending list of its members, roots
        in order of their smallest member. */
    method Groups() returns (g: OrderedMap<nat, seq<nat>>)
      requires Valid()
      modifies p
      ensures Valid()
      ensures IsGrouping(rep, g)
    {
      g := EmptyMap();
      for i := 0 to p.Length
        invariant Valid()
        invariant GroupedUpTo(rep, g, i)
      {
        g := GroupOne(g, i);
      }
    }

    /** One iteration of `groups()`: files `i` under its root. */
    method GroupOne(g: OrderedMap<nat, seq<nat>>, i: nat) returns (g': OrderedMap<nat, seq<nat>>)
      requires Valid() && i < |rep| && GroupedUpTo(rep, g, i)
      modifies p
      ensures Valid() && GroupedUpTo(rep, g', i + 1)
    {
      var root := Find(i);
      GroupStep(rep, g, i);
      g' := Push(g, root, i);
    }
  }

  /** `ms` lists, ascending, exactly the indices below `k` labelled `v`. */
  ghost predicate MembersOf(rep: Labels, v: nat, ms: seq<nat>, k: nat)
    requires k <= |rep|
  {
    && (forall a, b :: 0 <= a < b < |ms| ==> ms[a] < ms[b])
    && (forall y: nat :: y in ms <==> y < k && rep[y] == v)
  }

  /** `g` groups the indices below `k` by label, labels in order of their
      smallest index. */
  ghost predicate GroupedUpTo(rep: Labels, g: OrderedMap<nat, seq<nat>>, k: nat)
    requires k <= |rep|
  {
    && ValidMap(g)
    && (forall y :: 0 <= y < k ==> rep[y] in g.m)
    && (forall v :: v in g.m ==> g.m[v] != [] && MembersOf(rep, v, g.m[v], k))
    && FirstsAscending(g)
  }

  /** Keys in order of the first element of their lists. */
  ghost predicate FirstsAscending(g: OrderedMap<nat, seq<nat>>) {
    forall j1, j2 :: 0 <= j1 < j2 < |g.keys| ==>
      && g.keys[j1] in g.m && g.keys[j2] in g.m
      && g.m[g.keys[j1]] != [] && g.m[g.keys[j2]] != []
      && g.m[g.keys[j1]][0] < g.m[g.keys[j2]][0]
  }

  lemma MembersKeep(rep: Labels, u: nat, ms: seq<nat>, i: nat)
    requires i < |rep| && rep[i] != u && MembersOf(rep, u, ms, i)
    ensures MembersOf(rep, u, ms, i + 1)
  {
  }

  lemma MembersAppend(rep: Labels, v: nat, ms: seq<nat>, i: nat)
    requires i < |rep| && rep[i] == v && MembersOf(rep, v, ms, i)
    ensures MembersOf(rep, v, ms + [i], i + 1)
  {
    assert forall a :: 0 <= a < |ms| ==> ms[a] in ms;
    assert forall y: nat :: y in ms + [i] <==> y in ms || y == i;
  }

  lemma MembersNew(rep: Labels, v: nat, i: nat)
    requires i < |rep| && rep[i] == v && forall y :: 0 <= y < i ==> rep[y] != v
    ensures MembersOf(rep, v, [i], i + 1)
  {
  }

  lemma GroupStepMember(rep: Labels, g: OrderedMap<nat, seq<nat>>, i: nat, u: nat)
    requires i < |rep| && GroupedUpTo(rep, g, i) && u in Push(g, rep[i], i).m
    ensures Push(g, rep[i], i).m[u] != []
    ensures MembersOf(rep, u, Push(g, rep[i], i).m[u], i + 1)
  {
    var v := rep[i];
    var g' := Push(g, v, i);
    if u != v {
      assert g'.m[u] == g.m[u];
      MembersKeep(rep, u, g.m[u], i);
    } else if v in g.m {
      assert g'.m[u] == g.m[u] + [i];
      MembersAppend(rep, v, g.m[u], i);
    } else {
      assert g'.m[u] == [i];
      MembersNew(rep, v, i);
    }
  }

  lemma GroupStep(rep: Labels, g: OrderedMap<nat, seq<nat>>, i: nat)
    requires i < |rep| && GroupedUpTo(rep, g, i)
    ensures GroupedUpTo(rep, Push(g, rep[i], i), i + 1)
  {
    var g' := Push(g, rep[i], i);
    GroupStepMembers(rep, g, i);
    GroupStepOrder(rep, g, i);
    assert forall y :: 0 <= y < i + 1 ==> rep[y] in g'.m;
  }

  lemma GroupStepMembers(rep: Labels, g: OrderedMap<nat, seq<nat>>, i: nat)
    requires i < |rep| && GroupedUpTo(rep, g, i)
    ensures forall u :: u in Push(g, rep[i], i).m ==>
      Push(g, rep[i], i).m[u] != [] && MembersOf(rep, u, Push(g, rep[i], i).m[u], i + 1)
  {
    forall u | u in Push(g, rep[i], i).m
      ensures Push(g, rep[i], i).m[u] != [] && MembersOf(rep, u, Push(g, rep[i], i).m[u], i + 1)
    {
      GroupStepMember(rep, g, i, u);
    }
  }

  lemma GroupStepOrder(rep: Labels, g: OrderedMap<nat, seq<nat>>, i: nat)
    requires i < |rep| && GroupedUpTo(rep, g, i)
    ensures FirstsAscending(Push(g, rep[i], i))
  {
    if rep[i] in g.m {
      GroupStepOrderOld(g, rep[i], i);
    } else {
      forall k | k in g.m
        ensures g.m[k] != [] && g.m[k][0] < i
      {
        assert g.m[k][0] in g.m[k];
      }
      GroupStepOrderNew(g, rep[i], i);
    }
  }

  /** Appending to an existing list keeps its first element. */
  lemma GroupStepOrderOld(g: OrderedMap<nat, seq<nat>>, v: nat, i: nat)
    requires ValidMap(g) && FirstsAscending(g) && v in g.m && g.m[v] != []
    ensures FirstsAscending(Push(g, v, i))
  {
    var g' := Push(g, v, i);
    assert g'.keys == g.keys;
    assert g'.m[v][0] == g.m[v][0];
    assert forall k :: k in g.m ==> g'.m[k] != [] && g'.m[k][0] == g.m[k][0];
  }

  /** A new key goes last, and its list starts above every earlier first. */
  lemma GroupStepOrderNew(g: OrderedMap<nat, seq<nat>>, v: nat, i: nat)
    requires ValidMap(g) && FirstsAscending(g) && v !in g.m
    requires forall k :: k in g.m ==> g.m[k] != [] && g.m[k][0] < i
    ensures FirstsAscending(Push(g, v, i))
  {
    var g' := Push(g, v, i);
    assert g'.keys == g.keys + [v] && g'.m[v] == [i];
    forall j1, j2 | 0 <= j1 < j2 < |g'.keys|
      ensures && g'.keys[j1] in g'.m && g'.keys[j2] in g'.m
              && g'.m[g'.keys[j1]] != [] && g'.m[g'.keys[j2]] != []
              && g'.m[g'.keys[j1]][0] < g'.m[g'.keys[j2]][0]
    {
      var k1 := g.keys[j1];
      assert k1 in g.keys && g'.keys[j1] == k1 && g'.m[k1] == g.m[k1];
      if j2 < |g.keys| {
        var k2 := g.keys[j2];
        assert k2 in g.keys && g'.keys[j2] == k2 && g'.m[k2] == g.m[k2];
      } else {
        assert g'.keys[j2] == v;
      }
    }
  }

  /** `g` groups all elements by label. */
  ghost predicate IsGrouping(rep: Labels, g: OrderedMap<nat, seq<nat>>) {
    GroupedUpTo(rep, g, |rep|)
  }
}
