/** The numbering step of `detectBundles` (public/js/ui/bubble.js): the
    groups of the forest are visited in the order `groups()` lists them (by
    smallest member), and every group with more than one member gets the
    next number, `B1`, `B2`, ...; the number `k` stands for the id `B<k>`.

    `NumbersBundles` says outright what the numbering achieves, in terms of
    the partition alone; `AssignIds` is the loop, proved to achieve it. */
module Numbering {
  import opened Collections
  import opened UnionFind

  /** `x` shares its set with some other element. */
  ghost predicate Big(rep: Labels, x: nat)
    requires x < |rep|
  {
    exists y :: 0 <= y < |rep| && y != x && rep[y] == rep[x]
  }

  /** `bids` gives the sets of `rep` with more than one member the numbers
      1..count, one number per set, in order of their smallest elements,
      and gives no number to an element alone in its set. */
  ghost predicate NumbersBundles(rep: Labels, bids: seq<Option<nat>>, count: nat) {
    && |bids| == |rep|
    && (forall x :: 0 <= x < |rep| ==> Numbered(rep, bids, count, x))
    && (forall x, y :: 0 <= x < |rep| && 0 <= y < |rep| ==> NumberedPair(rep, bids, x, y))
    && (forall k :: 1 <= k <= count ==> NumberUsed(bids, k))
  }

  /** Some element has the number `k`. */
  ghost predicate NumberUsed(bids: seq<Option<nat>>, k: nat) {
    exists x :: 0 <= x < |bids| && bids[x] == Some(k)
  }

  /** `x` has a number iff its set has another member, and it is in
      1..count. */
  ghost predicate Numbered(rep: Labels, bids: seq<Option<nat>>, count: nat, x: nat)
    requires x < |rep| == |bids|
  {
    && (bids[x].Some? <==> Big(rep, x))
    && (bids[x].Some? ==> 1 <= bids[x].value <= count)
  }

  /** Two elements have one number iff they are in one set, and numbers
      follow the order of the sets' smallest elements. */
  ghost predicate NumberedPair(rep: Labels, bids: seq<Option<nat>>, x: nat, y: nat)
    requires x < |rep| == |bids| && y < |rep|
  {
    && (rep[x] == rep[y] ==> bids[x] == bids[y])
    && (bids[x].Some? && bids[x] == bids[y] ==> rep[x] == rep[y])
    && (bids[x].Some? && bids[y].Some? && ClassMin(rep, x) < ClassMin(rep, y) ==>
          bids[x].value < bids[y].value)
  }

  lemma BigOfSamePartition(r1: Labels, r2: Labels, x: nat)
    requires SamePartition(r1, r2) && x < |r1|
    ensures Big(r1, x) <==> Big(r2, x)
  {
    if Big(r1, x) {
      var y :| 0 <= y < |r1| && y != x && r1[y] == r1[x];
      SamePartitionAt(r1, r2, x, y);
    }
    if Big(r2, x) {
      var y :| 0 <= y < |r2| && y != x && r2[y] == r2[x];
      SamePartitionAt(r1, r2, x, y);
    }
  }

  /** The numbering depends on the partition only, not on its labels. */
  lemma NumbersOfSamePartition(r1: Labels, r2: Labels, bids: seq<Option<nat>>, count: nat)
    requires SamePartition(r1, r2) && NumbersBundles(r1, bids, count)
    ensures NumbersBundles(r2, bids, count)
  {
    forall x | 0 <= x < |r2|
      ensures Numbered(r2, bids, count, x)
    {
      assert Numbered(r1, bids, count, x);
      BigOfSamePartition(r1, r2, x);
    }
    forall x, y | 0 <= x < |r2| && 0 <= y < |r2|
      ensures NumberedPair(r2, bids, x, y)
    {
      assert NumberedPair(r1, bids, x, y);
      SamePartitionAt(r1, r2, x, y);
      ClassMinOfSamePartition(r1, r2, x);
      ClassMinOfSamePartition(r1, r2, y);
    }
  }

  // ----- the numbering loop over the groups -----

  /** How many of the first `j` groups have more than one member. */
  function BigCount(g: OrderedMap<nat, seq<nat>>, j: nat): nat
    requires ValidMap(g) && j <= |g.keys|
  {
    if j == 0 then 0
    else
      assert g.keys[j - 1] in g.keys;
      BigCount(g, j - 1) + (if |g.m[g.keys[j - 1]]| > 1 then 1 else 0)
  }

  /** The number the loop gives the `j`-th group. */
  function GroupId(g: OrderedMap<nat, seq<nat>>, j: nat): Option<nat>
    requires ValidMap(g) && j < |g.keys|
  {
    assert g.keys[j] in g.keys;
    if |g.m[g.keys[j]]| > 1 then Some(BigCount(g, j) + 1) else None
  }

  /** A group with more than one member raises the count past it. */
  lemma {:induction false} BigCountGrows(g: OrderedMap<nat, seq<nat>>, j1: nat, j2: nat)
    requires ValidMap(g) && j1 < j2 <= |g.keys|
    ensures GroupId(g, j1).Some? ==> GroupId(g, j1).value <= BigCount(g, j2)
    ensures BigCount(g, j1) <= BigCount(g, j2)
  {
    if j2 > j1 + 1 {
      BigCountGrows(g, j1, j2 - 1);
    }
  }

  /** Every number up to the count is some group's. */
  lemma {:induction false} BigCountOnto(g: OrderedMap<nat, seq<nat>>, n: nat, k: nat) returns (j: nat)
    requires ValidMap(g) && n <= |g.keys| && 1 <= k <= BigCount(g, n)
    ensures j < n && GroupId(g, j) == Some(k)
  {
    if k <= BigCount(g, n - 1) {
      j := BigCountOnto(g, n - 1, k);
    } else {
      j := n - 1;
    }
  }

  /** The position among the groups of the group of `x`. */
  ghost function KeyOf(g: OrderedMap<nat, seq<nat>>, rep: Labels, x: nat): (j: nat)
    requires IsGrouping(rep, g) && x < |rep|
    ensures j < |g.keys| && g.keys[j] == rep[x]
  {
    assert rep[x] in g.m;
    IndexOf(g.keys, rep[x])
  }

  /** The group of `x` lists exactly the set of `x`, ascending. */
  lemma GroupOf(g: OrderedMap<nat, seq<nat>>, rep: Labels, x: nat)
    requires IsGrouping(rep, g) && x < |rep|
    ensures rep[x] in g.m && g.m[rep[x]] != []
    ensures g.m[rep[x]][0] == ClassMin(rep, x)
    ensures |g.m[rep[x]]| > 1 <==> Big(rep, x)
    ensures forall y: nat :: y in g.m[rep[x]] <==> y < |rep| && rep[y] == rep[x]
  {
    var ms := g.m[rep[x]];
    assert MembersOf(rep, rep[x], ms, |rep|);
    var m := ClassMin(rep, x);
    assert ms[0] in ms && m in ms;
    var a :| 0 <= a < |ms| && ms[a] == m;
    if |ms| > 1 {
      assert ms[0] in ms && ms[1] in ms && ms[0] < ms[1];
      if ms[0] != x {
        assert rep[ms[0]] == rep[x];
      } else {
        assert rep[ms[1]] == rep[x];
      }
    }
    if Big(rep, x) {
      var y :| 0 <= y < |rep| && y != x && rep[y] == rep[x];
      assert x in ms && y in ms;
    }
  }

  /** Groups are listed in order of their smallest members. */
  lemma KeyOrder(g: OrderedMap<nat, seq<nat>>, rep: Labels, x: nat, y: nat)
    requires IsGrouping(rep, g) && x < |rep| && y < |rep|
    ensures ClassMin(rep, x) < ClassMin(rep, y) ==> KeyOf(g, rep, x) < KeyOf(g, rep, y)
    ensures rep[x] == rep[y] <==> KeyOf(g, rep, x) == KeyOf(g, rep, y)
  {
    GroupOf(g, rep, x);
    GroupOf(g, rep, y);
    var jx, jy := KeyOf(g, rep, x), KeyOf(g, rep, y);
    if jy < jx {
      assert g.m[g.keys[jy]][0] < g.m[g.keys[jx]][0];
    }
  }

  /** A loop that numbers the groups as `GroupId` says numbers the
      bundles. */
  lemma GroupIdsNumber(g: OrderedMap<nat, seq<nat>>, rep: Labels, bids: seq<Option<nat>>)
    requires IsGrouping(rep, g) && |bids| == |rep|
    requires forall x :: 0 <= x < |rep| ==> bids[x] == GroupId(g, KeyOf(g, rep, x))
    ensures NumbersBundles(rep, bids, BigCount(g, |g.keys|))
  {
    var n := |g.keys|;
    forall x | 0 <= x < |rep|
      ensures Numbered(rep, bids, BigCount(g, n), x)
    {
      GroupOf(g, rep, x);
      BigCountGrows(g, KeyOf(g, rep, x), n);
    }
    forall x, y | 0 <= x < |rep| && 0 <= y < |rep|
      ensures NumberedPair(rep, bids, x, y)
    {
      KeyOrder(g, rep, x, y);
      var jx, jy := KeyOf(g, rep, x), KeyOf(g, rep, y);
      if jx < jy {
        BigCountGrows(g, jx, jy);
      } else if jy < jx {
        BigCountGrows(g, jy, jx);
      }
    }
    forall k | 1 <= k <= BigCount(g, n)
      ensures NumberUsed(bids, k)
    {
      var j := BigCountOnto(g, n, k);
      var v := g.keys[j];
      assert v in g.m;
      var x := g.m[v][0];
      assert x in g.m[v] && MembersOf(rep, v, g.m[v], |rep|);
      assert KeyOf(g, rep, x) == j;
      assert bids[x] == Some(k);
    }
  }

  /** `for (const i of members) bundleIdByIndex.set(i, bundleId)` */
  method LabelMembers(ids: map<nat, Option<nat>>, members: seq<nat>, bundleId: Option<nat>)
    returns (ids': map<nat, Option<nat>>)
    ensures forall x :: x in members ==> x in ids' && ids'[x] == bundleId
    ensures forall x :: x in ids && x !in members ==> x in ids' && ids'[x] == ids[x]
  {
    ids' := ids;
    for t := 0 to |members|
      invariant forall x :: x in members[..t] ==> x in ids' && ids'[x] == bundleId
      invariant forall x :: x in ids && x !in members[..t] ==> x in ids' && ids'[x] == ids[x]
    {
      assert forall x :: x in members[..t + 1] <==> x in members[..t] || x == members[t];
      ids' := ids'[members[t] := bundleId];
    }
    assert members[..|members|] == members;
  }

  /** The loop over `groups()` that fills `bundleIdByIndex`: every element
      gets the number of its group. */
  method AssignIds(g: OrderedMap<nat, seq<nat>>, ghost rep: Labels) returns (ids: map<nat, Option<nat>>)
    requires IsGrouping(rep, g)
    ensures forall x :: 0 <= x < |rep| ==> x in ids && ids[x] == GroupId(g, KeyOf(g, rep, x))
  {
    ids := map[];
    var next := 1;
    for j := 0 to |g.keys|
      invariant next == BigCount(g, j) + 1
      invariant forall x :: 0 <= x < |rep| && KeyOf(g, rep, x) < j ==>
                  x in ids && ids[x] == GroupId(g, KeyOf(g, rep, x))
    {
      ids, next := NumberGroup(g, rep, j, ids, next);
    }
  }

  /** One iteration of the loop over `groups()`. */
  method NumberGroup(g: OrderedMap<nat, seq<nat>>, ghost rep: Labels, j: nat,
                     ids: map<nat, Option<nat>>, next: nat)
    returns (ids': map<nat, Option<nat>>, next': nat)
    requires IsGrouping(rep, g) && j < |g.keys| && next == BigCount(g, j) + 1
    requires forall x :: 0 <= x < |rep| && KeyOf(g, rep, x) < j ==>
               x in ids && ids[x] == GroupId(g, KeyOf(g, rep, x))
    ensures next' == BigCount(g, j + 1) + 1
    ensures forall x :: 0 <= x < |rep| && KeyOf(g, rep, x) < j + 1 ==>
              x in ids' && ids'[x] == GroupId(g, KeyOf(g, rep, x))
  {
    assert g.keys[j] in g.m;
    var members := g.m[g.keys[j]];
    var bundleId: Option<nat> := None;
    next' := next;
    if |members| > 1 {
      bundleId := Some(next');
      next' := next' + 1;
    }
    assert bundleId == GroupId(g, j);
    ids' := LabelMembers(ids, members, bundleId);
    forall x | 0 <= x < |rep| && KeyOf(g, rep, x) < j + 1
      ensures x in ids' && ids'[x] == GroupId(g, KeyOf(g, rep, x))
    {
      InGroupAt(g, rep, j, x);
    }
  }

  /** The group at position `j` holds exactly the elements whose key is
      there. */
  lemma InGroupAt(g: OrderedMap<nat, seq<nat>>, rep: Labels, j: nat, x: nat)
    requires IsGrouping(rep, g) && j < |g.keys| && x < |rep|
    ensures g.keys[j] in g.m
    ensures x in g.m[g.keys[j]] <==> KeyOf(g, rep, x) == j
  {
    GroupOf(g, rep, x);
  }

  ghost predicate Ascending(s: seq<nat>) {
    forall a, b :: 0 <= a < b < |s| ==> s[a] < s[b]
  }

  lemma AscendingSnoc(s: seq<nat>, k: nat)
    requires Ascending(s) && forall a :: 0 <= a < |s| ==> s[a] < k
    ensures Ascending(s + [k])
  {
  }

  /** A strictly ascending list of the numbers 1..n, each present, is
      exactly 1, 2, ..., n. */
  lemma {:induction false} AscendingOnto(s: seq<nat>, n: nat)
    requires Ascending(s)
    requires forall a :: 0 <= a < |s| ==> 1 <= s[a] <= n
    requires forall k :: 1 <= k <= n ==> k in s
    ensures |s| == n && forall a :: 0 <= a < |s| ==> s[a] == a + 1
  {
    AscendingAtLeast(s, |s|);
    forall a | 0 <= a < |s|
      ensures s[a] == a + 1
    {
      AscendingExact(s, n, a);
    }
    if |s| > 0 {
      assert s[|s| - 1] == |s|;
    }
    if n > 0 {
      assert n in s;
      var a :| 0 <= a < |s| && s[a] == n;
    }
  }

  lemma {:induction false} AscendingAtLeast(s: seq<nat>, c: nat)
    requires c <= |s|
    requires Ascending(s)
    requires forall a :: 0 <= a < |s| ==> 1 <= s[a]
    ensures forall a :: 0 <= a < c ==> s[a] >= a + 1
  {
    if c > 0 {
      AscendingAtLeast(s, c - 1);
      if c > 1 {
        assert s[c - 2] < s[c - 1];
      }
    }
  }

  lemma {:induction false} AscendingExact(s: seq<nat>, n: nat, a: nat)
    requires a < |s|
    requires Ascending(s)
    requires forall a :: 0 <= a < |s| ==> 1 <= s[a] <= n
    requires forall k :: 1 <= k <= n ==> k in s
    ensures s[a] == a + 1
  {
    AscendingAtLeast(s, |s|);
    assert a + 1 <= s[a] <= n;
    assert a + 1 in s;
    var b :| 0 <= b < |s| && s[b] == a + 1;
    if b < a {
      AscendingExact(s, n, b);
    }
  }
}
