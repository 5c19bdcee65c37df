/** `detectBundles` (public/js/ui/bubble.js): the two heuristics union
    wallets in a disjoint-set forest, every group of more than one wallet
    gets an id, and the result is the list of wallets with their ids and the
    map from id to member indices.

    `FinalRep` is the partition the heuristics' unions give, as a function
    of the wallet records; `DetectBundles` is proved to number exactly its
    sets, and the lemmas say which wallets end up together. */
module Bundles {
  import opened Collections
  import opened UnionFind
  import opened Ledger
  import opened Cohorts
  import opened Numbering

  /** A node of the bubble map: the wallet's record and its bundle id
      (`k` for `B<k>`, `None` for `null`). */
  datatype Node = Node(stat: WalletStat, bundleId: Option<nat>)

  /** The unions of the shared-first-sender heuristic: no cohort is skipped,
      windows of at least `MIN_FIRST_SENDER_COHORT` entries count. */
  function FirstSenderEdges(stats: seq<WalletStat>): seq<Edge> {
    HeuristicEdges(stats, WINDOW_SHARED_FIRST_SENDER_MS, MIN_FIRST_SENDER_COHORT, 0)
  }

  /** The unions of the funder heuristic: cohorts smaller than
      `MIN_FUNDED_WALLETS_FOR_BUNDLE` are skipped. */
  function FunderEdges(stats: seq<WalletStat>): seq<Edge> {
    HeuristicEdges(stats, WINDOW_FUNDER_MS, MIN_FUNDED_WALLETS_FOR_BUNDLE, MIN_FUNDED_WALLETS_FOR_BUNDLE)
  }

  /** Every union `detectBundles` makes, in order. */
  function BundleEdges(stats: seq<WalletStat>): seq<Edge> {
    FirstSenderEdges(stats) + FunderEdges(stats)
  }

  lemma HeuristicEdgesIn(stats: seq<WalletStat>, W: nat, minLen: nat, minSize: nat)
    ensures EdgesIn(HeuristicEdges(stats, W, minLen, minSize), |stats|)
  {
    forall k | 0 <= k < |HeuristicEdges(stats, W, minLen, minSize)|
      ensures SenderEdge(stats, W, HeuristicEdges(stats, W, minLen, minSize)[k])
    {
      HeuristicEdgesSound(stats, W, minLen, minSize, k);
    }
  }

  lemma BundleEdgesIn(stats: seq<WalletStat>)
    ensures EdgesIn(BundleEdges(stats), |stats|)
  {
    HeuristicEdgesIn(stats, WINDOW_SHARED_FIRST_SENDER_MS, MIN_FIRST_SENDER_COHORT, 0);
    HeuristicEdgesIn(stats, WINDOW_FUNDER_MS, MIN_FUNDED_WALLETS_FOR_BUNDLE, MIN_FUNDED_WALLETS_FOR_BUNDLE);
    MergeAllAppend(Identity(|stats|), FirstSenderEdges(stats), FunderEdges(stats));
  }

  /** The partition of the wallets once both heuristics are done. */
  function FinalRep(stats: seq<WalletStat>): (r: Labels)
    ensures |r| == |stats|
  {
    BundleEdgesIn(stats);
    MergeAll(Identity(|stats|), BundleEdges(stats))
  }

  /** Every union in `edges` joins two wallets with a first sender and a
      first-funding time, and the same first sender. */
  ghost predicate SameSenderEdges(stats: seq<WalletStat>, edges: seq<Edge>) {
    forall k :: 0 <= k < |edges| ==>
      && edges[k].0 < |stats| && edges[k].1 < |stats|
      && Eligible(stats[edges[k].0]) && Eligible(stats[edges[k].1])
      && stats[edges[k].0].firstSender == stats[edges[k].1].firstSender
  }

  lemma HeuristicSameSender(stats: seq<WalletStat>, W: nat, minLen: nat, minSize: nat)
    ensures SameSenderEdges(stats, HeuristicEdges(stats, W, minLen, minSize))
  {
    forall k | 0 <= k < |HeuristicEdges(stats, W, minLen, minSize)|
      ensures SenderEdge(stats, W, HeuristicEdges(stats, W, minLen, minSize)[k])
    {
      HeuristicEdgesSound(stats, W, minLen, minSize, k);
    }
  }

  lemma BundleSameSender(stats: seq<WalletStat>)
    ensures SameSenderEdges(stats, BundleEdges(stats))
  {
    var a, b := FirstSenderEdges(stats), FunderEdges(stats);
    HeuristicSameSender(stats, WINDOW_SHARED_FIRST_SENDER_MS, MIN_FIRST_SENDER_COHORT, 0);
    HeuristicSameSender(stats, WINDOW_FUNDER_MS, MIN_FUNDED_WALLETS_FOR_BUNDLE, MIN_FUNDED_WALLETS_FOR_BUNDLE);
    SameSenderAppend(stats, a, b);
  }

  lemma SameSenderAppend(stats: seq<WalletStat>, a: seq<Edge>, b: seq<Edge>)
    requires SameSenderEdges(stats, a) && SameSenderEdges(stats, b)
    ensures SameSenderEdges(stats, a + b)
  {
    forall k | 0 <= k < |a + b|
      ensures (a + b)[k] == if k < |a| then a[k] else b[k - |a|]
    {
    }
  }

  /** The first sender of an eligible wallet; nothing for the others. */
  function SenderTag(stats: seq<WalletStat>, i: nat): Option<string> {
    if i < |stats| && Eligible(stats[i]) then Some(stats[i].firstSender.value) else None
  }

  /** Unions of wallets with one first sender only ever put wallets of one
      first sender together. */
  lemma SameSenderJoined(stats: seq<WalletStat>, edges: seq<Edge>, x: nat, y: nat)
    requires SameSenderEdges(stats, edges) && EdgesIn(edges, |stats|)
    requires x < |stats| && y < |stats| && x != y
    requires MergeAll(Identity(|stats|), edges)[x] == MergeAll(Identity(|stats|), edges)[y]
    ensures Eligible(stats[x]) && Eligible(stats[y])
    ensures stats[x].firstSender == stats[y].firstSender
  {
    var tag := i => SenderTag(stats, i);
    IdentityRespects(|stats|, tag);
    MergeAllRespects(Identity(|stats|), edges, tag);
    assert tag(x).Some? && tag(x) == tag(y);
  }

  /** Soundness of the heuristics: two wallets end up together only if both
      have a first sender and a first-funding time and the first sender is
      the same. */
  lemma BundleSound(stats: seq<WalletStat>, x: nat, y: nat)
    requires x < |stats| && y < |stats| && x != y && FinalRep(stats)[x] == FinalRep(stats)[y]
    ensures Eligible(stats[x]) && Eligible(stats[y])
    ensures stats[x].firstSender == stats[y].firstSender
  {
    BundleSameSender(stats);
    BundleEdgesIn(stats);
    SameSenderJoined(stats, BundleEdges(stats), x, y);
  }

  /** Every union of the list joins its two wallets in the end. */
  lemma EdgeJoins(n: nat, edges: seq<Edge>, e: Edge)
    requires EdgesIn(edges, n) && e in edges
    ensures e.0 < n && e.1 < n && MergeAll(Identity(n), edges)[e.0] == MergeAll(Identity(n), edges)[e.1]
  {
    var k :| 0 <= k < |edges| && edges[k] == e;
    MergeAllJoins(Identity(n), edges, k);
  }

  /** The shared-first-sender heuristic joins two wallets that come one
      after the other in their sender's cohort, sorted by first-funding
      time, and were funded at most 15 minutes apart. */
  lemma FirstSenderJoins(stats: seq<WalletStat>, c: nat, y: nat)
    requires c < |SortedCohorts(CohortsOf(stats))|
    requires var arr := SortedCohorts(CohortsOf(stats))[c];
      y + 1 < |arr| && arr[y + 1].ts - arr[y].ts <= WINDOW_SHARED_FIRST_SENDER_MS
    ensures var arr := SortedCohorts(CohortsOf(stats))[c];
      arr[y].i < |stats| && arr[y + 1].i < |stats| && FinalRep(stats)[arr[y].i] == FinalRep(stats)[arr[y + 1].i]
  {
    var arr := SortedCohorts(CohortsOf(stats))[c];
    var e := (arr[y].i, arr[y + 1].i);
    HeuristicEdgesComplete(stats, WINDOW_SHARED_FIRST_SENDER_MS, MIN_FIRST_SENDER_COHORT, 0, c, y);
    InLeft(e, FirstSenderEdges(stats), FunderEdges(stats));
    BundleEdgesIn(stats);
    EdgeJoins(|stats|, BundleEdges(stats), e);
  }

  /** The funder heuristic joins two wallets that come one after the other
      in their sender's sorted cohort and were funded at most 12 hours
      apart: such a cohort has at least two wallets, and so does the
      window. */
  lemma FunderJoins(stats: seq<WalletStat>, c: nat, y: nat)
    requires c < |SortedCohorts(CohortsOf(stats))|
    requires var arr := SortedCohorts(CohortsOf(stats))[c];
      y + 1 < |arr| && arr[y + 1].ts - arr[y].ts <= WINDOW_FUNDER_MS
    ensures var arr := SortedCohorts(CohortsOf(stats))[c];
      arr[y].i < |stats| && arr[y + 1].i < |stats| && FinalRep(stats)[arr[y].i] == FinalRep(stats)[arr[y + 1].i]
  {
    var arr := SortedCohorts(CohortsOf(stats))[c];
    var e := (arr[y].i, arr[y + 1].i);
    HeuristicEdgesComplete(stats, WINDOW_FUNDER_MS, MIN_FUNDED_WALLETS_FOR_BUNDLE,
                           MIN_FUNDED_WALLETS_FOR_BUNDLE, c, y);
    InRight(e, FirstSenderEdges(stats), FunderEdges(stats));
    BundleEdgesIn(stats);
    EdgeJoins(|stats|, BundleEdges(stats), e);
  }

  // ----- the method -----

  /** The bundle ids of the nodes, by index. */
  function BundleIds(list: seq<Node>): (bids: seq<Option<nat>>)
    ensures |bids| == |list| && forall i :: 0 <= i < |list| ==> bids[i] == list[i].bundleId
  {
    seq(|list|, i requires 0 <= i < |list| => list[i].bundleId)
  }

  /** The indices below `i` of the nodes with id `k`. */
  function Carrying(list: seq<Node>, k: nat, i: nat): set<nat>
    requires i <= |list|
  {
    set y | 0 <= y < i && list[y].bundleId == Some(k)
  }

  lemma CarryingStep(list: seq<Node>, k: nat, i: nat)
    requires i < |list|
    ensures Carrying(list, k, i + 1) == Carrying(list, k, i) + (if list[i].bundleId == Some(k) then {i} else {})
  {
  }

  /** The first `i` nodes are filed in `groupsMap` under their ids, ids in
      ascending order. */
  ghost predicate IndexedUpTo(list: seq<Node>, groupsMap: OrderedMap<nat, set<nat>>, i: nat)
    requires i <= |list|
  {
    && ValidMap(groupsMap)
    && (forall k :: k in groupsMap.m ==> groupsMap.m[k] == Carrying(list, k, i) && groupsMap.m[k] != {})
    && (forall y :: 0 <= y < i && list[y].bundleId.Some? ==> list[y].bundleId.value in groupsMap.m)
    && Ascending(groupsMap.keys)
  }

  /** `groupsMap` maps every id to exactly the indices of the nodes that
      carry it, and its keys are the ids 1, 2, ... in order. */
  ghost predicate IndexesBundles(list: seq<Node>, groupsMap: OrderedMap<nat, set<nat>>) {
    && ValidMap(groupsMap)
    && (forall k :: k in groupsMap.m ==> groupsMap.m[k] == Carrying(list, k, |list|))
    && (forall y :: 0 <= y < |list| && list[y].bundleId.Some? ==> list[y].bundleId.value in groupsMap.m)
    && (forall j :: 0 <= j < |groupsMap.keys| ==> groupsMap.keys[j] == j + 1)
  }

  /** The first node carrying a number is the smallest of its set. */
  lemma FirstOfBundle(rep: Labels, bids: seq<Option<nat>>, count: nat, i: nat)
    requires NumbersBundles(rep, bids, count) && i < |rep| && bids[i].Some?
    requires forall y :: 0 <= y < i ==> bids[y] != bids[i]
    ensures ClassMin(rep, i) == i
  {
    var m := ClassMin(rep, i);
    assert NumberedPair(rep, bids, m, i);
  }

  /** A number first met at `i` is larger than every number met before. */
  lemma NewIdAbove(rep: Labels, bids: seq<Option<nat>>, count: nat, i: nat, y: nat)
    requires NumbersBundles(rep, bids, count) && y < i < |rep| && bids[i].Some? && bids[y].Some?
    requires forall z :: 0 <= z < i ==> bids[z] != bids[i]
    ensures bids[y].value < bids[i].value
  {
    FirstOfBundle(rep, bids, count, i);
    assert NumberedPair(rep, bids, y, i);
  }

  /** One iteration of `list.forEach` filling `groupsMap`. */
  method IndexOne(list: seq<Node>, groupsMap: OrderedMap<nat, set<nat>>, i: nat,
                  ghost rep: Labels, ghost count: nat)
    returns (groupsMap': OrderedMap<nat, set<nat>>)
    requires i < |list| && IndexedUpTo(list, groupsMap, i)
    requires NumbersBundles(rep, BundleIds(list), count)
    ensures IndexedUpTo(list, groupsMap', i + 1)
  {
    groupsMap' := groupsMap;
    if list[i].bundleId.None? {
      IndexSkip(list, groupsMap, i);
      return;
    }
    var k := list[i].bundleId.value;
    if k !in groupsMap.m {
      forall a | 0 <= a < |groupsMap.keys|
        ensures groupsMap.keys[a] < k
      {
        var key := groupsMap.keys[a];
        assert key in groupsMap.m;
        var y :| y in groupsMap.m[key];
        NewIdAbove(rep, BundleIds(list), count, i, y);
      }
    }
    groupsMap' := AddTo(groupsMap, k, i);
    IndexAdd(list, groupsMap, i, k);
  }

  lemma IndexSkip(list: seq<Node>, groupsMap: OrderedMap<nat, set<nat>>, i: nat)
    requires i < |list| && IndexedUpTo(list, groupsMap, i) && list[i].bundleId.None?
    ensures IndexedUpTo(list, groupsMap, i + 1)
  {
    forall k | k in groupsMap.m
      ensures groupsMap.m[k] == Carrying(list, k, i + 1)
    {
      CarryingStep(list, k, i);
    }
  }

  /** Filing node `i` under its id `k` extends the index by one node. */
  lemma IndexAdd(list: seq<Node>, groupsMap: OrderedMap<nat, set<nat>>, i: nat, k: nat)
    requires i < |list| && IndexedUpTo(list, groupsMap, i) && list[i].bundleId == Some(k)
    requires k !in groupsMap.m ==> forall a :: 0 <= a < |groupsMap.keys| ==> groupsMap.keys[a] < k
    ensures IndexedUpTo(list, AddTo(groupsMap, k, i), i + 1)
  {
    var g' := AddTo(groupsMap, k, i);
    if k !in groupsMap.m {
      assert Carrying(list, k, i) == {};
      AscendingSnoc(groupsMap.keys, k);
    }
    forall k' | k' in g'.m
      ensures g'.m[k'] == Carrying(list, k', i + 1) && g'.m[k'] != {}
    {
      CarryingStep(list, k', i);
    }
  }

  /** The `list.forEach` that fills `groupsMap`. */
  method IndexBundles(list: seq<Node>, ghost rep: Labels, ghost count: nat)
    returns (groupsMap: OrderedMap<nat, set<nat>>)
    requires NumbersBundles(rep, BundleIds(list), count)
    ensures IndexesBundles(list, groupsMap)
    ensures |groupsMap.keys| == count
  {
    groupsMap := EmptyMap();
    for i := 0 to |list|
      invariant IndexedUpTo(list, groupsMap, i)
    {
      groupsMap := IndexOne(list, groupsMap, i, rep, count);
    }
    var keys := groupsMap.keys;
    forall a | 0 <= a < |keys|
      ensures 1 <= keys[a] <= count
    {
      assert keys[a] in groupsMap.m;
      var y :| y in groupsMap.m[keys[a]];
      assert Numbered(rep, BundleIds(list), count, y);
    }
    forall k | 1 <= k <= count
      ensures k in keys
    {
      assert NumberUsed(BundleIds(list), k);
      var y :| 0 <= y < |list| && BundleIds(list)[y] == Some(k);
    }
    AscendingOnto(keys, count);
  }

  /** One heuristic: fills its map of cohorts, then runs its loop over the
      cohorts, each sorted by first-funding time. */
  method UnionHeuristic(dsu: DSU, stats: seq<WalletStat>, W: nat, minLen: nat, minSize: nat,
                        ghost done: seq<Edge>)
    requires dsu.Tracks(Identity(|stats|), done)
    modifies dsu, dsu.p, dsu.r
    ensures dsu.Tracks(Identity(|stats|), done + HeuristicEdges(stats, W, minLen, minSize))
  {
    var cohorts := BuildCohorts(stats);
    var arrs := SortedCohorts(cohorts);
    SortedCohortsGood(stats);
    CohortIndices(stats, arrs);
    UnionCohorts(dsu, arrs, W, minLen, minSize, Identity(|stats|), done);
  }

  /** `new DSU(stats.length)` and the two heuristics. */
  method RunHeuristics(stats: seq<WalletStat>) returns (dsu: DSU)
    ensures fresh(dsu) && fresh(dsu.p) && fresh(dsu.r)
    ensures dsu.Valid() && SamePartition(dsu.rep, FinalRep(stats))
  {
    var n := |stats|;
    dsu := new DSU(n);
    NoUnions(n);
    ghost var a := FirstSenderEdges(stats);
    UnionHeuristic(dsu, stats, WINDOW_SHARED_FIRST_SENDER_MS, MIN_FIRST_SENDER_COHORT, 0, []);
    assert [] + a == a;
    UnionHeuristic(dsu, stats, WINDOW_FUNDER_MS, MIN_FUNDED_WALLETS_FOR_BUNDLE, MIN_FUNDED_WALLETS_FOR_BUNDLE, a);
    BothHeuristics(stats, dsu.rep);
  }

  /** Before any union, the forest is the identity partition. */
  lemma NoUnions(n: nat)
    ensures EdgesIn([], n) && SamePartition(Identity(n), MergeAll(Identity(n), []))
  {
  }

  /** The first heuristic's unions, then the second's, are all unions. */
  lemma BothHeuristics(stats: seq<WalletStat>, rep: Labels)
    requires EdgesIn(FirstSenderEdges(stats) + FunderEdges(stats), |stats|)
    requires SamePartition(rep, MergeAll(Identity(|stats|), FirstSenderEdges(stats) + FunderEdges(stats)))
    ensures SamePartition(rep, FinalRep(stats))
  {
  }

  /** `stats.map((s, i) => ({ ...s, bundleId: bundleIdByIndex.get(i) || null }))` */
  function WithIds(stats: seq<WalletStat>, ids: map<nat, Option<nat>>): (list: seq<Node>)
    ensures |list| == |stats|
    ensures forall i :: 0 <= i < |stats| ==> list[i] == Node(stats[i], if i in ids then ids[i] else None)
  {
    seq(|stats|, i requires 0 <= i < |stats| => Node(stats[i], if i in ids then ids[i] else None))
  }

  /** The ids the numbering loop hands out, carried over to the nodes. */
  lemma WithIdsNumbers(stats: seq<WalletStat>, ids: map<nat, Option<nat>>,
                       g: OrderedMap<nat, seq<nat>>, rep: Labels)
    requires IsGrouping(rep, g) && |rep| == |stats|
    requires forall x :: 0 <= x < |rep| ==> x in ids && ids[x] == GroupId(g, KeyOf(g, rep, x))
    ensures NumbersBundles(rep, BundleIds(WithIds(stats, ids)), BigCount(g, |g.keys|))
  {
    GroupIdsNumber(g, rep, BundleIds(WithIds(stats, ids)));
  }

  /** `detectBundles(stats)`: the wallets with their bundle ids, numbered
      as `NumbersBundles` says over the heuristics' partition, and the map
      from each id to its members. */
  method DetectBundles(stats: seq<WalletStat>) returns (list: seq<Node>, groupsMap: OrderedMap<nat, set<nat>>)
    ensures |list| == |stats| && forall i :: 0 <= i < |stats| ==> list[i].stat == stats[i]
    ensures NumbersBundles(FinalRep(stats), BundleIds(list), |groupsMap.keys|)
    ensures IndexesBundles(list, groupsMap)
    ensures forall x :: 0 <= x < |list| && list[x].bundleId.Some? ==> Eligible(stats[x])
    ensures forall x, y ::
              0 <= x < |list| && 0 <= y < |list| && list[x].bundleId.Some? && list[x].bundleId == list[y].bundleId
              ==> stats[x].firstSender == stats[y].firstSender
  {
    var dsu := RunHeuristics(stats);
    var groups := dsu.Groups();
    ghost var rep := dsu.rep;
    var ids := AssignIds(groups, rep);
    list := WithIds(stats, ids);
    ghost var count := BigCount(groups, |groups.keys|);
    WithIdsNumbers(stats, ids, groups, rep);
    NumbersOfSamePartition(rep, FinalRep(stats), BundleIds(list), count);
    groupsMap := IndexBundles(list, FinalRep(stats), count);
    BundledShareSender(stats, list, count);
  }

  /** A wallet with a bundle id has a first sender, and wallets with one id
      share it. */
  lemma BundledShareSender(stats: seq<WalletStat>, list: seq<Node>, count: nat)
    requires |list| == |stats| && NumbersBundles(FinalRep(stats), BundleIds(list), count)
    ensures forall x :: 0 <= x < |list| && list[x].bundleId.Some? ==> Eligible(stats[x])
    ensures forall x, y ::
              0 <= x < |list| && 0 <= y < |list| && list[x].bundleId.Some? && list[x].bundleId == list[y].bundleId
              ==> stats[x].firstSender == stats[y].firstSender
  {
    var rep, bids := FinalRep(stats), BundleIds(list);
    forall x | 0 <= x < |list| && list[x].bundleId.Some?
      ensures Eligible(stats[x])
    {
      assert Numbered(rep, bids, count, x);
      var y :| 0 <= y < |rep| && y != x && rep[y] == rep[x];
      BundleSound(stats, x, y);
    }
    forall x, y | 0 <= x < |list| && 0 <= y < |list| && list[x].bundleId.Some? &&
                  list[x].bundleId == list[y].bundleId
      ensures stats[x].firstSender == stats[y].firstSender
    {
      assert NumberedPair(rep, bids, x, y);
      if x != y {
        BundleSound(stats, x, y);
      }
    }
  }
}
