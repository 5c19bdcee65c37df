/** The two sliding-window heuristics of `detectBundles`
    (public/js/ui/bubble.js).

    Wallets are grouped into cohorts by first sender, in order of first
    appearance. Each cohort is sorted by first-funding time and scanned with
    two indices `start` and `end`: `start` moves up until the window
    `[start, end]` spans at most `W` milliseconds, and if the window holds
    at least `minLen` entries, consecutive entries of the window are
    unioned. The functions below reproduce the exact sequence of unions, so
    that the forest the heuristics build is `MergeAll` of that sequence. */
module Cohorts {
  import opened Collections
  import opened Sorting
  import opened UnionFind
  import opened Ledger

  const WINDOW_SHARED_FIRST_SENDER_MS: nat := 15 * 60 * 1000
  const WINDOW_FUNDER_MS: nat := 12 * 60 * 60 * 1000
  const MIN_FUNDED_WALLETS_FOR_BUNDLE: nat := 2
  const MIN_FIRST_SENDER_COHORT: nat := 2

  /** `{ i, ts }`: the index of a wallet and its first-funding time. */
  datatype Entry = Entry(i: nat, ts: int)

  function EntryTs(e: Entry): int {
    e.ts
  }

  /** `!s.firstSender || !s.firstTs` fails: the wallet takes part. */
  predicate Eligible(s: WalletStat) {
    && s.firstSender.Some? && s.firstSender.value != ""
    && s.firstTs.Some? && s.firstTs.value != 0
  }

  /** Every entry of `arr` is an eligible wallet of `stats` whose first
      sender is `k`, with its own first-funding time. */
  ghost predicate CohortOf(stats: seq<WalletStat>, k: string, arr: seq<Entry>) {
    forall e :: e in arr ==>
      && e.i < |stats| && Eligible(stats[e.i])
      && stats[e.i].firstSender.value == k && stats[e.i].firstTs.value == e.ts
  }

  /** `bySender` and `funderToWallets`: the eligible wallets by first
      sender, senders in order of first appearance, wallets in index order. */
  function CohortsOf(stats: seq<WalletStat>): (c: OrderedMap<string, seq<Entry>>)
    ensures ValidMap(c)
    ensures forall k :: k in c.m ==> CohortOf(stats, k, c.m[k])
  {
    if |stats| == 0 then EmptyMap()
    else
      var n := |stats| - 1;
      var prev := CohortsOf(stats[..n]);
      var s := stats[n];
      assert forall k :: k in prev.m ==> CohortOf(stats, k, prev.m[k]) by {
        forall k, e | k in prev.m && e in prev.m[k]
          ensures e.i < |stats| && stats[e.i] == stats[..n][e.i]
        {
        }
      }
      if Eligible(s) then Push(prev, s.firstSender.value, Entry(n, s.firstTs.value)) else prev
  }

  /** Every eligible wallet is in the cohort of its first sender. */
  lemma {:induction false} CohortsComplete(stats: seq<WalletStat>, i: nat)
    requires i < |stats| && Eligible(stats[i])
    ensures stats[i].firstSender.value in CohortsOf(stats).m
    ensures Entry(i, stats[i].firstTs.value) in CohortsOf(stats).m[stats[i].firstSender.value]
  {
    var n := |stats| - 1;
    if i < n {
      assert stats[..n][i] == stats[i];
      CohortsComplete(stats[..n], i);
    }
  }

  /** The loops that fill `bySender` and `funderToWallets`. */
  method BuildCohorts(stats: seq<WalletStat>) returns (c: OrderedMap<string, seq<Entry>>)
    ensures c == CohortsOf(stats)
  {
    c := EmptyMap();
    for i := 0 to |stats|
      invariant c == CohortsOf(stats[..i])
    {
      assert stats[..i + 1][..i] == stats[..i];
      var s := stats[i];
      if Eligible(s) {
        c := Push(c, s.firstSender.value, Entry(i, s.firstTs.value));
      }
    }
    assert stats[..|stats|] == stats;
  }

  // ----- the sliding window, one cohort -----

  /** The inner `while`: moves `s` up until `[s, e]` spans at most `W`. */
  function Advance(arr: seq<Entry>, W: nat, e: nat, s: nat): (r: nat)
    requires s <= e < |arr|
    ensures s <= r <= e
    ensures arr[e].ts - arr[r].ts <= W
    ensures forall q :: s <= q < r ==> arr[e].ts - arr[q].ts > W
    decreases e - s
  {
    if arr[e].ts - arr[s].ts > W then Advance(arr, W, e, s + 1) else s
  }

  /** The value of `start` once the `while` has run for end position `e`. */
  function StartAt(arr: seq<Entry>, W: nat, e: nat): (r: nat)
    requires e < |arr|
    ensures r <= e
  {
    Advance(arr, W, e, if e == 0 then 0 else StartAt(arr, W, e - 1))
  }

  /** `dsu.union(arr[y].i, arr[y+1].i)` for `s <= y < x`. */
  function Pairs(arr: seq<Entry>, s: nat, x: nat): seq<Edge>
    requires x < |arr|
  {
    if x <= s then [] else Pairs(arr, s, x - 1) + [(arr[x - 1].i, arr[x].i)]
  }

  /** The unions made for end position `e`. */
  function EndEdges(arr: seq<Entry>, W: nat, minLen: nat, e: nat): seq<Edge>
    requires e < |arr|
  {
    var s := StartAt(arr, W, e);
    if e - s + 1 >= minLen then Pairs(arr, s, e) else []
  }

  /** The unions made for end positions below `n`, in order. */
  function WindowEdges(arr: seq<Entry>, W: nat, minLen: nat, n: nat): seq<Edge>
    requires n <= |arr|
  {
    if n == 0 then [] else WindowEdges(arr, W, minLen, n - 1) + EndEdges(arr, W, minLen, n - 1)
  }

  /** `arr[y]` and `arr[y+1]` are consecutive in the cohort and funded at
      most `W` apart. */
  ghost predicate CloseNeighbours(arr: seq<Entry>, W: nat, y: nat, edge: Edge) {
    y + 1 < |arr| && edge == (arr[y].i, arr[y + 1].i) && arr[y + 1].ts - arr[y].ts <= W
  }

  /** `edge` joins two consecutive entries funded at most `W` apart. */
  ghost predicate IsCloseEdge(arr: seq<Entry>, W: nat, edge: Edge) {
    exists y :: CloseNeighbours(arr, W, y, edge)
  }

  lemma {:induction false} PairsSound(arr: seq<Entry>, W: nat, e: nat, s: nat, x: nat, k: nat)
    requires SortedBy(arr, EntryTs) && e < |arr| && s <= x <= e && arr[e].ts - arr[s].ts <= W
    requires k < |Pairs(arr, s, x)|
    ensures exists y :: s <= y < x && CloseNeighbours(arr, W, y, Pairs(arr, s, x)[k])
  {
    assert s < x;
    var p := Pairs(arr, s, x - 1);
    assert Pairs(arr, s, x) == p + [(arr[x - 1].i, arr[x].i)];
    if k < |p| {
      PairsSound(arr, W, e, s, x - 1, k);
      var y :| s <= y < x - 1 && CloseNeighbours(arr, W, y, p[k]);
      assert CloseNeighbours(arr, W, y, Pairs(arr, s, x)[k]);
    } else {
      assert EntryTs(arr[s]) <= EntryTs(arr[x - 1]) && EntryTs(arr[x]) <= EntryTs(arr[e]);
      assert CloseNeighbours(arr, W, x - 1, Pairs(arr, s, x)[k]);
    }
  }

  /** Every edge of `edges` is an `IsCloseEdge`. */
  ghost predicate AllClose(arr: seq<Entry>, W: nat, edges: seq<Edge>) {
    forall k :: 0 <= k < |edges| ==> IsCloseEdge(arr, W, edges[k])
  }

  lemma AllCloseAppend(arr: seq<Entry>, W: nat, e1: seq<Edge>, e2: seq<Edge>)
    requires AllClose(arr, W, e1) && AllClose(arr, W, e2)
    ensures AllClose(arr, W, e1 + e2)
  {
    forall k | 0 <= k < |e1 + e2|
      ensures IsCloseEdge(arr, W, (e1 + e2)[k])
    {
      if k < |e1| {
        assert (e1 + e2)[k] == e1[k];
      } else {
        assert (e1 + e2)[k] == e2[k - |e1|];
      }
    }
  }

  lemma EndEdgesSound(arr: seq<Entry>, W: nat, minLen: nat, e: nat)
    requires SortedBy(arr, EntryTs) && e < |arr|
    ensures AllClose(arr, W, EndEdges(arr, W, minLen, e))
  {
    var s := StartAt(arr, W, e);
    if e - s + 1 >= minLen {
      assert EndEdges(arr, W, minLen, e) == Pairs(arr, s, e);
      forall k | 0 <= k < |Pairs(arr, s, e)|
        ensures IsCloseEdge(arr, W, Pairs(arr, s, e)[k])
      {
        PairsSound(arr, W, e, s, e, k);
      }
    }
  }

  /** Soundness: on a sorted cohort every union joins two consecutive
      entries funded at most `W` apart. */
  lemma {:induction false} WindowEdgesSound(arr: seq<Entry>, W: nat, minLen: nat, n: nat)
    requires SortedBy(arr, EntryTs) && n <= |arr|
    ensures AllClose(arr, W, WindowEdges(arr, W, minLen, n))
  {
    if n > 0 {
      WindowEdgesSound(arr, W, minLen, n - 1);
      EndEdgesSound(arr, W, minLen, n - 1);
      AllCloseAppend(arr, W, WindowEdges(arr, W, minLen, n - 1), EndEdges(arr, W, minLen, n - 1));
    }
  }

  lemma {:induction false} PairsContain(arr: seq<Entry>, s: nat, x: nat, y: nat)
    requires x < |arr| && s <= y < x
    ensures (arr[y].i, arr[y + 1].i) in Pairs(arr, s, x)
  {
    if y < x - 1 {
      PairsContain(arr, s, x - 1, y);
    }
  }

  lemma {:induction false} WindowEdgesGrow(arr: seq<Entry>, W: nat, minLen: nat, n: nat, m: nat, edge: Edge)
    requires n <= m <= |arr| && edge in WindowEdges(arr, W, minLen, n)
    ensures edge in WindowEdges(arr, W, minLen, m)
    decreases m - n
  {
    if n < m {
      WindowEdgesGrow(arr, W, minLen, n, m - 1, edge);
      InLeft(edge, WindowEdges(arr, W, minLen, m - 1), EndEdges(arr, W, minLen, m - 1));
    }
  }

  /** The inner `while` stops at the latest at an entry within `W` of the
      end. */
  lemma AdvanceStops(arr: seq<Entry>, W: nat, e: nat, s: nat, y: nat)
    requires s <= y <= e < |arr| && arr[e].ts - arr[y].ts <= W
    ensures Advance(arr, W, e, s) <= y
    decreases y - s
  {
    if arr[e].ts - arr[s].ts > W {
      AdvanceStops(arr, W, e, s + 1, y);
    }
  }

  /** `start` never passes an entry within `W` of the end. */
  lemma {:induction false} StartAtBound(arr: seq<Entry>, W: nat, e: nat, y: nat)
    requires SortedBy(arr, EntryTs) && y <= e < |arr| && arr[e].ts - arr[y].ts <= W
    ensures StartAt(arr, W, e) <= y
  {
    var s0 := if e == 0 then 0 else StartAt(arr, W, e - 1);
    if e > 0 && y < e {
      assert EntryTs(arr[e - 1]) <= EntryTs(arr[e]);
      StartAtBound(arr, W, e - 1, y);
    }
    AdvanceStops(arr, W, e, s0, y);
  }

  /** Two consecutive entries funded at most `W` apart are unioned when
      the scan reaches the second, if windows of two count. */
  lemma EndEdgesContain(arr: seq<Entry>, W: nat, minLen: nat, y: nat)
    requires minLen <= 2 && SortedBy(arr, EntryTs)
    requires y + 1 < |arr| && arr[y + 1].ts - arr[y].ts <= W
    ensures (arr[y].i, arr[y + 1].i) in EndEdges(arr, W, minLen, y + 1)
  {
    StartAtBound(arr, W, y + 1, y);
    PairsContain(arr, StartAt(arr, W, y + 1), y + 1, y);
  }

  lemma {:induction false} EndEdgesInWindow(arr: seq<Entry>, W: nat, minLen: nat, e: nat, edge: Edge)
    requires e < |arr| && edge in EndEdges(arr, W, minLen, e)
    ensures edge in WindowEdges(arr, W, minLen, |arr|)
  {
    assert edge in WindowEdges(arr, W, minLen, e + 1);
    WindowEdgesGrow(arr, W, minLen, e + 1, |arr|, edge);
  }

  /** Completeness: when windows of two entries count (`minLen <= 2`),
      every two consecutive entries funded at most `W` apart are unioned. */
  lemma {:induction false} WindowEdgesComplete(arr: seq<Entry>, W: nat, minLen: nat, y: nat)
    requires minLen <= 2 && SortedBy(arr, EntryTs)
    requires y + 1 < |arr| && arr[y + 1].ts - arr[y].ts <= W
    ensures (arr[y].i, arr[y + 1].i) in WindowEdges(arr, W, minLen, |arr|)
  {
    EndEdgesContain(arr, W, minLen, y);
    EndEdgesInWindow(arr, W, minLen, y + 1, (arr[y].i, arr[y + 1].i));
  }

  // ----- all cohorts -----

  /** The cohorts as the heuristics scan them: in sender order, each sorted
      by first-funding time. */
  function SortedCohorts(cohorts: OrderedMap<string, seq<Entry>>): (arrs: seq<seq<Entry>>)
    requires ValidMap(cohorts)
    ensures |arrs| == |cohorts.keys|
    ensures forall c :: 0 <= c < |arrs| ==> cohorts.keys[c] in cohorts.m
    ensures forall c :: 0 <= c < |arrs| ==>
              SortedBy(arrs[c], EntryTs) && multiset(arrs[c]) == multiset(cohorts.m[cohorts.keys[c]])
  {
    assert forall c :: 0 <= c < |cohorts.keys| ==> cohorts.keys[c] in cohorts.keys;
    seq(|cohorts.keys|, c requires 0 <= c < |cohorts.keys| => SortBy(cohorts.m[cohorts.keys[c]], EntryTs))
  }

  /** The unions made for one sorted cohort; a cohort smaller than
      `minSize` is skipped. */
  function CohortStep(arr: seq<Entry>, W: nat, minLen: nat, minSize: nat): seq<Edge>
  {
    if |arr| < minSize then [] else WindowEdges(arr, W, minLen, |arr|)
  }

  /** The unions made for the first `c` cohorts, in cohort order. */
  function CohortsPrefix(arrs: seq<seq<Entry>>, W: nat, minLen: nat, minSize: nat, c: nat): seq<Edge>
    requires c <= |arrs|
  {
    Flatten(arrs, arr => CohortStep(arr, W, minLen, minSize), c)
  }

  /** The unions of one whole heuristic. */
  function HeuristicEdges(stats: seq<WalletStat>, W: nat, minLen: nat, minSize: nat): seq<Edge>
  {
    var arrs := SortedCohorts(CohortsOf(stats));
    CohortsPrefix(arrs, W, minLen, minSize, |arrs|)
  }

  /** An edge of the heuristics: two eligible wallets with the same first
      sender, funded at most `W` apart. */
  ghost predicate SenderEdge(stats: seq<WalletStat>, W: nat, edge: Edge) {
    && edge.0 < |stats| && edge.1 < |stats|
    && Eligible(stats[edge.0]) && Eligible(stats[edge.1])
    && stats[edge.0].firstSender == stats[edge.1].firstSender
    && -(W as int) <= stats[edge.1].firstTs.value - stats[edge.0].firstTs.value <= W
  }

  /** Every cohort array holds entries of one sender, sorted. */
  ghost predicate GoodCohorts(stats: seq<WalletStat>, arrs: seq<seq<Entry>>) {
    forall c :: 0 <= c < |arrs| ==>
      SortedBy(arrs[c], EntryTs) && exists k :: CohortOf(stats, k, arrs[c])
  }

  lemma SortedCohortsGood(stats: seq<WalletStat>)
    ensures GoodCohorts(stats, SortedCohorts(CohortsOf(stats)))
  {
    var cohorts := CohortsOf(stats);
    var arrs := SortedCohorts(cohorts);
    forall c | 0 <= c < |arrs|
      ensures exists k :: CohortOf(stats, k, arrs[c])
    {
      var k := cohorts.keys[c];
      assert CohortOf(stats, k, cohorts.m[k]);
      forall e | e in arrs[c]
        ensures e in cohorts.m[k]
      {
        assert e in multiset(arrs[c]);
      }
      assert CohortOf(stats, k, arrs[c]);
    }
  }

  lemma SenderEdgeOf(stats: seq<WalletStat>, arr: seq<Entry>, W: nat, y: nat, k: string, edge: Edge)
    requires SortedBy(arr, EntryTs) && CohortOf(stats, k, arr) && CloseNeighbours(arr, W, y, edge)
    ensures SenderEdge(stats, W, edge)
  {
    assert arr[y] in arr && arr[y + 1] in arr;
    assert EntryTs(arr[y]) <= EntryTs(arr[y + 1]);
  }

  /** Every union one cohort's scan makes is a `SenderEdge`. */
  lemma CohortStepSound(stats: seq<WalletStat>, arr: seq<Entry>, W: nat, minLen: nat, minSize: nat, j: nat)
    requires SortedBy(arr, EntryTs) && (exists key :: CohortOf(stats, key, arr))
    requires j < |CohortStep(arr, W, minLen, minSize)|
    ensures SenderEdge(stats, W, CohortStep(arr, W, minLen, minSize)[j])
  {
    var edge := CohortStep(arr, W, minLen, minSize)[j];
    assert edge == WindowEdges(arr, W, minLen, |arr|)[j];
    WindowEdgesSound(arr, W, minLen, |arr|);
    assert IsCloseEdge(arr, W, edge);
    var y :| CloseNeighbours(arr, W, y, edge);
    var key :| CohortOf(stats, key, arr);
    SenderEdgeOf(stats, arr, W, y, key, edge);
  }

  /** Every union either heuristic makes is a `SenderEdge`. */
  lemma HeuristicEdgesSound(stats: seq<WalletStat>, W: nat, minLen: nat, minSize: nat, k: nat)
    requires k < |HeuristicEdges(stats, W, minLen, minSize)|
    ensures SenderEdge(stats, W, HeuristicEdges(stats, W, minLen, minSize)[k])
  {
    var arrs := SortedCohorts(CohortsOf(stats));
    SortedCohortsGood(stats);
    var c, j := FlattenIndex(arrs, arr => CohortStep(arr, W, minLen, minSize), |arrs|, k);
    CohortStepSound(stats, arrs[c], W, minLen, minSize, j);
  }

  /** Completeness: two entries of a sender's sorted cohort that are
      consecutive and funded at most `W` apart are unioned, provided the
      cohort is not skipped and windows of two count. */
  lemma {:induction false} HeuristicEdgesComplete(stats: seq<WalletStat>, W: nat, minLen: nat, minSize: nat,
                                                  c: nat, y: nat)
    requires minLen <= 2 && minSize <= 2
    requires c < |SortedCohorts(CohortsOf(stats))|
    requires var arr := SortedCohorts(CohortsOf(stats))[c];
      y + 1 < |arr| && arr[y + 1].ts - arr[y].ts <= W
    ensures var arr := SortedCohorts(CohortsOf(stats))[c];
      (arr[y].i, arr[y + 1].i) in HeuristicEdges(stats, W, minLen, minSize)
  {
    var arrs := SortedCohorts(CohortsOf(stats));
    var arr := arrs[c];
    var edge := (arr[y].i, arr[y + 1].i);
    var f := a => CohortStep(a, W, minLen, minSize);
    WindowEdgesComplete(arr, W, minLen, y);
    assert edge in CohortStep(arr, W, minLen, minSize);
    assert edge in f(arrs[c]);
    FlattenContains(arrs, f, c, |arrs|, edge);
    assert HeuristicEdges(stats, W, minLen, minSize) == Flatten(arrs, f, |arrs|);
  }

  // ----- the loops that make the unions -----

  /** One step of the model's bookkeeping: a union extends the edge list. */
  lemma UnionExtends(before: Labels, after: Labels, r0: Labels, edges: seq<Edge>, a: nat, b: nat)
    requires EdgesIn(edges, |r0|) && a < |r0| && b < |r0|
    requires SamePartition(before, MergeAll(r0, edges))
    requires SamePartition(after, Merge(before, a, b))
    ensures EdgesIn(edges + [(a, b)], |r0|)
    ensures SamePartition(after, MergeAll(r0, edges + [(a, b)]))
  {
    var next := edges + [(a, b)];
    assert next[..|edges|] == edges;
    MergeCongruent(before, MergeAll(r0, edges), a, b);
    SamePartitionTransitive(after, Merge(before, a, b), MergeAll(r0, next));
  }

  /** `dsu.union(a, b)`, with the edge recorded in the model's list. */
  method UnionRecorded(dsu: DSU, a: nat, b: nat, ghost r0: Labels, ghost edges: seq<Edge>)
    requires a < |r0| && b < |r0| && dsu.Tracks(r0, edges)
    modifies dsu, dsu.p, dsu.r
    ensures dsu.Tracks(r0, edges + [(a, b)])
  {
    ghost var rep0 := dsu.rep;
    dsu.Union(a, b);
    UnionExtends(rep0, dsu.rep, r0, edges, a, b);
  }

  /** The inner `while`: moves `start` past entries funded more than `W`
      before `arr[e]`. */
  method AdvanceStart(arr: seq<Entry>, W: nat, e: nat, s: nat) returns (start: nat)
    requires e < |arr| && s == (if e == 0 then 0 else StartAt(arr, W, e - 1))
    ensures start == StartAt(arr, W, e)
  {
    start := s;
    while arr[e].ts - arr[start].ts > W
      invariant s <= start <= e
      invariant Advance(arr, W, e, start) == Advance(arr, W, e, s)
      decreases e - start
    {
      start := start + 1;
    }
  }

  lemma PairsStep(arr: seq<Entry>, s: nat, x: nat, before: seq<Edge>)
    requires s <= x && x + 1 < |arr|
    ensures (before + Pairs(arr, s, x)) + [(arr[x].i, arr[x + 1].i)] == before + Pairs(arr, s, x + 1)
  {
  }

  /** The inner `for`: unions each entry of `arr[s..e]` with the next. */
  method UnionPairs(dsu: DSU, arr: seq<Entry>, s: nat, e: nat, ghost r0: Labels, ghost before: seq<Edge>)
    requires s <= e < |arr| && (forall k :: 0 <= k < |arr| ==> arr[k].i < |r0|)
    requires dsu.Tracks(r0, before)
    modifies dsu, dsu.p, dsu.r
    ensures dsu.Tracks(r0, before + Pairs(arr, s, e))
  {
    assert before + Pairs(arr, s, s) == before;
    var x := s;
    while x < e
      invariant s <= x <= e
      invariant dsu.Tracks(r0, before + Pairs(arr, s, x))
      decreases e - x
    {
      UnionPair(dsu, arr, s, x, r0, before);
      x := x + 1;
    }
  }

  /** One iteration of the inner `for`: `dsu.union(arr[x].i, arr[x+1].i)`. */
  method UnionPair(dsu: DSU, arr: seq<Entry>, s: nat, x: nat, ghost r0: Labels, ghost before: seq<Edge>)
    requires s <= x && x + 1 < |arr| && (forall k :: 0 <= k < |arr| ==> arr[k].i < |r0|)
    requires dsu.Tracks(r0, before + Pairs(arr, s, x))
    modifies dsu, dsu.p, dsu.r
    ensures dsu.Tracks(r0, before + Pairs(arr, s, x + 1))
  {
    PairsStep(arr, s, x, before);
    UnionRecorded(dsu, arr[x].i, arr[x + 1].i, r0, before + Pairs(arr, s, x));
  }

  /** One iteration of the outer `for`: moves `start` up to the window of
      `end` and, if the window is long enough, unions along it. */
  method ScanEnd(dsu: DSU, arr: seq<Entry>, W: nat, minLen: nat, end: nat, start: nat,
                 ghost r0: Labels, ghost before: seq<Edge>) returns (s: nat)
    requires end < |arr| && (forall k :: 0 <= k < |arr| ==> arr[k].i < |r0|)
    requires start == if end == 0 then 0 else StartAt(arr, W, end - 1)
    requires dsu.Tracks(r0, before)
    modifies dsu, dsu.p, dsu.r
    ensures s == StartAt(arr, W, end)
    ensures dsu.Tracks(r0, before + EndEdges(arr, W, minLen, end))
  {
    s := AdvanceStart(arr, W, end, start);
    if end - s + 1 >= minLen {
      UnionPairs(dsu, arr, s, end, r0, before);
    } else {
      assert before + EndEdges(arr, W, minLen, end) == before;
    }
  }

  lemma WindowStep(arr: seq<Entry>, W: nat, minLen: nat, e: nat, done: seq<Edge>)
    requires e < |arr|
    ensures (done + WindowEdges(arr, W, minLen, e)) + EndEdges(arr, W, minLen, e) == done + WindowEdges(arr, W, minLen, e + 1)
  {
  }

  /** The `start`/`end` scan of one sorted cohort. */
  method UnionWindows(dsu: DSU, arr: seq<Entry>, W: nat, minLen: nat, ghost r0: Labels, ghost done: seq<Edge>)
    requires (forall k :: 0 <= k < |arr| ==> arr[k].i < |r0|)
    requires dsu.Tracks(r0, done)
    modifies dsu, dsu.p, dsu.r
    ensures dsu.Tracks(r0, done + WindowEdges(arr, W, minLen, |arr|))
  {
    var start := 0;
    ghost var acc := done;
    assert done + WindowEdges(arr, W, minLen, 0) == done;
    for end := 0 to |arr|
      invariant start == if end == 0 then 0 else StartAt(arr, W, end - 1)
      invariant acc == done + WindowEdges(arr, W, minLen, end)
      invariant dsu.Tracks(r0, acc)
      modifies dsu, dsu.p, dsu.r
    {
      start := ScanEnd(dsu, arr, W, minLen, end, start, r0, acc);
      WindowStep(arr, W, minLen, end, done);
      acc := acc + EndEdges(arr, W, minLen, end);
    }
  }

  /** Every entry of every cohort names one of `n` wallets. */
  ghost predicate IndicesBelow(arrs: seq<seq<Entry>>, n: nat) {
    forall c, k :: 0 <= c < |arrs| && 0 <= k < |arrs[c]| ==> arrs[c][k].i < n
  }

  lemma CohortIndices(stats: seq<WalletStat>, arrs: seq<seq<Entry>>)
    requires GoodCohorts(stats, arrs)
    ensures IndicesBelow(arrs, |stats|)
  {
    forall c, k | 0 <= c < |arrs| && 0 <= k < |arrs[c]|
      ensures arrs[c][k].i < |stats|
    {
      var key :| CohortOf(stats, key, arrs[c]);
      assert arrs[c][k] in arrs[c];
    }
  }

  /** One iteration of the `for (const [sender, arr] of ...)` loop of a
      heuristic, on the sorted cohort `arr`: skip it if it is small, scan it
      otherwise. */
  method UnionCohort(dsu: DSU, arr: seq<Entry>, W: nat, minLen: nat, minSize: nat,
                     ghost r0: Labels, ghost before: seq<Edge>)
    requires (forall k :: 0 <= k < |arr| ==> arr[k].i < |r0|)
    requires dsu.Tracks(r0, before)
    modifies dsu, dsu.p, dsu.r
    ensures dsu.Tracks(r0, before + CohortStep(arr, W, minLen, minSize))
  {
    if |arr| < minSize {
      assert before + CohortStep(arr, W, minLen, minSize) == before;
    } else {
      UnionWindows(dsu, arr, W, minLen, r0, before);
    }
  }

  /** The loop of one heuristic over all cohorts, each already sorted by
      first-funding time. */
  method UnionCohorts(dsu: DSU, arrs: seq<seq<Entry>>, W: nat, minLen: nat, minSize: nat,
                      ghost r0: Labels, ghost done: seq<Edge>)
    requires IndicesBelow(arrs, |r0|) && dsu.Tracks(r0, done)
    modifies dsu, dsu.p, dsu.r
    ensures dsu.Tracks(r0, done + CohortsPrefix(arrs, W, minLen, minSize, |arrs|))
  {
    ghost var acc := done;
    assert done + CohortsPrefix(arrs, W, minLen, minSize, 0) == done;
    for c := 0 to |arrs|
      invariant acc == done + CohortsPrefix(arrs, W, minLen, minSize, c)
      invariant dsu.Tracks(r0, acc)
      modifies dsu, dsu.p, dsu.r
    {
      UnionCohort(dsu, arrs[c], W, minLen, minSize, r0, acc);
      FlattenStep(arrs, arr => CohortStep(arr, W, minLen, minSize), c, done);
      acc := acc + CohortStep(arrs[c], W, minLen, minSize);
    }
  }
}
