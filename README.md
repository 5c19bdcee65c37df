# Token dashboard core: wallet analysis, bundle detection, first recipients, store, token tables

This project models, in Dafny, the computational core of a small token
dashboard's browser front end, and proves properties of it:

- **Wallet analysis** (`public/js/ui/bubble.js`). The dashboard normalises a
  token's raw holder and transfer lists. It indexes every wallet's inbound and
  outbound transfers, then replays them in time order. `initialBuy` is frozen
  at the first outbound transfer. The dashboard also picks the current
  balance and computes the percentage still held, clamped to [0, 200].
- **Bundle detection** (same file). An array-backed union-find uses path
  compression and union by rank. Two sliding-window heuristics join wallets
  that were first funded by the same sender close together in time: the
  15-minute "shared first sender" window, and the 12-hour "funder" window
  for senders that funded at least two wallets. Every set of two or more
  wallets then gets an id `B1`, `B2`, ..., in order of its smallest index.
- **First recipients** (`public/js/ui/firstRecipients.js`). The first 25
  distinct wallets a token was sent to, each with its earliest transfer.
  The file's own `normalizeTransfers` (lines 18-32) is a verbatim copy of
  the one in `bubble.js`, so both are the one member
  `Normalize.NormalizeTransfers`.
- **The store** (`public/js/state/store.js`). The page's shared state, a
  subscriber set, setters that notify subscribers only on change, and
  three caches.
- **The token tables** (`public/js/ui/top.js`). The case-insensitive search
  filter, the split of a list into a 5-row and a 10-row table, and the
  choice of the single row shown in single-token mode.

JavaScript `Map`s keep insertion order, so they are modelled as
`Collections.OrderedMap`: a key sequence plus a Dafny `map`. A `Set` built
from a list is `Collections.Distinct`. `Array.prototype.sort` with
`(a, b) => a.ts - b.ts` is `Sorting.SortBy`, a stable insertion sort.

Each loop the source runs becomes a Dafny method with a loop. Each method is
proved against a function or predicate that states what the loop computes.
The properties the source promises are proved of those functions:

- the merge loop of `buildWalletStats` (`Ledger.Replay`);
- the index-building loop (`Ledger.IndexTransfers`);
- the DSU over two arrays: the class `UnionFind.DSU`, with a ghost label
  sequence `rep` whose partition `Find` never changes;
- the sliding windows (`Cohorts.UnionWindows` and its steps);
- the id numbering (`Numbering.AssignIds`);
- the `groupsMap` loop (`Bundles.IndexBundles`);
- the first-recipients loop with its early exit
  (`FirstRecipients.ScanRecipients`);
- `emit` (`Store.Store.Emit`).

The unions the heuristics perform are stated as a list of edges
(`Cohorts.HeuristicEdges`). The DSU is proved to hold the partition those
edges generate (`UnionFind.DSU.Tracks`).

Consequences of the code worth stating:

- A holder with no balance field gets balance 0, not "absent", because of
  `?? 0` (`Normalize.HolderBalance`).
- Only a zero or missing transfer value is dropped. Negative values are
  kept (`Normalize.NormalizeTransfer`).
- A first inbound transfer at timestamp 0 gives `firstTs = null`, and that
  wallet is never joined by either heuristic (`Ledger.FirstFieldsMeaning`,
  `Cohorts.Eligible`, `Bundles.BundleSound`).
- Unions are transitive. The windows join each consecutive pair of a
  cohort that are at most 15 minutes apart. For first-funding times 0, 10
  and 20 minutes, wallets 1 and 2 and wallets 2 and 3 are joined, so all
  three end in one set although the first and third are 20 minutes apart
  (`Bundles.FirstSenderJoins`).
- Every consecutive pair within 15 minutes is also within 12 hours. So the
  funder heuristic, which runs for every sender with two or more funded
  wallets, joins every pair the first heuristic joins. Both hold for the
  final partition (`Bundles.FirstSenderJoins`, `Bundles.FunderJoins`).

## Model

| member | source | states |
|---|---|---|
| Collections.Put | public/js/ui/bubble.js:62 | `Map.set`: the key is added at the end of the key order if new and keeps its place otherwise; its value is replaced and no other entry changes |
| Collections.Push | public/js/ui/bubble.js:91-94 | `if (!m.has(k)) m.set(k, []); m.get(k).push(v)`: the list under `k` gains `v` at its end, a new key goes last, other lists are unchanged |
| Collections.AddTo | public/js/ui/bubble.js:210-211 | the set under `k` (created, and put last, if missing) gains `v`; other entries are unchanged |
| Collections.Distinct | public/js/ui/bubble.js:101 | `new Set([...])` in insertion order: no repeats, exactly the same members, and ordered by each element's first occurrence in the input |
| Collections.DistinctOfDistinct | public/js/ui/bubble.js:101 | a list without repeats is its own `Set` order |
| Sorting.SortBy | public/js/ui/bubble.js:78 | the sort comparator `a.ts - b.ts`: the result ascends by key and is a permutation of the input |
| Sorting.SortByStable | public/js/ui/bubble.js:78 | the sort is stable: the elements with any one key keep their relative order |
| Sorting.SortBySorted | public/js/ui/bubble.js:105-106 | re-sorting an already sorted list (the per-wallet `ins`/`outs`) changes nothing |
| Text.ToLower | public/js/ui/bubble.js:70-71 | `toLowerCase`: same length, each character lower-cased on its own (`'A'..'Z'` moved by 32, every other character kept), so no upper-case letter is left |
| Text.ToLowerIdempotent | public/js/ui/top.js:35-36 | lower-casing twice is lower-casing once |
| Text.Contains | public/js/ui/top.js:36 | `String.prototype.includes`: true iff the needle occurs at some position |
| Normalize.NormalizeTransfer | public/js/ui/bubble.js:70-76 | a record is dropped iff both sender fields, or both recipient fields, are empty or both value fields are falsy; a kept record has the lower-cased first non-empty address of each side, the first truthy value, and the first truthy timestamp scaled to milliseconds unless above 10^12 |
| Normalize.Kept | public/js/ui/bubble.js:69-77 | every kept transfer is well formed (non-empty lower-case addresses, non-zero value), and there are no more of them than input records |
| Normalize.KeptComplete | public/js/ui/bubble.js:75-76 | every record that normalises is kept |
| Normalize.KeptSound | public/js/ui/bubble.js:75-76 | every kept transfer is the normalisation of some input record: none is invented |
| Normalize.KeepTransfers | public/js/ui/bubble.js:68-77 | the loop keeps exactly the records that normalise, in input order |
| Normalize.NormalizedTransfersFacts | public/js/ui/bubble.js:66-80 | the normalised list is sorted by time, a permutation of the kept transfers, all well formed, and keeps the input order among equal timestamps |
| Normalize.NormalizeTransfers | public/js/ui/bubble.js:66-80 | `normalizeTransfers` returns exactly the kept transfers sorted by time |
| Normalize.HolderBalance | public/js/ui/bubble.js:61 | a holder with no balance field gets balance 0; a finite balance is the number in the first non-nullish of `Balance`, `balance`, `value`; the balance is non-finite iff that field is not a number |
| Normalize.NormalizedHolders | public/js/ui/bubble.js:55-65 | the holder map's keys are non-empty and lower-case |
| Normalize.HolderDomain | public/js/ui/bubble.js:59-60 | an address is in the holder map iff it is non-empty and some holder record has it |
| Normalize.HolderLastWins | public/js/ui/bubble.js:62 | a repeated address keeps the balance of its last record |
| Normalize.NormalizeHolders | public/js/ui/bubble.js:55-65 | the loop builds exactly the holder map |
| Ledger.IndexTransfers | public/js/ui/bubble.js:86-99 | after the loop, `incoming[a]` / `outgoing[a]` are exactly `a`'s inbound / outbound events in list order, keys in first-appearance order, and `firstInbound[a]` is `a`'s first inbound transfer |
| Ledger.InboundNonEmpty | public/js/ui/bubble.js:91 | a wallet has an inbound list iff it is some transfer's recipient |
| Ledger.OutboundNonEmpty | public/js/ui/bubble.js:92 | a wallet has an outbound list iff it is some transfer's sender |
| Ledger.WalletsExact | public/js/ui/bubble.js:101 | the wallets are listed once each, and a wallet is listed iff it received, sent or is a holder |
| Ledger.LeadingAtMost | public/js/ui/bubble.js:112-124 | the number of leading inbound events no later than a time: all of them are, the next is not |
| Ledger.Replay | public/js/ui/bubble.js:108-124 | the merge loop ends with `i = ins.length` and `o = outs.length`; `soldDetected` iff there is an outbound event; `initialBuy` is the sum of the inbound events taken before the first outbound one (ties to inbound) |
| Ledger.ReplaySum | public/js/ui/bubble.js:108-124 | on time-sorted events, that sum is the sum of inbound values at or before the first outbound time, or of all inbound values when there is none |
| Ledger.InitialBuyMeaning | public/js/ui/bubble.js:108-135 | a wallet's `initialBuy` is the frozen sum, replaced by the full inbound sum when that is not positive |
| Ledger.CurrentMeaning | public/js/ui/bubble.js:126-131 | `current` is the holder balance when the wallet has a finite one, otherwise inbound sum minus outbound sum |
| Ledger.Clamp | public/js/ui/bubble.js:136 | `max(0, min(200, x))` lies in [0, 200] and leaves values in range unchanged |
| Ledger.HeldPct | public/js/ui/bubble.js:136 | `heldPct` lies in [0, 200], is 0 when `initialBuy <= 0`, is `100 * current / initialBuy` in range, 0 below and 200 above |
| Ledger.PercentFacts | public/js/ui/bubble.js:136 | the unclamped percentage times `initialBuy` is `100 * current`, and its sign and range follow `current` |
| Ledger.HeldPctBounds | public/js/ui/bubble.js:136 | every emitted wallet's `heldPct` lies in [0, 200] and is 0 when its `initialBuy <= 0` |
| Ledger.FirstInboundMeaning | public/js/ui/bubble.js:96-98 | `firstInbound` is absent iff the wallet received nothing, and is otherwise its first inbound event |
| Ledger.FirstFieldsMeaning | public/js/ui/bubble.js:144-145 | `firstSender` is set iff the wallet received something, and is the first sender; `firstTs` is set iff it did and the first timestamp is not 0 |
| Ledger.InboundSorted | public/js/ui/bubble.js:105 | on a time-sorted transfer list each wallet's inbound events are already time-sorted |
| Ledger.OutboundSorted | public/js/ui/bubble.js:106 | the same for outbound events |
| Ledger.InboundPeers | public/js/ui/bubble.js:144 | every inbound sender is non-empty, so `|| null` only maps a missing first inbound to null |
| Ledger.StatsFor | public/js/ui/bubble.js:103-148 | one wallet record per wallet, in wallet order |
| Ledger.StatsForAt | public/js/ui/bubble.js:138-147 | the k-th record is the k-th wallet's record |
| Ledger.StatFor | public/js/ui/bubble.js:104-147 | one pass of the per-wallet loop body builds exactly that wallet's record |
| Ledger.StatsOf | public/js/ui/bubble.js:103-148 | the per-wallet loop builds exactly the list of records |
| Ledger.BuildWalletStats | public/js/ui/bubble.js:82-151 | `buildWalletStats` returns exactly the reference list of wallet records |
| Ledger.WalletStatsFacts | public/js/ui/bubble.js:82-151 | every returned record, from the raw lists: its wallet is a listed wallet, `heldPct` lies in [0, 200] and is 0 unless `initialBuy` is positive, `initialBuy` is the frozen sum with its fallback, `current` is the finite holder balance or inbound minus outbound, and `firstTs` is set iff the first inbound transfer is not at time 0 |
| UnionFind.Identity | public/js/ui/bubble.js:18 | the initial labelling puts every element alone |
| UnionFind.MergeRelation | public/js/ui/bubble.js:20-22 | after merging the sets of `a` and `b`, two elements are together iff they were, or one was with `a` and the other with `b` |
| UnionFind.MergeJoined | public/js/ui/bubble.js:20 | merging two elements already together changes nothing |
| UnionFind.MergeSymmetric | public/js/ui/bubble.js:21 | which side wins the rank comparison does not change the partition |
| UnionFind.MergeAllJoins | public/js/ui/bubble.js:171 | after a list of unions, both ends of every union are together |
| UnionFind.MergeAllKeeps | public/js/ui/bubble.js:171 | unions never separate elements |
| UnionFind.MergeAllAppend | public/js/ui/bubble.js:164-196 | carrying out two lists of unions one after the other is carrying out their concatenation |
| UnionFind.MergeAllCongruent | public/js/ui/bubble.js:19-22 | the partition after a list of unions depends only on the partition before, not on the roots chosen |
| UnionFind.MergeAllRespects | public/js/ui/bubble.js:164-196 | unions that only join elements with one tag keep every set single-tagged |
| UnionFind.ClassMin | public/js/ui/bubble.js:25 | the smallest element of a set: within it and below every other member |
| UnionFind.DSU.constructor | public/js/ui/bubble.js:18 | `p[i] = i`, `r[i] = 0`: every element is a root alone in its set |
| UnionFind.DSU.Find | public/js/ui/bubble.js:19 | `find` returns the root of `x`'s set (`p[root] = root`); path compression keeps the forest valid and leaves the partition unchanged |
| UnionFind.DSU.Union | public/js/ui/bubble.js:20-22 | afterwards `a` and `b` are together and the partition is exactly the old one with their sets merged; joining two elements already together changes neither the partition nor the ranks |
| UnionFind.DSU.Link | public/js/ui/bubble.js:21-22 | hanging the lower-ranked root under the other (and raising a tied rank) merges exactly those two sets |
| UnionFind.DSU.Groups | public/js/ui/bubble.js:23-27 | `groups()` maps each root to the ascending list of its set's members, keys in order of each set's smallest member |
| Cohorts.CohortsOf | public/js/ui/bubble.js:158-163 | each sender's cohort lists exactly the wallets with that first sender and a non-zero first time, with that time, in index order |
| Cohorts.CohortsComplete | public/js/ui/bubble.js:160-162 | every wallet with a first sender and a non-zero first time is in its sender's cohort |
| Cohorts.BuildCohorts | public/js/ui/bubble.js:177-184 | the cohort-building loop builds exactly those cohorts |
| Cohorts.SortedCohorts | public/js/ui/bubble.js:165 | each cohort is sorted by time and is a permutation of what was collected |
| Cohorts.Advance | public/js/ui/bubble.js:168 | the `while` loop stops at the first start within the window of `end`, having passed only entries outside it |
| Cohorts.AdvanceStart | public/js/ui/bubble.js:168 | the loop's `start` is, at every `end`, the window start of that `end` |
| Cohorts.PairsSound | public/js/ui/bubble.js:171 | each union of one window joins two consecutive entries at most `W` apart |
| Cohorts.WindowEdgesSound | public/js/ui/bubble.js:166-173 | every union of a cohort's windows joins two consecutive cohort entries at most `W` apart |
| Cohorts.WindowEdgesComplete | public/js/ui/bubble.js:166-173 | with a minimum window length of at most 2, every consecutive pair at most `W` apart is joined |
| Cohorts.HeuristicEdgesSound | public/js/ui/bubble.js:164-196 | every union a heuristic performs joins two wallets with the same first sender, both eligible, whose first times are at most `W` apart |
| Cohorts.HeuristicEdgesComplete | public/js/ui/bubble.js:164-196 | every consecutive pair of a sorted cohort at most `W` apart is among a heuristic's unions |
| Cohorts.UnionPairs | public/js/ui/bubble.js:171 | the union loop of one window performs exactly that window's unions on the DSU |
| Cohorts.ScanEnd | public/js/ui/bubble.js:168-172 | one `end` step advances `start` and performs that step's unions |
| Cohorts.UnionWindows | public/js/ui/bubble.js:166-173 | the sliding-window loop over one cohort performs exactly its window unions |
| Cohorts.UnionCohort | public/js/ui/bubble.js:185-195 | one iteration over a cohort: a cohort smaller than the minimum size (2 for the funder heuristic, none for the other) is skipped, any other is scanned |
| Cohorts.UnionCohorts | public/js/ui/bubble.js:164-174 | the loop over all cohorts performs exactly the heuristic's unions, cohort by cohort |
| Bundles.UnionHeuristic | public/js/ui/bubble.js:164-196 | one heuristic, run on the DSU, adds exactly its unions to the ones already made |
| Bundles.RunHeuristics | public/js/ui/bubble.js:155-196 | after both heuristics, the DSU holds the partition the reference unions generate |
| Bundles.BundleSound | public/js/ui/bubble.js:158-196 | two different wallets in one final set both have a first sender and a non-zero first time, and share that sender |
| Bundles.FirstSenderJoins | public/js/ui/bubble.js:164-174 | consecutive wallets of a sender's time-sorted cohort whose first times differ by at most 15 minutes end in one set |
| Bundles.FunderJoins | public/js/ui/bubble.js:185-196 | consecutive wallets of a sender's time-sorted cohort whose first times differ by at most 12 hours end in one set |
| Numbering.GroupIdsNumber | public/js/ui/bubble.js:198-204 | giving each group its running number when it has more than one member numbers the sets 1..count, one number per set, in order of their smallest members, and no single wallet gets one |
| Numbering.BigCountOnto | public/js/ui/bubble.js:200-202 | every number up to the final `seq - 1` is used by some group |
| Numbering.NumbersOfSamePartition | public/js/ui/bubble.js:198-204 | the numbering depends only on the partition |
| Numbering.LabelMembers | public/js/ui/bubble.js:203 | every member of the group gets the group's id; everything else keeps its id |
| Numbering.NumberGroup | public/js/ui/bubble.js:201-204 | one group step keeps the counter equal to the number of multi-member groups seen, plus one |
| Numbering.AssignIds | public/js/ui/bubble.js:199-204 | every index gets its group's number, or none for a single |
| Bundles.WithIds | public/js/ui/bubble.js:206 | the output list keeps the order of the wallet records, each with its id or null |
| Bundles.IndexOne | public/js/ui/bubble.js:208-212 | one node step adds the node's index under its id, if it has one |
| Bundles.IndexBundles | public/js/ui/bubble.js:207-212 | `groupsMap[id]` is exactly the set of indices carrying `id`, and its keys are 1, 2, ..., count in order |
| Bundles.DetectBundles | public/js/ui/bubble.js:154-215 | `detectBundles` keeps the record order, numbers the final sets of two or more in order of their smallest index, indexes them in `groupsMap`, and only ever bundles eligible wallets that share a first sender |
| Bundles.BundledShareSender | public/js/ui/bubble.js:158-212 | a wallet with an id is eligible, and wallets with one id share their first sender |
| FirstRecipients.FirstsAreDistinctRecipients | public/js/ui/firstRecipients.js:36-41 | the listed addresses are exactly the distinct recipients, each once, in order of first appearance |
| FirstRecipients.FirstsEarliest | public/js/ui/firstRecipients.js:38-41 | each entry's time and amount come from the earliest transfer to its address |
| FirstRecipients.FirstsAscending | public/js/ui/firstRecipients.js:30 | on the time-sorted list the entries ascend by time |
| FirstRecipients.FirstsPrefix | public/js/ui/firstRecipients.js:38-44 | scanning more transfers only appends entries |
| FirstRecipients.FirstRecipientsFacts | public/js/ui/firstRecipients.js:30-44 | at most 25 entries, no address twice, each the earliest transfer to its address, ascending in time, and every recipient listed when there are fewer than 25 |
| FirstRecipients.FirstsCapped | public/js/ui/firstRecipients.js:42 | once 25 are listed, stopping gives the same result as scanning everything |
| FirstRecipients.Visit | public/js/ui/firstRecipients.js:39-42 | one loop step lists the recipient iff `firstSeen` does not have it, keeps `firstSeen` equal to the listed addresses and times, and reports when 25 are listed |
| FirstRecipients.ScanRecipients | public/js/ui/firstRecipients.js:36-45 | the loop with its early `break` returns the first 25 entries of the reference list |
| FirstRecipients.ComputeFirstRecipients | public/js/ui/firstRecipients.js:34-46 | `computeFirstRecipients` is the first 25 entries of the reference list of the normalised transfers |
| Store.RemovedFacts | public/js/state/store.js:16 | `Set.delete` removes exactly `fn` and keeps the set without repeats |
| Store.RemovedAbsent | public/js/state/store.js:16 | deleting a callback that is not there changes nothing |
| Store.SubscribeThenUnsubscribe | public/js/state/store.js:14-17 | subscribing a new callback and calling the returned function leaves the set as it was |
| Store.Deliveries | public/js/state/store.js:18 | one call per subscriber |
| Store.DeliveredOnce | public/js/state/store.js:18 | `emit` calls every current subscriber exactly once and nobody else, whether or not some throw |
| Store.DeliveriesShow | public/js/state/store.js:18 | the i-th call goes to the i-th subscriber, with the current state |
| Store.Store.constructor | public/js/state/store.js:1-12 | the initial state: no snapshot, mode `gainers`, no single token, empty caches, no subscribers |
| Store.Store.GetCache | public/js/state/store.js:34 | `getCache` is the cached value when the key is there, `undefined` otherwise |
| Store.Store.Subscribe | public/js/state/store.js:14-15 | `subs.add(fn)`: the set gains `fn` unless present; nothing else changes |
| Store.Store.Unsubscribe | public/js/state/store.js:16 | the returned function deletes `fn`; nothing else changes |
| Store.Store.Emit | public/js/state/store.js:18 | records one call per subscriber, in set order, each shown the state; a throwing subscriber does not stop the loop; state, set and caches are unchanged |
| Store.Store.SetSnapshot | public/js/state/store.js:22-25 | always assigns the snapshot and always emits once; nothing else changes |
| Store.Store.SetMode | public/js/state/store.js:26-28 | when the mode differs it is assigned and subscribers are called once; otherwise no field changes and nobody is called |
| Store.Store.SetSingleToken | public/js/state/store.js:29-31 | the same for the single token |
| Store.Store.SetCache | public/js/state/store.js:35 | afterwards `getCache` returns the value for that cache and key; every other key and cache, the state, the set and the call log are unchanged |
| Top.FilterPositions | public/js/ui/top.js:36 | the filter keeps, in their order, exactly the tokens whose lower-cased name or symbol contains the lower-cased query |
| Top.FilterByQueryExact | public/js/ui/top.js:33-37 | no query: the list unchanged; a query: an order-preserving sublist holding exactly the matching tokens |
| Top.FilterIgnoresQueryCase | public/js/ui/top.js:35 | the case of the query does not matter |
| Top.Slice | public/js/ui/top.js:29-30 | `slice(from, to)` has length `min(to, n) - from`, or 0 past the end, and its `k`-th element is the input's element `from + k` |
| Top.RenderListShows | public/js/ui/top.js:29-30 | tokens 0-4 are shown in the first table and 5-14 in the second, each with rank `i + 1`; tokens from 15 on are never shown |
| Top.Find | public/js/ui/top.js:78 | `find` returns a token with that address, and nothing iff no token has it |
| Top.FindFirst | public/js/ui/top.js:78 | `find` returns the first token with that address |
| Top.SingleRowOrder | public/js/ui/top.js:77-82 | the single row is the first match in the filtered list, else in the gainers, else in the volume list; no row iff no list matches |
| Top.DrawShows | public/js/ui/top.js:58-86 | in single mode the first table is exactly the `SingleRow` token ranked 1, or empty when there is none, and the second is empty; that row carries the selected address and is drawn iff the filtered list, the gainers or the volume list has a token with it; otherwise the filtered list of the current mode is drawn |

## Left out

- Canvas drawing, hit-testing, tooltips, and the wiring of the panels to the store (`initBubble`, `initFirstRecipients`, `initTop`, `renderFirstRecipients`): DOM and asynchronous fetches.
- The server, the request gate, the tab API wrappers, the boot code and the header: network, timers, concurrency and float formatting. None of them is part of this model.
- The `size` field of a wallet record (`Math.sqrt`): floating point.
- The `?.result ||` envelope around the holder and transfer lists: the model takes the lists themselves.
- JavaScript `Number` coercion of arbitrary text: a raw numeric field is `Nullish`, a whole number or `NaN`. A numeric string such as `"0"` is truthy in the source but is read here as the number 0. Amounts and timestamps are unbounded integers, not doubles.
- Text.ToLower: lower-cases ASCII letters only, not the whole of Unicode.
- The query's `trim()`: `Top.Draw` takes the already-trimmed search text, and the empty string stands for both an absent and an empty query.
- `Top.Draw` leaves out the `!$top5 || !$rest10` check, which only skips drawing when the page lacks the tables.
- Store.Store.Emit: subscribers are numbered callbacks whose effect is recorded in a call log, not run. A subscriber that subscribes, unsubscribes or changes the state during `emit` is not modelled, nor are asynchronous subscribers.
- Store.Store.State: the state a subscriber is shown omits the caches.
- Store.Store.GetCache: the three caches share one value type, and the cache name is one of the three. An unknown name, which throws in the source, cannot be written.
- Bundle ids `B1`, `B2`, ... are the numbers 1, 2, .... The string form is a presentation detail.
- Cohorts: both heuristics are modelled on cohorts sorted before their windows are scanned. Sorting a cohort in place inside the loop over the `Map` is the same value.
- Bundles.IndexBundles: adding an index to a `groupsMap` set is one map update, not a `has`/`set`/`add` sequence.
- `Sorting.SortBy` is modelled on values. The engines' in-place sort is represented by its result: sorted, a permutation, and stable.
