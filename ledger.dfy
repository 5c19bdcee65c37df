/** The ledger replay of `buildWalletStats` (public/js/ui/bubble.js).

    Every normalised transfer is filed under its recipient (`incoming`) and
    its sender (`outgoing`); the first transfer into a wallet is its first
    inbound. For each wallet, the inbound and outbound events are merged
    chronologically, and the inbound total up to the first outbound event is
    the wallet's `initialBuy`. `current` is the holder balance when there is
    a finite one and the net flow otherwise, and `heldPct` is `current` as a
    percentage of `initialBuy`, clamped to [0, 200].

    The model states every step as a function of the normalised transfers
    and proves the methods that build the maps and run the merge loop equal
    to them. */
module Ledger {
  import opened Collections
  import opened Sorting
  import opened Normalize

  /** An entry of a wallet's `incoming` or `outgoing` list: the other party
      (`from` or `to`), the amount and the time. */
  datatype Event = Event(peer: string, value: int, ts: int)

  function EventTs(e: Event): int {
    e.ts
  }

  datatype FirstInbound = FirstInbound(sender: string, ts: int, value: int)

  /** One wallet of the analysis. `size` is not part of this model. */
  datatype WalletStat = WalletStat(
    address: string,
    firstInbound: Option<FirstInbound>,
    initialBuy: int,
    current: int,
    heldPct: real,
    firstSender: Option<string>,
    firstTs: Option<int>)

  // ----- the maps filled by the first loop, as functions of the transfers -----

  /** `incoming.get(a) || []`: the transfers into `a`, in `txs` order. */
  function InboundOf(txs: seq<Transfer>, a: string): seq<Event> {
    if |txs| == 0 then []
    else
      var t := txs[|txs| - 1];
      InboundOf(txs[..|txs| - 1], a) + (if t.to == a then [Event(t.from, t.value, t.ts)] else [])
  }

  /** `outgoing.get(a) || []`: the transfers out of `a`, in `txs` order. */
  function OutboundOf(txs: seq<Transfer>, a: string): seq<Event> {
    if |txs| == 0 then []
    else
      var t := txs[|txs| - 1];
      OutboundOf(txs[..|txs| - 1], a) + (if t.from == a then [Event(t.to, t.value, t.ts)] else [])
  }

  /** `firstInbound.get(a)`: the earliest-listed transfer into `a`. */
  function FirstInboundOf(txs: seq<Transfer>, a: string): Option<FirstInbound> {
    if |txs| == 0 then None
    else
      var f := FirstInboundOf(txs[..|txs| - 1], a);
      var t := txs[|txs| - 1];
      if f.Some? then f
      else if t.to == a then Some(FirstInbound(t.from, t.ts, t.value))
      else None
  }

  /** The recipients of `txs`, one per transfer. */
  function Tos(txs: seq<Transfer>): seq<string> {
    if |txs| == 0 then [] else Tos(txs[..|txs| - 1]) + [txs[|txs| - 1].to]
  }

  /** The senders of `txs`, one per transfer. */
  function Froms(txs: seq<Transfer>): seq<string> {
    if |txs| == 0 then [] else Froms(txs[..|txs| - 1]) + [txs[|txs| - 1].from]
  }

  /** `incoming` is the recipient index of `txs`: its keys are the
      recipients in order of first appearance, each with its transfers. */
  ghost predicate IsInboundIndex(txs: seq<Transfer>, incoming: OrderedMap<string, seq<Event>>) {
    && ValidMap(incoming)
    && incoming.keys == Distinct(Tos(txs))
    && forall a :: InboundOf(txs, a) == if a in incoming.m then incoming.m[a] else []
  }

  /** `outgoing` is the sender index of `txs`. */
  ghost predicate IsOutboundIndex(txs: seq<Transfer>, outgoing: OrderedMap<string, seq<Event>>) {
    && ValidMap(outgoing)
    && outgoing.keys == Distinct(Froms(txs))
    && forall a :: OutboundOf(txs, a) == if a in outgoing.m then outgoing.m[a] else []
  }

  /** `firstInbound` holds the first transfer into every recipient. */
  ghost predicate IsFirstInboundIndex(txs: seq<Transfer>, firstInbound: OrderedMap<string, FirstInbound>) {
    && ValidMap(firstInbound)
    && forall a :: FirstInboundOf(txs, a) == if a in firstInbound.m then Some(firstInbound.m[a]) else None
  }

  lemma InboundStep(txs: seq<Transfer>, k: nat, incoming: OrderedMap<string, seq<Event>>)
    requires k < |txs| && IsInboundIndex(txs[..k], incoming)
    ensures IsInboundIndex(txs[..k + 1], Push(incoming, txs[k].to, Event(txs[k].from, txs[k].value, txs[k].ts)))
  {
    var t := txs[k];
    assert txs[..k + 1][..k] == txs[..k];
    assert Tos(txs[..k + 1]) == Tos(txs[..k]) + [t.to];
    KeysStep(incoming, Tos(txs[..k]), t.to, Event(t.from, t.value, t.ts));
    InboundEntriesStep(txs, k, incoming);
  }

  lemma InboundEntriesStep(txs: seq<Transfer>, k: nat, incoming: OrderedMap<string, seq<Event>>)
    requires k < |txs| && ValidMap(incoming)
    requires forall a :: InboundOf(txs[..k], a) == if a in incoming.m then incoming.m[a] else []
    ensures var i' := Push(incoming, txs[k].to, Event(txs[k].from, txs[k].value, txs[k].ts));
      forall a :: InboundOf(txs[..k + 1], a) == if a in i'.m then i'.m[a] else []
  {
    var t := txs[k];
    assert txs[..k + 1][..k] == txs[..k];
    var i' := Push(incoming, t.to, Event(t.from, t.value, t.ts));
    forall a
      ensures InboundOf(txs[..k + 1], a) == if a in i'.m then i'.m[a] else []
    {
      assert InboundOf(txs[..k + 1], a) == InboundOf(txs[..k], a) + (if t.to == a then [Event(t.from, t.value, t.ts)] else []);
    }
  }

  lemma OutboundStep(txs: seq<Transfer>, k: nat, outgoing: OrderedMap<string, seq<Event>>)
    requires k < |txs| && IsOutboundIndex(txs[..k], outgoing)
    ensures IsOutboundIndex(txs[..k + 1], Push(outgoing, txs[k].from, Event(txs[k].to, txs[k].value, txs[k].ts)))
  {
    var t := txs[k];
    assert txs[..k + 1][..k] == txs[..k];
    assert Froms(txs[..k + 1]) == Froms(txs[..k]) + [t.from];
    KeysStep(outgoing, Froms(txs[..k]), t.from, Event(t.to, t.value, t.ts));
    OutboundEntriesStep(txs, k, outgoing);
  }

  lemma OutboundEntriesStep(txs: seq<Transfer>, k: nat, outgoing: OrderedMap<string, seq<Event>>)
    requires k < |txs| && ValidMap(outgoing)
    requires forall a :: OutboundOf(txs[..k], a) == if a in outgoing.m then outgoing.m[a] else []
    ensures var o' := Push(outgoing, txs[k].from, Event(txs[k].to, txs[k].value, txs[k].ts));
      forall a :: OutboundOf(txs[..k + 1], a) == if a in o'.m then o'.m[a] else []
  {
    var t := txs[k];
    assert txs[..k + 1][..k] == txs[..k];
    var o' := Push(outgoing, t.from, Event(t.to, t.value, t.ts));
    forall a
      ensures OutboundOf(txs[..k + 1], a) == if a in o'.m then o'.m[a] else []
    {
      assert OutboundOf(txs[..k + 1], a) == OutboundOf(txs[..k], a) + (if t.from == a then [Event(t.to, t.value, t.ts)] else []);
    }
  }

  /** Pushing under key `x` extends the key order as `Distinct` does. */
  lemma KeysStep(m: OrderedMap<string, seq<Event>>, xs: seq<string>, x: string, e: Event)
    requires ValidMap(m) && m.keys == Distinct(xs)
    ensures Push(m, x, e).keys == Distinct(xs + [x])
  {
    assert (xs + [x])[..|xs|] == xs;
  }

  lemma FirstInboundStep(txs: seq<Transfer>, k: nat, firstInbound: OrderedMap<string, FirstInbound>)
    requires k < |txs| && IsFirstInboundIndex(txs[..k], firstInbound)
    ensures IsFirstInboundIndex(txs[..k + 1],
              if txs[k].to in firstInbound.m then firstInbound
              else Put(firstInbound, txs[k].to, FirstInbound(txs[k].from, txs[k].ts, txs[k].value)))
  {
    assert txs[..k + 1][..k] == txs[..k];
  }

  /** The first loop of `buildWalletStats`. */
  method IndexTransfers(txs: seq<Transfer>)
    returns (incoming: OrderedMap<string, seq<Event>>,
             outgoing: OrderedMap<string, seq<Event>>,
             firstInbound: OrderedMap<string, FirstInbound>)
    ensures IsInboundIndex(txs, incoming)
    ensures IsOutboundIndex(txs, outgoing)
    ensures IsFirstInboundIndex(txs, firstInbound)
  {
    incoming, outgoing, firstInbound := EmptyMap(), EmptyMap(), EmptyMap();
    for k := 0 to |txs|
      invariant IsInboundIndex(txs[..k], incoming)
      invariant IsOutboundIndex(txs[..k], outgoing)
      invariant IsFirstInboundIndex(txs[..k], firstInbound)
    {
      var t := txs[k];
      InboundStep(txs, k, incoming);
      OutboundStep(txs, k, outgoing);
      FirstInboundStep(txs, k, firstInbound);
      incoming := Push(incoming, t.to, Event(t.from, t.value, t.ts));
      outgoing := Push(outgoing, t.from, Event(t.to, t.value, t.ts));
      if t.to !in firstInbound.m {
        firstInbound := Put(firstInbound, t.to, FirstInbound(t.from, t.ts, t.value));
      }
    }
    assert txs[..|txs|] == txs;
  }

  /** `new Set([...incoming.keys(), ...outgoing.keys(), ...holders.keys()])`. */
  function Wallets(txs: seq<Transfer>, holders: OrderedMap<string, Balance>): seq<string> {
    Distinct(Distinct(Tos(txs)) + Distinct(Froms(txs)) + holders.keys)
  }

  lemma {:induction false} InboundNonEmpty(txs: seq<Transfer>, a: string)
    ensures InboundOf(txs, a) != [] <==> a in Tos(txs)
  {
    if |txs| > 0 {
      InboundNonEmpty(txs[..|txs| - 1], a);
    }
  }

  lemma {:induction false} OutboundNonEmpty(txs: seq<Transfer>, a: string)
    ensures OutboundOf(txs, a) != [] <==> a in Froms(txs)
  {
    if |txs| > 0 {
      OutboundNonEmpty(txs[..|txs| - 1], a);
    }
  }

  /** Every wallet is listed once, and a wallet is listed iff it received or
      sent a transfer or has a holder entry. */
  lemma WalletsExact(txs: seq<Transfer>, holders: OrderedMap<string, Balance>, a: string)
    requires ValidMap(holders)
    ensures NoDuplicates(Wallets(txs, holders))
    ensures a in Wallets(txs, holders) <==>
              (InboundOf(txs, a) != [] || OutboundOf(txs, a) != [] || a in holders.m)
  {
    InboundNonEmpty(txs, a);
    OutboundNonEmpty(txs, a);
  }

  // ----- the merge loop -----

  function Sum(s: seq<Event>): int {
    if |s| == 0 then 0 else Sum(s[..|s| - 1]) + s[|s| - 1].value
  }

  /** The length of the longest prefix of `s` whose events are no later
      than `t`. */
  function LeadingAtMost(s: seq<Event>, t: int): (n: nat)
    ensures n <= |s|
    ensures forall j :: 0 <= j < n ==> s[j].ts <= t
    ensures n < |s| ==> s[n].ts > t
  {
    if |s| == 0 || s[0].ts > t then 0 else 1 + LeadingAtMost(s[1..], t)
  }

  /** The prefix that `LeadingAtMost` measures is the only one with its two
      properties. */
  lemma LeadingAtMostUnique(s: seq<Event>, t: int, n: nat)
    requires n <= |s| && (forall j :: 0 <= j < n ==> s[j].ts <= t) && (n < |s| ==> s[n].ts > t)
    ensures n == LeadingAtMost(s, t)
  {
  }

  /** How many inbound events the merge loop takes before the first
      outbound one: all of them when there is none. */
  function FrozenCount(ins: seq<Event>, outs: seq<Event>): nat {
    if |outs| == 0 then |ins| else LeadingAtMost(ins, outs[0].ts)
  }

  /** The `while` loop of `buildWalletStats`: merges `ins` and `outs`,
      taking the inbound event on equal timestamps, and stops adding to
      `initialBuy` at the first outbound event. */
  method Replay(ins: seq<Event>, outs: seq<Event>) returns (initialBuy: int, soldDetected: bool, i: nat, o: nat)
    ensures i == |ins| && o == |outs|
    ensures soldDetected <==> |outs| > 0
    ensures FrozenCount(ins, outs) <= |ins|
    ensures initialBuy == Sum(ins[..FrozenCount(ins, outs)])
  {
    initialBuy, soldDetected, i, o := 0, false, 0, 0;
    while i < |ins| || o < |outs|
      invariant i <= |ins| && o <= |outs|
      invariant soldDetected <==> o > 0
      invariant !soldDetected ==> initialBuy == Sum(ins[..i])
      invariant !soldDetected && |outs| > 0 ==> forall j :: 0 <= j < i ==> ins[j].ts <= outs[0].ts
      invariant soldDetected ==> initialBuy == Sum(ins[..FrozenCount(ins, outs)])
      decreases |ins| - i + |outs| - o
    {
      var chooseIn := o == |outs| || (i < |ins| && ins[i].ts <= outs[o].ts);
      if chooseIn {
        if !soldDetected {
          assert ins[..i + 1][..i] == ins[..i];
          initialBuy := initialBuy + ins[i].value;
        }
        i := i + 1;
      } else {
        if !soldDetected {
          LeadingAtMostUnique(ins, outs[0].ts, i);
          soldDetected := true;
        }
        o := o + 1;
      }
    }
    if |outs| == 0 {
      assert ins[..|ins|] == ins;
    }
  }

  // ----- current, initialBuy and heldPct -----

  /** `holders.get(a)` if it is a finite number, otherwise the net flow. */
  function Current(holding: Option<Balance>, ins: seq<Event>, outs: seq<Event>): int {
    match holding
    case Some(Finite(n)) => n
    case _ => Sum(ins) - Sum(outs)
  }

  function Clamp(x: real): (r: real)
    ensures 0.0 <= r <= 200.0
    ensures 0.0 <= x <= 200.0 ==> r == x
  {
    if x < 0.0 then 0.0 else if x > 200.0 then 200.0 else x
  }

  /** `initialBuy > 0 ? max(0, min(200, current / initialBuy * 100)) : 0` */
  function HeldPct(current: int, initialBuy: int): (r: real)
    ensures 0.0 <= r <= 200.0
    ensures initialBuy <= 0 ==> r == 0.0
    ensures initialBuy > 0 && 0 <= current <= 2 * initialBuy ==>
              r * (initialBuy as real) == 100.0 * (current as real)
    ensures initialBuy > 0 && current <= 0 ==> r == 0.0
    ensures initialBuy > 0 && current >= 2 * initialBuy ==> r == 200.0
  {
    if initialBuy > 0 then
      PercentFacts(current, initialBuy);
      Clamp((current as real / initialBuy as real) * 100.0)
    else 0.0
  }

  lemma PercentFacts(current: int, initialBuy: int)
    requires initialBuy > 0
    ensures var x := (current as real / initialBuy as real) * 100.0;
      && x * (initialBuy as real) == 100.0 * (current as real)
      && (current <= 0 ==> x <= 0.0)
      && (current >= 2 * initialBuy ==> x >= 200.0)
      && (0 <= current <= 2 * initialBuy ==> 0.0 <= x <= 200.0)
  {
    var c, b := current as real, initialBuy as real;
    var q := c / b;
    assert q * b == c;
    var x := q * 100.0;
    assert x * b == 100.0 * c;
    if current <= 0 {
      assert q <= 0.0;
    }
    if current >= 2 * initialBuy {
      assert q >= 2.0;
    }
    if 0 <= current <= 2 * initialBuy {
      assert 0.0 <= q <= 2.0;
    }
  }

  function Lookup(holders: OrderedMap<string, Balance>, a: string): Option<Balance> {
    if a in holders.m then Some(holders.m[a]) else None
  }

  /** The record `buildWalletStats` pushes for wallet `a`. */
  function StatOf(txs: seq<Transfer>, holders: OrderedMap<string, Balance>, a: string): WalletStat {
    var ins := SortBy(InboundOf(txs, a), EventTs);
    var outs := SortBy(OutboundOf(txs, a), EventTs);
    var frozen := Sum(ins[..FrozenCount(ins, outs)]);
    var current := Current(Lookup(holders, a), ins, outs);
    var initialBuy := if frozen <= 0 then Sum(ins) else frozen;
    var fi := FirstInboundOf(txs, a);
    WalletStat(
      a, fi, initialBuy, current, HeldPct(current, initialBuy),
      if fi.Some? && fi.value.sender != "" then Some(fi.value.sender) else None,
      if fi.Some? && fi.value.ts != 0 then Some(fi.value.ts) else None)
  }

  /** The records for wallets `ws`, in order. */
  function StatsFor(txs: seq<Transfer>, holders: OrderedMap<string, Balance>, ws: seq<string>): (r: seq<WalletStat>)
    ensures |r| == |ws|
  {
    if |ws| == 0 then [] else StatsFor(txs, holders, ws[..|ws| - 1]) + [StatOf(txs, holders, ws[|ws| - 1])]
  }

  lemma {:induction false} StatsForAt(txs: seq<Transfer>, holders: OrderedMap<string, Balance>, ws: seq<string>, k: nat)
    requires k < |ws|
    ensures StatsFor(txs, holders, ws)[k] == StatOf(txs, holders, ws[k])
  {
    if k < |ws| - 1 {
      StatsForAt(txs, holders, ws[..|ws| - 1], k);
    }
  }

  lemma StatsForStep(txs: seq<Transfer>, holders: OrderedMap<string, Balance>, ws: seq<string>, k: nat)
    requires k < |ws|
    ensures StatsFor(txs, holders, ws[..k + 1]) == StatsFor(txs, holders, ws[..k]) + [StatOf(txs, holders, ws[k])]
  {
    assert ws[..k + 1][..k] == ws[..k];
  }

  /** What `buildWalletStats` returns. */
  function WalletStats(rawTransfers: seq<RawTransfer>, rawHolders: seq<RawHolder>): seq<WalletStat> {
    var txs := NormalizedTransfers(rawTransfers);
    var holders := NormalizedHolders(rawHolders);
    StatsFor(txs, holders, Wallets(txs, holders))
  }

  method BuildWalletStats(rawTransfers: seq<RawTransfer>, rawHolders: seq<RawHolder>) returns (stats: seq<WalletStat>)
    ensures stats == WalletStats(rawTransfers, rawHolders)
  {
    var holders := NormalizeHolders(rawHolders);
    var txs := NormalizeTransfers(rawTransfers);
    var incoming, outgoing, firstInbound := IndexTransfers(txs);
    var wallets := Distinct(incoming.keys + outgoing.keys + holders.keys);
    assert wallets == Wallets(txs, holders);
    stats := StatsOf(txs, holders, incoming, outgoing, firstInbound, wallets);
  }

  /** The second loop of `buildWalletStats`. */
  method StatsOf(ghost txs: seq<Transfer>, holders: OrderedMap<string, Balance>,
                 incoming: OrderedMap<string, seq<Event>>, outgoing: OrderedMap<string, seq<Event>>,
                 firstInbound: OrderedMap<string, FirstInbound>, wallets: seq<string>)
    returns (stats: seq<WalletStat>)
    requires IsInboundIndex(txs, incoming) && IsOutboundIndex(txs, outgoing)
    requires IsFirstInboundIndex(txs, firstInbound)
    ensures stats == StatsFor(txs, holders, wallets)
  {
    stats := [];
    for k := 0 to |wallets|
      invariant stats == StatsFor(txs, holders, wallets[..k])
    {
      var stat := StatFor(txs, holders, incoming, outgoing, firstInbound, wallets[k]);
      StatsForStep(txs, holders, wallets, k);
      stats := stats + [stat];
    }
    assert wallets[..|wallets|] == wallets;
  }

  /** The body of the second loop of `buildWalletStats`, for wallet `addr`. */
  method StatFor(ghost txs: seq<Transfer>, holders: OrderedMap<string, Balance>,
                 incoming: OrderedMap<string, seq<Event>>, outgoing: OrderedMap<string, seq<Event>>,
                 firstInbound: OrderedMap<string, FirstInbound>, addr: string)
    returns (stat: WalletStat)
    requires IsInboundIndex(txs, incoming) && IsOutboundIndex(txs, outgoing)
    requires IsFirstInboundIndex(txs, firstInbound)
    ensures stat == StatOf(txs, holders, addr)
  {
    assert InboundOf(txs, addr) == if addr in incoming.m then incoming.m[addr] else [];
    assert OutboundOf(txs, addr) == if addr in outgoing.m then outgoing.m[addr] else [];
    assert FirstInboundOf(txs, addr) == if addr in firstInbound.m then Some(firstInbound.m[addr]) else None;
    var ins := SortBy(if addr in incoming.m then incoming.m[addr] else [], EventTs);
    var outs := SortBy(if addr in outgoing.m then outgoing.m[addr] else [], EventTs);
    assert ins == SortBy(InboundOf(txs, addr), EventTs);
    assert outs == SortBy(OutboundOf(txs, addr), EventTs);
    var initialBuy, _, _, _ := Replay(ins, outs);
    var current := Current(if addr in holders.m then Some(holders.m[addr]) else None, ins, outs);
    assert current == Current(Lookup(holders, addr), ins, outs);
    if initialBuy <= 0 {
      initialBuy := Sum(ins);
    }
    var fi := if addr in firstInbound.m then Some(firstInbound.m[addr]) else None;
    stat := WalletStat(
      addr, fi, initialBuy, current, HeldPct(current, initialBuy),
      if fi.Some? && fi.value.sender != "" then Some(fi.value.sender) else None,
      if fi.Some? && fi.value.ts != 0 then Some(fi.value.ts) else None);
  }

  // ----- what the stats mean -----

  /** The inbound total up to and including time `t`. */
  function SumAtMost(s: seq<Event>, t: int): int {
    if |s| == 0 then 0
    else SumAtMost(s[..|s| - 1], t) + (if s[|s| - 1].ts <= t then s[|s| - 1].value else 0)
  }

  /** The sum of the frozen inbound events, without the merge: all inbound
      value when there is no outbound event, otherwise the inbound value up
      to the first (earliest) outbound event, ties included. */
  function FrozenSum(ins: seq<Event>, outs: seq<Event>): int {
    if |outs| == 0 then Sum(ins) else SumAtMost(ins, outs[0].ts)
  }

  lemma {:induction false} SumAtMostAll(s: seq<Event>, t: int)
    requires forall j :: 0 <= j < |s| ==> s[j].ts <= t
    ensures SumAtMost(s, t) == Sum(s)
  {
    if |s| > 0 {
      SumAtMostAll(s[..|s| - 1], t);
    }
  }

  lemma {:induction false} SumAtMostNone(s: seq<Event>, t: int)
    requires forall j :: 0 <= j < |s| ==> s[j].ts > t
    ensures SumAtMost(s, t) == 0
  {
    if |s| > 0 {
      SumAtMostNone(s[..|s| - 1], t);
    }
  }

  lemma {:induction false} SumAtMostAppend(s: seq<Event>, u: seq<Event>, t: int)
    ensures SumAtMost(s + u, t) == SumAtMost(s, t) + SumAtMost(u, t)
  {
    if |u| == 0 {
      assert s + u == s;
    } else {
      assert (s + u)[..|s + u| - 1] == s + u[..|u| - 1];
      SumAtMostAppend(s, u[..|u| - 1], t);
    }
  }

  /** On a chronologically sorted list, the prefix the merge loop takes is
      exactly the events no later than `t`. */
  lemma LeadingSumSorted(s: seq<Event>, t: int)
    requires SortedBy(s, EventTs)
    ensures Sum(s[..LeadingAtMost(s, t)]) == SumAtMost(s, t)
  {
    var n := LeadingAtMost(s, t);
    var pre, post := s[..n], s[n..];
    assert s == pre + post;
    SumAtMostAppend(pre, post, t);
    SumAtMostAll(pre, t);
    LaterAfterLeading(s, t);
    SumAtMostNone(post, t);
  }

  /** On a sorted list, everything after the leading prefix is later than `t`. */
  lemma LaterAfterLeading(s: seq<Event>, t: int)
    requires SortedBy(s, EventTs)
    ensures forall j :: 0 <= j < |s[LeadingAtMost(s, t)..]| ==> s[LeadingAtMost(s, t)..][j].ts > t
  {
    var n := LeadingAtMost(s, t);
    forall j | 0 <= j < |s[n..]|
      ensures s[n..][j].ts > t
    {
      assert s[n..][j] == s[n + j];
      assert EventTs(s[n]) <= EventTs(s[n + j]);
    }
  }

  /** The merge loop's `initialBuy` is the frozen sum, for sorted lists. */
  lemma ReplaySum(ins: seq<Event>, outs: seq<Event>)
    requires SortedBy(ins, EventTs)
    ensures Sum(ins[..FrozenCount(ins, outs)]) == FrozenSum(ins, outs)
  {
    if |outs| == 0 {
      assert ins[..|ins|] == ins;
    } else {
      LeadingSumSorted(ins, outs[0].ts);
    }
  }

  lemma {:induction false} InboundSorted(txs: seq<Transfer>, a: string)
    requires SortedBy(txs, TransferTs)
    ensures SortedBy(InboundOf(txs, a), EventTs)
    ensures forall e :: e in InboundOf(txs, a) ==> exists t :: t in txs && e.ts == t.ts
  {
    if |txs| > 0 {
      var p := txs[..|txs| - 1];
      assert SortedBy(p, TransferTs);
      InboundSorted(p, a);
      forall e | e in InboundOf(p, a)
        ensures e.ts <= txs[|txs| - 1].ts
      {
        var t :| t in p && e.ts == t.ts;
        var j :| 0 <= j < |p| && p[j] == t;
        assert TransferTs(txs[j]) <= TransferTs(txs[|txs| - 1]);
      }
      forall e | e in InboundOf(txs, a)
        ensures exists t :: t in txs && e.ts == t.ts
      {
        if e in InboundOf(p, a) {
          var t :| t in p && e.ts == t.ts;
          assert t in txs;
        } else {
          assert txs[|txs| - 1] in txs;
        }
      }
    }
  }

  lemma {:induction false} OutboundSorted(txs: seq<Transfer>, a: string)
    requires SortedBy(txs, TransferTs)
    ensures SortedBy(OutboundOf(txs, a), EventTs)
    ensures forall e :: e in OutboundOf(txs, a) ==> exists t :: t in txs && e.ts == t.ts
  {
    if |txs| > 0 {
      var p := txs[..|txs| - 1];
      assert SortedBy(p, TransferTs);
      OutboundSorted(p, a);
      forall e | e in OutboundOf(p, a)
        ensures e.ts <= txs[|txs| - 1].ts
      {
        var t :| t in p && e.ts == t.ts;
        var j :| 0 <= j < |p| && p[j] == t;
        assert TransferTs(txs[j]) <= TransferTs(txs[|txs| - 1]);
      }
      forall e | e in OutboundOf(txs, a)
        ensures exists t :: t in txs && e.ts == t.ts
      {
        if e in OutboundOf(p, a) {
          var t :| t in p && e.ts == t.ts;
          assert t in txs;
        } else {
          assert txs[|txs| - 1] in txs;
        }
      }
    }
  }

  /** `initialBuy` is the inbound total up to the first outbound transfer
      (all inbound if the wallet never sent), replaced by the full inbound
      total when that is not positive. */
  lemma InitialBuyMeaning(txs: seq<Transfer>, holders: OrderedMap<string, Balance>, a: string)
    requires SortedBy(txs, TransferTs)
    ensures var ins, outs := InboundOf(txs, a), OutboundOf(txs, a);
      StatOf(txs, holders, a).initialBuy
        == if FrozenSum(ins, outs) <= 0 then Sum(ins) else FrozenSum(ins, outs)
  {
    InboundSorted(txs, a);
    OutboundSorted(txs, a);
    SortBySorted(InboundOf(txs, a), EventTs);
    SortBySorted(OutboundOf(txs, a), EventTs);
    ReplaySum(InboundOf(txs, a), OutboundOf(txs, a));
  }

  /** `current` is the holder balance when it is finite, otherwise inbound
      minus outbound. */
  lemma CurrentMeaning(txs: seq<Transfer>, holders: OrderedMap<string, Balance>, a: string)
    requires SortedBy(txs, TransferTs)
    ensures StatOf(txs, holders, a).current
        == if a in holders.m && holders.m[a].Finite? then holders.m[a].amount
           else Sum(InboundOf(txs, a)) - Sum(OutboundOf(txs, a))
  {
    InboundSorted(txs, a);
    OutboundSorted(txs, a);
    SortBySorted(InboundOf(txs, a), EventTs);
    SortBySorted(OutboundOf(txs, a), EventTs);
  }

  /** `heldPct` lies in [0, 200] and is 0 unless `initialBuy` is positive. */
  lemma HeldPctBounds(txs: seq<Transfer>, holders: OrderedMap<string, Balance>, a: string)
    ensures var s := StatOf(txs, holders, a);
      0.0 <= s.heldPct <= 200.0 && (s.initialBuy <= 0 ==> s.heldPct == 0.0)
  {
  }

  /** The first inbound is the first transfer into the wallet: none comes
      before it, and on sorted transfers none is earlier. */
  lemma {:induction false} FirstInboundMeaning(txs: seq<Transfer>, a: string)
    ensures FirstInboundOf(txs, a).None? <==> InboundOf(txs, a) == []
    ensures InboundOf(txs, a) != [] ==>
              var e := InboundOf(txs, a)[0];
              FirstInboundOf(txs, a) == Some(FirstInbound(e.peer, e.ts, e.value))
  {
    if |txs| > 0 {
      FirstInboundMeaning(txs[..|txs| - 1], a);
    }
  }

  /** A wallet has a first sender iff it received a transfer, and a first
      funding time iff that first transfer is not at time 0. */
  lemma FirstFieldsMeaning(txs: seq<Transfer>, holders: OrderedMap<string, Balance>, a: string)
    requires forall j :: 0 <= j < |txs| ==> WellFormed(txs[j])
    ensures var s := StatOf(txs, holders, a);
      && (s.firstSender.Some? <==> InboundOf(txs, a) != [])
      && (s.firstTs.Some? <==> InboundOf(txs, a) != [] && InboundOf(txs, a)[0].ts != 0)
      && (s.firstSender.Some? ==> s.firstSender.value == InboundOf(txs, a)[0].peer)
      && (s.firstTs.Some? ==> s.firstTs.value == InboundOf(txs, a)[0].ts)
  {
    FirstInboundMeaning(txs, a);
    if InboundOf(txs, a) != [] {
      InboundPeers(txs, a);
      assert InboundOf(txs, a)[0] in InboundOf(txs, a);
    }
  }

  /** Every record `buildWalletStats` returns, from the raw lists: a
      `heldPct` in [0, 200] that is 0 unless `initialBuy` is positive, the
      frozen `initialBuy` with its fallback, the chosen `current`, and a
      `firstTs` exactly when the first inbound transfer is not at time 0. */
  lemma WalletStatsFacts(rawTransfers: seq<RawTransfer>, rawHolders: seq<RawHolder>, k: nat)
    requires k < |WalletStats(rawTransfers, rawHolders)|
    ensures var txs, holders := NormalizedTransfers(rawTransfers), NormalizedHolders(rawHolders);
      var s := WalletStats(rawTransfers, rawHolders)[k];
      var ins, outs := InboundOf(txs, s.address), OutboundOf(txs, s.address);
      && s.address in Wallets(txs, holders)
      && 0.0 <= s.heldPct <= 200.0 && (s.initialBuy <= 0 ==> s.heldPct == 0.0)
      && s.initialBuy == (if FrozenSum(ins, outs) <= 0 then Sum(ins) else FrozenSum(ins, outs))
      && s.current == (if s.address in holders.m && holders.m[s.address].Finite? then holders.m[s.address].amount
                       else Sum(ins) - Sum(outs))
      && (s.firstTs.Some? <==> ins != [] && ins[0].ts != 0)
  {
    var txs, holders := NormalizedTransfers(rawTransfers), NormalizedHolders(rawHolders);
    var ws := Wallets(txs, holders);
    StatsForAt(txs, holders, ws, k);
    NormalizedTransfersFacts(rawTransfers);
    var a := ws[k];
    InitialBuyMeaning(txs, holders, a);
    CurrentMeaning(txs, holders, a);
    FirstFieldsMeaning(txs, holders, a);
  }

  lemma {:induction false} InboundPeers(txs: seq<Transfer>, a: string)
    requires forall j :: 0 <= j < |txs| ==> WellFormed(txs[j])
    ensures forall e :: e in InboundOf(txs, a) ==> e.peer != ""
  {
    if |txs| > 0 {
      InboundPeers(txs[..|txs| - 1], a);
    }
  }
}
