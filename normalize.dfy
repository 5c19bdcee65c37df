/** The Normalizer: turns the loosely shaped records of the block-explorer
    API into canonical transfers and holder balances.

    A raw field is consulted in a fixed order of alternative names. Text
    fields are combined with JavaScript's `||` (the first non-empty one
    wins), the transfer's numbers with `||` as well (the first truthy
    one, i.e. neither absent, 0 nor NaN), and the holder's balance with `??`
    (the first one that is not null or undefined, so a NaN is kept). */
module Normalize {
  import opened Collections
  import opened Sorting
  import opened Text

  /** A numeric field once JavaScript has read it: absent (undefined or
      null), a number, or NaN. */
  datatype RawNum = Nullish | Num(n: int) | NaN

  predicate Truthy(x: RawNum) {
    x.Num? && x.n != 0
  }

  /** `x || fallback` on a numeric field. */
  function NumOr(x: RawNum, fallback: int): int {
    if Truthy(x) then x.n else fallback
  }

  /** `x || fallback` on a text field. */
  function TextOr(x: string, fallback: string): string {
    if x != "" then x else fallback
  }

  /** `x ?? fallback`. */
  function Coalesce(x: RawNum, fallback: RawNum): RawNum {
    if x.Nullish? then fallback else x
  }

  // ----- transfers -----

  datatype RawTransfer = RawTransfer(
    from: string, fromAddress: string,
    to: string, toAddress: string,
    value: RawNum, amount: RawNum,
    timeStamp: RawNum, blockTime: RawNum, timestamp: RawNum)

  datatype Transfer = Transfer(from: string, to: string, value: int, ts: int)

  function TransferTs(t: Transfer): int {
    t.ts
  }

  /** Raw timestamps above 10^12 are taken to be milliseconds already, all
      others to be seconds. */
  const MILLIS_THRESHOLD: int := 1_000_000_000_000

  function ToMillis(raw: int): int {
    if raw > MILLIS_THRESHOLD then raw else raw * 1000
  }

  /** A transfer the analysis can use: both endpoints present and lower-case,
      a non-zero amount. Negative amounts are kept: only a falsy amount is
      dropped. */
  ghost predicate WellFormed(t: Transfer) {
    t.from != "" && t.to != "" && IsLower(t.from) && IsLower(t.to) && t.value != 0
  }

  function RawTs(t: RawTransfer): int {
    NumOr(t.timeStamp, NumOr(t.blockTime, NumOr(t.timestamp, 0)))
  }

  /** One iteration of the normalising loop: `None` is a `continue`. */
  function NormalizeTransfer(t: RawTransfer): (r: Option<Transfer>)
    ensures r.None? <==> ((t.from == "" && t.fromAddress == "")
                          || (t.to == "" && t.toAddress == "")
                          || (!Truthy(t.value) && !Truthy(t.amount)))
    ensures r.Some? ==> WellFormed(r.value)
    ensures r.Some? ==> (&& r.value.from == ToLower(TextOr(t.from, t.fromAddress))
                         && r.value.to == ToLower(TextOr(t.to, t.toAddress))
                         && r.value.value == (if Truthy(t.value) then t.value.n else t.amount.n))
    ensures r.Some? ==> r.value.ts == (if RawTs(t) > MILLIS_THRESHOLD then RawTs(t) else RawTs(t) * 1000)
  {
    var from := ToLower(TextOr(t.from, t.fromAddress));
    var to := ToLower(TextOr(t.to, t.toAddress));
    var val := NumOr(t.value, NumOr(t.amount, 0));
    var ts := ToMillis(RawTs(t));
    if from == "" || to == "" || val == 0 then None
    else Some(Transfer(from, to, val, ts))
  }

  function OptSeq<T>(o: Option<T>): seq<T> {
    match o
    case Some(x) => [x]
    case None => []
  }

  /** The transfers the loop keeps, in input order (before sorting). */
  function Kept(raw: seq<RawTransfer>): (r: seq<Transfer>)
    ensures forall i :: 0 <= i < |r| ==> WellFormed(r[i])
    ensures |r| <= |raw|
  {
    if |raw| == 0 then []
    else Kept(raw[..|raw| - 1]) + OptSeq(NormalizeTransfer(raw[|raw| - 1]))
  }

  /** Every raw record that normalises to a transfer is kept ... */
  lemma {:induction false} KeptComplete(raw: seq<RawTransfer>, i: nat)
    requires i < |raw| && NormalizeTransfer(raw[i]).Some?
    ensures NormalizeTransfer(raw[i]).value in Kept(raw)
  {
    var p := raw[..|raw| - 1];
    if i < |p| {
      assert p[i] == raw[i];
      KeptComplete(p, i);
    }
  }

  /** ... and nothing else is. */
  lemma {:induction false} KeptSound(raw: seq<RawTransfer>, t: Transfer)
    requires t in Kept(raw)
    ensures exists i :: 0 <= i < |raw| && NormalizeTransfer(raw[i]) == Some(t)
  {
    var p, last := raw[..|raw| - 1], raw[|raw| - 1];
    if t in Kept(p) {
      KeptSound(p, t);
      var i :| 0 <= i < |p| && NormalizeTransfer(p[i]) == Some(t);
      assert raw[i] == p[i];
    } else {
      assert NormalizeTransfer(raw[|raw| - 1]) == Some(t);
    }
  }

  /** What `normalizeTransfers` returns. */
  function NormalizedTransfers(raw: seq<RawTransfer>): seq<Transfer> {
    SortBy(Kept(raw), TransferTs)
  }

  /** The normalised list is sorted by time, holds exactly the kept
      transfers, all well formed, and keeps the input order among equal
      timestamps. */
  lemma NormalizedTransfersFacts(raw: seq<RawTransfer>)
    ensures SortedBy(NormalizedTransfers(raw), TransferTs)
    ensures multiset(NormalizedTransfers(raw)) == multiset(Kept(raw))
    ensures forall i :: 0 <= i < |NormalizedTransfers(raw)| ==> WellFormed(NormalizedTransfers(raw)[i])
    ensures forall v :: WithKey(NormalizedTransfers(raw), TransferTs, v) == WithKey(Kept(raw), TransferTs, v)
  {
    var kept, list := Kept(raw), NormalizedTransfers(raw);
    forall v
      ensures WithKey(list, TransferTs, v) == WithKey(kept, TransferTs, v)
    {
      SortByStable(kept, TransferTs, v);
    }
    forall i | 0 <= i < |list|
      ensures WellFormed(list[i])
    {
      assert list[i] in multiset(kept);
    }
  }

  /** `normalizeTransfers`: the loop that keeps the usable records, then
      the sort. */
  method NormalizeTransfers(raw: seq<RawTransfer>) returns (list: seq<Transfer>)
    ensures list == NormalizedTransfers(raw)
  {
    var kept := KeepTransfers(raw);
    list := SortBy(kept, TransferTs);
  }

  /** The loop of `normalizeTransfers`, before the sort. */
  method KeepTransfers(raw: seq<RawTransfer>) returns (list: seq<Transfer>)
    ensures list == Kept(raw)
  {
    list := [];
    for k := 0 to |raw|
      invariant list == Kept(raw[..k])
    {
      assert raw[..k + 1][..k] == raw[..k];
      var t := NormalizeTransfer(raw[k]);
      if t.Some? {
        list := list + [t.value];
      }
    }
    assert raw[..|raw|] == raw;
  }

  // ----- holders -----

  datatype RawHolder = RawHolder(
    Address: string, address: string, holder: string,
    Balance: RawNum, balance: RawNum, value: RawNum)

  /** A balance as `Number` gives it; `current` ignores a non-finite one. */
  datatype Balance = Finite(amount: int) | NotFinite

  function HolderAddress(h: RawHolder): string {
    ToLower(TextOr(h.Address, TextOr(h.address, h.holder)))
  }

  /** A holder that carries no balance field at all gets 0, not "absent";
      a NaN balance is kept as a non-finite one. */
  function HolderBalance(h: RawHolder): (b: Balance)
    ensures h.Balance.Nullish? && h.balance.Nullish? && h.value.Nullish? ==> b == Finite(0)
    ensures b.NotFinite? <==> Coalesce(h.Balance, Coalesce(h.balance, h.value)).NaN?
    ensures Coalesce(h.Balance, Coalesce(h.balance, h.value)).Num? ==>
              b == Finite(Coalesce(h.Balance, Coalesce(h.balance, h.value)).n)
  {
    match Coalesce(h.Balance, Coalesce(h.balance, Coalesce(h.value, Num(0))))
    case Num(n) => Finite(n)
    case _ => NotFinite
  }

  /** What `normalizeHolders` returns: a later record for the same address
      overwrites the value but not the position of the earlier one. */
  function NormalizedHolders(raw: seq<RawHolder>): (h: OrderedMap<string, Balance>)
    ensures ValidMap(h)
    ensures forall a :: a in h.m ==> a != "" && IsLower(a)
  {
    if |raw| == 0 then EmptyMap()
    else
      var prev := NormalizedHolders(raw[..|raw| - 1]);
      var a := HolderAddress(raw[|raw| - 1]);
      if a == "" then prev else Put(prev, a, HolderBalance(raw[|raw| - 1]))
  }

  /** Every address with an entry is named by some record ... */
  lemma {:induction false} HolderDomainSound(raw: seq<RawHolder>, a: string)
    requires a in NormalizedHolders(raw).m
    ensures exists i :: 0 <= i < |raw| && HolderAddress(raw[i]) == a
  {
    var p := raw[..|raw| - 1];
    if a in NormalizedHolders(p).m {
      HolderDomainSound(p, a);
      var i :| 0 <= i < |p| && HolderAddress(p[i]) == a;
      assert raw[i] == p[i];
    } else {
      assert HolderAddress(raw[|raw| - 1]) == a;
    }
  }

  /** ... and every non-empty address a record names has one. */
  lemma {:induction false} HolderDomainComplete(raw: seq<RawHolder>, i: nat)
    requires i < |raw| && HolderAddress(raw[i]) != ""
    ensures HolderAddress(raw[i]) in NormalizedHolders(raw).m
  {
    var p := raw[..|raw| - 1];
    if i < |p| {
      assert p[i] == raw[i];
      HolderDomainComplete(p, i);
    }
  }

  /** An address has an entry iff some record names it. */
  lemma HolderDomain(raw: seq<RawHolder>, a: string)
    ensures a in NormalizedHolders(raw).m <==>
              (a != "" && exists i :: 0 <= i < |raw| && HolderAddress(raw[i]) == a)
  {
    if a in NormalizedHolders(raw).m {
      HolderDomainSound(raw, a);
    }
    if a != "" && exists i :: 0 <= i < |raw| && HolderAddress(raw[i]) == a {
      var i :| 0 <= i < |raw| && HolderAddress(raw[i]) == a;
      HolderDomainComplete(raw, i);
    }
  }

  /** The entry holds the balance of the last record naming the address. */
  lemma {:induction false} HolderLastWins(raw: seq<RawHolder>, a: string, i: nat)
    requires i < |raw| && HolderAddress(raw[i]) == a && a != ""
    requires forall j :: i < j < |raw| ==> HolderAddress(raw[j]) != a
    ensures a in NormalizedHolders(raw).m
    ensures NormalizedHolders(raw).m[a] == HolderBalance(raw[i])
  {
    var p := raw[..|raw| - 1];
    if i < |raw| - 1 {
      assert forall j :: i < j < |p| ==> p[j] == raw[j];
      HolderLastWins(p, a, i);
    }
  }

  method NormalizeHolders(raw: seq<RawHolder>) returns (h: OrderedMap<string, Balance>)
    ensures h == NormalizedHolders(raw)
    ensures ValidMap(h)
  {
    h := EmptyMap();
    for k := 0 to |raw|
      invariant h == NormalizedHolders(raw[..k])
    {
      assert raw[..k + 1][..k] == raw[..k];
      var a := HolderAddress(raw[k]);
      if a != "" {
        h := Put(h, a, HolderBalance(raw[k]));
      }
    }
    assert raw[..|raw|] == raw;
  }
}
