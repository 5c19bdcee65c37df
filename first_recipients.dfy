/** The "first recipients" panel: the first 25 distinct wallets that a
    token's normalised transfers went to, each with the time and amount of
    the earliest transfer it received.

    `Firsts` is the reference definition (every recipient once, at its
    earliest transfer, in transfer order); the method below runs the
    source's loop, with its `firstSeen` map and its early `break`, and is
    proved to return the first 25 entries of `Firsts`. */
module FirstRecipients {
  import opened Collections
  import opened Sorting
  import opened Normalize
  import opened Ledger

  datatype Recipient = Recipient(address: string, ts: int, amount: int)

  /** The loop stops once this many recipients are listed. */
  const LIMIT: nat := 25

  function EntryOf(t: Transfer): Recipient {
    Recipient(t.to, t.ts, t.value)
  }

  function Addresses(rs: seq<Recipient>): seq<string> {
    seq(|rs|, i requires 0 <= i < |rs| => rs[i].address)
  }

  /** Each recipient of `txs` once, with its earliest transfer, in the order
      the recipients first appear. */
  function Firsts(txs: seq<Transfer>): seq<Recipient> {
    if |txs| == 0 then []
    else
      var p := Firsts(txs[..|txs| - 1]);
      var t := txs[|txs| - 1];
      if t.to in Addresses(p) then p else p + [EntryOf(t)]
  }

  /** What `computeFirstRecipients` returns for the normalised list `txs`. */
  function FirstRecipientsOf(txs: seq<Transfer>): seq<Recipient> {
    var f := Firsts(txs);
    if |f| <= LIMIT then f else f[..LIMIT]
  }

  /** `e` is the entry of the earliest transfer in `txs` to its address. */
  ghost predicate EarliestEntry(txs: seq<Transfer>, e: Recipient) {
    exists i :: 0 <= i < |txs| && e == EntryOf(txs[i])
      && forall i' :: 0 <= i' < i ==> txs[i'].to != e.address
  }

  ghost predicate AscendingTs(rs: seq<Recipient>) {
    forall i, j :: 0 <= i < j < |rs| ==> rs[i].ts <= rs[j].ts
  }

  // ----- the reference definition -----

  lemma AddressesSnoc(rs: seq<Recipient>, e: Recipient)
    ensures Addresses(rs + [e]) == Addresses(rs) + [e.address]
  {
  }

  lemma TosSnoc(txs: seq<Transfer>)
    requires |txs| > 0
    ensures Tos(txs) == Tos(txs[..|txs| - 1]) + [txs[|txs| - 1].to]
  {
  }

  /** The addresses of `Firsts` are the distinct recipients, in the order
      `new Set(...)` would list them. */
  lemma {:induction false} FirstsAreDistinctRecipients(txs: seq<Transfer>)
    ensures Addresses(Firsts(txs)) == Distinct(Tos(txs))
  {
    if |txs| > 0 {
      var q := txs[..|txs| - 1];
      var t := txs[|txs| - 1];
      FirstsAreDistinctRecipients(q);
      TosSnoc(txs);
      assert (Tos(q) + [t.to])[..|Tos(q)|] == Tos(q);
      if t.to !in Addresses(Firsts(q)) {
        AddressesSnoc(Firsts(q), EntryOf(t));
      }
    }
  }

  lemma {:induction false} InTos(txs: seq<Transfer>, i: nat)
    requires i < |txs|
    ensures txs[i].to in Tos(txs)
  {
    var q := txs[..|txs| - 1];
    if i < |q| {
      assert q[i] == txs[i];
      InTos(q, i);
    }
  }

  /** Every entry of `Firsts` is the earliest transfer to its address. */
  lemma {:induction false} FirstsEarliest(txs: seq<Transfer>)
    ensures forall j :: 0 <= j < |Firsts(txs)| ==> EarliestEntry(txs, Firsts(txs)[j])
  {
    if |txs| > 0 {
      var q := txs[..|txs| - 1];
      var t := txs[|txs| - 1];
      var p := Firsts(q);
      FirstsEarliest(q);
      forall j | 0 <= j < |p|
        ensures EarliestEntry(txs, p[j])
      {
        var i :| 0 <= i < |q| && p[j] == EntryOf(q[i])
          && forall i' :: 0 <= i' < i ==> q[i'].to != p[j].address;
        assert q[i] == txs[i];
        assert forall i' :: 0 <= i' < i ==> q[i'] == txs[i'];
      }
      if t.to !in Addresses(p) {
        FirstsAreDistinctRecipients(q);
        forall i' | 0 <= i' < |q|
          ensures txs[i'].to != t.to
        {
          InTos(q, i');
          assert q[i'] == txs[i'];
        }
        assert EarliestEntry(txs, EntryOf(txs[|txs| - 1]));
      }
    }
  }

  /** On a list sorted by time the entries of `Firsts` ascend by time. */
  lemma {:induction false} FirstsAscending(txs: seq<Transfer>)
    requires SortedBy(txs, TransferTs)
    ensures AscendingTs(Firsts(txs))
  {
    if |txs| > 0 {
      var q := txs[..|txs| - 1];
      var t := txs[|txs| - 1];
      var p := Firsts(q);
      FirstsAscending(q);
      if t.to !in Addresses(p) {
        FirstsEarliest(q);
        forall j | 0 <= j < |p|
          ensures p[j].ts <= t.ts
        {
          var i :| 0 <= i < |q| && p[j] == EntryOf(q[i])
            && forall i' :: 0 <= i' < i ==> q[i'].to != p[j].address;
          assert q[i] == txs[i];
        }
      }
    }
  }

  /** Processing more transfers only appends entries. */
  lemma {:induction false} FirstsPrefix(txs: seq<Transfer>, k: nat)
    requires k <= |txs|
    ensures Firsts(txs[..k]) <= Firsts(txs)
  {
    if k < |txs| {
      var q := txs[..|txs| - 1];
      assert q[..k] == txs[..k];
      FirstsPrefix(q, k);
    } else {
      assert txs[..k] == txs;
    }
  }

  /** The properties of the panel's list, for a list sorted by time: at
      most 25 entries, no address twice, each entry the earliest transfer
      to its address, ascending time, and every recipient listed when there
      are fewer than 25 of them. */
  lemma FirstRecipientsFacts(txs: seq<Transfer>)
    requires SortedBy(txs, TransferTs)
    ensures |FirstRecipientsOf(txs)| <= LIMIT
    ensures NoDuplicates(Addresses(FirstRecipientsOf(txs)))
    ensures forall j :: 0 <= j < |FirstRecipientsOf(txs)| ==> EarliestEntry(txs, FirstRecipientsOf(txs)[j])
    ensures AscendingTs(FirstRecipientsOf(txs))
    ensures |Distinct(Tos(txs))| < LIMIT ==>
              forall i :: 0 <= i < |txs| ==> txs[i].to in Addresses(FirstRecipientsOf(txs))
  {
    var f := Firsts(txs);
    FirstsAreDistinctRecipients(txs);
    FirstsEarliest(txs);
    FirstsAscending(txs);
    if |f| > LIMIT {
      PrefixKeeps(txs, f, LIMIT);
    }
    if |Distinct(Tos(txs))| < LIMIT {
      forall i | 0 <= i < |txs|
        ensures txs[i].to in Addresses(f)
      {
        InTos(txs, i);
      }
    }
  }

  /** A prefix of a list with these properties has them too. */
  lemma PrefixKeeps(txs: seq<Transfer>, f: seq<Recipient>, n: nat)
    requires n <= |f|
    requires NoDuplicates(Addresses(f)) && AscendingTs(f)
    requires forall j :: 0 <= j < |f| ==> EarliestEntry(txs, f[j])
    ensures NoDuplicates(Addresses(f[..n])) && AscendingTs(f[..n])
    ensures forall j :: 0 <= j < n ==> EarliestEntry(txs, f[..n][j])
  {
    var r := f[..n];
    assert forall j :: 0 <= j < n ==> Addresses(r)[j] == Addresses(f)[j];
  }

  /** One more transfer: its recipient is listed unless it already is. */
  lemma FirstsStep(txs: seq<Transfer>, k: nat)
    requires k < |txs|
    ensures Firsts(txs[..k + 1]) ==
              if txs[k].to in Addresses(Firsts(txs[..k])) then Firsts(txs[..k])
              else Firsts(txs[..k]) + [EntryOf(txs[k])]
  {
    assert txs[..k + 1][..k] == txs[..k];
  }

  /** Once 25 are listed, the rest of the list changes nothing. */
  lemma FirstsCapped(txs: seq<Transfer>, k: nat)
    requires k <= |txs| && |Firsts(txs[..k])| == LIMIT
    ensures FirstRecipientsOf(txs) == Firsts(txs[..k])
  {
    FirstsPrefix(txs, k);
  }

  // ----- the loop -----

  /** `firstSeen` maps each listed address to the time it was listed at. */
  ghost predicate SeenExactly(firstSeen: map<string, int>, arr: seq<Recipient>) {
    && (forall a :: a in firstSeen <==> a in Addresses(arr))
    && (forall j :: 0 <= j < |arr| ==> arr[j].address in firstSeen && firstSeen[arr[j].address] == arr[j].ts)
  }

  lemma SeenStep(firstSeen: map<string, int>, arr: seq<Recipient>, t: Transfer)
    requires SeenExactly(firstSeen, arr) && t.to !in firstSeen
    ensures SeenExactly(firstSeen[t.to := t.ts], arr + [EntryOf(t)])
  {
    AddressesSnoc(arr, EntryOf(t));
  }

  /** `computeFirstRecipients`: normalise, then scan. */
  method ComputeFirstRecipients(raw: seq<RawTransfer>) returns (arr: seq<Recipient>)
    ensures arr == FirstRecipientsOf(NormalizedTransfers(raw))
  {
    var txs := NormalizeTransfers(raw);
    arr := ScanRecipients(txs);
  }

  /** The loop of `computeFirstRecipients`: walk the normalised list once,
      stopping as soon as 25 recipients are listed. */
  method ScanRecipients(txs: seq<Transfer>) returns (arr: seq<Recipient>)
    ensures arr == FirstRecipientsOf(txs)
  {
    var firstSeen: map<string, int> := map[];
    arr := [];
    var k := 0;
    while k < |txs|
      invariant k <= |txs|
      invariant arr == Firsts(txs[..k]) && |arr| < LIMIT
      invariant SeenExactly(firstSeen, arr)
    {
      var full;
      firstSeen, arr, full := Visit(txs, k, firstSeen, arr);
      if full {
        FirstsCapped(txs, k + 1);
        break;
      }
      k := k + 1;
    }
    if k == |txs| {
      assert txs[..k] == txs;
    }
  }

  /** One pass of the loop body: list `txs[k]`'s recipient unless
      `firstSeen` has it, and report whether the list is now full. */
  method Visit(txs: seq<Transfer>, k: nat, firstSeen: map<string, int>, arr: seq<Recipient>)
    returns (firstSeen': map<string, int>, arr': seq<Recipient>, full: bool)
    requires k < |txs| && arr == Firsts(txs[..k]) && |arr| < LIMIT
    requires SeenExactly(firstSeen, arr)
    ensures arr' == Firsts(txs[..k + 1]) && SeenExactly(firstSeen', arr')
    ensures full <==> |arr'| >= LIMIT
    ensures |arr'| <= LIMIT
  {
    var t := txs[k];
    FirstsStep(txs, k);
    firstSeen', arr', full := firstSeen, arr, false;
    if t.to !in firstSeen {
      SeenStep(firstSeen, arr, t);
      firstSeen' := firstSeen[t.to := t.ts];
      arr' := arr + [EntryOf(t)];
      if |arr'| >= LIMIT {
        full := true;
      }
    }
  }
}
