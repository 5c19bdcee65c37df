/** The token tables: the case-insensitive search filter, the split of a
    list into the five-row and ten-row tables, and the choice of the one
    row shown in single-token mode. Only what decides which tokens are
    shown, and at which rank, is modelled; the DOM work is not. */
module Top {
  import opened Collections
  import opened Text
  import opened Store

  /** A token row of a snapshot list. A missing name or symbol is the empty
      string, as `t.name || ''` makes it. */
  datatype Token = Token(name: string, symbol: string, baseAddress: Option<string>)

  /** The lists of a snapshot; a missing list is `None`. */
  datatype Snapshot = Snapshot(topGainers: Option<seq<Token>>, topVol: Option<seq<Token>>)

  /** A row as `mkRow(i, t)` draws it: the rank shown is `i + 1`. */
  datatype Row = Row(rank: nat, token: Token)

  datatype Tables = Tables(top5: seq<Row>, rest10: seq<Row>)

  const FIRST_TABLE: nat := 5
  const BOTH_TABLES: nat := 15

  // ----- filterByQuery -----

  /** `t` matches the lower-cased query `lq`. */
  predicate Matches(t: Token, lq: string) {
    Contains(ToLower(t.name), lq) || Contains(ToLower(t.symbol), lq)
  }

  /** `list.filter(t => Matches(t, lq))`. */
  function Filter(list: seq<Token>, lq: string): (r: seq<Token>)
    ensures |r| <= |list|
  {
    if |list| == 0 then []
    else
      Filter(list[..|list| - 1], lq)
        + (if Matches(list[|list| - 1], lq) then [list[|list| - 1]] else [])
  }

  /** `filterByQuery(list, q)`; the empty string stands for both an empty
      and an absent query. */
  function FilterByQuery(list: seq<Token>, q: string): seq<Token> {
    if q == "" then list else Filter(list, ToLower(q))
  }

  /** `idx` lists, in increasing order, positions of `list`, and `r` holds
      the tokens at those positions. */
  ghost predicate PicksAt(list: seq<Token>, r: seq<Token>, idx: seq<nat>) {
    && |idx| == |r|
    && (forall k :: 0 <= k < |idx| ==> idx[k] < |list| && r[k] == list[idx[k]])
    && (forall k, k' :: 0 <= k < k' < |idx| ==> idx[k] < idx[k'])
  }

  /** Extending `list` by one token keeps the picks, and picking that
      token as well adds it to both. */
  lemma PicksSnoc(list: seq<Token>, r: seq<Token>, idx: seq<nat>, t: Token, take: bool)
    requires PicksAt(list, r, idx)
    ensures PicksAt(list + [t], r, idx)
    ensures take ==> PicksAt(list + [t], r + [t], idx + [|list|])
  {
  }

  /** The filter keeps exactly the matching tokens, each once per
      occurrence, in their original order. */
  lemma {:induction false} FilterPositions(list: seq<Token>, lq: string) returns (idx: seq<nat>)
    ensures PicksAt(list, Filter(list, lq), idx)
    ensures forall i :: 0 <= i < |list| ==> (i in idx <==> Matches(list[i], lq))
  {
    if |list| == 0 {
      idx := [];
    } else {
      var n := |list| - 1;
      var p, t := list[..n], list[n];
      assert list == p + [t];
      var pi := FilterPositions(p, lq);
      PicksSnoc(p, Filter(p, lq), pi, t, Matches(t, lq));
      idx := if Matches(t, lq) then pi + [n] else pi;
      forall i | 0 <= i < |list|
        ensures i in idx <==> Matches(list[i], lq)
      {
        if i < n {
          assert p[i] == list[i];
          assert i in idx <==> i in pi;
        }
      }
    }
  }

  /** With a query, the result is the matching tokens in order and no
      others; without one, the list itself. */
  lemma FilterByQueryExact(list: seq<Token>, q: string)
    ensures q == "" ==> FilterByQuery(list, q) == list
    ensures q != "" ==> exists idx ::
              && PicksAt(list, FilterByQuery(list, q), idx)
              && forall i :: 0 <= i < |list| ==> (i in idx <==> Matches(list[i], ToLower(q)))
  {
    if q != "" {
      var idx := FilterPositions(list, ToLower(q));
      assert PicksAt(list, FilterByQuery(list, q), idx);
    }
  }

  /** Matching ignores the case of the query. */
  lemma FilterIgnoresQueryCase(list: seq<Token>, q: string)
    requires q != ""
    ensures FilterByQuery(list, q) == FilterByQuery(list, ToLower(q))
  {
    ToLowerIdempotent(q);
  }

  // ----- renderList -----

  /** `list.slice(from, to)` for `from <= to`. */
  function Slice<T>(s: seq<T>, from: nat, to: nat): (r: seq<T>)
    requires from <= to
    ensures |r| == (if to <= |s| then to - from else if from <= |s| then |s| - from else 0)
    ensures forall k :: 0 <= k < |r| ==> r[k] == s[from + k]
  {
    if from >= |s| then [] else if to <= |s| then s[from..to] else s[from..]
  }

  /** `mkRow(i + offset, t)` for each `t` of `s`. */
  function Rows(s: seq<Token>, offset: nat): (r: seq<Row>)
    ensures |r| == |s|
  {
    seq(|s|, i requires 0 <= i < |s| => Row(i + offset + 1, s[i]))
  }

  /** `renderList(list)`: the first five tokens go to the first table, the
      next ten to the second. */
  function RenderList(list: seq<Token>): Tables {
    Tables(Rows(Slice(list, 0, FIRST_TABLE), 0),
           Rows(Slice(list, FIRST_TABLE, BOTH_TABLES), FIRST_TABLE))
  }

  /** Each token at position `i < 15` is shown once, with rank `i + 1`, in
      the first table for `i < 5` and the second otherwise; nothing else
      is shown. */
  lemma RenderListShows(list: seq<Token>)
    ensures RenderList(list).top5 + RenderList(list).rest10 ==
              seq(if |list| < BOTH_TABLES then |list| else BOTH_TABLES,
                  i requires 0 <= i < |list| && i < BOTH_TABLES => Row(i + 1, list[i]))
    ensures |RenderList(list).top5| == if |list| < FIRST_TABLE then |list| else FIRST_TABLE
  {
  }

  // ----- the single-token row -----

  /** `list.find(t => t.baseAddress === a)`. */
  function Find(list: seq<Token>, a: string): (r: Option<Token>)
    ensures r.Some? ==> r.value in list && r.value.baseAddress == Some(a)
    ensures r.None? <==> forall i :: 0 <= i < |list| ==> list[i].baseAddress != Some(a)
  {
    if |list| == 0 then None
    else if list[0].baseAddress == Some(a) then Some(list[0])
    else Find(list[1..], a)
  }

  /** `a || b` on two lookups: a found token is always truthy. */
  function OrElse(a: Option<Token>, b: Option<Token>): Option<Token> {
    if a.Some? then a else b
  }

  function OrEmpty(list: Option<seq<Token>>): seq<Token> {
    if list.Some? then list.value else []
  }

  /** The row of single-token mode: the first match in the filtered list,
      else in the gainers, else in the volume list. */
  function SingleRow(filtered: seq<Token>, snap: Snapshot, a: string): Option<Token> {
    OrElse(Find(filtered, a), OrElse(Find(OrEmpty(snap.topGainers), a), Find(OrEmpty(snap.topVol), a)))
  }

  /** The first position of `list` whose token has address `a`. */
  ghost predicate FirstMatchAt(list: seq<Token>, a: string, i: nat) {
    i < |list| && list[i].baseAddress == Some(a)
      && forall j :: 0 <= j < i ==> list[j].baseAddress != Some(a)
  }

  lemma {:induction false} FindFirst(list: seq<Token>, a: string, i: nat)
    requires FirstMatchAt(list, a, i)
    ensures Find(list, a) == Some(list[i])
  {
    if i > 0 {
      assert FirstMatchAt(list[1..], a, i - 1);
      FindFirst(list[1..], a, i - 1);
    }
  }

  /** The lookup order: a match in the filtered list wins, then the gainers,
      then the volume list, and there is no row only when no list matches. */
  lemma SingleRowOrder(filtered: seq<Token>, snap: Snapshot, a: string)
    ensures forall i: nat :: FirstMatchAt(filtered, a, i) ==> SingleRow(filtered, snap, a) == Some(filtered[i])
    ensures Find(filtered, a).None? ==> forall i: nat :: FirstMatchAt(OrEmpty(snap.topGainers), a, i) ==>
              SingleRow(filtered, snap, a) == Some(OrEmpty(snap.topGainers)[i])
    ensures Find(filtered, a).None? && Find(OrEmpty(snap.topGainers), a).None? ==>
              forall i: nat :: FirstMatchAt(OrEmpty(snap.topVol), a, i) ==>
                SingleRow(filtered, snap, a) == Some(OrEmpty(snap.topVol)[i])
    ensures SingleRow(filtered, snap, a).None? <==>
              (Find(filtered, a).None? && Find(OrEmpty(snap.topGainers), a).None?
               && Find(OrEmpty(snap.topVol), a).None?)
  {
    forall i: nat | FirstMatchAt(filtered, a, i)
      ensures SingleRow(filtered, snap, a) == Some(filtered[i])
    {
      FindFirst(filtered, a, i);
    }
    forall i: nat | Find(filtered, a).None? && FirstMatchAt(OrEmpty(snap.topGainers), a, i)
      ensures SingleRow(filtered, snap, a) == Some(OrEmpty(snap.topGainers)[i])
    {
      FindFirst(OrEmpty(snap.topGainers), a, i);
    }
    forall i: nat | Find(filtered, a).None? && Find(OrEmpty(snap.topGainers), a).None?
                    && FirstMatchAt(OrEmpty(snap.topVol), a, i)
      ensures SingleRow(filtered, snap, a) == Some(OrEmpty(snap.topVol)[i])
    {
      FindFirst(OrEmpty(snap.topVol), a, i);
    }
  }

  // ----- draw -----

  /** Single-token mode is on when `single` is a non-empty address. */
  predicate SingleMode(single: Option<string>) {
    single.Some? && single.value != ""
  }

  /** The snapshot list of the current mode: the gainers in `gainers` mode,
      the volume list otherwise. */
  function ModeList(snap: Snapshot, mode: string): seq<Token> {
    OrEmpty(if mode == "gainers" then snap.topGainers else snap.topVol)
  }

  /** What `draw` renders for the state `s` and the trimmed search text
      `q`; `None` when there is no snapshot yet and nothing is drawn. */
  function Draw(s: View<Snapshot>, q: string): Option<Tables> {
    if s.snapshot.None? then None
    else
      var snap := s.snapshot.value;
      var filtered := FilterByQuery(ModeList(snap, s.mode), q);
      if SingleMode(s.single) then
        var row := SingleRow(filtered, snap, s.single.value);
        Some(RenderList(if row.Some? then [row.value] else []))
      else Some(RenderList(filtered))
  }

  /** In single-token mode exactly the row `SingleRow` picks from the
      filtered list of the current mode, the gainers and the volume list is
      drawn, ranked first, and it carries the selected address; there is a
      row iff one of the three lists has a token with that address.
      Otherwise the filtered list of the current mode is drawn. */
  lemma DrawShows(s: View<Snapshot>, q: string)
    requires s.snapshot.Some?
    ensures SingleMode(s.single) ==>
              var row := SingleRow(FilterByQuery(ModeList(s.snapshot.value, s.mode), q),
                                   s.snapshot.value, s.single.value);
              && Draw(s, q).value.top5 == (if row.Some? then [Row(1, row.value)] else [])
              && Draw(s, q).value.rest10 == []
    ensures SingleMode(s.single) ==>
              && (forall k :: 0 <= k < |Draw(s, q).value.top5| ==>
                    Draw(s, q).value.top5[k].rank == 1
                    && Draw(s, q).value.top5[k].token.baseAddress == s.single)
              && (|Draw(s, q).value.top5| == 1 <==>
                    exists t :: t in FilterByQuery(ModeList(s.snapshot.value, s.mode), q)
                                  + OrEmpty(s.snapshot.value.topGainers) + OrEmpty(s.snapshot.value.topVol)
                                && t.baseAddress == s.single)
    ensures !SingleMode(s.single) ==>
              Draw(s, q) == Some(RenderList(FilterByQuery(ModeList(s.snapshot.value, s.mode), q)))
  {
    if SingleMode(s.single) {
      var snap, a := s.snapshot.value, s.single.value;
      var filtered := FilterByQuery(ModeList(snap, s.mode), q);
      var all := filtered + OrEmpty(snap.topGainers) + OrEmpty(snap.topVol);
      SingleRowOrder(filtered, snap, a);
      if t :| t in all && t.baseAddress == s.single {
        if t in filtered {
          assert Find(filtered, a).Some?;
        } else if t in OrEmpty(snap.topGainers) {
          assert Find(OrEmpty(snap.topGainers), a).Some?;
        } else {
          assert Find(OrEmpty(snap.topVol), a).Some?;
        }
      }
    }
  }
}
