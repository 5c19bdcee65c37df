/** The page's shared state: the latest snapshot, the list mode, the token
    shown in single-token mode and three caches, together with the set of
    subscribers that are told about every change.

    A subscriber is a callback, identified here by a number. What it does
    when called is outside the model; the store records each call in `log`,
    with the state the callback was shown and whether it threw. Which
    callbacks throw is fixed by `throws`. */
module Store {
  import opened Collections

  /** The three caches `state.caches` holds. */
  datatype CacheName = Icons | Holders | Transfers

  /** The fields a subscriber is shown. */
  datatype View<S> = View(snapshot: Option<S>, mode: string, single: Option<string>)

  /** One call of a subscriber by `emit`. */
  datatype Delivery<S> = Delivery(subscriber: nat, view: View<S>, threw: bool)

  /** The mode a fresh page starts in. */
  const INITIAL_MODE: string := "gainers"

  // ----- the subscriber set -----

  /** `Set.prototype.add`: a callback already present keeps its place. */
  function Added(subs: seq<nat>, fn: nat): seq<nat> {
    if fn in subs then subs else subs + [fn]
  }

  /** `Set.prototype.delete`. */
  function Removed(subs: seq<nat>, fn: nat): (r: seq<nat>)
    ensures |r| <= |subs|
  {
    if |subs| == 0 then []
    else
      var p := Removed(subs[..|subs| - 1], fn);
      if subs[|subs| - 1] == fn then p else p + [subs[|subs| - 1]]
  }

  /** Adding keeps the set a set, adds exactly `fn`, and is idempotent. */
  lemma AddedFacts(subs: seq<nat>, fn: nat)
    requires NoDuplicates(subs)
    ensures NoDuplicates(Added(subs, fn))
    ensures forall g :: g in Added(subs, fn) <==> g in subs || g == fn
    ensures Added(Added(subs, fn), fn) == Added(subs, fn)
    ensures subs <= Added(subs, fn)
  {
  }

  /** Deleting removes exactly `fn` and keeps the others in order. */
  lemma {:induction false} RemovedFacts(subs: seq<nat>, fn: nat)
    requires NoDuplicates(subs)
    ensures NoDuplicates(Removed(subs, fn))
    ensures forall g :: g in Removed(subs, fn) <==> g in subs && g != fn
  {
    if |subs| > 0 {
      var p := subs[..|subs| - 1];
      assert NoDuplicates(p);
      RemovedFacts(p, fn);
      assert subs[|subs| - 1] !in p;
    }
  }

  /** Deleting a callback that is not there changes nothing. */
  lemma {:induction false} RemovedAbsent(subs: seq<nat>, fn: nat)
    requires fn !in subs
    ensures Removed(subs, fn) == subs
  {
    if |subs| > 0 {
      var p := subs[..|subs| - 1];
      RemovedAbsent(p, fn);
      assert p + [subs[|subs| - 1]] == subs;
    }
  }

  /** Subscribing a new callback and then calling the function `subscribe`
      returned leaves the set as it was. */
  lemma SubscribeThenUnsubscribe(subs: seq<nat>, fn: nat)
    requires fn !in subs
    ensures Removed(Added(subs, fn), fn) == subs
  {
    var a := subs + [fn];
    assert a[..|a| - 1] == subs;
    RemovedAbsent(subs, fn);
  }

  // ----- emit -----

  /** One call of each callback in `fns`, in order, each shown `v`. */
  function Deliveries<S>(fns: seq<nat>, v: View<S>, throws: nat -> bool): (r: seq<Delivery<S>>)
    ensures |r| == |fns|
  {
    if |fns| == 0 then []
    else
      Deliveries(fns[..|fns| - 1], v, throws)
        + [Delivery(fns[|fns| - 1], v, throws(fns[|fns| - 1]))]
  }

  /** How many calls in `log` went to `fn`. */
  function CallsTo<S>(log: seq<Delivery<S>>, fn: nat): nat {
    if |log| == 0 then 0
    else CallsTo(log[..|log| - 1], fn) + (if log[|log| - 1].subscriber == fn then 1 else 0)
  }

  /** `emit` calls every current subscriber exactly once and no one else,
      whether or not some of them throw. */
  lemma {:induction false} DeliveredOnce<S>(fns: seq<nat>, v: View<S>, throws: nat -> bool, fn: nat)
    requires NoDuplicates(fns)
    ensures CallsTo(Deliveries(fns, v, throws), fn) == if fn in fns then 1 else 0
  {
    if |fns| > 0 {
      var p := fns[..|fns| - 1];
      assert NoDuplicates(p);
      DeliveredOnce(p, v, throws, fn);
      var d := Deliveries(fns, v, throws);
      assert d[..|d| - 1] == Deliveries(p, v, throws);
      assert fns == p + [fns[|fns| - 1]];
    }
  }

  /** Every call shows the callback the same state. */
  lemma {:induction false} DeliveriesShow<S>(fns: seq<nat>, v: View<S>, throws: nat -> bool)
    ensures forall i :: 0 <= i < |fns| ==>
              Deliveries(fns, v, throws)[i] == Delivery(fns[i], v, throws(fns[i]))
  {
    if |fns| > 0 {
      DeliveriesShow(fns[..|fns| - 1], v, throws);
    }
  }

  class Store<S, V> {
    var snapshot: Option<S>
    var mode: string
    var single: Option<string>
    var icons: map<string, V>
    var holders: map<string, V>
    var transfers: map<string, V>
    /** The subscriber set, in insertion order. */
    var subs: seq<nat>
    /** Every subscriber call made so far. */
    var log: seq<Delivery<S>>
    /** Which callbacks throw when called. */
    const throws: nat -> bool

    ghost predicate Valid()
      reads this
    {
      NoDuplicates(subs)
    }

    /** `getState()`, as far as a subscriber reads it. */
    function State(): View<S>
      reads this
    {
      View(snapshot, mode, single)
    }

    function Cache(name: CacheName): map<string, V>
      reads this
    {
      match name
      case Icons => icons
      case Holders => holders
      case Transfers => transfers
    }

    /** `getCache(mapName, key)`: `None` is `undefined`. */
    function GetCache(name: CacheName, key: string): (r: Option<V>)
      reads this
      ensures r.Some? <==> key in Cache(name)
      ensures r.Some? ==> r.value == Cache(name)[key]
    {
      if key in Cache(name) then Some(Cache(name)[key]) else None
    }

    constructor(throws: nat -> bool)
      ensures Valid()
      ensures State() == View(None, INITIAL_MODE, None)
      ensures icons == map[] && holders == map[] && transfers == map[]
      ensures subs == [] && log == [] && this.throws == throws
    {
      snapshot, mode, single := None, INITIAL_MODE, None;
      icons, holders, transfers := map[], map[], map[];
      subs, log := [], [];
      this.throws := throws;
    }

    /** `subscribe(fn)`. The function it returns is `Unsubscribe(fn)`. */
    method Subscribe(fn: nat)
      requires Valid()
      modifies this
      ensures Valid()
      ensures subs == Added(old(subs), fn)
      ensures State() == old(State()) && log == old(log)
      ensures icons == old(icons) && holders == old(holders) && transfers == old(transfers)
    {
      AddedFacts(subs, fn);
      if fn !in subs {
        subs := subs + [fn];
      }
    }

    method Unsubscribe(fn: nat)
      requires Valid()
      modifies this
      ensures Valid()
      ensures subs == Removed(old(subs), fn)
      ensures State() == old(State()) && log == old(log)
      ensures icons == old(icons) && holders == old(holders) && transfers == old(transfers)
    {
      RemovedFacts(subs, fn);
      subs := Removed(subs, fn);
    }

    /** `emit()`: calls each subscriber with the state; an exception is
        swallowed and the loop goes on. */
    method Emit()
      modifies this
      ensures log == old(log) + Deliveries(subs, State(), throws)
      ensures State() == old(State()) && subs == old(subs)
      ensures icons == old(icons) && holders == old(holders) && transfers == old(transfers)
    {
      for i := 0 to |subs|
        invariant State() == old(State()) && subs == old(subs)
        invariant log == old(log) + Deliveries(subs[..i], State(), throws)
        invariant icons == old(icons) && holders == old(holders) && transfers == old(transfers)
      {
        assert subs[..i + 1][..i] == subs[..i];
        log := log + [Delivery(subs[i], State(), throws(subs[i]))];
      }
      assert subs[..|subs|] == subs;
    }

    /** `setSnapshot(s)`: always assigns and always emits. */
    method SetSnapshot(s: S)
      modifies this
      ensures State() == old(State()).(snapshot := Some(s))
      ensures log == old(log) + Deliveries(subs, State(), throws)
      ensures subs == old(subs)
      ensures icons == old(icons) && holders == old(holders) && transfers == old(transfers)
    {
      snapshot := Some(s);
      Emit();
    }

    /** `setMode(m)`: emits only when the mode changes. */
    method SetMode(m: string)
      modifies this
      ensures old(mode) != m ==> State() == old(State()).(mode := m)
                                  && log == old(log) + Deliveries(subs, State(), throws)
      ensures old(mode) == m ==> State() == old(State()) && log == old(log)
      ensures subs == old(subs)
      ensures icons == old(icons) && holders == old(holders) && transfers == old(transfers)
    {
      if m != mode {
        mode := m;
        Emit();
      }
    }

    /** `setSingleToken(x)`: emits only when the token changes. */
    method SetSingleToken(x: Option<string>)
      modifies this
      ensures old(single) != x ==> State() == old(State()).(single := x)
                                    && log == old(log) + Deliveries(subs, State(), throws)
      ensures old(single) == x ==> State() == old(State()) && log == old(log)
      ensures subs == old(subs)
      ensures icons == old(icons) && holders == old(holders) && transfers == old(transfers)
    {
      if x != single {
        single := x;
        Emit();
      }
    }

    /** `setCache(mapName, key, value)`. */
    method SetCache(name: CacheName, key: string, value: V)
      modifies this
      ensures GetCache(name, key) == Some(value)
      ensures forall n, k :: (n, k) != (name, key) ==> GetCache(n, k) == old(GetCache(n, k))
      ensures State() == old(State()) && subs == old(subs) && log == old(log)
    {
      match name
      case Icons => icons := icons[key := value];
      case Holders => holders := holders[key := value];
      case Transfers => transfers := transfers[key := value];
    }
  }
}
