/** Partitioned per-key state, and the router that decides which partition owns a key. */
module Partitioning {
  import opened Model

  type Parts = seq<Totals>

  // What a key holds across all partitions.
  function KeyTotal(parts: Parts, key: string): int {
    if parts == [] then 0 else KeyTotal(Front(parts), key) + At(Last(parts), key)
  }

  function KeysOf(parts: Parts): set<string> {
    if parts == [] then {} else KeysOf(Front(parts)) + Last(parts).Keys
  }

  // How many partitions hold a key.
  function Holders(parts: Parts, key: string): nat {
    if parts == [] then 0 else Holders(Front(parts), key) + (if key in Last(parts) then 1 else 0)
  }

  function Entries(parts: Parts): nat {
    if parts == [] then 0 else Entries(Front(parts)) + |Last(parts)|
  }

  lemma {:induction false} KeysOfMembers(parts: Parts)
    ensures forall key :: key in KeysOf(parts) <==> exists p :: 0 <= p < |parts| && key in parts[p]
    decreases |parts|
  {
    if parts != [] {
      KeysOfMembers(Front(parts));
      forall key
        ensures key in KeysOf(parts) <==> exists p :: 0 <= p < |parts| && key in parts[p]
      {
        if key in KeysOf(Front(parts)) {
          var p :| 0 <= p < |Front(parts)| && key in Front(parts)[p];
          assert key in parts[p];
        }
        if key in Last(parts) {
          assert key in parts[|parts| - 1];
        }
        if p :| 0 <= p < |parts| && key in parts[p] && p != |parts| - 1 {
          assert key in Front(parts)[p];
        }
      }
    }
  }

  lemma {:induction false} TotalOfAbsent(parts: Parts, key: string)
    requires key !in KeysOf(parts)
    ensures KeyTotal(parts, key) == 0
    decreases |parts|
  {
    if parts != [] {
      TotalOfAbsent(Front(parts), key);
    }
  }

  // When one partition owns the key, its value there is the key's total.
  lemma {:induction false} TotalOfSoleHolder(parts: Parts, key: string, owner: nat)
    requires forall p :: 0 <= p < |parts| && key in parts[p] ==> p == owner
    ensures KeyTotal(parts, key) == if owner < |parts| then At(parts[owner], key) else 0
    ensures Holders(parts, key) == if owner < |parts| && key in parts[owner] then 1 else 0
    decreases |parts|
  {
    if parts != [] {
      var front := Front(parts);
      assert forall p :: 0 <= p < |front| ==> front[p] == parts[p];
      TotalOfSoleHolder(front, key, owner);
      assert parts[|parts| - 1] == Last(parts);
    }
  }

  ghost function HoldingParts(parts: Parts, key: string): set<int> {
    set p | 0 <= p < |parts| && key in parts[p]
  }

  lemma OneMoreHolder(parts: Parts, m: Totals, key: string)
    ensures |HoldingParts(parts + [m], key)| == |HoldingParts(parts, key)| + if key in m then 1 else 0
  {
    var before, after := HoldingParts(parts, key), HoldingParts(parts + [m], key);
    assert after == if key in m then before + {|parts|} else before;
  }

  /** The counts by loop are the numbers of partitions with the key, and of entries. */
  lemma {:induction false} HoldersCount(parts: Parts, key: string)
    ensures Holders(parts, key) == |HoldingParts(parts, key)|
    decreases |parts|
  {
    if parts != [] {
      hide HoldingParts;
      FrontThenLast(parts);
      HoldersCount(Front(parts), key);
      OneMoreHolder(Front(parts), Last(parts), key);
    } else {
      assert HoldingParts([], key) == {};
    }
  }

  ghost function EntriesOf(parts: Parts): set<(int, string)> {
    set p, key | 0 <= p < |parts| && key in parts[p] :: (p, key)
  }

  ghost function Tagged(keys: set<string>, p: int): set<(int, string)> {
    set key | key in keys :: (p, key)
  }

  lemma {:induction false} TaggedSize(keys: set<string>, p: int)
    ensures |Tagged(keys, p)| == |keys|
    decreases keys
  {
    if keys != {} {
      var key :| key in keys;
      TaggedSize(keys - {key}, p);
      assert Tagged(keys, p) == Tagged(keys - {key}, p) + {(p, key)};
    } else {
      assert Tagged(keys, p) == {};
    }
  }

  lemma OneMorePart(parts: Parts, m: Totals)
    ensures |EntriesOf(parts + [m])| == |EntriesOf(parts)| + |Tagged(m.Keys, |parts|)|
  {
    assert EntriesOf(parts + [m]) == EntriesOf(parts) + Tagged(m.Keys, |parts|);
    assert EntriesOf(parts) !! Tagged(m.Keys, |parts|);
  }

  lemma {:induction false} EntriesCount(parts: Parts)
    ensures Entries(parts) == |EntriesOf(parts)|
    decreases |parts|
  {
    if parts != [] {
      hide EntriesOf, Tagged;
      FrontThenLast(parts);
      EntriesCount(Front(parts));
      OneMorePart(Front(parts), Last(parts));
      TaggedSize(Last(parts).Keys, |Front(parts)|);
    } else {
      assert EntriesOf([]) == {};
    }
  }

  function Shares(parts: Parts, key: string): seq<int> {
    seq(|parts|, p requires 0 <= p < |parts| => At(parts[p], key))
  }

  /** The total of a key is the sum of what each partition holds for it. */
  lemma {:induction false} TotalIsSum(parts: Parts, key: string)
    ensures KeyTotal(parts, key) == Sum(Shares(parts, key))
    decreases |parts|
  {
    if parts != [] {
      TotalIsSum(Front(parts), key);
      assert Front(Shares(parts, key)) == Shares(Front(parts), key);
    }
  }

  // ---------------------------------------------------------------------------------------
  // Repartitioning, independent of the order in which entries are visited
  // ---------------------------------------------------------------------------------------

  type RouteFn = (string, int) -> int

  ghost predicate RoutesInto(route: RouteFn, count: int) {
    forall key :: 0 <= route(key, count) < count
  }

  // What one partition receives.
  function Slice(parts: Parts, count: nat, route: RouteFn, p: int): Totals {
    map key | key in KeysOf(parts) && route(key, count) == p :: KeyTotal(parts, key)
  }

  function Spread(parts: Parts, count: nat, route: RouteFn): Parts {
    seq(count, p => Slice(parts, count, route, p))
  }

  /**
    Spreading conserves the total of every key, from any starting distribution, and leaves each key in
    the one partition its route names.
   */
  lemma SpreadConserves(parts: Parts, count: nat, route: RouteFn, key: string)
    requires RoutesInto(route, count)
    ensures KeyTotal(Spread(parts, count, route), key) == KeyTotal(parts, key)
    ensures forall p :: 0 <= p < count ==>
      (key in Spread(parts, count, route)[p] <==> key in KeysOf(parts) && route(key, count) == p)
    ensures Holders(Spread(parts, count, route), key) == if key in KeysOf(parts) then 1 else 0
    ensures KeysOf(Spread(parts, count, route)) == KeysOf(parts)
  {
    var next := Spread(parts, count, route);
    TotalOfSoleHolder(next, key, route(key, count));
    if key !in KeysOf(parts) {
      TotalOfAbsent(parts, key);
    }
    KeysOfMembers(next);
    forall k | k in KeysOf(parts)
      ensures k in KeysOf(next)
    {
      assert k in next[route(k, count)];
    }
  }

  lemma OneMorePartition(parts: Parts, m: Totals)
    ensures KeysOf(parts + [m]) == KeysOf(parts) + m.Keys
    ensures forall key :: KeyTotal(parts + [m], key) == KeyTotal(parts, key) + At(m, key)
  {
    assert Front(parts + [m]) == parts;
  }

  lemma SliceOneMore(parts: Parts, m: Totals, key: string, value: int, count: nat, route: RouteFn, p: int)
    requires key !in m
    ensures
      var before := Slice(parts + [m], count, route, p);
      Slice(parts + [m[key := value]], count, route, p) ==
        if route(key, count) == p then Plus(before, key, value) else before
  {
    OneMorePartition(parts, m);
    OneMorePartition(parts, m[key := value]);
    if key !in KeysOf(parts) {
      TotalOfAbsent(parts, key);
    }
  }

  lemma SpreadOneMore(parts: Parts, m: Totals, key: string, value: int, count: nat, route: RouteFn)
    requires RoutesInto(route, count) && key !in m
    ensures
      var r := route(key, count);
      var before := Spread(parts + [m], count, route);
      Spread(parts + [m[key := value]], count, route) == before[r := Plus(before[r], key, value)]
  {
    var r := route(key, count);
    var before, after := Spread(parts + [m], count, route), Spread(parts + [m[key := value]], count, route);
    forall p | 0 <= p < count
      ensures after[p] == before[r := Plus(before[r], key, value)][p]
    {
      SliceOneMore(parts, m, key, value, count, route, p);
    }
  }

  lemma SpreadEmptyTail(parts: Parts, count: nat, route: RouteFn)
    ensures Spread(parts + [map[]], count, route) == Spread(parts, count, route)
  {
    OneMorePartition(parts, map[]);
    forall p | 0 <= p < count
      ensures Slice(parts + [map[]], count, route, p) == Slice(parts, count, route, p)
    {
    }
  }

  lemma SpreadOfNothing(count: nat, route: RouteFn)
    ensures Spread([], count, route) == seq(count, _ => map[])
  {
    forall p | 0 <= p < count
      ensures Slice([], count, route, p) == map[]
    {
    }
  }

  class PartitionedStore {
    var parts: Parts

    constructor (partitions: nat)
      ensures parts == seq(partitions, _ => map[])
    {
      parts := seq(partitions, _ => map[]);
    }

    method Add(part: int, key: string, value: int)
      requires 0 <= part < |parts|
      modifies this
      ensures parts == old(parts)[part := Plus(old(parts[part]), key, value)]
    {
      var current := if key in parts[part] then parts[part][key] else 0;
      parts := parts[part := parts[part][key := current + value]];
    }

    method Total(key: string) returns (total: int)
      ensures total == KeyTotal(parts, key)
    {
      total := 0;
      for i := 0 to |parts|
        invariant total == KeyTotal(parts[..i], key)
      {
        assert Front(parts[..i + 1]) == parts[..i];
        total := total + if key in parts[i] then parts[i][key] else 0;
      }
      assert parts[..|parts|] == parts;
    }

    method PartitionCount(key: string) returns (count: nat)
      ensures count == Holders(parts, key)
    {
      count := 0;
      for i := 0 to |parts|
        invariant count == Holders(parts[..i], key)
      {
        assert Front(parts[..i + 1]) == parts[..i];
        if key in parts[i] {
          count := count + 1;
        }
      }
      assert parts[..|parts|] == parts;
    }

    /** Moves every key to its partition under the new count, unless there is nothing to do. */
    method Repartition(oldCount: int, newCount: nat, route: RouteFn) returns (moved: nat)
      requires RoutesInto(route, newCount)
      modifies this
      ensures
        if newCount == oldCount || |old(parts)| != oldCount then parts == old(parts) && moved == 0
        else parts == Spread(old(parts), newCount, route) && moved == Entries(old(parts))
    {
      if newCount == oldCount || |parts| != oldCount {
        return 0;
      }
      var next: Parts := seq(newCount, _ => map[]);
      moved := 0;
      SpreadOfNothing(newCount, route);
      assert parts[..0] == [];
      for i := 0 to |parts|
        invariant parts == old(parts)
        invariant next == Spread(parts[..i], newCount, route)
        invariant moved == Entries(parts[..i])
      {
        next, moved := MoveAll(parts[i], parts[..i], next, moved, newCount, route);
        assert parts[..i + 1] == parts[..i] + [parts[i]];
        assert Front(parts[..i + 1]) == parts[..i];
      }
      assert parts[..|parts|] == parts;
      parts := next;
    }

    // The inner loop: every entry of one partition, in whatever order the map yields them.
    static method MoveAll(part: Totals, ghost done: Parts, start: Parts, count: nat, newCount: nat, route: RouteFn)
      returns (next: Parts, moved: nat)
      requires RoutesInto(route, newCount) && start == Spread(done, newCount, route)
      ensures next == Spread(done + [part], newCount, route)
      ensures moved == count + |part|
    {
      next, moved := start, count;
      ghost var seen: Totals := map[];
      var todo := part.Keys;
      SpreadEmptyTail(done, newCount, route);
      while todo != {}
        invariant todo <= part.Keys
        invariant seen == map key | key in part && key !in todo :: part[key]
        invariant next == Spread(done + [seen], newCount, route)
        invariant moved == count + |part| - |todo|
        decreases |todo|
      {
        var key :| key in todo;
        SpreadOneMore(done, seen, key, part[key], newCount, route);
        var r := route(key, newCount);
        var current := if key in next[r] then next[r][key] else 0;
        next := next[r := next[r][key := current + part[key]]];
        seen := seen[key := part[key]];
        moved := moved + 1;
        todo := todo - {key};
      }
      assert seen == part;
    }
  }

  // ---------------------------------------------------------------------------------------
  // Routing
  // ---------------------------------------------------------------------------------------

  // The hash is any fixed function from keys to natural numbers.
  type Hash = string -> nat

  function Multiple(q: nat, count: int): int {
    q * count
  }

  // The partition is what is left of the hash after taking out whole counts.
  ghost predicate IsOwner(hash: Hash, key: string, count: int, part: int) {
    0 <= part < count && exists q: nat :: Multiple(q, count) + part == hash(key)
  }

  function PartitionFor(hash: Hash, key: string, partitions: int): int
    requires partitions > 0
  {
    hash(key) % partitions
  }

  /** There is one such partition. */
  lemma {:induction false} OwnerIsUnique(hash: Hash, key: string, count: int, part: int)
    requires count > 0
    ensures IsOwner(hash, key, count, part) <==> part == PartitionFor(hash, key, count)
  {
    assert Multiple(hash(key) / count, count) + hash(key) % count == hash(key);
    if IsOwner(hash, key, count, part) {
      var q: nat :| Multiple(q, count) + part == hash(key);
      SameRemainder(q, hash(key) / count, count, part, hash(key) % count);
    }
  }

  lemma {:induction false} SameRemainder(p: nat, q: nat, count: int, a: int, b: int)
    requires 0 <= a < count && 0 <= b < count && Multiple(p, count) + a == Multiple(q, count) + b
    ensures a == b
  {
    var d := p - q;
    assert d * count == b - a;
    assert d >= 1 ==> (d - 1) * count >= 0;
    assert d <= -1 ==> (d + 1) * count <= 0;
  }

  function ByHash(hash: Hash): RouteFn {
    (key: string, count: int) => if count > 0 then PartitionFor(hash, key, count) else 0
  }

  datatype Routing = Routing(partitions: int, cache: map<string, int>, parts: Parts)

  function Routed(hash: Hash, r: Routing, key: string): int
    requires r.partitions > 0
  {
    if key in r.cache then r.cache[key] else PartitionFor(hash, key, r.partitions)
  }

  function AfterRoute(hash: Hash, r: Routing, key: string): Routing
    requires r.partitions > 0
  {
    r.(cache := r.cache[key := Routed(hash, r, key)])
  }

  function AfterAdd(r: Routing, part: int, key: string, value: int): Routing {
    if 0 <= part < |r.parts| then r.(parts := r.parts[part := Plus(r.parts[part], key, value)]) else r
  }

  function AfterResize(hash: Hash, r: Routing, partitions: nat): Routing {
    if partitions == r.partitions then r
    else Routing(partitions, map[],
                 if |r.parts| == r.partitions then Spread(r.parts, partitions, ByHash(hash)) else r.parts)
  }

  class Router {
    const hash: Hash
    const store: PartitionedStore
    var partitions: int
    var cache: map<string, int>

    function View(): Routing
      reads this, store
    {
      Routing(partitions, cache, store.parts)
    }

    constructor (partitions: int, store: PartitionedStore, hash: Hash)
      ensures this.store == store && this.hash == hash
      ensures View() == Routing(partitions, map[], store.parts)
    {
      this.partitions := partitions;
      this.cache := map[];
      this.store := store;
      this.hash := hash;
    }

    method PartitionForKey(key: string, partitions: int) returns (part: int)
      requires partitions > 0
      ensures IsOwner(hash, key, partitions, part)
      ensures part == PartitionFor(hash, key, partitions)
    {
      var sum := hash(key);
      part := sum % partitions;
      assert Multiple(sum / partitions, partitions) + part == hash(key);
    }

    method Route(key: string) returns (part: int)
      requires partitions > 0
      modifies this
      ensures part == Routed(hash, old(View()), key)
      ensures View() == AfterRoute(hash, old(View()), key)
    {
      if key in cache {
        assert cache[key := cache[key]] == cache;
        return cache[key];
      }
      part := PartitionForKey(key, partitions);
      cache := cache[key := part];
    }

    method Resize(partitions: nat)
      requires partitions > 0
      modifies this, store
      ensures View() == AfterResize(hash, old(View()), partitions)
      ensures old(this.partitions) == partitions || |old(store.parts)| != old(this.partitions) ==>
        store.parts == old(store.parts)
    {
      if partitions == this.partitions {
        return;
      }
      var moved := store.Repartition(this.partitions, partitions, ByHash(hash));
      this.partitions := partitions;
      this.cache := map[];
    }
  }

  // ---------------------------------------------------------------------------------------
  // Runs of route-then-add steps and resizes
  // ---------------------------------------------------------------------------------------

  datatype Op = RouteAdd(key: string, value: int) | Resize(partitions: nat)

  function Next(hash: Hash, r: Routing, op: Op): Routing {
    match op
    case RouteAdd(key, value) =>
      if r.partitions > 0 then AfterAdd(AfterRoute(hash, r, key), Routed(hash, r, key), key, value) else r
    case Resize(partitions) => AfterResize(hash, r, partitions)
  }

  function Run(hash: Hash, partitions: nat, ops: seq<Op>): Routing {
    if ops == [] then Routing(partitions, map[], seq(partitions, _ => map[]))
    else Next(hash, Run(hash, partitions, Front(ops)), Last(ops))
  }

  // The history of a run: the last count it set, and what it added to each key.
  function LastCount(partitions: nat, ops: seq<Op>): nat {
    if ops == [] then partitions
    else if Last(ops).Resize? then Last(ops).partitions
    else LastCount(partitions, Front(ops))
  }

  function AddedTo(ops: seq<Op>): Totals {
    if ops == [] then map[]
    else if Last(ops).RouteAdd? then Plus(AddedTo(Front(ops)), Last(ops).key, Last(ops).value)
    else AddedTo(Front(ops))
  }

  // Every key where the hash puts it, holding what was added to it, and nothing else anywhere.
  function Canonical(hash: Hash, count: nat, added: Totals): Parts
    requires count > 0
  {
    seq(count, p => map key | key in added && PartitionFor(hash, key, count) == p :: added[key])
  }

  ghost predicate Coherent(hash: Hash, r: Routing, added: Totals) {
    && r.partitions > 0
    && r.parts == Canonical(hash, r.partitions, added)
    && (forall key :: key in r.cache ==> r.cache[key] == PartitionFor(hash, key, r.partitions))
  }

  lemma CanonicalTotals(hash: Hash, count: nat, added: Totals, key: string)
    requires count > 0
    ensures KeyTotal(Canonical(hash, count, added), key) == At(added, key)
    ensures Holders(Canonical(hash, count, added), key) == if key in added then 1 else 0
  {
    var parts, owner := Canonical(hash, count, added), PartitionFor(hash, key, count);
    forall p | 0 <= p < |parts| && key in parts[p]
      ensures p == owner
    {
    }
    assert key in parts[owner] <==> key in added;
    TotalOfSoleHolder(parts, key, owner);
  }

  lemma CanonicalKeys(hash: Hash, count: nat, added: Totals)
    requires count > 0
    ensures KeysOf(Canonical(hash, count, added)) == added.Keys
  {
    var parts := Canonical(hash, count, added);
    KeysOfMembers(parts);
    forall key | key in added
      ensures key in KeysOf(parts)
    {
      assert key in parts[PartitionFor(hash, key, count)];
    }
  }

  lemma RouteAddKeeps(hash: Hash, r: Routing, added: Totals, key: string, value: int)
    requires Coherent(hash, r, added)
    ensures Coherent(hash, Next(hash, r, RouteAdd(key, value)), Plus(added, key, value))
  {
    var s := Next(hash, r, RouteAdd(key, value));
    var part := PartitionFor(hash, key, r.partitions);
    assert Routed(hash, r, key) == part;
    assert At(r.parts[part], key) == At(added, key);
    var next := Canonical(hash, r.partitions, Plus(added, key, value));
    forall p | 0 <= p < |next|
      ensures s.parts[p] == next[p]
    {
    }
  }

  lemma ResizeKeeps(hash: Hash, r: Routing, added: Totals, partitions: nat)
    requires Coherent(hash, r, added) && partitions > 0
    ensures Coherent(hash, AfterResize(hash, r, partitions), added)
    ensures AfterResize(hash, r, partitions).partitions == partitions
  {
    if partitions != r.partitions {
      var next, spread := Canonical(hash, partitions, added), Spread(r.parts, partitions, ByHash(hash));
      CanonicalKeys(hash, r.partitions, added);
      forall p | 0 <= p < partitions
        ensures spread[p] == next[p]
      {
        forall key
          ensures key in spread[p] <==> key in next[p]
          ensures key in spread[p] ==> spread[p][key] == next[p][key]
        {
          CanonicalTotals(hash, r.partitions, added, key);
        }
      }
      assert spread == next;
    }
  }

  /**
    However adds and resizes are interleaved, the store ends up as a function of the last count and of
    what was added to each key: every key in the one partition its hash names, with its full total.
   */
  lemma {:induction false} RoutingIsCanonical(hash: Hash, partitions: nat, ops: seq<Op>)
    requires partitions > 0 && forall op :: op in ops && op.Resize? ==> op.partitions > 0
    ensures Coherent(hash, Run(hash, partitions, ops), AddedTo(ops))
    ensures Run(hash, partitions, ops).partitions == LastCount(partitions, ops) == |Run(hash, partitions, ops).parts|
    decreases |ops|
  {
    if ops == [] {
      assert seq(partitions, _ => map[]) == Canonical(hash, partitions, map[]);
    } else {
      RoutingIsCanonical(hash, partitions, Front(ops));
      var r, added := Run(hash, partitions, Front(ops)), AddedTo(Front(ops));
      match Last(ops)
      case RouteAdd(key, value) => RouteAddKeeps(hash, r, added, key, value);
      case Resize(n) => ResizeKeeps(hash, r, added, n);
    }
  }

  // The values added to a key, in order.
  function AddedValues(ops: seq<Op>, key: string): seq<int> {
    if ops == [] then []
    else if Last(ops).RouteAdd? && Last(ops).key == key then AddedValues(Front(ops), key) + [Last(ops).value]
    else AddedValues(Front(ops), key)
  }

  lemma CountSnoc(partitions: nat, ops: seq<Op>, op: Op)
    ensures LastCount(partitions, ops + [op]) == if op.Resize? then op.partitions else LastCount(partitions, ops)
  {
    assert Front(ops + [op]) == ops;
  }

  lemma AddedSnoc(ops: seq<Op>, op: Op, key: string)
    ensures AddedValues(ops + [op], key) ==
      if op.RouteAdd? && op.key == key then AddedValues(ops, key) + [op.value] else AddedValues(ops, key)
  {
    assert Front(ops + [op]) == ops;
  }

  lemma {:induction false} AddedIsSum(ops: seq<Op>, key: string)
    ensures key in AddedTo(ops) <==> AddedValues(ops, key) != []
    ensures At(AddedTo(ops), key) == Sum(AddedValues(ops, key))
    decreases |ops|
  {
    if ops != [] {
      AddedIsSum(Front(ops), key);
      if Last(ops).RouteAdd? {
        SumSnoc(AddedValues(Front(ops), key), Last(ops).value);
      }
    }
  }

  /**
    In terms of the hash and the history alone: after any run a route, cached or not, names the remainder of the
    key's hash by the latest count, and just that partition holds the key, with the sum of what was added to it,
    if anything was.
   */
  lemma {:induction false} KeysLieAtTheirHash(hash: Hash, partitions: nat, ops: seq<Op>, key: string)
    requires partitions > 0 && forall op :: op in ops && op.Resize? ==> op.partitions > 0
    ensures
      var r, count, values := Run(hash, partitions, ops), LastCount(partitions, ops), AddedValues(ops, key);
      && r.partitions == count == |r.parts| && count > 0 && IsOwner(hash, key, count, Routed(hash, r, key))
      && (forall p :: 0 <= p < count ==>
            && (key in r.parts[p] <==> IsOwner(hash, key, count, p) && values != [])
            && (key in r.parts[p] ==> r.parts[p][key] == Sum(values)))
  {
    hide Run, PartitionFor, IsOwner, AddedTo, AddedValues, Sum;
    var r, count := Run(hash, partitions, ops), LastCount(partitions, ops);
    RoutingIsCanonical(hash, partitions, ops);
    AddedIsSum(ops, key);
    OwnerIsUnique(hash, key, count, Routed(hash, r, key));
    forall p | 0 <= p < count
      ensures IsOwner(hash, key, count, p) <==> p == PartitionFor(hash, key, count)
    {
      OwnerIsUnique(hash, key, count, p);
    }
  }

  // The key was routed since the latest change of the count.
  predicate RoutedSince(partitions: nat, ops: seq<Op>, key: string) {
    ops != [] &&
    match Last(ops)
    case RouteAdd(other, _) => other == key || RoutedSince(partitions, Front(ops), key)
    case Resize(n) => n == LastCount(partitions, Front(ops)) && RoutedSince(partitions, Front(ops), key)
  }

  /** The cache knows exactly the keys routed since then. */
  lemma {:induction false} CacheFollowsHistory(hash: Hash, partitions: nat, ops: seq<Op>, key: string)
    requires partitions > 0 && forall op :: op in ops && op.Resize? ==> op.partitions > 0
    ensures key in Run(hash, partitions, ops).cache <==> RoutedSince(partitions, ops, key)
    decreases |ops|
  {
    if ops != [] {
      hide PartitionFor, Coherent, Spread;
      CacheFollowsHistory(hash, partitions, Front(ops), key);
      RoutingIsCanonical(hash, partitions, Front(ops));
      CountIsPositive(hash, Run(hash, partitions, Front(ops)), AddedTo(Front(ops)));
    }
  }

  lemma CountIsPositive(hash: Hash, r: Routing, added: Totals)
    requires Coherent(hash, r, added)
    ensures r.partitions > 0
  {
  }

  // What an add does with a partition that was routed to earlier.
  datatype AddOutcome = InPlace | Misplaced | OutOfRange

  ghost function StaleAdd(hash: Hash, r: Routing, added: Totals, part: int, key: string, value: int): AddOutcome {
    if !(0 <= part < |r.parts|) then OutOfRange
    else if Coherent(hash, AfterAdd(r, part, key, value), Plus(added, key, value)) then InPlace
    else Misplaced
  }

  /**
    The two halves of an add take the lock separately. If a resize slips in between, the partition of the
    old count decides what happens: the value lands where the hash wants it when the new count maps the
    key there too; a partition beyond the new count is an index out of range; any other is the wrong one.
   */
  lemma StaleRouteMisplaces(hash: Hash, r: Routing, added: Totals, key: string, value: int, partitions: nat)
    requires Coherent(hash, r, added) && partitions > 0
    ensures
      var was, wanted := PartitionFor(hash, key, r.partitions), PartitionFor(hash, key, partitions);
      var resized := AfterResize(hash, AfterRoute(hash, r, key), partitions);
      StaleAdd(hash, resized, added, Routed(hash, r, key), key, value) ==
        if was == wanted then InPlace else if was >= partitions then OutOfRange else Misplaced
  {
    var part, routed := Routed(hash, r, key), AfterRoute(hash, r, key);
    assert part == PartitionFor(hash, key, r.partitions);
    ResizeKeeps(hash, routed, added, partitions);
    var resized := AfterResize(hash, routed, partitions);
    if part < |resized.parts| {
      var next := AfterAdd(resized, part, key, value);
      if PartitionFor(hash, key, partitions) == part {
        RouteAddKeeps(hash, resized, added, key, value);
        assert next.parts == Next(hash, resized, RouteAdd(key, value)).parts;
      } else {
        assert key in next.parts[part];
        assert key !in Canonical(hash, partitions, Plus(added, key, value))[part];
      }
    }
  }
}
