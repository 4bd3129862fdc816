/**
 * The theorems of the other modules on the concrete hash ring: the stores tile it, it is a flat
 * newest-wins map, and every run of in-order events keeps the queues sorted and bookmarked.
 */
module RingTheorems {
  import opened Types
  import opened Ring
  import opened NewestWins
  import opened World
  import opened Ownership
  import opened StoreTheorems
  import opened Placement
  import NodeStores
  import Queues = QueueTheorems
  import LW = ListWatch
  import Origin = ListWatchOrigin
  import Coverage = ListWatchCoverage

  // ---------------------------------------------------------------- tiling

  /** The bounds and the location of one generated store. */
  datatype Slot = Slot(lower: real, upper: real, loc: Location)

  /** One store after the other, each with its width, from 0 to 360. */
  ghost predicate Tiling(slots: seq<Slot>) {
    && slots != [] && slots[0].lower == 0.0 && slots[|slots| - 1].upper == RING_RANGE
    && (forall k :: 0 <= k < |slots| ==> slots[k].lower < slots[k].upper)
    && (forall k :: 0 <= k < |slots| - 1 ==> slots[k].upper == slots[k + 1].lower)
  }

  /** The stores of a location cut its arc: the first starts with it and the last ends with it. */
  ghost predicate CutsArc(r: Ring, slots: seq<Slot>, loc: Location) {
    var first, arc := Block(r, loc) * r.perPartition, ArcAt(r.regions, r.partitions, loc);
    && 0 <= first <= first + r.perPartition <= |slots|
    && slots[first].lower == arc.lower && slots[first + r.perPartition - 1].upper == arc.upper
    && forall k :: 0 <= k < |slots| ==> (slots[k].loc == loc <==> first <= k < first + r.perPartition)
  }

  ghost predicate AreSlots(r: Ring, slots: seq<Slot>)
  {
    && |slots| == StoreCount(r) > 0
    && forall k :: 0 <= k < |slots| ==> NodeStores.IsSlot(r, k, slots[k].lower, slots[k].upper, slots[k].loc)
  }

  lemma SlotAt(r: Ring, slots: seq<Slot>, k: nat)
    requires AreSlots(r, slots) && k < |slots|
    ensures slots[k].lower == Edge(r, k) < Edge(r, k + 1) == slots[k].upper
    ensures InBlock(r, slots[k].loc, k)
  {
    EdgeStep(r, k);
  }

  /** The generated stores tile the ring. */
  lemma StoresTileTheRing(r: Ring, slots: seq<Slot>)
    requires AreSlots(r, slots)
    ensures Tiling(slots)
  {
    hide AreSlots, Edge, StoreCount, InBlock;
    RingEdges(r);
    SlotCount(r, slots);
    forall k | 0 <= k < |slots|
      ensures slots[k].lower == Edge(r, k) && slots[k].upper == Edge(r, k + 1) && slots[k].lower < slots[k].upper
    {
      SlotAt(r, slots, k);
    }
    var last := |slots| - 1;
    assert slots[0].lower == Edge(r, 0);
    assert slots[last].upper == Edge(r, last + 1);
    forall k | 0 <= k < last
      ensures slots[k].upper == slots[k + 1].lower
    {
      assert slots[k].upper == Edge(r, k + 1);
      assert slots[k + 1].lower == Edge(r, k + 1);
    }
  }

  lemma {:induction false} OwnBlock(r: Ring, slots: seq<Slot>, loc: Location, k: nat)
    requires AreSlots(r, slots) && HasLocation(r, loc) && k < |slots|
    ensures slots[k].loc == loc
            <==> Block(r, loc) * r.perPartition <= k < Block(r, loc) * r.perPartition + r.perPartition
  {
    SlotAt(r, slots, k);
    if InBlock(r, loc, k) {
      BlocksAreDisjoint(r, slots[k].loc, loc, k);
    }
  }

  /** The stores of every location tile its arc. */
  lemma {:induction false} StoresCutEveryArc(r: Ring, slots: seq<Slot>, loc: Location)
    requires AreSlots(r, slots) && HasLocation(r, loc)
    ensures CutsArc(r, slots, loc)
  {
    hide AreSlots, Edge, ArcAt, StoreCount, Block, InBlock;
    ArcEdges(r, loc);
    BlockRange(r, loc);
    StoreCountIs(r);
    SlotCount(r, slots);
    var first, v := Block(r, loc) * r.perPartition, r.perPartition;
    BlockFits(Block(r, loc), r.regions * r.partitions, v);
    SlotAt(r, slots, first);
    SlotAt(r, slots, first + v - 1);
    forall k | 0 <= k < |slots|
      ensures slots[k].loc == loc <==> first <= k < first + v
    {
      OwnBlock(r, slots, loc, k);
    }
  }

  lemma SlotCount(r: Ring, slots: seq<Slot>)
    requires AreSlots(r, slots)
    ensures |slots| == StoreCount(r)
  {
  }

  lemma {:induction false} BlockFits(b: int, n: nat, v: nat)
    requires 0 <= b < n
    ensures 0 <= b * v <= b * v + v <= n * v
  {
    if b < n - 1 {
      MulGap(b, n, v);
    }
  }

  /** The bounds and locations of the stores of a node store. */
  ghost predicate SlotsOf(ns: NodeStores.NodeStore, slots: seq<Slot>)
    reads ns`vNodeStores, ns.vNodeStores
  {
    && |slots| == |ns.vNodeStores|
    && forall k :: 0 <= k < |slots| ==>
         slots[k] == Slot(ns.vNodeStores[k].lowerbound, ns.vNodeStores[k].upperbound, ns.vNodeStores[k].location)
  }

  /** Store `k` of all `n`: from 360*k/n to 360*(k+1)/n degrees, at the location numbered `k / v`. */
  ghost predicate InDegrees(r: Ring, slot: Slot, k: nat) {
    var n := (r.perPartition * r.regions * r.partitions) as real;
    && slot.lower * n == 360.0 * (k as real) && slot.upper * n == 360.0 * ((k + 1) as real)
    && slot.loc == Location(k / r.perPartition / r.partitions, k / r.perPartition % r.partitions)
  }

  lemma {:induction false} SlotInDegrees(r: Ring, slots: seq<Slot>, k: nat)
    requires AreSlots(r, slots) && k < |slots|
    ensures InDegrees(r, slots[k], k)
  {
    SlotAt(r, slots, k);
    EdgeInDegrees(r, k);
    EdgeInDegrees(r, k + 1);
    hide AreSlots, Edge, StoreCount, Block;
    LocationOfStore(r, slots[k].loc, k);
  }

  /** In every valid node store, and so in every one that is constructed, the stores tile the ring. */
  lemma {:induction false} NodeStoreTilesTheRing(ns: NodeStores.NodeStore, slots: seq<Slot>)
    requires ns.Valid() && SlotsOf(ns, slots)
    ensures Tiling(slots)
    ensures forall loc :: HasLocation(ns.ring, loc) ==> CutsArc(ns.ring, slots, loc)
    ensures |slots| == ns.ring.perPartition * ns.ring.regions * ns.ring.partitions
    ensures forall k :: 0 <= k < |slots| ==> InDegrees(ns.ring, slots[k], k)
  {
    assert AreSlots(ns.ring, slots);
    StoresTileTheRing(ns.ring, slots);
    SlotCount(ns.ring, slots);
    forall k | 0 <= k < |slots|
      ensures InDegrees(ns.ring, slots[k], k)
    {
      SlotInDegrees(ns.ring, slots, k);
    }
    forall loc | HasLocation(ns.ring, loc)
      ensures CutsArc(ns.ring, slots, loc)
    {
      StoresCutEveryArc(ns.ring, slots, loc);
    }
  }

  // ---------------------------------------------------------------- the ring as a flat map

  /** On the hash ring a read finds the newest event of a node, whatever was processed. */
  lemma {:induction false} HashRingReadsNewest(r: Ring, w: RingState, keys: set<Key>, es: seq<Event>, k: Key)
    requires Empty(w) && Layout(r, w.stores) && DistinctHashes(r, keys) && AllInUse(w, keys, es) && k in keys
    ensures forall i :: 0 <= i < |es| ==> CanProcess(RouterOf(r), w, es[i])
    ensures 0 <= StoreIndex(r, k.0, k.1) < |w.stores|
    ensures match ReadNode(RouterOf(r), ProcessAll(RouterOf(r), w, es), k.0, k.1)
            case None => forall e :: e in es && IsUpdate(e) ==> KeyOf(e) != k
            case Some(n) => exists e :: e in es && IsUpdate(e) && KeyOf(e) == k && e.node == n
                              && forall o :: o in es && IsUpdate(o) && KeyOf(o) == k ==> o.node.rv <= n.rv
  {
    RingIsCollisionFree(r, keys);
    RoutingOnRing(r, k.0, k.1);
    hide StoreIndex, NodeHash, DistinctHashes, Layout;
    GetNodeIsNewest(RouterOf(r), w, keys, es, k);
  }

  /** A node that another was stored for: an id with the hash of a stored node finds that node's place. */
  lemma SameHashSamePlace(r: Ring, loc: Location, x: string, y: string)
    requires r.hash(x) == r.hash(y)
    ensures StoreIndex(r, loc, x) == StoreIndex(r, loc, y) && NodeHash(r, loc, x) == NodeHash(r, loc, y)
  {
  }

  /** A boundary hash gives a position that no inner hash has, at any location. */
  lemma BoundaryMeetsNobody(r: Ring, a: Location, b: Location, x: string, y: string)
    requires !Inner(r, x) && Inner(r, y)
    ensures NodeHash(r, a, x) != NodeHash(r, b, y)
  {
    hide NodeHash, Granularity, RingValue, Inner, Block, StoreCount;
    HashInStores(r, a, x);
    HashInStores(r, b, y);
    RingValueRange(r, x);
    RingValueRange(r, y);
    NeverWhole(Block(r, a), Block(r, b), RingValue(r, y), r.perPartition);
  }

  /** Whole blocks plus a proper fraction of one are not whole blocks. */
  lemma NeverWhole(a: int, b: int, x: real, v: nat)
    requires 0.0 < x < 1.0 && v > 0
    ensures ((a * v) as real) + 1.0 * (v as real) != ((b * v) as real) + x * (v as real)
  {
    Fraction(x, v as real);
    var t := x * (v as real);
    if a < b {
      MulGap(a, b, v);
    } else if b < a {
      MulGap(b, a, v);
    }
  }

  /**
   * Reading any id at a known location, in use or not: what is found is the node of that location
   * whose id has the same hash. It has the id asked for exactly when that id is stored.
   */
  lemma {:induction false} ReadFindsTheHash(r: Ring, w: RingState, m: Versions, keys: set<Key>, loc: Location,
                                            id: string)
    requires Layout(r, w.stores) && DistinctHashes(r, keys) && Represents(RouterOf(r), w, m, keys)
    requires HasLocation(r, loc) && 0 <= StoreIndex(r, loc, id) < |w.stores|
    ensures match ReadNode(RouterOf(r), w, loc, id)
            case None => forall k :: k in m && k.0 == loc ==> r.hash(k.1) != r.hash(id)
            case Some(n) =>
              && (loc, n.id) in m && m[(loc, n.id)].node == n && r.hash(n.id) == r.hash(id)
              && (n.id == id <==> (loc, id) in m)
  {
    hide StoreIndex, NodeHash, Layout, Inner, CollisionFree;
    var i, h := StoreIndex(r, loc, id), NodeHash(r, loc, id);
    if h in w.stores[i].nodes {
      FoundHasTheHash(r, w, m, keys, loc, id);
    } else {
      forall k | k in m && k.0 == loc
        ensures r.hash(k.1) != r.hash(id)
      {
        if r.hash(k.1) == r.hash(id) {
          SameHashSamePlace(r, loc, k.1, id);
          EntryIsFlat(RouterOf(r), w, m, keys, k);
        }
      }
    }
  }

  lemma {:induction false} FoundHasTheHash(r: Ring, w: RingState, m: Versions, keys: set<Key>, loc: Location,
                                           id: string)
    requires DistinctHashes(r, keys) && Represents(RouterOf(r), w, m, keys)
    requires HasLocation(r, loc) && 0 <= StoreIndex(r, loc, id) < |w.stores|
    requires NodeHash(r, loc, id) in w.stores[StoreIndex(r, loc, id)].nodes
    ensures var n := w.stores[StoreIndex(r, loc, id)].nodes[NodeHash(r, loc, id)].node;
            && (loc, n.id) in m && m[(loc, n.id)].node == n && r.hash(n.id) == r.hash(id)
            && (n.id == id <==> (loc, id) in m)
  {
    hide StoreIndex, NodeHash, Inner, CollisionFree;
    var e := w.stores[StoreIndex(r, loc, id)].nodes[NodeHash(r, loc, id)];
    EntryAt(RouterOf(r), w, m, StoreIndex(r, loc, id), NodeHash(r, loc, id));
    assert KeyOf(e) in keys && NodeHash(r, e.loc, e.node.id) == NodeHash(r, loc, id);
    if !Inner(r, id) {
      BoundaryMeetsNobody(r, loc, e.loc, id, e.node.id);
    }
    NodeHashInjective(r, e.loc, loc, e.node.id, id);
  }

  // ---------------------------------------------------------------- collisions

  /** An Added event at the place of another node of equal hash collides with it. */
  lemma EqualHashesCollide(r: Ring, w: RingState, x: Event, y: Event)
    requires y.kind.Added? && y.loc == x.loc && y.node.id != x.node.id && r.hash(y.node.id) == r.hash(x.node.id)
    requires CanProcess(RouterOf(r), w, y) && 0 <= Index(RouterOf(r), x) < |w.stores|
    requires Lookup(w.stores[Index(RouterOf(r), x)].nodes, Hash(RouterOf(r), x)) == Some(x)
    ensures Collides(RouterOf(r), w, y)
  {
    SameHashSamePlace(r, x.loc, x.node.id, y.node.id);
    hide StoreIndex, NodeHash;
  }

  /**
   * On every ring, from the start: two nodes of one location whose ids have the same inner hash are
   * added, and then two hosts are counted while one is held.
   */
  lemma {:induction false} AddedMayCollide(r: Ring, w: World, x: Event, y: Event)
    requires Initial(w) && Layout(r, w.ring.stores) && x.loc in w.ring.rvs && HasLocation(r, x.loc)
    requires x.kind.Added? && y.kind.Added? && y.loc == x.loc && y.node.id != x.node.id
    requires Inner(r, x.node.id) && r.hash(y.node.id) == r.hash(x.node.id)
    ensures var all := [x, y];
            && (forall i :: 0 <= i < |all| ==> CanProcess(RouterOf(r), w.ring, all[i]))
            && ProcessAll(RouterOf(r), w.ring, all).total == 2
            && AllHosts(ProcessAll(RouterOf(r), w.ring, all).stores) == 1
  {
    RoutingOnRing(r, x.loc, x.node.id);
    SameHashSamePlace(r, x.loc, x.node.id, y.node.id);
    LayoutSize(r, w.ring.stores);
    InitiallyNoHosts(w);
    hide StoreIndex, NodeHash, Layout, Inner, AllHosts;
    var w1 := Process(RouterOf(r), w.ring, x);
    TwoProcessed(RouterOf(r), w.ring, x, y);
    ProcessCounts(RouterOf(r), w.ring, x);
    EqualHashesCollide(r, w1, x, y);
    ProcessCounts(RouterOf(r), w1, y);
  }

  lemma TwoProcessed(r: Router, w: RingState, x: Event, y: Event)
    requires CanProcess(r, w, x) && CanProcess(r, w, y)
    ensures forall i :: 0 <= i < 2 ==> CanProcess(r, w, [x, y][i])
    ensures CanProcess(r, Process(r, w, x), y)
    ensures ProcessAll(r, w, [x, y]) == Process(r, Process(r, w, x), y)
  {
    assert [x, y][..1] == [x] && [x][..0] == [];
    assert ProcessAll(r, w, [x]) == Process(r, w, x);
  }

  // ---------------------------------------------------------------- runs

  /** Events of nodes with inner hashes at known locations, and registrations under any name. */
  ghost predicate Usual(r: Ring, op: Op) {
    match op
    case Deliver(e) => IsUpdate(e) ==> HasLocation(r, e.loc) && Inner(r, e.node.id)
    case Register(_, _, _, _) => true
  }

  predicate IsUpdateAt(op: Op, loc: Location) {
    op.Deliver? && IsUpdate(op.e) && op.e.loc == loc
  }

  /** The updates of every location are delivered in version order. */
  ghost predicate VersionsInOrder(ops: seq<Op>) {
    forall i, j, loc :: 0 <= i < j < |ops| && IsUpdateAt(ops[i], loc) && IsUpdateAt(ops[j], loc) ==>
      ops[i].e.node.rv <= ops[j].e.node.rv
  }

  lemma {:induction false} VersionsStayBelow(r: Router, w: World, ops: seq<Op>, loc: Location, rv: nat)
    requires Initial(w) && Legal(r, w, ops) && loc in w.ring.rvs
    requires forall i :: 0 <= i < |ops| && IsUpdateAt(ops[i], loc) ==> ops[i].e.node.rv <= rv
    ensures loc in Run(r, w, ops).ring.rvs && Run(r, w, ops).ring.rvs[loc] <= rv
  {
    if ops != [] {
      var init, last := ops[..|ops| - 1], ops[|ops| - 1];
      assert forall i :: 0 <= i < |init| ==> init[i] == ops[i];
      VersionsStayBelow(r, w, init, loc, rv);
      assert IsUpdateAt(last, loc) ==> last.e.node.rv <= rv;
    }
  }

  lemma {:induction false} VersionIsDelivered(r: Router, w: World, ops: seq<Op>, loc: Location)
    requires Initial(w) && Legal(r, w, ops) && loc in w.ring.rvs
    ensures loc in Run(r, w, ops).ring.rvs
    ensures var rv := Run(r, w, ops).ring.rvs[loc];
            && (forall i :: 0 <= i < |ops| && IsUpdateAt(ops[i], loc) ==> ops[i].e.node.rv <= rv)
            && (rv == 0 || exists i :: 0 <= i < |ops| && IsUpdateAt(ops[i], loc) && ops[i].e.node.rv == rv)
  {
    if ops != [] {
      var init, last := ops[..|ops| - 1], ops[|ops| - 1];
      assert forall i :: 0 <= i < |init| ==> init[i] == ops[i];
      VersionIsDelivered(r, w, init, loc);
      var before, rv := Run(r, w, init).ring.rvs[loc], Run(r, w, ops).ring.rvs[loc];
      assert rv == if IsUpdateAt(last, loc) && last.e.node.rv > before then last.e.node.rv else before;
      if rv != 0 && rv == before {
        var i :| 0 <= i < |init| && IsUpdateAt(init[i], loc) && init[i].e.node.rv == rv;
        assert IsUpdateAt(ops[i], loc) && ops[i].e.node.rv == rv;
      }
    }
  }

  lemma {:induction false} UpdatedLocationsExist(r: Router, w: World, ops: seq<Op>, i: nat)
    requires Legal(r, w, ops) && i < |ops| && ops[i].Deliver? && IsUpdate(ops[i].e)
    ensures ops[i].e.loc in w.ring.rvs && Run(r, w, ops).ring.rvs.Keys == w.ring.rvs.Keys
  {
    var init, last := ops[..|ops| - 1], ops[|ops| - 1];
    RunKeepsLocations(r, w, init);
    if i < |init| {
      UpdatedLocationsExist(r, w, init, i);
    }
    RunKeepsLocations(r, w, ops);
  }

  lemma {:induction false} RunKeepsLocations(r: Router, w: World, ops: seq<Op>)
    requires Legal(r, w, ops)
    ensures Run(r, w, ops).ring.rvs.Keys == w.ring.rvs.Keys
  {
    if ops != [] {
      RunKeepsLocations(r, w, ops[..|ops| - 1]);
      StepKeepsPlaces(r, Run(r, w, ops[..|ops| - 1]), ops[|ops| - 1]);
    }
  }

  /**
   * The versions reported after any run from the start: a location is named exactly when an Added or
   * Modified event of positive version was delivered there, and with the greatest of their versions.
   */
  lemma {:induction false} VersionsReported(r: Router, w: World, ops: seq<Op>, loc: Location)
    requires Initial(w) && Legal(r, w, ops)
    ensures var seen := NodeStores.SeenVersions(Run(r, w, ops).ring.rvs);
            && (loc in seen <==> exists i :: 0 <= i < |ops| && IsUpdateAt(ops[i], loc) && ops[i].e.node.rv > 0)
            && (loc in seen ==>
                  && (forall i :: 0 <= i < |ops| && IsUpdateAt(ops[i], loc) ==> ops[i].e.node.rv <= seen[loc])
                  && exists i :: 0 <= i < |ops| && IsUpdateAt(ops[i], loc) && ops[i].e.node.rv == seen[loc])
  {
    RunKeepsLocations(r, w, ops);
    if loc in w.ring.rvs {
      VersionIsDelivered(r, w, ops, loc);
    } else {
      forall i | 0 <= i < |ops| && IsUpdateAt(ops[i], loc)
        ensures false
      {
        UpdatedLocationsExist(r, w, ops, i);
      }
    }
  }

  lemma {:induction false} RunKeepsLayout(r: Ring, w: World, ops: seq<Op>)
    requires Layout(r, w.ring.stores) && Legal(RouterOf(r), w, ops)
    ensures Layout(r, Run(RouterOf(r), w, ops).ring.stores)
    ensures Run(RouterOf(r), w, ops).ring.rvs.Keys == w.ring.rvs.Keys
  {
    if ops != [] {
      var init, last := ops[..|ops| - 1], ops[|ops| - 1];
      RunKeepsLayout(r, w, init);
      StepKeepsLayout(r, Run(RouterOf(r), w, init), last);
    }
  }

  lemma StepKeepsPlaces(r: Router, w: World, op: Op)
    requires Enabled(r, w, op)
    ensures var w' := Step(r, w, op);
            && |w'.ring.stores| == |w.ring.stores| && w'.ring.rvs.Keys == w.ring.rvs.Keys
            && forall i :: 0 <= i < |w.ring.stores| ==> w'.ring.stores[i].loc == w.ring.stores[i].loc
  {
    hide Refusal, IsGrant, MarksFor, EnqueueAll;
    if op.Deliver? {
      ProcessKeepsStores(r, w.ring, op.e);
    }
  }

  lemma StepKeepsLayout(r: Ring, w: World, op: Op)
    requires Layout(r, w.ring.stores) && Enabled(RouterOf(r), w, op)
    ensures Layout(r, Step(RouterOf(r), w, op).ring.stores)
    ensures Step(RouterOf(r), w, op).ring.rvs.Keys == w.ring.rvs.Keys
  {
    hide StoreCount, InBlock, Step, RouterOf, Enabled;
    StepKeepsPlaces(RouterOf(r), w, op);
  }

  /** On the hash ring, in-order runs of usual events are orderly: routing stays home. */
  lemma {:induction false} HashRingRunsAreOrderly(r: Ring, w: World, ops: seq<Op>)
    requires Initial(w) && Layout(r, w.ring.stores) && Legal(RouterOf(r), w, ops)
    requires forall i :: 0 <= i < |ops| ==> Usual(r, ops[i])
    requires VersionsInOrder(ops)
    ensures Queues.OrderlyRun(RouterOf(r), w, ops)
  {
    if ops != [] {
      var init, last := ops[..|ops| - 1], ops[|ops| - 1];
      assert forall i :: 0 <= i < |init| ==> init[i] == ops[i];
      HashRingRunsAreOrderly(r, w, init);
      RunKeepsLayout(r, w, init);
      LastIsOrderly(r, w, ops);
    }
  }

  lemma {:induction false} LastIsOrderly(r: Ring, w: World, ops: seq<Op>)
    requires Initial(w) && ops != [] && Legal(RouterOf(r), w, ops)
    requires Layout(r, Run(RouterOf(r), w, ops[..|ops| - 1]).ring.stores)
    requires Run(RouterOf(r), w, ops[..|ops| - 1]).ring.rvs.Keys == w.ring.rvs.Keys
    requires Usual(r, ops[|ops| - 1]) && VersionsInOrder(ops)
    ensures Queues.Orderly(RouterOf(r), Run(RouterOf(r), w, ops[..|ops| - 1]), ops[|ops| - 1])
  {
    var init, last := ops[..|ops| - 1], ops[|ops| - 1];
    var now := Run(RouterOf(r), w, init);
    if last.Deliver? && IsUpdate(last.e) {
      var e := last.e;
      RoutedHome(r, now.ring.stores, e);
      assert IsUpdateAt(last, e.loc);
      forall i | 0 <= i < |init| && IsUpdateAt(init[i], e.loc)
        ensures init[i].e.node.rv <= e.node.rv
      {
        assert IsUpdateAt(ops[i], e.loc);
      }
      VersionsStayBelow(RouterOf(r), w, init, e.loc, e.node.rv);
    }
  }

  /**
   * On the hash ring, from the start and over every run of registrations and of events that come
   * in version order at each location: queues stay sorted and every client keeps a bookmark covered.
   */
  lemma {:induction false} HashRingRunsKeepInv(r: Ring, w: World, ops: seq<Op>)
    requires Initial(w) && Layout(r, w.ring.stores) && Legal(RouterOf(r), w, ops)
    requires forall i :: 0 <= i < |ops| ==> Usual(r, ops[i])
    requires VersionsInOrder(ops)
    ensures Queues.Inv(Run(RouterOf(r), w, ops))
  {
    HashRingRunsAreOrderly(r, w, ops);
    Queues.RunKeepsInv(RouterOf(r), w, ops);
  }

  /** The Added and Modified events of a run, in order. */
  function UpdatesIn(ops: seq<Op>): seq<Event> {
    if ops == [] then []
    else
      var last := ops[|ops| - 1];
      UpdatesIn(ops[..|ops| - 1]) + if last.Deliver? && IsUpdate(last.e) then [last.e] else []
  }

  ghost predicate NamesInUse(keys: set<Key>, ops: seq<Op>) {
    forall i :: 0 <= i < |ops| && ops[i].Deliver? && IsUpdate(ops[i].e) ==> KeyOf(ops[i].e) in keys
  }

  /** Deliveries and registrations in any order: the ring holds the newest version of every node. */
  lemma {:induction false} RunIsFlatMap(r: Router, w: World, keys: set<Key>, ops: seq<Op>)
    requires Initial(w) && Legal(r, w, ops) && CollisionFree(r, |w.ring.stores|, keys) && NamesInUse(keys, ops)
    ensures Represents(r, Run(r, w, ops).ring, MergeAll(map[], UpdatesIn(ops)), keys)
  {
    if ops != [] {
      var init, last := ops[..|ops| - 1], ops[|ops| - 1];
      RunIsFlatMap(r, w, keys, init);
      StepIsFlatMap(r, Run(r, w, init), MergeAll(map[], UpdatesIn(init)), keys, last);
      var us := UpdatesIn(ops);
      if us != UpdatesIn(init) {
        assert us[..|us| - 1] == UpdatesIn(init);
      }
    }
  }

  lemma {:induction false} StepIsFlatMap(r: Router, w: World, m: Versions, keys: set<Key>, op: Op)
    requires Represents(r, w.ring, m, keys) && Enabled(r, w, op)
    requires op.Deliver? && IsUpdate(op.e) ==> KeyOf(op.e) in keys
    ensures Represents(r, Step(r, w, op).ring, if op.Deliver? && IsUpdate(op.e) then Merge(m, op.e) else m, keys)
  {
    hide Represents, Process, Merge;
    match op
    case Deliver(e) =>
      if IsUpdate(e) {
        ProcessRefinesMerge(r, w.ring, m, keys, e);
      } else {
        ProcessIgnores(r, w.ring, e);
      }
    case Register(c, request, sel, marks) =>
      Origin.AssignRepresents(r, w.ring, m, keys, sel, c);
  }

  /** Where no two nodes in use share a position, no event meets another node. */
  lemma NothingCollides(r: Router, w: RingState, m: Versions, keys: set<Key>, e: Event)
    requires Represents(r, w, m, keys) && IsUpdate(e) && KeyOf(e) in keys && CanProcess(r, w, e)
    ensures !Collides(r, w, e)
  {
    EntryIsFlat(r, w, m, keys, KeyOf(e));
  }

  /** Without collisions the host count is the number of nodes in the stores, over every run. */
  lemma {:induction false} HostCountIsExact(r: Router, w: World, keys: set<Key>, ops: seq<Op>)
    requires Initial(w) && Legal(r, w, ops) && CollisionFree(r, |w.ring.stores|, keys) && NamesInUse(keys, ops)
    ensures CollisionsIn(r, w, ops) == 0
    ensures Run(r, w, ops).ring.total == AllHosts(Run(r, w, ops).ring.stores)
  {
    if ops != [] {
      var init, last := ops[..|ops| - 1], ops[|ops| - 1];
      HostCountIsExact(r, w, keys, init);
      RunIsFlatMap(r, w, keys, init);
      if last.Deliver? && IsUpdate(last.e) {
        NothingCollides(r, Run(r, w, init).ring, MergeAll(map[], UpdatesIn(init)), keys, last.e);
      }
    }
    InitiallyNoHosts(w);
    RunCounts(r, w, ops);
  }

  lemma {:induction false} HashRingIsHome(r: Ring, w: RingState, keys: set<Key>)
    requires Layout(r, w.stores) && DistinctHashes(r, keys)
    ensures Origin.AtHome(RouterOf(r), w, keys)
  {
    forall k | k in keys
      ensures 0 <= StoreIndex(r, k.0, k.1) < |w.stores| && w.stores[StoreIndex(r, k.0, k.1)].loc == k.0
    {
      RoutedHome(r, w.stores, Event(Added, k.0, Node(k.1, 0, "")));
    }
  }

  /**
   * On the hash ring, after any run of registrations and in-order events of nodes with distinct
   * hashes, every further registration starts the list-then-watch protocol in its invariant, with
   * the newest version of each node as what the client has to learn.
   */
  lemma {:induction false} EveryRegistrationStartsProtocol(r: Ring, w: World, keys: set<Key>, ops: seq<Op>,
                                        client: string, request: int, sel: seq<nat>, marks: seq<Event>, strict: bool)
    requires Initial(w) && Layout(r, w.ring.stores) && Legal(RouterOf(r), w, ops)
    requires DistinctHashes(r, keys) && NamesInUse(keys, ops) && VersionsInOrder(ops)
    requires forall i :: 0 <= i < |ops| ==> Usual(r, ops[i])
    requires client != "" && Enabled(RouterOf(r), Run(RouterOf(r), w, ops), Register(client, request, sel, marks))
    ensures var now := Run(RouterOf(r), w, ops);
            var next := Step(RouterOf(r), now, Register(client, request, sel, marks));
            var c := Origin.SettingOf(RouterOf(r), now.ring, keys, sel, strict);
            var start := Origin.Resting(c, next, MergeAll(map[], UpdatesIn(ops)), client);
            LW.Inv(c, start) && Coverage.TailInv(c, start) && Origin.Quiet(c, start)
  {
    var now := Run(RouterOf(r), w, ops);
    HashRingRunsKeepInv(r, w, ops);
    RingIsCollisionFree(r, keys);
    LayoutSize(r, w.ring.stores);
    RunIsFlatMap(RouterOf(r), w, keys, ops);
    RunKeepsLayout(r, w, ops);
    HashRingIsHome(r, now.ring, keys);
    hide *;
    Origin.RegistrationStartsProtocol(RouterOf(r), now, MergeAll(map[], UpdatesIn(ops)), keys, client, request, sel,
        marks, strict);
  }

  lemma LayoutSize(r: Ring, stores: seq<VStore>)
    requires Layout(r, stores)
    ensures |stores| == StoreCount(r)
  {
  }
}
