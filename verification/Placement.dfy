/** The placement that the hash ring gives, and that it meets what the store theorems ask for. */
module Placement {
  import opened Types
  import opened Ring
  import opened NewestWins
  import opened World
  import opened StoreTheorems

  function RouterOf(r: Ring): Router {
    Router((loc, id) => StoreIndex(r, loc, id), (loc, id) => NodeHash(r, loc, id))
  }

  /**
   * The placement from the hash alone. Location number `b` of `n` has stores `b*v` and on, and the
   * degrees from 360*b/n on; the hash's share of all hashes leads to store and position. Hash 0
   * counts as the greatest.
   */
  lemma {:induction false} RouterFromHash(r: Ring, loc: Location, id: string)
    ensures var b, n := loc.region * r.partitions + loc.partition, r.regions * r.partitions;
            var h, v, all := r.hash(id), r.perPartition, 0xFFFF_FFFF_FFFF_FFFF;
            && RouterOf(r).index(loc, id) == b * v + (if h == 0 then v else (h * v) / all)
            && RouterOf(r).hash(loc, id) * (n as real) * (all as real)
               == 360.0 * ((b as real) * (all as real) + (if h == 0 then all else h) as real)
  {
    StoreIndexFromHash(r, loc, id);
    NodeHashInDegrees(r, loc, id);
    hide StoreIndex, NodeHash;
  }

  /** The stores as generated: for each location in ring order, its `perPartition` stores. */
  predicate InBlock(r: Ring, loc: Location, i: int) {
    HasLocation(r, loc) && Block(r, loc) * r.perPartition <= i < Block(r, loc) * r.perPartition + r.perPartition
  }

  ghost predicate Layout(r: Ring, stores: seq<VStore>) {
    && |stores| == StoreCount(r)
    && forall i :: 0 <= i < |stores| ==> InBlock(r, stores[i].loc, i)
  }

  lemma {:induction false} BlocksAreDisjoint(r: Ring, a: Location, b: Location, i: int)
    requires InBlock(r, a, i) && InBlock(r, b, i)
    ensures a == b
  {
    hide StoreCount;
    SameBlock(Block(r, a), Block(r, b), r.perPartition, i);
    BlockInjective(r, a, b);
  }

  /** A node goes to a store of its own location exactly when its hash is not a boundary hash. */
  lemma {:induction false} RoutedHome(r: Ring, stores: seq<VStore>, e: Event)
    requires Layout(r, stores) && HasLocation(r, e.loc)
    ensures Inner(r, e.node.id) <==>
            0 <= Index(RouterOf(r), e) < |stores| && stores[Index(RouterOf(r), e)].loc == e.loc
  {
    var id, k := e.node.id, StoreIndex(r, e.loc, e.node.id);
    assert Index(RouterOf(r), e) == k;
    hide StoreIndex, StoreCount, Inner;
    RoutingStaysHome(r, e.loc, id);
    RoutingOnRing(r, e.loc, id);
    if 0 <= k < |stores| {
      assert InBlock(r, stores[k].loc, k);
      if Inner(r, id) {
        BlocksAreDisjoint(r, stores[k].loc, e.loc, k);
      }
    }
  }

  /** Ids in use at known locations, none with a boundary hash, no two with the same hash. */
  ghost predicate DistinctHashes(r: Ring, keys: set<Key>) {
    && (forall k :: k in keys ==> HasLocation(r, k.0) && Inner(r, k.1))
    && (forall a, b :: a in keys && b in keys && r.hash(a.1) == r.hash(b.1) ==> a.1 == b.1)
  }

  /** On the hash ring, distinct hashes are enough for distinct positions. */
  lemma RingIsCollisionFree(r: Ring, keys: set<Key>)
    requires DistinctHashes(r, keys)
    ensures CollisionFree(RouterOf(r), StoreCount(r), keys)
  {
    hide StoreIndex, NodeHash, StoreCount, Inner;
    forall k | k in keys
      ensures 0 <= StoreIndex(r, k.0, k.1) < StoreCount(r)
    {
      RoutingOnRing(r, k.0, k.1);
    }
    forall a, b | a in keys && b in keys && NodeHash(r, a.0, a.1) == NodeHash(r, b.0, b.1)
      ensures a == b
    {
      NodeHashInjective(r, a.0, b.0, a.1, b.1);
    }
  }
}
