/** What a list of a client's nodes must return, and what that gives a later watch. */
module Listing {
  import opened Types
  import opened EventLog
  import opened EventQueue
  import opened NewestWins
  import opened World
  import opened StoreTheorems
  import opened QueueTheorems
  import opened VirtualStore

  /** A node's position: its store and its key there. */
  type Position = (nat, real)

  predicate Holds(stores: seq<VStore>, sel: seq<nat>, p: Position) {
    p.0 in sel && p.0 < |stores| && p.1 in stores[p.0].nodes
  }

  function EventAt(stores: seq<VStore>, p: Position): Event
    requires p.0 < |stores| && p.1 in stores[p.0].nodes
  {
    stores[p.0].nodes[p.1]
  }

  /** The positions listed are all positions of the given stores, each once. */
  ghost predicate Covers(stores: seq<VStore>, sel: seq<nat>, order: seq<Position>) {
    && (forall i, j :: 0 <= i < j < |order| ==> order[i] != order[j])
    && (forall i :: 0 <= i < |order| ==> Holds(stores, sel, order[i]))
    && (forall p :: Holds(stores, sel, p) ==> p in order)
  }

  /** The nodes returned, read off those positions in order. */
  ghost predicate IsListing(stores: seq<VStore>, sel: seq<nat>, order: seq<Position>, nodes: seq<Node>) {
    && Covers(stores, sel, order)
    && |nodes| == |order|
    && forall i :: 0 <= i < |order| ==> nodes[i] == EventAt(stores, order[i]).node
  }

  /** The versions returned: for each location that occurs, the greatest version listed there. */
  ghost predicate IsRvMap(stores: seq<VStore>, sel: seq<nat>, rvs: map<Location, nat>) {
    && (forall p :: Holds(stores, sel, p) ==>
          EventAt(stores, p).loc in rvs && EventAt(stores, p).node.rv <= rvs[EventAt(stores, p).loc])
    && (forall loc :: loc in rvs ==>
          exists p :: Holds(stores, sel, p) && EventAt(stores, p).loc == loc && EventAt(stores, p).node.rv == rvs[loc])
  }

  /** The positions of these keys in store `i`. */
  function PositionsIn(i: nat, keys: seq<real>): (r: seq<Position>)
    ensures |r| == |keys| && forall j :: 0 <= j < |keys| ==> r[j] == (i, keys[j])
  {
    seq(|keys|, j requires 0 <= j < |keys| => (i, keys[j]))
  }

  /** Listing one more store appends its snapshot. */
  lemma ListingStep(stores: seq<VStore>, sel: seq<nat>, i: nat, order: seq<Position>, nodes: seq<Node>, keys: seq<real>,
                    copies: seq<Node>)
    requires NoDuplicates(sel) && InRange(stores, sel) && i < |sel|
    requires IsListing(stores, sel[..i], order, nodes)
    requires IsSnapshot(stores[sel[i]].nodes, keys, copies)
    ensures IsListing(stores, sel[..i + 1], order + PositionsIn(sel[i], keys), nodes + copies)
  {
    var more := PositionsIn(sel[i], keys);
    var all, done := order + more, sel[..i];
    var next := done + [sel[i]];
    assert next == sel[..i + 1];
    forall p: Position
      ensures Holds(stores, next, p) <==> p in all
    {
      PositionsMembers(sel[i], keys, p);
      CoversExactly(stores, done, order, p);
      assert p.0 in next <==> p.0 in done || p.0 == sel[i];
      SnapshotKeys(stores[sel[i]].nodes, keys, copies, p.1);
    }
    forall a, b | 0 <= a < b < |all|
      ensures all[a] != all[b]
    {
      if a < |order| <= b {
        assert all[a].0 in done;
        assert all[b].0 == sel[i] && sel[i] !in done;
      }
    }
    forall a | 0 <= a < |all|
      ensures Holds(stores, next, all[a]) && (nodes + copies)[a] == EventAt(stores, all[a]).node
    {
      assert all[a] in all;
    }
  }

  lemma CoversExactly(stores: seq<VStore>, sel: seq<nat>, order: seq<Position>, p: Position)
    requires Covers(stores, sel, order)
    ensures Holds(stores, sel, p) <==> p in order
  {
  }

  lemma PositionsMembers(i: nat, keys: seq<real>, p: Position)
    ensures p in PositionsIn(i, keys) <==> p.0 == i && p.1 in keys
  {
  }

  /** The greater version at each location of either map. */
  function Greater(a: map<Location, nat>, b: map<Location, nat>): map<Location, nat> {
    map loc | loc in a.Keys + b.Keys ::
      if loc !in b then a[loc] else if loc !in a then b[loc] else if a[loc] < b[loc] then b[loc] else a[loc]
  }

  /** Combining the versions of one more store keeps the greatest version per location. */
  lemma RvMapStep(stores: seq<VStore>, sel: seq<nat>, i: nat, rvs: map<Location, nat>, keys: seq<real>,
                  m: map<Location, nat>)
    requires InRange(stores, sel) && i < |sel| && IsRvMap(stores, sel[..i], rvs)
    requires (forall k :: k in keys <==> k in stores[sel[i]].nodes) && IsVersionMap(stores[sel[i]].nodes, keys, m)
    ensures IsRvMap(stores, sel[..i + 1], Greater(rvs, m))
  {
    var done, next, all := sel[..i], sel[..i + 1], Greater(rvs, m);
    assert next == done + [sel[i]];
    forall p | Holds(stores, next, p)
      ensures EventAt(stores, p).loc in all && EventAt(stores, p).node.rv <= all[EventAt(stores, p).loc]
    {
      if p.0 in done {
        assert Holds(stores, done, p);
      } else {
        var j :| 0 <= j < |keys| && keys[j] == p.1;
      }
    }
    forall loc | loc in all
      ensures exists p ::
                Holds(stores, next, p) && EventAt(stores, p).loc == loc && EventAt(stores, p).node.rv == all[loc]
    {
      if loc in rvs && all[loc] == rvs[loc] {
        AttainedBefore(stores, done, sel[i], rvs, loc);
      } else {
        AttainedNow(stores, done, sel[i], keys, m, loc);
      }
    }
  }

  lemma AttainedBefore(stores: seq<VStore>, done: seq<nat>, last: nat, rvs: map<Location, nat>, loc: Location)
    requires IsRvMap(stores, done, rvs) && loc in rvs
    ensures exists p ::
              Holds(stores, done + [last], p) && EventAt(stores, p).loc == loc && EventAt(stores, p).node.rv == rvs[loc]
  {
    var p :| Holds(stores, done, p) && EventAt(stores, p).loc == loc && EventAt(stores, p).node.rv == rvs[loc];
    assert Holds(stores, done + [last], p);
  }

  lemma AttainedNow(stores: seq<VStore>, done: seq<nat>, last: nat, keys: seq<real>, m: map<Location, nat>,
                    loc: Location)
    requires last < |stores| && IsVersionMap(stores[last].nodes, keys, m) && loc in m
    ensures exists p ::
              Holds(stores, done + [last], p) && EventAt(stores, p).loc == loc && EventAt(stores, p).node.rv == m[loc]
  {
    var j :| 0 <= j < |keys| && keys[j] in stores[last].nodes
             && stores[last].nodes[keys[j]].loc == loc && stores[last].nodes[keys[j]].node.rv == m[loc];
    assert last in done + [last];
    assert Holds(stores, done + [last], (last, keys[j]));
  }

  lemma NothingListed(stores: seq<VStore>, sel: seq<nat>)
    ensures IsListing(stores, sel[..0], [], []) && IsRvMap(stores, sel[..0], map[])
  {
  }

  /** A version map is determined by the stores it was read from. */
  lemma RvMapIsUnique(stores: seq<VStore>, sel: seq<nat>, a: map<Location, nat>, b: map<Location, nat>)
    requires IsRvMap(stores, sel, a) && IsRvMap(stores, sel, b)
    ensures a == b
  {
  }

  /** The versions returned are the greatest of the nodes returned, for the locations that occur and no others. */
  lemma VersionsOfListing(stores: seq<VStore>, sel: seq<nat>, order: seq<Position>, nodes: seq<Node>,
                          rvs: map<Location, nat>)
    requires IsListing(stores, sel, order, nodes) && IsRvMap(stores, sel, rvs)
    ensures forall i :: 0 <= i < |nodes| ==>
              var loc := EventAt(stores, order[i]).loc; loc in rvs && nodes[i].rv <= rvs[loc]
    ensures forall loc :: loc in rvs ==>
              exists i :: 0 <= i < |nodes| && EventAt(stores, order[i]).loc == loc && nodes[i].rv == rvs[loc]
  {
    forall loc | loc in rvs
      ensures exists i :: 0 <= i < |nodes| && EventAt(stores, order[i]).loc == loc && nodes[i].rv == rvs[loc]
    {
      var p :| Holds(stores, sel, p) && EventAt(stores, p).loc == loc && EventAt(stores, p).node.rv == rvs[loc];
      CoversExactly(stores, sel, order, p);
      var i :| 0 <= i < |order| && order[i] == p;
      assert nodes[i].rv == rvs[loc];
    }
  }

  /** Every node in a store of the list is returned, and every node returned is in one, at a place of its own. */
  lemma NodesOfListing(stores: seq<VStore>, sel: seq<nat>, order: seq<Position>, nodes: seq<Node>)
    requires IsListing(stores, sel, order, nodes)
    ensures forall i, h :: i in sel && i < |stores| && h in stores[i].nodes ==> stores[i].nodes[h].node in nodes
    ensures forall j :: 0 <= j < |nodes| ==>
              var (i, h) := order[j];
              i in sel && i < |stores| && h in stores[i].nodes && stores[i].nodes[h].node == nodes[j]
    ensures forall a, b :: 0 <= a < b < |nodes| ==> order[a] != order[b]
  {
    forall i, h | i in sel && i < |stores| && h in stores[i].nodes
      ensures stores[i].nodes[h].node in nodes
    {
      CoversExactly(stores, sel, order, (i, h));
      var j :| 0 <= j < |order| && order[j] == (i, h);
      assert nodes[j] == stores[i].nodes[h].node;
    }
  }

  /** A list returns every node of the client's stores, at its newest version, exactly once. */
  lemma ListIsExact(r: Router, w: RingState, m: Versions, keys: set<Key>, sel: seq<nat>,
                    order: seq<Position>, nodes: seq<Node>, k: Key)
    requires Represents(r, w, m, keys) && k in keys
    requires IsListing(w.stores, sel, order, nodes)
    ensures k in m && r.index(k.0, k.1) in sel
            <==> exists i :: 0 <= i < |order| && KeyOf(EventAt(w.stores, order[i])) == k
    ensures forall i :: 0 <= i < |order| && KeyOf(EventAt(w.stores, order[i])) == k ==> nodes[i] == m[k].node
    ensures forall i, j :: 0 <= i < j < |order| ==>
              KeyOf(EventAt(w.stores, order[i])) != k || KeyOf(EventAt(w.stores, order[j])) != k
  {
    var home: Position := (r.index(k.0, k.1), r.hash(k.0, k.1));
    EntryIsFlat(r, w, m, keys, k);
    forall i | 0 <= i < |order| && KeyOf(EventAt(w.stores, order[i])) == k
      ensures order[i] == home && k in m && m[k] == EventAt(w.stores, order[i])
    {
      EntryAt(r, w, m, order[i].0, order[i].1);
    }
    if k in m && r.index(k.0, k.1) in sel {
      assert Holds(w.stores, sel, home);
      var i :| 0 <= i < |order| && order[i] == home;
      assert KeyOf(EventAt(w.stores, order[i])) == k;
    }
  }

  /** At one location: its bookmark is covered by a node that the list returned. */
  lemma BookmarkIsListed(w: World, c: string, rvs: map<Location, nat>, h: History, loc: Location)
    requires Inv(w) && c in w.owned && loc in w.queues[c]
    requires IsRvMap(w.ring.stores, w.owned[c], rvs)
    requires loc in h && w.queues[c][loc] <= h[loc]
    ensures w.queues[c][loc] != [] && loc in rvs
    ensures |h[loc]| <= LENGTH ==> !TooOldAt(h, rvs, loc)
  {
    var stores, sel := w.ring.stores, w.owned[c];
    var j, k := NodeCovering(w, c, loc);
    hide Inv;
    assert Holds(stores, sel, (sel[j], k));
    assert EventAt(stores, (sel[j], k)).loc in rvs;
  }

  /**
   * Bookmark coverage: in every state an orderly run reaches, a list names every location the
   * client holds and each of them has a non-empty queue; a watch from the list is too old at none
   * of them, however the queue grew since, while its bookmark is held.
   */
  lemma {:induction false} WatchFromListIsNotTooOld(w: World, c: string, rvs: map<Location, nat>, h: History)
    requires Inv(w) && c in w.owned
    requires IsRvMap(w.ring.stores, w.owned[c], rvs)
    requires forall loc :: loc in w.queues[c] ==> loc in h && w.queues[c][loc] <= h[loc]
    ensures forall i :: i in w.owned[c] ==>
              var loc := w.ring.stores[i].loc;
              && loc in w.queues[c] && w.queues[c][loc] != [] && loc in rvs
              && (|h[loc]| <= LENGTH ==> !TooOldAt(h, rvs, loc))
  {
    hide Inv, IsRvMap, TooOldAt;
    HeldInRange(w, c);
    forall i | i in w.owned[c]
      ensures var loc := w.ring.stores[i].loc;
              && loc in w.queues[c] && w.queues[c][loc] != [] && loc in rvs
              && (|h[loc]| <= LENGTH ==> !TooOldAt(h, rvs, loc))
    {
      HeldHasQueue(w, c, i);
      BookmarkIsListed(w, c, rvs, h, w.ring.stores[i].loc);
    }
  }
}
