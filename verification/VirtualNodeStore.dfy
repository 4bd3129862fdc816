/** One arc of the ring with the nodes on it, and the client queue it reports to. */
module VirtualStore {
  import opened Types
  import opened EventQueue
  import opened World

  /** A snapshot with the keys of `todo` still to come: each other key once, with its node. */
  ghost predicate SnapshotBut(nodes: map<real, Event>, todo: set<real>, order: seq<real>, copies: seq<Node>) {
    && (forall i, j :: 0 <= i < j < |order| ==> order[i] != order[j])
    && (forall k :: k in order <==> k in nodes && k !in todo)
    && |copies| == |order|
    && forall i :: 0 <= i < |order| ==> order[i] in nodes && copies[i] == nodes[order[i]].node
  }

  ghost predicate IsSnapshot(nodes: map<real, Event>, order: seq<real>, copies: seq<Node>) {
    SnapshotBut(nodes, {}, order, copies)
  }

  lemma SnapshotKeys(nodes: map<real, Event>, order: seq<real>, copies: seq<Node>, k: real)
    requires IsSnapshot(nodes, order, copies)
    ensures k in order <==> k in nodes
  {
  }

  lemma SnapshotStep(nodes: map<real, Event>, todo: set<real>, order: seq<real>, copies: seq<Node>, k: real)
    requires SnapshotBut(nodes, todo, order, copies) && k in todo && k in nodes
    ensures SnapshotBut(nodes, todo - {k}, order + [k], copies + [nodes[k].node])
  {
  }

  /** The greatest version per location among the nodes at these positions. */
  ghost predicate IsVersionMap(nodes: map<real, Event>, order: seq<real>, rvs: map<Location, nat>) {
    && (forall i :: 0 <= i < |order| && order[i] in nodes ==>
          nodes[order[i]].loc in rvs && nodes[order[i]].node.rv <= rvs[nodes[order[i]].loc])
    && (forall loc :: loc in rvs ==>
          exists i :: 0 <= i < |order| && order[i] in nodes && nodes[order[i]].loc == loc
            && nodes[order[i]].node.rv == rvs[loc])
  }

  function Raise(rvs: map<Location, nat>, loc: Location, rv: nat): map<Location, nat> {
    if loc in rvs && rvs[loc] >= rv then rvs else rvs[loc := rv]
  }

  lemma VersionMapStep(nodes: map<real, Event>, order: seq<real>, rvs: map<Location, nat>, k: real)
    requires IsVersionMap(nodes, order, rvs) && k in nodes
    ensures IsVersionMap(nodes, order + [k], Raise(rvs, nodes[k].loc, nodes[k].node.rv))
  {
    var more, raised := order + [k], Raise(rvs, nodes[k].loc, nodes[k].node.rv);
    forall loc | loc in raised
      ensures exists i ::
                && 0 <= i < |more| && more[i] in nodes
                && nodes[more[i]].loc == loc && nodes[more[i]].node.rv == raised[loc]
    {
      if loc in rvs && raised[loc] == rvs[loc] {
        var i :| 0 <= i < |order| && order[i] in nodes && nodes[order[i]].loc == loc
          && nodes[order[i]].node.rv == rvs[loc];
        assert more[i] == order[i];
      } else {
        assert more[|order|] == k;
      }
    }
  }

  lemma NoKeys(s: set<real>)
    requires forall k: real :: k !in s
    ensures s == {}
  {
    assert forall k: real :: k in s <==> k in {};
  }

  lemma SomeKey(s: set<real>)
    requires s != {}
    ensures exists k: real :: k in s
  {
    if forall k: real :: k !in s {
      NoKeys(s);
    }
  }

  class VirtualNodeStore {
    var nodeEventByHash: map<real, Event>
    var lowerbound: real
    var upperbound: real
    const location: Location
    var clientId: string
    var eventQueue: NodeEventQueue?

    constructor (lower: real, upper: real, loc: Location)
      ensures nodeEventByHash == map[] && clientId == "" && eventQueue == null
      ensures lowerbound == lower && upperbound == upper && location == loc
    {
      nodeEventByHash, lowerbound, upperbound, location, clientId, eventQueue := map[], lower, upper, loc, "", null;
    }

    function Value(): VStore
      reads this
    {
      VStore(location, nodeEventByHash, clientId)
    }

    function GetHostNum(): (n: nat)
      reads this
      ensures n == |Value().nodes|
    {
      |nodeEventByHash|
    }

    method AssignToClient(client: string, queue: NodeEventQueue?) returns (ok: bool)
      modifies this`clientId, this`eventQueue
      ensures ok <==> old(clientId) == "" && client != "" && queue != null
      ensures ok ==> clientId == client && eventQueue == queue
      ensures !ok ==> clientId == old(clientId) && eventQueue == old(eventQueue)
    {
      if clientId != "" {
        return false;
      } else if client == "" {
        return false;
      } else if queue == null {
        return false;
      }
      clientId := client;
      eventQueue := queue;
      return true;
    }

    /** Copies the nodes out in the map's own order, with the greatest version per location. */
    method SnapShot() returns (nodesCopy: seq<Node>, rvs: map<Location, nat>)
      ensures exists order :: IsSnapshot(nodeEventByHash, order, nodesCopy) && IsVersionMap(nodeEventByHash, order, rvs)
    {
      nodesCopy, rvs := [], map[];
      ghost var order: seq<real> := [];
      var todo := nodeEventByHash.Keys;
      assert SnapshotBut(nodeEventByHash, todo, order, nodesCopy) && IsVersionMap(nodeEventByHash, order, rvs);
      hide SnapshotBut, IsVersionMap;
      while todo != {}
        invariant todo <= nodeEventByHash.Keys
        invariant SnapshotBut(nodeEventByHash, todo, order, nodesCopy)
        invariant IsVersionMap(nodeEventByHash, order, rvs)
      {
        SomeKey(todo);
        var k: real :| k in todo;
        var n := nodeEventByHash[k];
        SnapshotStep(nodeEventByHash, todo, order, nodesCopy, k);
        VersionMapStep(nodeEventByHash, order, rvs, k);
        todo := todo - {k};
        nodesCopy := nodesCopy + [n.node];
        if n.loc in rvs {
          if rvs[n.loc] < n.node.rv {
            rvs := rvs[n.loc := n.node.rv];
          }
        } else {
          rvs := rvs[n.loc := n.node.rv];
        }
        order := order + [k];
      }
    }

    /** A bookmark of whichever node the map yields first, or None for an empty store. */
    method GenerateBookmarkEvent() returns (e: Option<Event>)
      ensures e == None <==> nodeEventByHash == map[]
      ensures e.Some? ==> BookmarkOf(Value(), e.value)
    {
      if nodeEventByHash == map[] {
        return None;
      }
      SomeKey(nodeEventByHash.Keys);
      var k: real :| k in nodeEventByHash;
      return Some(Event(Bookmark, nodeEventByHash[k].loc, nodeEventByHash[k].node));
    }
  }
}
