/** The distributor: registration of clients, listing, watching, and delivery of event batches. */
module Distributor {
  import opened Types
  import opened Ring
  import opened EventQueue
  import opened World
  import opened Ownership
  import opened Placement
  import opened VirtualStore
  import opened Persistence
  import opened NodeStores
  import opened QueueTheorems
  import opened Listing

  datatype Outcome<+T, +E> = Success(value: T) | Failure(error: E)

  datatype ListError = EmptyClientId | NotRegistered | MissingQueue

  datatype WatchError = UnknownClient | NilVersions | NilWatchChannel | NilStopChannel

  /** The leading events up to the first nil; what comes after a nil is never looked at. */
  function BeforeNil(events: seq<Option<Event>>): seq<Event> {
    if events == [] || events[0] == None then [] else [events[0].value] + BeforeNil(events[1..])
  }

  lemma {:induction false} PaddedIsPresent(events: seq<Option<Event>>, managed: seq<Option<Event>>, n: nat)
    requires n <= |events| == |managed| && (n < |events| ==> events[n] == None)
    requires forall j :: 0 <= j < n ==> events[j].Some?
    requires forall j :: 0 <= j < |managed| ==> managed[j] == if j < n then events[j] else None
    ensures Present(managed) == BeforeNil(events)
    ensures forall e :: Some(e) in managed ==> e in BeforeNil(events)
  {
    PresentPrefix(managed, n);
    BeforeNilIs(events, n);
    forall e | Some(e) in managed
      ensures e in BeforeNil(events)
    {
      var j :| 0 <= j < |managed| && managed[j] == Some(e);
      assert BeforeNil(events)[j] == e;
    }
  }

  lemma {:induction false} BeforeNilIs(events: seq<Option<Event>>, n: nat)
    requires n <= |events| && (n < |events| ==> events[n] == None)
    requires forall j :: 0 <= j < n ==> events[j].Some?
    ensures |BeforeNil(events)| == n && forall j :: 0 <= j < n ==> BeforeNil(events)[j] == events[j].value
  {
    if n > 0 {
      BeforeNilIs(events[1..], n - 1);
    }
  }

  lemma {:induction false} PresentPrefix(managed: seq<Option<Event>>, n: nat)
    requires n <= |managed|
    requires forall j :: 0 <= j < |managed| ==> (managed[j].Some? <==> j < n)
    ensures |Present(managed)| == n && forall j :: 0 <= j < n ==> Present(managed)[j] == managed[j].value
  {
    if |managed| > 0 {
      PresentPrefix(managed[..|managed| - 1], if n == |managed| then n - 1 else n);
    }
  }

  /** Deliveries do not look at the clients' lists. */
  lemma {:induction false} DeliverAllKeepsLists(r: Router, w: World, es: seq<Event>)
    requires forall e :: e in es ==> CanProcess(r, w.ring, e)
    ensures forall i :: 0 <= i < |es| ==> CanProcess(r, w.ring, es[i])
    ensures var bare := DeliverAll(r, World(w.ring, w.queues, map[], w.channels), es);
            DeliverAll(r, w, es) == World(bare.ring, bare.queues, w.owned, bare.channels)
  {
    if es != [] {
      var init, last := es[..|es| - 1], es[|es| - 1];
      assert forall e :: e in init ==> e in es;
      DeliverAllKeepsLists(r, w, init);
    }
  }

  // ---------------------------------------------------------------- selection, on values

  lemma SelectionStep(stores: seq<VStore>, order: seq<nat>, n: nat)
    requires InRange(stores, order) && n < |order|
    ensures HostsOf(stores, order[..n + 1]) == HostsOf(stores, order[..n]) + |stores[order[n]].nodes|
  {
    assert order[..n + 1][..n] == order[..n];
  }

  lemma OrderFacts(stores: seq<VStore>, order: seq<nat>)
    requires NoDuplicates(order) && Members(order) == FreeStores(stores)
    ensures InRange(stores, order) && HostsOf(stores, order) == HostSum(stores, FreeStores(stores))
    ensures HostsOf(stores, order[..0]) == 0
    ensures order[..|order|] == order
  {
    forall j | 0 <= j < |order|
      ensures order[j] < |stores|
    {
      assert order[j] in Members(order);
    }
    HostsOfMembers(stores, order);
  }

  lemma GrantOf(stores: seq<VStore>, order: seq<nat>, n: nat, request: int)
    requires NoDuplicates(order) && Members(order) == FreeStores(stores) && InRange(stores, order)
    requires n < |order| && HostsOf(stores, order[..n]) < request <= HostsOf(stores, order[..n + 1])
    ensures IsGrant(stores, request, order[..n + 1])
  {
    var sel := order[..n + 1];
    assert sel[..n] == order[..n];
    forall j | 0 <= j < |sel|
      ensures sel[j] in FreeStores(stores)
    {
      assert order[j] in Members(order);
    }
  }

  // ---------------------------------------------------------------- bookmarks, on values

  /** Marks made for the first `sel` stores, and the locations seen while making them. */
  ghost predicate Marking(stores: seq<VStore>, sel: seq<nat>, marks: seq<Event>, seen: set<Location>) {
    && InRange(stores, sel) && MarksFor(stores, sel, marks)
    && forall loc :: loc in seen <==> Seen(stores, FirstOfLocation(stores, sel), loc)
  }

  lemma MarkingStep(stores: seq<VStore>, sel: seq<nat>, i: nat, marks: seq<Event>, seen: set<Location>, mark: Event)
    requires i < |sel| && InRange(stores, sel) && Marking(stores, sel[..i], marks, seen)
    requires stores[sel[i]].loc !in seen && BookmarkOf(stores[sel[i]], mark)
    ensures Marking(stores, sel[..i + 1], marks + [mark], seen + {stores[sel[i]].loc})
  {
    assert sel[..i + 1][..i] == sel[..i];
    var firsts := FirstOfLocation(stores, sel[..i]);
    assert FirstOfLocation(stores, sel[..i + 1]) == firsts + [sel[i]];
    hide FirstOfLocation, BookmarkOf;
    forall loc
      ensures loc in seen + {stores[sel[i]].loc} <==> Seen(stores, firsts + [sel[i]], loc)
    {
      SeenAfter(stores, firsts, sel[i], loc);
    }
  }

  lemma MarkingSkip(stores: seq<VStore>, sel: seq<nat>, i: nat, marks: seq<Event>, seen: set<Location>)
    requires i < |sel| && InRange(stores, sel) && Marking(stores, sel[..i], marks, seen)
    requires stores[sel[i]].loc in seen
    ensures Marking(stores, sel[..i + 1], marks, seen)
  {
    assert sel[..i + 1][..i] == sel[..i];
  }

  lemma NothingMarked(stores: seq<VStore>, sel: seq<nat>)
    ensures Marking(stores, sel[..0], [], {}) && EnqueueAll(map[], []) == map[]
  {
  }

  lemma MarkingDone(stores: seq<VStore>, sel: seq<nat>, marks: seq<Event>, seen: set<Location>)
    requires Marking(stores, sel, marks, seen)
    ensures InRange(stores, sel) && MarksFor(stores, sel, marks)
  {
  }

  lemma EnqueueOneMore(marks: seq<Event>, mark: Event)
    ensures EnqueueAll(map[], marks + [mark]) == Enqueued(EnqueueAll(map[], marks), mark)
  {
  }

  lemma NothingAssigned(stores: seq<VStore>, sel: seq<nat>, c: string)
    ensures Assign(stores, sel[..0], c) == stores
  {
  }

  lemma AssignStep(stores: seq<VStore>, sel: seq<nat>, i: nat, c: string)
    requires NoDuplicates(sel) && InRange(stores, sel) && i < |sel|
    ensures Assign(stores, sel[..i], c)[sel[i]] == stores[sel[i]]
    ensures Assign(Assign(stores, sel[..i], c), [sel[i]], c) == Assign(stores, sel[..i + 1], c)
  {
  }

  // ---------------------------------------------------------------- combining snapshots

  /** One snapshot per selected store: its nodes, its versions and the keys they came from. */
  ghost predicate Snapshots(stores: seq<VStore>, sel: seq<nat>, nodesByStore: seq<seq<Node>>,
                            rvMapByStore: seq<map<Location, nat>>, keys: seq<seq<real>>)
    requires InRange(stores, sel)
  {
    && |nodesByStore| == |rvMapByStore| == |keys| == |sel|
    && forall j :: 0 <= j < |sel| ==>
         && IsSnapshot(stores[sel[j]].nodes, keys[j], nodesByStore[j])
         && IsVersionMap(stores[sel[j]].nodes, keys[j], rvMapByStore[j])
  }

  method CombineNodes(ghost stores: seq<VStore>, ghost sel: seq<nat>, nodesByStore: seq<seq<Node>>,
                      ghost keys: seq<seq<real>>)
    returns (nodes: seq<Node>)
    requires InRange(stores, sel) && |nodesByStore| == |keys| == |sel|
    requires forall j :: 0 <= j < |sel| ==> IsSnapshot(stores[sel[j]].nodes, keys[j], nodesByStore[j])
    ensures NoDuplicates(sel) ==> exists order :: IsListing(stores, sel, order, nodes)
  {
    hide IsListing, IsSnapshot, NoDuplicates, PositionsIn;
    nodes := [];
    ghost var order := [];
    NothingListed(stores, sel);
    for i := 0 to |nodesByStore|
      invariant NoDuplicates(sel) ==> IsListing(stores, sel[..i], order, nodes)
    {
      if NoDuplicates(sel) {
        ListingStep(stores, sel, i, order, nodes, keys[i], nodesByStore[i]);
      }
      nodes := nodes + nodesByStore[i];
      order := order + PositionsIn(sel[i], keys[i]);
    }
    assert sel[..|sel|] == sel;
  }

  method CombineVersions(ghost stores: seq<VStore>, ghost sel: seq<nat>, rvMapByStore: seq<map<Location, nat>>,
                         ghost keys: seq<seq<real>>)
    returns (finalRVs: map<Location, nat>)
    requires InRange(stores, sel) && |rvMapByStore| == |keys| == |sel|
    requires forall j :: 0 <= j < |sel| ==>
               (forall k :: k in keys[j] <==> k in stores[sel[j]].nodes)
                 && IsVersionMap(stores[sel[j]].nodes, keys[j], rvMapByStore[j])
    ensures IsRvMap(stores, sel, finalRVs)
  {
    hide IsRvMap, IsVersionMap;
    finalRVs := map[];
    NothingListed(stores, sel);
    for i := 0 to |rvMapByStore|
      invariant IsRvMap(stores, sel[..i], finalRVs)
    {
      RvMapStep(stores, sel, i, finalRVs, keys[i], rvMapByStore[i]);
      finalRVs := MergeVersions(finalRVs, rvMapByStore[i]);
    }
    assert sel[..|sel|] == sel;
  }

  /** Raises each location's version to that of another map. */
  method MergeVersions(rvs: map<Location, nat>, currentRVs: map<Location, nat>) returns (finalRVs: map<Location, nat>)
    ensures finalRVs == Greater(rvs, currentRVs)
  {
    finalRVs := rvs;
    var todo := currentRVs.Keys;
    while todo != {}
      invariant todo <= currentRVs.Keys
      invariant finalRVs == Greater(rvs, map loc | loc in currentRVs && loc !in todo :: currentRVs[loc])
    {
      var loc :| loc in todo;
      todo := todo - {loc};
      if loc in finalRVs {
        if finalRVs[loc] < currentRVs[loc] {
          finalRVs := finalRVs[loc := currentRVs[loc]];
        }
      } else {
        finalRVs := finalRVs[loc := currentRVs[loc]];
      }
    }
    assert currentRVs == map loc | loc in currentRVs && loc !in todo :: currentRVs[loc];
  }

  class ResourceDistributor {
    const defaultNodeStore: NodeStore
    var nodeEventQueueMap: map<string, NodeEventQueue>
    var clientToStores: map<string, seq<VirtualNodeStore>>
    /** The same lists, as positions in the node store. */
    ghost var owned: map<string, seq<nat>>

    /** Each client's list holds the stores at its positions. */
    ghost predicate Lists()
      reads this`clientToStores, this`owned, defaultNodeStore`vNodeStores
    {
      && clientToStores.Keys == owned.Keys
      && forall c :: c in owned ==> AreStores(clientToStores[c], owned[c])
    }

    ghost predicate AreStores(list: seq<VirtualNodeStore>, positions: seq<nat>)
      reads defaultNodeStore`vNodeStores
    {
      && |list| == |positions|
      && forall j :: 0 <= j < |positions| ==>
           positions[j] < |defaultNodeStore.vNodeStores| && list[j] == defaultNodeStore.vNodeStores[positions[j]]
    }

    ghost predicate Valid()
      reads this, defaultNodeStore, defaultNodeStore.vNodeStores, defaultNodeStore.currentRVs, defaultNodeStore.wires
    {
      && defaultNodeStore.Valid()
      && this !in defaultNodeStore.wires
      && nodeEventQueueMap == defaultNodeStore.clients
      && Lists()
    }

    /** The distributor's state as a value. */
    ghost function Now(): World
      reads this`owned, defaultNodeStore`state, defaultNodeStore`queues, defaultNodeStore`channels
    {
      World(defaultNodeStore.state, defaultNodeStore.queues, owned, defaultNodeStore.channels)
    }

    ghost function Rt(): Router {
      RouterOf(defaultNodeStore.ring)
    }

    constructor (vNodeNumPerRP: nat, regionNum: nat, partitionMaxNum: nat, hash: string -> uint64)
      requires vNodeNumPerRP > 0 && regionNum > 0 && partitionMaxNum > 0
      ensures Valid() && fresh(defaultNodeStore)
      ensures defaultNodeStore.ring == RawRing(regionNum, partitionMaxNum, vNodeNumPerRP, hash)
      ensures Initial(Now()) && Layout(defaultNodeStore.ring, Now().ring.stores)
    {
      var store := new NodeStore(vNodeNumPerRP, regionNum, partitionMaxNum, hash);
      defaultNodeStore := store;
      nodeEventQueueMap, clientToStores, owned := map[], map[], map[];
    }

    // -------------------------------------------------------------- registration

    /** Unassigned stores that hold hosts, by position. */
    method FindFreeStores() returns (free: set<nat>)
      requires Valid()
      ensures free == FreeStores(Now().ring.stores)
    {
      hide Valid, NodeStore.Valid, Lists;
      ValidStore();
      defaultNodeStore.SizeFact();
      var allStores := defaultNodeStore.vNodeStores;
      free := {};
      var i := 0;
      while i < |allStores|
        invariant 0 <= i <= |allStores|
        invariant forall k: nat :: k in free <==> k < i && k in FreeStores(Now().ring.stores)
      {
        defaultNodeStore.StoreValue(i);
        if allStores[i].clientId == "" && allStores[i].GetHostNum() > 0 {
          free := free + {i};
        }
        i := i + 1;
      }
    }

    /** The free stores in whatever order the map yields them. */
    method GetSortedVirtualStores(stores: set<nat>) returns (sortedStores: seq<nat>)
      ensures NoDuplicates(sortedStores) && Members(sortedStores) == stores
    {
      sortedStores := [];
      var todo := stores;
      while todo != {}
        invariant todo <= stores && NoDuplicates(sortedStores) && Members(sortedStores) == stores - todo
      {
        var vs :| vs in todo;
        assert vs !in Members(sortedStores);
        todo := todo - {vs};
        assert Members(sortedStores + [vs]) == Members(sortedStores) + {vs};
        sortedStores := sortedStores + [vs];
      }
    }

    /** Takes stores in order until they hold enough hosts. */
    method SelectStores(order: seq<nat>, request: int) returns (ok: bool, selected: seq<nat>, hostCount: nat)
      requires Valid() && request > 0
      requires NoDuplicates(order) && Members(order) == FreeStores(Now().ring.stores)
      ensures ok <==> HostSum(Now().ring.stores, FreeStores(Now().ring.stores)) >= request
      ensures ok ==> IsGrant(Now().ring.stores, request, selected) && hostCount == HostsOf(Now().ring.stores, selected)
    {
      hide HostSum, NoDuplicates, Members, FreeStores, NodeStore.Valid, IsGrant, HostsOf;
      ghost var stores := Now().ring.stores;
      OrderFacts(stores, order);
      selected, hostCount := [], 0;
      var i := 0;
      while i < |order|
        invariant 0 <= i <= |order| && selected == order[..i]
        invariant hostCount == HostsOf(stores, order[..i]) && hostCount < request
      {
        defaultNodeStore.StoreHosts(order[i]);
        SelectionStep(stores, order, i);
        selected := selected + [order[i]];
        assert selected == order[..i + 1];
        hostCount := hostCount + defaultNodeStore.vNodeStores[order[i]].GetHostNum();
        if hostCount >= request {
          GrantOf(stores, order, i, request);
          PrefixHosts(stores, order, i + 1, |order|);
          return true, selected, hostCount;
        }
        i := i + 1;
      }
      return false, selected, hostCount;
    }

    /** One bookmark, of any node, from the first selected store of each location. */
    method AddBookmarkEvent(stores: seq<nat>, queue: NodeEventQueue) returns (ghost marks: seq<Event>)
      requires Valid() && queue.Valid() && queue.history == map[] && Fenced(queue) && Unwatched(queue)
      requires InRange(Now().ring.stores, stores)
      requires forall j :: 0 <= j < |stores| ==> Now().ring.stores[stores[j]].nodes != map[]
      modifies queue.Repr
      ensures Valid() && Now() == old(Now()) && nodeEventQueueMap == old(nodeEventQueueMap)
      ensures queue.Valid() && fresh(queue.Repr - old(queue.Repr)) && Fenced(queue) && Unwatched(queue)
      ensures queue.history == EnqueueAll(map[], marks) && MarksFor(Now().ring.stores, stores, marks)
    {
      ghost var ring := Now().ring.stores;
      NothingMarked(ring, stores);
      hide Valid, Fenced, NodeEventQueue.Valid, NodeStore.Valid, Lists, Marking, MarksFor, EnqueueAll, Enqueued,
        BookmarkOf;
      var locations: set<Location> := {};
      marks := [];
      var i := 0;
      while i < |stores|
        invariant 0 <= i <= |stores|
        invariant Valid() && Now() == old(Now()) && nodeEventQueueMap == old(nodeEventQueueMap)
        invariant queue.Valid() && fresh(queue.Repr - old(queue.Repr)) && Fenced(queue) && Unwatched(queue)
        invariant queue.history == EnqueueAll(map[], marks)
        invariant Marking(ring, stores[..i], marks, locations)
      {
        ValidStore();
        defaultNodeStore.StoreValue(stores[i]);
        var store := defaultNodeStore.vNodeStores[stores[i]];
        ghost var before := locations;
        var loc := store.location;
        if loc !in locations {
          locations := locations + {loc};
          var mark := store.GenerateBookmarkEvent();
          MarkingStep(ring, stores, i, marks, before, mark.value);
          EnqueueMark(queue, mark.value);
          EnqueueOneMore(marks, mark.value);
          marks := marks + [mark.value];
        } else {
          MarkingSkip(ring, stores, i, marks, before);
        }
        i := i + 1;
      }
      assert stores[..i] == stores;
      MarkingDone(ring, stores, marks, locations);
    }

    /** Enqueuing to a fenced queue leaves the distributor as it was. */
    method EnqueueMark(queue: NodeEventQueue, mark: Event)
      requires Valid() && queue.Valid() && Fenced(queue) && Unwatched(queue)
      modifies queue.Repr
      ensures Valid() && Now() == old(Now()) && nodeEventQueueMap == old(nodeEventQueueMap)
      ensures queue.Valid() && fresh(queue.Repr - old(queue.Repr)) && Fenced(queue) && Unwatched(queue)
      ensures queue.history == Enqueued(old(queue.history), mark)
    {
      hide NodeEventQueue.Valid, NodeStore.Valid, Lists, Enqueued;
      queue.EnqueueEvent(mark);
    }

    /** No watch channel yet. */
    predicate Unwatched(queue: NodeEventQueue)
      reads queue
    {
      !queue.watching && queue.senders == multiset{}
    }

    lemma {:induction false} ValidStore()
      requires Valid()
      ensures defaultNodeStore.Valid()
    {
    }

    /** A queue that shares no object with the distributor. */
    ghost predicate Fenced(queue: NodeEventQueue)
      reads queue, defaultNodeStore`wires, defaultNodeStore`vNodeStores
    {
      && queue.Repr !! defaultNodeStore.wires
      && this !in queue.Repr && defaultNodeStore !in queue.Repr && defaultNodeStore.currentRVs !in queue.Repr
      && forall s :: s in defaultNodeStore.vNodeStores ==> s !in queue.Repr
    }

    /** The selected stores take on the client, one after the other. */
    method AssignStores(c: string, queue: NodeEventQueue, selected: seq<nat>)
      requires defaultNodeStore.Valid() && c in defaultNodeStore.clients && defaultNodeStore.clients[c] == queue
      requires NoDuplicates(selected) && InRange(defaultNodeStore.state.stores, selected)
      requires forall j :: 0 <= j < |selected| ==> defaultNodeStore.state.stores[selected[j]].client == ""
      modifies defaultNodeStore`state, defaultNodeStore.vNodeStores
      ensures defaultNodeStore.Valid() && defaultNodeStore.Steady()
      ensures defaultNodeStore.queues == old(defaultNodeStore.queues)
      ensures defaultNodeStore.channels == old(defaultNodeStore.channels)
      ensures defaultNodeStore.wires == old(defaultNodeStore.wires)
      ensures defaultNodeStore.state
              == old(defaultNodeStore.state).(stores := Assign(old(defaultNodeStore.state).stores, selected, c))
    {
      hide NodeStore.Valid, NodeEventQueue.Valid, Assign;
      ghost var before := defaultNodeStore.state;
      NothingAssigned(before.stores, selected, c);
      var i := 0;
      while i < |selected|
        invariant 0 <= i <= |selected|
        invariant defaultNodeStore.Valid() && defaultNodeStore.Steady()
        invariant defaultNodeStore.queues == old(defaultNodeStore.queues)
        invariant defaultNodeStore.channels == old(defaultNodeStore.channels)
        invariant defaultNodeStore.wires == old(defaultNodeStore.wires)
        invariant defaultNodeStore.state == before.(stores := Assign(before.stores, selected[..i], c))
      {
        AssignStep(before.stores, selected, i, c);
        defaultNodeStore.SizeFact();
        defaultNodeStore.AssignStore(selected[i], c, queue);
        i := i + 1;
      }
      assert selected[..i] == selected;
    }

    /** Enters a new client: its queue, its stores and its list. */
    method Install(c: string, queue: NodeEventQueue, selected: seq<nat>)
      requires Valid() && queue.Valid() && Fenced(queue)
      requires c !in Now().queues && c !in Now().owned
      requires NoDuplicates(selected) && InRange(Now().ring.stores, selected)
      requires forall j :: 0 <= j < |selected| ==> Now().ring.stores[selected[j]].client == ""
      modifies this, defaultNodeStore, defaultNodeStore.vNodeStores
      ensures Valid()
      ensures Now() == World(old(Now()).ring.(stores := Assign(old(Now()).ring.stores, selected, c)),
                             old(Now()).queues[c := queue.history],
                             old(Now()).owned[c := selected],
                             old(Now()).channels[c := Channel(queue.watching, queue.senders)])
    {
      hide Valid, Lists, AreStores, NodeStore.Valid, NodeEventQueue.Valid, Assign, NoDuplicates;
      ClientKeys();
      ValidParts();
      var list := StoresAt(selected);
      nodeEventQueueMap := nodeEventQueueMap[c := queue];
      defaultNodeStore.AddQueue(c, queue);
      AssignStores(c, queue, selected);
      clientToStores := clientToStores[c := list];
      owned := owned[c := selected];
      ListsAfter(old(clientToStores), old(owned), c);
      ValidFromParts();
    }

    /** The stores at these positions. */
    method StoresAt(positions: seq<nat>) returns (list: seq<VirtualNodeStore>)
      requires forall j :: 0 <= j < |positions| ==> positions[j] < |defaultNodeStore.vNodeStores|
      ensures AreStores(list, positions)
    {
      list := [];
      for j := 0 to |positions|
        invariant AreStores(list, positions[..j])
      {
        list := list + [defaultNodeStore.vNodeStores[positions[j]]];
      }
      assert positions[..|positions|] == positions;
    }

    lemma ListsAfter(lists: map<string, seq<VirtualNodeStore>>, before: map<string, seq<nat>>, c: string)
      requires lists.Keys == before.Keys && forall d :: d in before ==> AreStores(lists[d], before[d])
      requires c in clientToStores && c in owned && AreStores(clientToStores[c], owned[c])
      requires clientToStores == lists[c := clientToStores[c]] && owned == before[c := owned[c]]
      ensures Lists()
    {
    }

    lemma {:induction false} ValidParts()
      requires Valid()
      ensures defaultNodeStore.Valid() && Lists() && this !in defaultNodeStore.wires
              && nodeEventQueueMap == defaultNodeStore.clients
      ensures clientToStores.Keys == owned.Keys && forall c :: c in owned ==> AreStores(clientToStores[c], owned[c])
    {
    }

    lemma {:induction false} ValidFromParts()
      requires defaultNodeStore.Valid() && Lists() && this !in defaultNodeStore.wires
               && nodeEventQueueMap == defaultNodeStore.clients
      ensures Valid()
    {
    }

    lemma {:induction false} ClientKeys()
      requires Valid()
      ensures nodeEventQueueMap.Keys == Now().queues.Keys
      ensures |Now().ring.stores| == |defaultNodeStore.vNodeStores|
    {
    }

    /** The checks of a registration in order, and the selection of stores if all pass. */
    method SelectForClient(clientId: string, requestedHostNum: int)
      returns (r: Outcome<seq<nat>, RegError>, hostCount: nat)
      requires Valid()
      ensures match Refusal(Now(), clientId, requestedHostNum)
              case Some(error) => r == Failure(error)
              case None => r.Success? && IsGrant(Now().ring.stores, requestedHostNum, r.value)
                           && hostCount == HostsOf(Now().ring.stores, r.value)
    {
      hide Valid, NodeStore.Valid, Lists, FreeStores, IsGrant, HostSum, NoDuplicates;
      hostCount := 0;
      if requestedHostNum <= MINIMAL_REQUEST {
        return Failure(BelowMinimum), hostCount;
      }
      ValidParts();
      defaultNodeStore.TotalFact();
      if requestedHostNum > defaultNodeStore.totalHostNum {
        return Failure(ExceedsLimit), hostCount;
      }
      var capacity := defaultNodeStore.CheckFreeCapacity(requestedHostNum);
      if !capacity {
        return Failure(ExceedsCapacity), hostCount;
      }
      ClientKeys();
      if clientId in nodeEventQueueMap {
        return Failure(ClientExists), hostCount;
      }
      if clientId in clientToStores {
        return Failure(ClientExists), hostCount;
      }
      var freeStores := FindFreeStores();
      if freeStores == {} {
        return Failure(NoHosts), hostCount;
      }
      var inOrder := GetSortedVirtualStores(freeStores);
      var ok, selected, count := SelectStores(inOrder, requestedHostNum);
      if !ok {
        return Failure(NotEnoughHosts), hostCount;
      }
      return Success(selected), count;
    }

    /**
     * Registration: refused for the first check that fails, and then nothing changes; otherwise one
     * admission step, whatever stores the map yields and whatever nodes are bookmarked.
     */
    method AllocateNodesToClient(clientId: string, requestedHostNum: int)
      returns (r: Outcome<nat, RegError>, ghost sel: seq<nat>, ghost marks: seq<Event>)
      requires Valid()
      modifies this, defaultNodeStore, defaultNodeStore.vNodeStores
      ensures Valid()
      ensures match Refusal(old(Now()), clientId, requestedHostNum)
              case Some(error) => r == Failure(error) && Now() == old(Now())
              case None =>
                var op := Register(clientId, requestedHostNum, sel, marks);
                && Enabled(Rt(), old(Now()), op) && Now() == Step(Rt(), old(Now()), op)
                && r == Success(HostsOf(old(Now()).ring.stores, sel))
      ensures var w, stores := old(Now()), old(Now()).ring.stores;
              var known := clientId in w.queues || clientId in w.owned;
              var inLimits := 50 < requestedHostNum <= w.ring.total && requestedHostNum <= AllHosts(stores);
              var free := HostSum(stores, Unassigned(stores));
              && (r == Failure(BelowMinimum) <==> requestedHostNum <= 50)
              && (r == Failure(ExceedsLimit) <==> requestedHostNum > 50 && requestedHostNum > w.ring.total)
              && (r == Failure(ExceedsCapacity) <==>
                    50 < requestedHostNum <= w.ring.total && requestedHostNum > AllHosts(stores))
              && (r == Failure(ClientExists) <==> inLimits && known)
              && (r == Failure(NoHosts) <==> inLimits && !known && !HasFreeHosts(stores))
              && (r == Failure(NotEnoughHosts) <==>
                    inLimits && !known && HasFreeHosts(stores) && requestedHostNum > free)
              && (r.Success? <==> inLimits && !known && requestedHostNum <= free)
      ensures r.Success? ==>
                var stores := old(Now()).ring.stores;
                && sel != [] && NoDuplicates(sel) && InRange(stores, sel)
                && r.value == HostSum(stores, Members(sel)) >= requestedHostNum
                && r.value - |stores[sel[|sel| - 1]].nodes| < requestedHostNum
                && (forall j :: 0 <= j < |sel| ==> stores[sel[j]].client == "" && |stores[sel[j]].nodes| > 0)
                && Now().owned == old(Now()).owned[clientId := sel]
                && Now().channels == old(Now()).channels[clientId := Channel(false, multiset{})]
                && |Now().ring.stores| == |stores|
                && forall i :: 0 <= i < |stores| ==>
                     && Now().ring.stores[i].nodes == stores[i].nodes && Now().ring.stores[i].loc == stores[i].loc
                     && Now().ring.stores[i].client
                        == if i in sel && clientId != "" then clientId else stores[i].client
    {
      hide Valid, NodeStore.Valid, NodeEventQueue.Valid, Lists, FreeStores, IsGrant, MarksFor, Assign, EnqueueAll,
        HostSum, NoDuplicates;
      sel, marks := [], [];
      RefusalExactly(Now(), clientId, requestedHostNum);
      var choice, hostCount := SelectForClient(clientId, requestedHostNum);
      if choice.Failure? {
        return Failure(choice.error), sel, marks;
      }
      GrantMeans(Now().ring.stores, requestedHostNum, choice.value);
      HostsOfMembers(Now().ring.stores, choice.value);
      sel := choice.value;
      var eventQueue := new NodeEventQueue(clientId);
      FreshQueueIsFenced(eventQueue);
      marks := AddBookmarkEvent(choice.value, eventQueue);
      Install(clientId, eventQueue, choice.value);
      return Success(hostCount), sel, marks;
    }

    twostate lemma FreshQueueIsFenced(new queue: NodeEventQueue)
      requires old(Valid()) && Valid() && unchanged(this) && unchanged(defaultNodeStore)
      requires fresh(queue.Repr)
      ensures Fenced(queue)
    {
    }

    // -------------------------------------------------------------- list

    /** The nodes of a client's stores and the versions to watch from, or why there are none. */
    method ListNodesForClient(clientId: string)
      returns (r: Outcome<(seq<Node>, map<Location, nat>), ListError>)
      requires Valid()
      ensures r == Failure(EmptyClientId) <==> clientId == ""
      ensures r == Failure(NotRegistered) <==> clientId != "" && clientId !in Now().owned
      ensures r == Failure(MissingQueue) <==> clientId != "" && clientId in Now().owned && clientId !in Now().queues
      ensures r.Success? && NoDuplicates(Now().owned[clientId]) ==>
                exists order :: IsListing(Now().ring.stores, Now().owned[clientId], order, r.value.0)
      ensures r.Success? ==> IsRvMap(Now().ring.stores, Now().owned[clientId], r.value.1)
    {
      hide Valid, Lists, NodeStore.Valid, IsListing, IsRvMap, NoDuplicates;
      if clientId == "" {
        return Failure(EmptyClientId);
      }
      ValidParts();
      if clientId !in clientToStores {
        return Failure(NotRegistered);
      }
      ClientKeys();
      if clientId !in nodeEventQueueMap {
        return Failure(MissingQueue);
      }
      ghost var sel := owned[clientId];
      var nodesByStore, rvMapByStore, keys := SnapshotStores(clientToStores[clientId], sel);
      var nodes := CombineNodes(Now().ring.stores, sel, nodesByStore, keys);
      var finalRVs := CombineVersions(Now().ring.stores, sel, rvMapByStore, keys);
      return Success((nodes, finalRVs));
    }

    /** A snapshot of each store, one after the other. */
    method SnapshotStores(assignedStores: seq<VirtualNodeStore>, ghost sel: seq<nat>)
      returns (nodesByStore: seq<seq<Node>>, rvMapByStore: seq<map<Location, nat>>, ghost keys: seq<seq<real>>)
      requires Valid() && AreStores(assignedStores, sel)
      ensures InRange(Now().ring.stores, sel)
      ensures Snapshots(Now().ring.stores, sel, nodesByStore, rvMapByStore, keys)
    {
      hide IsSnapshot, IsVersionMap, NodeStore.Valid;
      nodesByStore, rvMapByStore, keys := [], [], [];
      ClientKeys();
      for i := 0 to |assignedStores|
        invariant |nodesByStore| == |rvMapByStore| == |keys| == i
        invariant forall j :: 0 <= j < i ==>
                    && IsSnapshot(Now().ring.stores[sel[j]].nodes, keys[j], nodesByStore[j])
                    && IsVersionMap(Now().ring.stores[sel[j]].nodes, keys[j], rvMapByStore[j])
      {
        ValidStore();
        defaultNodeStore.StoreValue(sel[i]);
        var nodes, rvs := assignedStores[i].SnapShot();
        ghost var order :| IsSnapshot(Now().ring.stores[sel[i]].nodes, order, nodes)
          && IsVersionMap(Now().ring.stores[sel[i]].nodes, order, rvs);
        nodesByStore, rvMapByStore, keys := nodesByStore + [nodes], rvMapByStore + [rvs], keys + [order];
      }
    }

    // -------------------------------------------------------------- watch and events

    /**
     * Starts a watch for a registered client that passes versions and both channels. A client that
     * is watched already is told so; otherwise the backlog is read and the channel installed, unless
     * the request is too old. Nothing else changes, for this client or another.
     */
    method Watch(clientId: string, rvs: Option<map<Location, nat>>, hasWatchChan: bool, hasStopCh: bool)
      returns (r: Outcome<WatchResult, WatchError>)
      requires Valid()
      modifies defaultNodeStore.wires
      modifies defaultNodeStore`queues, defaultNodeStore`channels, defaultNodeStore`reprs, defaultNodeStore`wires
      ensures Valid() && (clientId in Now().queues <==> clientId in nodeEventQueueMap)
      ensures r == Failure(UnknownClient) <==> clientId !in nodeEventQueueMap
      ensures r == Failure(NilVersions) <==> clientId in nodeEventQueueMap && rvs == None
      ensures r == Failure(NilWatchChannel) <==> clientId in nodeEventQueueMap && rvs.Some? && !hasWatchChan
      ensures r == Failure(NilStopChannel) <==>
                clientId in nodeEventQueueMap && rvs.Some? && hasWatchChan && !hasStopCh
      ensures r.Success? ==>
                var q := nodeEventQueueMap[clientId];
                && (r.value == AlreadyWatched <==> old(nodeEventQueueMap[clientId].watching))
                && (r.value.Started? ==> q.watching && q.senders == multiset{})
                && (!r.value.Started? ==>
                      && q.watching == old(nodeEventQueueMap[clientId].watching)
                      && q.senders == old(nodeEventQueueMap[clientId].senders))
                && (AllSorted(Now().queues[clientId]) ==> Serves(Now().queues[clientId], rvs.value, r.value))
      ensures forall d :: d in nodeEventQueueMap && (d != clientId || r.Failure?) ==>
                && nodeEventQueueMap[d].watching == old(nodeEventQueueMap[d].watching)
                && nodeEventQueueMap[d].senders == old(nodeEventQueueMap[d].senders)
      ensures Now() == if r.Success? && r.value.Started?
                       then old(Now()).(channels := old(Now()).channels[clientId := Channel(true, multiset{})])
                       else old(Now())
    {
      hide Valid, Lists, NodeStore.Valid, NodeEventQueue.Valid, Serves, AllSorted;
      ValidParts();
      ClientKeys();
      if clientId !in nodeEventQueueMap {
        return Failure(UnknownClient);
      }
      if rvs == None {
        return Failure(NilVersions);
      }
      if !hasWatchChan {
        return Failure(NilWatchChannel);
      }
      if !hasStopCh {
        return Failure(NilStopChannel);
      }
      var result := defaultNodeStore.WatchQueue(nodeEventQueueMap[clientId], clientId, rvs.value);
      ValidFromParts();
      return Success(result);
    }

    /** The node at a location, read from the store it is routed to. */
    method GetNodeStatus(loc: Location, id: string) returns (node: Option<Node>)
      requires Valid()
      requires HasLocation(defaultNodeStore.ring, loc) ==> 0 <= Rt().index(loc, id) < |Now().ring.stores|
      ensures HasLocation(defaultNodeStore.ring, loc) ==> node == ReadNode(Rt(), Now().ring, loc, id)
      ensures !HasLocation(defaultNodeStore.ring, loc) ==>
                |Now().ring.stores| > 0 &&
                match Lookup(Now().ring.stores[0].nodes, 0.0)
                case Some(e) => node == Some(e.node)
                case None => node == None
    {
      hide NodeStore.Valid, Lists, RouterOf;
      node := defaultNodeStore.GetNode(loc, id);
    }

    /**
     * A batch of events: the ones before the first nil are delivered one by one, in order; the rest
     * of the batch is dropped. Their nodes go to the store in well-formed batches, and whatever the
     * store answers the call waits until all of them have reported.
     */
    method ProcessEvents(events: seq<Option<Event>>, accepts: (nat, nat) -> bool)
      returns (ok: bool, rvs: map<Location, nat>, helper: DistributorPersistHelper)
      requires Valid()
      requires forall e :: e in BeforeNil(events) ==> CanProcess(Rt(), Now().ring, e)
      modifies this, defaultNodeStore, defaultNodeStore.currentRVs, defaultNodeStore.vNodeStores, defaultNodeStore.wires
      ensures Valid() && ok && fresh(helper)
      ensures forall i :: 0 <= i < |BeforeNil(events)| ==> CanProcess(Rt(), old(Now()).ring, BeforeNil(events)[i])
      ensures Now() == DeliverAll(Rt(), old(Now()), BeforeNil(events))
      ensures rvs == SeenVersions(Now().ring.rvs)
      ensures forall loc :: loc in rvs <==> loc in Now().ring.rvs && Now().ring.rvs[loc] > 0
      ensures forall loc :: loc in rvs ==> rvs[loc] == Now().ring.rvs[loc]
      ensures WellBatched(helper.launched) && Flatten(helper.launched) == NodesIn(BeforeNil(events))
      ensures helper.counter == 0 && helper.statuses == [StatusOf(defaultNodeStore.ring, Now().ring.rvs)]
    {
      hide Valid, Lists, NodeStore.Valid, CanProcess, DeliverAll, RouterOf, SeenVersions, WellBatched, Flatten, NodesIn,
        StatusOf;
      ValidParts();
      var eventsToProcess := ManagedEvents(events);
      helper := new DistributorPersistHelper();
      DeliverAllKeepsLists(Rt(), Now(), BeforeNil(events));
      ghost var batches;
      ok, rvs, batches := defaultNodeStore.ProcessNodeEvents(eventsToProcess, helper);
      assert helper.launched == batches;
      ValidFromParts();
      var attempts := helper.WaitForAllNodesSaved(accepts);
      ValidFromParts();
    }

    /** The events up to the first nil, padded with nils to the length of the batch. */
    method ManagedEvents(events: seq<Option<Event>>) returns (managed: seq<Option<Event>>)
      ensures |managed| == |events| && Present(managed) == BeforeNil(events)
      ensures forall e :: Some(e) in managed ==> e in BeforeNil(events)
    {
      managed := seq(|events|, _ => None);
      var i := 0;
      while i < |events| && events[i].Some?
        invariant 0 <= i <= |events| == |managed|
        invariant forall j :: 0 <= j < |managed| ==> managed[j] == if j < i then events[j] else None
        invariant forall j :: 0 <= j < i ==> events[j].Some?
      {
        managed := managed[i := events[i]];
        i := i + 1;
      }
      PaddedIsPresent(events, managed, i);
    }
  }
}
