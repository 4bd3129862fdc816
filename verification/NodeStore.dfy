/** The sharded node store: virtual stores on the ring, the version counters and the host count. */
module NodeStores {
  import opened Types
  import opened Ring
  import opened EventQueue
  import opened World
  import opened Ownership
  import opened Placement
  import opened VirtualStore
  import opened Persistence

  /** Store `k` of the ring: its arc, and the location whose block it lies in. */
  ghost predicate IsSlot(r: Ring, k: nat, lower: real, upper: real, loc: Location)
    requires StoreCount(r) > 0
  {
    && lower == Edge(r, k)
    && upper == Edge(r, k + 1)
    && InBlock(r, loc, k)
  }

  /** The nodes of the store that an event is routed to. */
  function NodesAround(r: Router, w: RingState, e: Event): map<real, Event>
    requires 0 <= Index(r, e) < |w.stores|
  {
    w.stores[Index(r, e)].nodes
  }

  /** The ring after an update: the write in place, or an add where nothing was. */
  function Updated(r: Router, w: RingState, e: Event): RingState
    requires 0 <= Index(r, e) < |w.stores|
  {
    var nodes := NodesAround(r, w, e);
    match UpdateIn(nodes, Hash(r, e), e)
    case Some(after) => WithNodes(w, Index(r, e), after, 0)
    case None => WithNodes(w, Index(r, e), nodes[Hash(r, e) := e], 1)
  }

  /** What an event does to stores and host count, before the version counters. */
  function Placed(r: Router, w: RingState, e: Event): RingState
    requires IsUpdate(e) && CanProcess(r, w, e)
  {
    Process(r, w, e).(rvs := w.rvs)
  }

  lemma PlacedThenRaised(r: Router, w: RingState, e: Event)
    requires CanProcess(r, w, e)
    ensures if IsUpdate(e)
            then
              var p := Placed(r, w, e);
              e.loc in p.rvs && Process(r, w, e) == RingState(p.stores, Raised(p.rvs, e), p.total)
            else Process(r, w, e) == w
  {
  }

  /** The ring and the queues after one event, whatever its kind. */
  function AfterEvent(r: Router, w: RingState, queues: map<string, History>, channels: map<string, Channel>,
                      e: Event): World
    requires CanProcess(r, w, e)
  {
    Delivered(r, World(w, queues, map[], channels), e)
  }

  lemma AfterUpdate(r: Router, w: RingState, queues: map<string, History>, channels: map<string, Channel>, e: Event)
    requires CanProcess(r, w, e)
    ensures AfterEvent(r, w, queues, channels, e) ==
            if IsUpdate(e) then
              World(Process(r, w, e),
                    Notified(queues, Holder(r, w, e), e, EffectIn(r, w, e).copies),
                    map[],
                    Handed(channels, Holder(r, w, e), e, EffectIn(r, w, e).copies))
            else World(Process(r, w, e), queues, map[], channels)
  {
  }

  /** The events of a list that are not nil, in order. */
  function Present(events: seq<Option<Event>>): seq<Event> {
    if events == [] then []
    else Present(events[..|events| - 1]) + if events[|events| - 1].Some? then [events[|events| - 1].value] else []
  }

  lemma PresentStep(events: seq<Option<Event>>, n: nat)
    requires n < |events|
    ensures events[n] == None ==> Present(events[..n + 1]) == Present(events[..n])
    ensures events[n].Some? ==> Present(events[..n + 1]) == Present(events[..n]) + [events[n].value]
  {
    assert events[..n + 1][..n] == events[..n];
  }

  /** Present drops the nils and nothing else, and keeps the order. */
  lemma {:induction false} PresentDropsNils(a: seq<Option<Event>>, b: seq<Option<Event>>, e: Event)
    ensures Present(a + b) == Present(a) + Present(b)
    ensures Present([None]) == [] && Present([Some(e)]) == [e]
  {
    assert [None][..0] == [] == [Some(e)][..0];
    if b == [] {
      assert a + b == a;
    } else {
      PresentDropsNils(a, b[..|b| - 1], e);
      assert (a + b)[..|a + b| - 1] == a + b[..|b| - 1];
    }
  }

  /** `now` is the state after delivering `done` from `start`. */
  ghost predicate Reached(r: Router, start: World, done: seq<Event>, now: World) {
    && (forall i :: 0 <= i < |done| ==> CanProcess(r, start.ring, done[i]))
    && now == DeliverAll(r, start, done)
  }

  lemma ReachedStep(r: Router, start: World, done: seq<Event>, now: World, e: Event)
    requires Reached(r, start, done, now) && CanProcess(r, start.ring, e)
    ensures CanProcess(r, now.ring, e) && Reached(r, start, done + [e], Delivered(r, now, e))
  {
  }

  function NodesIn(es: seq<Event>): (nodes: seq<Node>)
    ensures |nodes| == |es|
    ensures forall i :: 0 <= i < |es| ==> nodes[i] == es[i].node
  {
    seq(|es|, i requires 0 <= i < |es| => es[i].node)
  }

  lemma NodesInStep(es: seq<Event>, e: Event)
    ensures NodesIn(es + [e]) == NodesIn(es) + [e.node]
  {
  }

  lemma NothingYet(r: Router, start: World)
    ensures Reached(r, start, Present([]), start) && Split(NodesIn(Present([])), [], []) && Present([]) == []
  {
  }

  function SeenVersions(rvs: map<Location, nat>): map<Location, nat> {
    map loc | loc in rvs && rvs[loc] > 0 :: rvs[loc]
  }

  /** The status stored after a batch: the ring as it was configured, and the versions seen. */
  function StatusOf(r: Ring, rvs: map<Location, nat>): NodeStoreStatus {
    NodeStoreStatus(r.regions, r.partitions, r.perPartition, SeenVersions(rvs))
  }

  lemma Divides(v: nat, n: nat)
    requires n > 0
    ensures (n * v) / n == v
  {
    var q, rest := (n * v) / n, (n * v) % n;
    assert n * v == q * n + rest && 0 <= rest < n;
    assert n * v == v * n;
    SameBlock(v, q, n, n * v);
  }

  lemma StoresPerPartition(r: Ring)
    ensures r.regions * r.partitions > 0 && StoreCount(r) / (r.regions * r.partitions) == r.perPartition
  {
    StoreCountIs(r);
    hide StoreCount;
    Divides(r.perPartition, r.regions * r.partitions);
  }

  /** Hosts of the first `n` stores. */
  function HostsBefore(stores: seq<VStore>, n: nat): nat {
    HostSum(stores, Indices(n))
  }

  lemma NoHostsBefore(stores: seq<VStore>)
    ensures HostsBefore(stores, 0) == 0
  {
    HostSumNone(stores);
  }

  lemma HostsBeforeStep(stores: seq<VStore>, n: nat)
    requires n < |stores|
    ensures HostsBefore(stores, n + 1) == HostsBefore(stores, n) + |stores[n].nodes|
  {
    assert Indices(n + 1) == Indices(n) + {n};
    HostSumSplit(stores, Indices(n), {n});
    HostSumOne(stores, n);
  }

  lemma HostsBeforeAll(stores: seq<VStore>, n: nat)
    requires n <= |stores|
    ensures HostsBefore(stores, n) <= AllHosts(stores)
  {
    var rest := Indices(|stores|) - Indices(n);
    assert Indices(n) + rest == Indices(|stores|);
    HostSumSplit(stores, Indices(n), rest);
  }

  lemma PlacedAdd(r: Router, w: RingState, e: Event)
    requires e.kind.Added? && CanProcess(r, w, e)
    ensures var nodes, k := NodesAround(r, w, e), Hash(r, e);
            match AddTo(nodes, k, e)
            case Some(after) => Placed(r, w, e) == WithNodes(w, Index(r, e), after, 1) && EffectIn(r, w, e).copies == 1
            case None => Placed(r, w, e) == Updated(r, w, e) && k in nodes && EffectIn(r, w, e).copies == 2
  {
  }

  lemma PlacedUpdate(r: Router, w: RingState, e: Event)
    requires e.kind.Modified? && CanProcess(r, w, e)
    ensures Placed(r, w, e) == Updated(r, w, e)
    ensures EffectIn(r, w, e).copies == if Hash(r, e) in NodesAround(r, w, e) then 1 else 2
  {
  }

  /** The client that holds the store an event is routed to. */
  function Holder(r: Router, w: RingState, e: Event): string
    requires 0 <= Index(r, e) < |w.stores|
  {
    w.stores[Index(r, e)].client
  }

  lemma WithSameNodes(r: Router, w: RingState, e: Event)
    requires 0 <= Index(r, e) < |w.stores|
    ensures WithNodes(w, Index(r, e), NodesAround(r, w, e), 0) == w
  {
  }

  /** Object sets of different clients share nothing, and all lie within `all`. */
  ghost predicate Separate(reprs: map<string, set<object>>, all: set<object>) {
    && (forall c :: c in reprs ==> reprs[c] <= all)
    && (forall c, d :: c in reprs && d in reprs && c != d ==> reprs[c] !! reprs[d])
  }

  lemma SeparateGrows(reprs: map<string, set<object>>, all: set<object>, c: string, more: set<object>)
    requires Separate(reprs, all) && (more !! all || (c in reprs && (more - reprs[c]) !! all))
    ensures Separate(reprs[c := more], all + more)
  {
  }

  lemma NotifiedNobody(queues: map<string, History>, channels: map<string, Channel>, e: Event)
    ensures Notified(queues, "", e, 1) == queues && Handed(channels, "", e, 1) == channels
  {
  }

  lemma NotifiedOnce(queues: map<string, History>, channels: map<string, Channel>, c: string, e: Event)
    requires c in queues && c in channels && c != ""
    ensures Notified(queues, c, e, 1) == queues[c := Enqueued(queues[c], e)]
    ensures Handed(channels, c, e, 1) == channels[c := Gains(channels[c], e)]
  {
    assert multiset([e]) == multiset{e};
  }

  /** A channel after one event was enqueued for its client. */
  function Gains(ch: Channel, e: Event): Channel {
    if ch.watching then Channel(true, ch.senders + multiset{e}) else ch
  }

  /** Telling a client twice, one after the other, and handing its channel both copies. */
  lemma NotifiedTwice(queues: map<string, History>, channels: map<string, Channel>, c: string, e: Event)
    ensures Notified(Notified(queues, c, e, 1), c, e, 1) == Notified(queues, c, e, 2)
    ensures Handed(Handed(channels, c, e, 1), c, e, 1) == Handed(channels, c, e, 2)
  {
    hide Handed;
    HandedTwice(channels, c, e);
    if c in queues {
      assert At(queues[c], e.loc) + [e] + [e] == At(queues[c], e.loc) + [e, e];
      assert EnqueuedTimes(EnqueuedTimes(queues[c], e, 1), e, 1) == EnqueuedTimes(queues[c], e, 2);
    }
  }

  lemma HandedTwice(channels: map<string, Channel>, c: string, e: Event)
    ensures Handed(Handed(channels, c, e, 1), c, e, 1) == Handed(channels, c, e, 2)
  {
    if c != "" && c in channels && channels[c].watching {
      var once, twice := channels[c].senders + multiset{e}, channels[c].senders + multiset{e, e};
      assert multiset([e]) == multiset{e} && multiset([e, e]) == multiset{e, e};
      assert Handed(channels, c, e, 1) == channels[c := Channel(true, once)];
      assert once + multiset{e} == twice;
    }
  }

  /** A queue object carries these values. */
  ghost predicate Carries(q: NodeEventQueue, history: History, channel: Channel, repr: set<object>)
    reads q, q.Repr
  {
    q.Repr == repr && q.Valid() && q.history == history && channel == Channel(q.watching, q.senders)
  }

  lemma CarriesNow(q: NodeEventQueue)
    requires q.Valid()
    ensures Carries(q, q.history, Channel(q.watching, q.senders), q.Repr)
  {
  }

  class NodeStore {
    const ring: Ring
    const arcs: map<Location, Arc>
    const granularOfRing: real
    const currentRVs: array2<nat>
    var vNodeStores: seq<VirtualNodeStore>
    var totalHostNum: nat
    /** The store as a value; the queue of every client, its history, and the objects they use. */
    ghost var state: RingState
    ghost var clients: map<string, NodeEventQueue>
    ghost var queues: map<string, History>
    ghost var channels: map<string, Channel>
    ghost var reprs: map<string, set<object>>
    ghost var wires: set<object>

    /** The geometry: exact arcs and granularity. */
    ghost predicate Shaped() {
      && (forall loc :: loc in arcs <==> HasLocation(ring, loc))
      && (forall loc :: loc in arcs ==> arcs[loc] == ArcAt(ring.regions, ring.partitions, loc))
      && StoreCount(ring) > 0 && granularOfRing == Granularity(ring)
      && currentRVs.Length0 == ring.regions && currentRVs.Length1 == ring.partitions
    }

    /** The stores tile the ring: each is one granularity wide, in its location's block. */
    ghost predicate Tiled()
      requires StoreCount(ring) > 0
      reads this`vNodeStores, (set s | s in vNodeStores)`lowerbound, (set s | s in vNodeStores)`upperbound
    {
      && |vNodeStores| == StoreCount(ring)
      && forall k :: 0 <= k < |vNodeStores| ==>
           IsSlot(ring, k, vNodeStores[k].lowerbound, vNodeStores[k].upperbound, vNodeStores[k].location)
    }

    ghost predicate Distinct()
      reads this`vNodeStores
    {
      forall i, j :: 0 <= i < j < |vNodeStores| ==> vNodeStores[i] != vNodeStores[j]
    }

    /** The fields hold what the abstract state says. */
    ghost predicate Tied()
      requires currentRVs.Length0 == ring.regions && currentRVs.Length1 == ring.partitions
      reads this`state, this`vNodeStores, this`totalHostNum, vNodeStores, currentRVs
    {
      && |state.stores| == |vNodeStores|
      && (forall i :: 0 <= i < |vNodeStores| ==> state.stores[i] == vNodeStores[i].Value())
      && (forall loc :: loc in state.rvs <==> HasLocation(ring, loc))
      && (forall loc :: loc in state.rvs ==> state.rvs[loc] == currentRVs[loc.region, loc.partition])
      && state.total == totalHostNum
    }

    /** Client queues are well-formed and share nothing. */
    ghost predicate Queues()
      reads this`clients, this`queues, this`channels, this`reprs, this`wires, wires
    {
      && this !in wires
      && clients.Keys == queues.Keys == channels.Keys == reprs.Keys
      && Separate(reprs, wires)
      && forall c :: c in clients ==> QueueOf(c)
    }

    /** Every store reports to its client's queue, and no queue uses the store's own objects. */
    ghost predicate Wired()
      reads this`vNodeStores, this`clients, this`wires
      reads (set s | s in vNodeStores)`clientId, (set s | s in vNodeStores)`eventQueue
    {
      && currentRVs !in wires
      && forall i :: 0 <= i < |vNodeStores| ==> vNodeStores[i] !in wires && Reports(vNodeStores[i])
    }

    ghost predicate QueueOf(c: string)
      requires c in clients
      reads this`clients, this`queues, this`channels, this`reprs, this`wires, wires
    {
      var q := clients[c];
      && q in wires && q.Repr <= wires && q.Valid() && c in reprs && reprs[c] == q.Repr
      && c in queues && q.history == queues[c]
      && c in channels && channels[c] == Channel(q.watching, q.senders)
    }

    ghost predicate Reports(s: VirtualNodeStore)
      reads this`clients, s`clientId, s`eventQueue
    {
      if s.clientId == "" then s.eventQueue == null
      else s.clientId in clients && s.eventQueue == clients[s.clientId]
    }

    ghost predicate Valid()
      reads this, vNodeStores, currentRVs, wires
    {
      Shaped() && Tiled() && Distinct() && Tied() && Queues() && Wired()
    }

    /** Same stores and clients; only new objects joined the queues. */
    twostate predicate Steady()
      reads this
    {
      vNodeStores == old(vNodeStores) && clients == old(clients) && fresh(wires - old(wires))
    }

    constructor (vNodeNumPerRP: nat, regionNum: nat, partitionMaxNum: nat, hash: string -> uint64)
      requires vNodeNumPerRP > 0 && regionNum > 0 && partitionMaxNum > 0
      ensures Valid() && fresh(currentRVs) && (forall s :: s in vNodeStores ==> fresh(s))
      ensures ring == RawRing(regionNum, partitionMaxNum, vNodeNumPerRP, hash)
      ensures Initial(World(state, queues, map[], channels)) && Layout(ring, state.stores)
      ensures clients == map[] && wires == {}
    {
      var r: Ring := RawRing(regionNum, partitionMaxNum, vNodeNumPerRP, hash);
      StoreCountPositive(r);
      var built := BuildArcs(regionNum, partitionMaxNum);
      ring, arcs := r, built;
      granularOfRing := RING_RANGE / ((vNodeNumPerRP * regionNum * partitionMaxNum) as real);
      currentRVs := new nat[regionNum, partitionMaxNum]((i, j) => 0);
      vNodeStores, totalHostNum := [], 0;
      clients, queues, channels, reprs, wires := map[], map[], map[], map[], {};
      new;
      GenerateVirtualNodeStores();
      hide StoreCount, Granularity;
      assert forall k :: 0 <= k < |vNodeStores| ==> Fresh(k);
      hide Fresh, Layout, Tied, Shaped, Tiled, Wired, Queues, Distinct, Valid;
      InitState();
      GeneratedIsValid();
    }

    /** A store as generated: in its slot, empty, and reporting to nobody. */
    ghost predicate Fresh(k: nat)
      requires k < |vNodeStores| && StoreCount(ring) > 0
      reads this`vNodeStores, vNodeStores[k]
    {
      var s := vNodeStores[k];
      && IsSlot(ring, k, s.lowerbound, s.upperbound, s.location)
      && s.nodeEventByHash == map[] && s.clientId == "" && s.eventQueue == null
    }

    ghost predicate AllFresh()
      requires StoreCount(ring) > 0
      reads this`vNodeStores, vNodeStores
    {
      Distinct() && forall n :: 0 <= n < |vNodeStores| ==> Fresh(n)
    }

    /**
     * Lays the stores out along the arcs with a running lower bound; the last store of each
     * partition takes the arc's end and the last of all takes 360, which changes nothing.
     */
    method GenerateVirtualNodeStores()
      requires Shaped() && vNodeStores == []
      modifies this`vNodeStores
      ensures |vNodeStores| == StoreCount(ring) && AllFresh()
      ensures forall s :: s in vNodeStores ==> fresh(s)
    {
      var vNodeIndex, k := 0, 0;
      while k < ring.regions
        invariant 0 <= k <= ring.regions
        invariant vNodeIndex == |vNodeStores| == (k * ring.partitions) * ring.perPartition
        invariant AllFresh() && forall s :: s in vNodeStores ==> fresh(s)
      {
        hide AllFresh, StoreCount;
        var m := 0;
        while m < ring.partitions
          invariant 0 <= m <= ring.partitions
          invariant vNodeIndex == |vNodeStores| == (k * ring.partitions + m) * ring.perPartition
          invariant AllFresh() && forall s :: s in vNodeStores ==> fresh(s)
        {
          GeneratePartition(Location(k, m));
          vNodeIndex := vNodeIndex + ring.perPartition;
          MulDistributes(k * ring.partitions + m, ring.perPartition);
          m := m + 1;
        }
        MulDistributes(k, ring.partitions);
        k := k + 1;
      }
      StoreCountIs(ring);
      hide StoreCount;
      RingEdges(ring);
      assert vNodeStores[|vNodeStores| - 1] in vNodeStores;
      SetLastUpperBound(RING_RANGE);
    }

    method GeneratePartition(loc: Location)
      requires Shaped() && HasLocation(ring, loc)
      requires |vNodeStores| == Block(ring, loc) * ring.perPartition && AllFresh()
      modifies this`vNodeStores
      ensures |vNodeStores| == old(|vNodeStores|) + ring.perPartition && AllFresh()
      ensures forall s :: s in vNodeStores ==> s in old(vNodeStores) || fresh(s)
    {
      hide StoreCount, Granularity, ArcAt, AllFresh, Edge, Block;
      ArcEdges(ring, loc);
      var lowerBound, upperBound := arcs[loc].lower, arcs[loc].upper;
      ghost var base := |vNodeStores|;
      var i := 0;
      while i < ring.perPartition
        invariant 0 <= i <= ring.perPartition
        invariant |vNodeStores| == base + i && lowerBound == Edge(ring, |vNodeStores|)
        invariant AllFresh()
        invariant forall s :: s in vNodeStores ==> s in old(vNodeStores) || fresh(s)
        invariant i > 0 ==> fresh(vNodeStores[|vNodeStores| - 1])
      {
        EdgeStep(ring, |vNodeStores|);
        AppendStore(lowerBound, loc);
        lowerBound := lowerBound + granularOfRing;
        i := i + 1;
      }
      SetLastUpperBound(upperBound);
    }

    method AppendStore(lowerBound: real, loc: Location)
      requires Shaped() && AllFresh()
      requires IsSlot(ring, |vNodeStores|, lowerBound, lowerBound + granularOfRing, loc)
      modifies this`vNodeStores
      ensures AllFresh()
      ensures |vNodeStores| == old(|vNodeStores|) + 1 && vNodeStores[..|vNodeStores| - 1] == old(vNodeStores)
      ensures fresh(vNodeStores[|vNodeStores| - 1])
    {
      hide IsSlot;
      var store := new VirtualNodeStore(lowerBound, lowerBound + granularOfRing, loc);
      vNodeStores := vNodeStores + [store];
      forall n | 0 <= n < |vNodeStores|
        ensures Fresh(n)
      {
        if n < |vNodeStores| - 1 {
          assert old(Fresh(n));
        }
      }
    }

    /** The correction at the end of a partition or of the ring: the bound is there already. */
    method SetLastUpperBound(upperBound: real)
      requires Shaped() && AllFresh() && vNodeStores != []
      requires upperBound == Edge(ring, |vNodeStores|)
      modifies {vNodeStores[|vNodeStores| - 1]}
      ensures AllFresh()
    {
      hide Edge;
      assert Fresh(|vNodeStores| - 1);
      assert upperBound == vNodeStores[|vNodeStores| - 1].upperbound;
      vNodeStores[|vNodeStores| - 1].upperbound := upperBound;
      forall n | 0 <= n < |vNodeStores|
        ensures Fresh(n)
      {
        assert old(Fresh(n));
      }
    }

    /** The state of generated stores: nothing seen, nothing stored, nothing assigned. */
    method InitState()
      requires Shaped() && |vNodeStores| == StoreCount(ring) && totalHostNum == 0
      requires forall k :: 0 <= k < |vNodeStores| ==> Fresh(k)
      requires forall i, j :: 0 <= i < ring.regions && 0 <= j < ring.partitions ==> currentRVs[i, j] == 0
      modifies this`state
      ensures Tied() && Layout(ring, state.stores)
      ensures (forall k :: 0 <= k < |state.stores| ==> state.stores[k].nodes == map[] && state.stores[k].client == "")
      ensures (forall loc :: loc in state.rvs ==> state.rvs[loc] == 0) && state.total == 0
    {
      hide StoreCount, Granularity;
      var stores := vNodeStores;
      state := RingState(
        seq(|stores|, i requires 0 <= i < |stores| => VStore(stores[i].location, map[], "")),
        map loc | loc in arcs :: 0,
        0);
      forall k | 0 <= k < |vNodeStores|
        ensures state.stores[k] == vNodeStores[k].Value() && InBlock(ring, state.stores[k].loc, k)
      {
        assert Fresh(k);
      }
    }

    lemma {:induction false} GeneratedIsValid()
      requires Shaped() && |vNodeStores| == StoreCount(ring) && AllFresh() && Tied()
      requires clients == map[] && queues == map[] && channels == map[] && reprs == map[] && wires == {}
      ensures Valid()
    {
      hide StoreCount, Granularity, Tied, IsSlot;
      forall k | 0 <= k < |vNodeStores|
        ensures IsSlot(ring, k, vNodeStores[k].lowerbound, vNodeStores[k].upperbound, vNodeStores[k].location)
        ensures Reports(vNodeStores[k])
      {
        assert Fresh(k);
      }
    }

    lemma StoreFacts(i: nat)
      requires Valid() && i < |vNodeStores|
      ensures |state.stores| == |vNodeStores|
      ensures Shaped() && Tiled() && Distinct() && Tied() && Queues() && Wired()
      ensures var s := vNodeStores[i];
              && state.stores[i].client == s.clientId && state.stores[i].nodes == s.nodeEventByHash
              && if s.clientId == "" then s.eventQueue == null
                 else s.clientId in clients && s.eventQueue == clients[s.clientId]
      ensures this !in wires && currentRVs !in wires && forall s :: s in vNodeStores ==> s !in wires
    {
    }

    lemma {:induction false} SizeFact()
      requires Valid()
      ensures |state.stores| == |vNodeStores|
    {
    }

    lemma StoreValue(i: nat)
      requires Valid() && i < |state.stores|
      ensures i < |vNodeStores| && state.stores[i] == vNodeStores[i].Value()
    {
    }

    lemma {:induction false} TotalFact()
      requires Valid()
      ensures state.total == totalHostNum
    {
    }

    lemma StoreHosts(i: nat)
      requires Valid() && i < |state.stores|
      ensures i < |vNodeStores| && |state.stores[i].nodes| == |vNodeStores[i].nodeEventByHash|
    {
    }

    lemma {:induction false} ShapeFacts()
      requires Valid()
      ensures currentRVs.Length0 == ring.regions && currentRVs.Length1 == ring.partitions
    {
    }

    lemma {:induction false} Facts()
      requires Valid()
      ensures Shaped() && Tiled() && Distinct() && Tied() && Queues() && Wired()
      ensures this !in wires && currentRVs !in wires
      ensures forall s :: s in vNodeStores ==> s !in wires && Reports(s)
      ensures clients.Keys == queues.Keys == channels.Keys == reprs.Keys && Separate(reprs, wires)
      ensures forall c :: c in clients ==>
                && clients[c].Repr == reprs[c] <= wires && clients[c].Valid()
                && clients[c].history == queues[c] && channels[c] == Channel(clients[c].watching, clients[c].senders)
    {
      hide NodeEventQueue.Valid, Separate, Tied, Shaped, Tiled, Distinct;
      assert forall c :: c in clients ==> QueueOf(c);
    }

    lemma {:induction false} StillWired()
      requires this !in wires && currentRVs !in wires && forall s :: s in vNodeStores ==> s !in wires
      requires Shaped() && Tiled() && Distinct() && Tied() && Queues() && forall s :: s in vNodeStores ==> Reports(s)
      ensures Valid()
    {
    }

    /** Hands an event to the queue that store `i` reports to, if any. */
    method Notify(i: nat, e: Event)
      requires Valid() && i < |vNodeStores|
      modifies wires, this`queues, this`channels, this`reprs, this`wires
      ensures Valid() && Steady() && state == old(state)
      ensures queues == Notified(old(queues), state.stores[i].client, e, 1)
      ensures channels == Handed(old(channels), state.stores[i].client, e, 1)
    {
      hide Valid, Shaped, Tiled, Distinct, Tied, Queues, Wired, Notified, Handed;
      StoreFacts(i);
      var store := vNodeStores[i];
      if store.eventQueue != null {
        Enqueue(store.eventQueue, store.clientId, e);
        StillWired();
      } else {
        NotifiedNobody(queues, channels, e);
      }
    }

    /** The enqueue as the queues of all clients see it. */
    method Enqueue(queue: NodeEventQueue, ghost c: string, e: Event)
      requires Queues() && c in clients && c != "" && queue == clients[c]
      modifies wires, this`queues, this`channels, this`reprs, this`wires
      ensures Queues() && fresh(wires - old(wires))
      ensures queues == Notified(old(queues), c, e, 1) && channels == Handed(old(channels), c, e, 1)
    {
      hide NodeEventQueue.Valid, Notified, Handed, Enqueued, Separate;
      QueueFacts();
      OthersApart(c);
      NotifiedOnce(queues, channels, c, e);
      queue.EnqueueEvent(e);
      SeparateGrows(reprs, wires, c, queue.Repr);
      RecordQueue(c);
    }

    lemma QueueFacts()
      requires Queues()
      ensures this !in wires && clients.Keys == queues.Keys == channels.Keys == reprs.Keys && Separate(reprs, wires)
      ensures forall c :: c in clients ==>
                Carries(clients[c], queues[c], channels[c], reprs[c]) && clients[c] in wires && clients[c].Repr <= wires
    {
      hide NodeEventQueue.Valid, Separate;
      assert forall c :: c in clients ==> QueueOf(c);
    }

    /** The queue of one client changed: the abstract state follows it. */
    ghost method RecordQueue(c: string)
      requires c in clients && this !in wires && clients[c].Valid() && this !in clients[c].Repr
      requires queues.Keys == channels.Keys == reprs.Keys && clients.Keys == queues.Keys + {c}
      requires Separate(reprs[c := clients[c].Repr], wires + clients[c].Repr)
      requires forall d :: d in clients && d != c ==>
                 && Carries(clients[d], queues[d], channels[d], reprs[d])
                 && clients[d] in wires && clients[d].Repr <= wires
      modifies this`queues, this`channels, this`reprs, this`wires
      ensures Queues()
      ensures queues == old(queues)[c := clients[c].history]
      ensures channels == old(channels)[c := Channel(clients[c].watching, clients[c].senders)]
      ensures reprs == old(reprs)[c := clients[c].Repr] && wires == old(wires) + clients[c].Repr
    {
      hide NodeEventQueue.Valid, Separate, Queues, Carries;
      var q := clients[c];
      CarriesNow(q);
      SetRecord(c, q.history, Channel(q.watching, q.senders), q.Repr);
      forall d | d in clients
        ensures Carries(clients[d], queues[d], channels[d], reprs[d])
      {
        assert d == c || old(Carries(clients[d], queues[d], channels[d], reprs[d]));
      }
      QueuesAfter();
    }

    ghost method SetRecord(c: string, history: History, channel: Channel, repr: set<object>)
      modifies this`queues, this`channels, this`reprs, this`wires
      ensures queues == old(queues)[c := history] && channels == old(channels)[c := channel]
      ensures reprs == old(reprs)[c := repr] && wires == old(wires) + repr
    {
      queues, channels, reprs := queues[c := history], channels[c := channel], reprs[c := repr];
      wires := wires + repr;
    }

    lemma QueuesAfter()
      requires this !in wires && clients.Keys == queues.Keys == channels.Keys == reprs.Keys && Separate(reprs, wires)
      requires forall d :: d in clients ==>
                 Carries(clients[d], queues[d], channels[d], reprs[d])
      ensures Queues()
    {
    }

    /** The position of a node and the store it is routed to; an unknown location has no arc. */
    method GetVirtualNodeStore(loc: Location, id: string) returns (hashValue: real, index: int)
      requires Shaped()
      ensures if HasLocation(ring, loc)
              then hashValue == RouterOf(ring).hash(loc, id) && index == RouterOf(ring).index(loc, id)
              else hashValue == 0.0 && index == 0
    {
      var arc := if loc in arcs then arcs[loc] else Arc(0.0, 0.0);
      hashValue := arc.lower + RingValue(ring, id) * (arc.upper - arc.lower);
      index := (hashValue / granularOfRing).Floor;
    }

    /** Replaces the nodes of one store and counts the hosts added. */
    method Write(i: nat, nodes: map<real, Event>, added: nat)
      requires Valid() && i < |vNodeStores|
      modifies this`totalHostNum, this`state, vNodeStores
      ensures Valid() && Steady() && queues == old(queues) && channels == old(channels)
      ensures state == WithNodes(old(state), i, nodes, added)
    {
      hide Valid, Shaped, Queues, Wired, Tiled, Distinct, Tied, WithNodes, Reports, Separate, NodeEventQueue.Valid;
      ShapeFacts();
      Facts();
      WriteFields(i, nodes, added);
      StillWired();
    }

    method WriteFields(i: nat, nodes: map<real, Event>, added: nat)
      requires currentRVs.Length0 == ring.regions && currentRVs.Length1 == ring.partitions
      requires Distinct() && Tied() && i < |vNodeStores|
      modifies this`totalHostNum, this`state, StoreAt(i)`nodeEventByHash
      ensures Tied()
      ensures i < |old(state).stores| && state == WithNodes(old(state), i, nodes, added)
    {
      vNodeStores[i].nodeEventByHash := nodes;
      totalHostNum := totalHostNum + added;
      state := WithNodes(state, i, nodes, added);
    }

    ghost function StoreAt(i: nat): VirtualNodeStore
      requires i < |vNodeStores|
      reads this`vNodeStores
    {
      vNodeStores[i]
    }

    /** Raises the version counter of the event's location. */
    method RaiseVersion(e: Event)
      requires Valid() && e.loc in state.rvs
      modifies currentRVs, this`state
      ensures Valid() && Steady() && queues == old(queues) && channels == old(channels)
      ensures state == RingState(old(state).stores, Raised(old(state).rvs, e), old(state).total)
    {
      hide Valid, Shaped, Queues, Wired, Tiled, Distinct, Tied, Raised, Reports, Separate, NodeEventQueue.Valid;
      ShapeFacts();
      Facts();
      RaiseFields(e);
      StillWired();
    }

    method RaiseFields(e: Event)
      requires Shaped() && Tied() && e.loc in state.rvs
      modifies currentRVs, this`state
      ensures Tied()
      ensures state == RingState(old(state).stores, Raised(old(state).rvs, e), old(state).total)
    {
      assert currentRVs[e.loc.region, e.loc.partition] == state.rvs[e.loc];
      if currentRVs[e.loc.region, e.loc.partition] < e.node.rv {
        currentRVs[e.loc.region, e.loc.partition] := e.node.rv;
        state := RingState(state.stores, Raised(state.rvs, e), state.total);
      }
    }

    /** Reads a node where it is routed; a location off the ring reads position 0 of the first store. */
    method GetNode(loc: Location, id: string) returns (node: Option<Node>)
      requires Valid()
      requires HasLocation(ring, loc) ==> 0 <= RouterOf(ring).index(loc, id) < |state.stores|
      ensures HasLocation(ring, loc) ==> node == ReadNode(RouterOf(ring), state, loc, id)
      ensures !HasLocation(ring, loc) ==>
                |state.stores| > 0 &&
                match Lookup(state.stores[0].nodes, 0.0) case Some(e) => node == Some(e.node) case None => node == None
    {
      var hashValue, index := GetVirtualNodeStore(loc, id);
      hide RouterOf, Shaped, Queues, Wired;
      var nodes := vNodeStores[index].nodeEventByHash;
      if hashValue in nodes {
        return Some(nodes[hashValue].node);
      }
      return None;
    }

    /** Whether all stores together, assigned or not, hold so many hosts. */
    method CheckFreeCapacity(requestedHostNum: int) returns (ok: bool)
      requires Valid()
      ensures ok <==> requestedHostNum <= AllHosts(state.stores)
    {
      hide Queues, Wired, HostSum;
      var allocatableHostNum := 0;
      NoHostsBefore(state.stores);
      var n := 0;
      while n < |vNodeStores|
        invariant 0 <= n <= |vNodeStores|
        invariant allocatableHostNum == HostsBefore(state.stores, n)
        invariant n > 0 ==> allocatableHostNum < requestedHostNum
      {
        HostsBeforeStep(state.stores, n);
        allocatableHostNum := allocatableHostNum + vNodeStores[n].GetHostNum();
        n := n + 1;
        if allocatableHostNum >= requestedHostNum {
          HostsBeforeAll(state.stores, n);
          return true;
        }
      }
      HostsBeforeAll(state.stores, n);
      return false;
    }

    /** The opening of both ring operations: find the place of the event, then enqueue it. */
    method Announce(e: Event) returns (k: real, i: nat)
      requires Valid() && IsUpdate(e) && CanProcess(RouterOf(ring), state, e)
      modifies wires, this`queues, this`channels, this`reprs, this`wires
      ensures Valid() && Steady() && state == old(state)
      ensures k == Hash(RouterOf(ring), e) && i == Index(RouterOf(ring), e)
      ensures i < |vNodeStores| && vNodeStores[i].nodeEventByHash == NodesAround(RouterOf(ring), state, e)
      ensures queues == Notified(old(queues), Holder(RouterOf(ring), state, e), e, 1)
      ensures channels == Handed(old(channels), Holder(RouterOf(ring), state, e), e, 1)
    {
      hide Valid, Shaped, Tiled, Distinct, Tied, Queues, Wired, Notified, Handed, RouterOf;
      k, i := Route(e);
      StoreFacts(i);
      Notify(i, e);
      StoreFacts(i);
    }

    /** Where an event goes. */
    method Route(e: Event) returns (k: real, i: nat)
      requires Valid() && IsUpdate(e) && CanProcess(RouterOf(ring), state, e)
      ensures k == Hash(RouterOf(ring), e) && i == Index(RouterOf(ring), e)
      ensures i < |vNodeStores|
    {
      hide Queues, Wired, Distinct, Tiled;
      assert HasLocation(ring, e.loc);
      k, i := GetVirtualNodeStore(e.loc, e.node.id);
    }

    method AddNodeToRing(e: Event) returns (isNewNode: bool)
      requires Valid() && IsUpdate(e) && CanProcess(RouterOf(ring), state, e)
      modifies this, vNodeStores, wires
      ensures Valid() && Steady()
      ensures var nodes := AddTo(NodesAround(RouterOf(ring), old(state), e), Hash(RouterOf(ring), e), e);
              && isNewNode == nodes.Some?
              && state == if isNewNode then WithNodes(old(state), Index(RouterOf(ring), e), nodes.value, 1)
                 else old(state)
      ensures queues == Notified(old(queues), Holder(RouterOf(ring), old(state), e), e, 1)
      ensures channels == Handed(old(channels), Holder(RouterOf(ring), old(state), e), e, 1)
    {
      hide Valid, Notified, Handed, WithNodes, RouterOf, NodesAround, Holder;
      var k, i := Announce(e);
      var nodes := vNodeStores[i].nodeEventByHash;
      if k in nodes && nodes[k].node.id == e.node.id {
        return false;
      }
      Write(i, nodes[k := e], 1);
      return true;
    }

    method UpdateNodeInRing(e: Event)
      requires Valid() && IsUpdate(e) && CanProcess(RouterOf(ring), state, e)
      modifies this, vNodeStores, wires
      ensures Valid() && Steady()
      ensures state == Updated(RouterOf(ring), old(state), e)
      ensures queues == Notified(old(queues), Holder(RouterOf(ring), old(state), e), e,
                                 if Hash(RouterOf(ring), e) in NodesAround(RouterOf(ring), old(state), e) then 1 else 2)
      ensures channels == Handed(old(channels), Holder(RouterOf(ring), old(state), e), e,
                                 if Hash(RouterOf(ring), e) in NodesAround(RouterOf(ring), old(state), e) then 1 else 2)
    {
      hide Valid, Notified, Handed, WithNodes, RouterOf, NodesAround, Holder;
      var k, i := Announce(e);
      var nodes := vNodeStores[i].nodeEventByHash;
      if k in nodes {
        if nodes[k].node.id == e.node.id && nodes[k].node.rv < e.node.rv {
          Write(i, nodes[k := e], 0);
        } else {
          WithSameNodes(RouterOf(ring), state, e);
        }
      } else {
        var isNew := AddNodeToRing(e);
        NotifiedTwice(old(queues), old(channels), Holder(RouterOf(ring), old(state), e), e);
      }
    }

    method CreateNode(e: Event)
      requires Valid() && e.kind.Added? && CanProcess(RouterOf(ring), state, e)
      modifies this, vNodeStores, wires
      ensures Valid() && Steady()
      ensures state == Placed(RouterOf(ring), old(state), e)
      ensures queues == Notified(old(queues), Holder(RouterOf(ring), old(state), e), e,
                  EffectIn(RouterOf(ring), old(state), e).copies)
      ensures channels == Handed(old(channels), Holder(RouterOf(ring), old(state), e), e,
                  EffectIn(RouterOf(ring), old(state), e).copies)
    {
      PlacedAdd(RouterOf(ring), state, e);
      hide Valid, Notified, Handed, WithNodes, RouterOf, NodesAround, Holder, Placed, Updated, EffectIn;
      var isNewNode := AddNodeToRing(e);
      if !isNewNode {
        UpdateNodeInRing(e);
        NotifiedTwice(old(queues), old(channels), Holder(RouterOf(ring), old(state), e), e);
      }
    }

    method UpdateNode(e: Event)
      requires Valid() && e.kind.Modified? && CanProcess(RouterOf(ring), state, e)
      modifies this, vNodeStores, wires
      ensures Valid() && Steady()
      ensures state == Placed(RouterOf(ring), old(state), e)
      ensures queues == Notified(old(queues), Holder(RouterOf(ring), old(state), e), e,
                  EffectIn(RouterOf(ring), old(state), e).copies)
      ensures channels == Handed(old(channels), Holder(RouterOf(ring), old(state), e), e,
                  EffectIn(RouterOf(ring), old(state), e).copies)
    {
      PlacedUpdate(RouterOf(ring), state, e);
      hide Valid, Notified, Handed, WithNodes, RouterOf, NodesAround, Holder, Placed, Updated, EffectIn;
      UpdateNodeInRing(e);
    }

    /** One event: stores, queues, versions and host count move as the abstract step says. */
    method ProcessNodeEvent(e: Event) returns (ok: bool)
      requires Valid() && CanProcess(RouterOf(ring), state, e)
      modifies this, currentRVs, vNodeStores, wires
      ensures Valid() && Steady()
      ensures ok <==> e.kind.Added? || e.kind.Modified?
      ensures !ok ==> state == old(state) && queues == old(queues) && channels == old(channels)
      ensures World(state, queues, map[], channels) ==
              AfterEvent(RouterOf(ring), old(state), old(queues), old(channels), e)
    {
      hide Valid, Notified, Handed, RouterOf, EffectIn, Process, Placed, AfterEvent;
      PlacedThenRaised(RouterOf(ring), state, e);
      AfterUpdate(RouterOf(ring), state, queues, channels, e);
      if e.kind.Added? {
        CreateNode(e);
      } else if e.kind.Modified? {
        UpdateNode(e);
      } else {
        return false;
      }
      RaiseVersion(e);
      return true;
    }

    /** The versions seen so far, location by location, without the locations that saw none. */
    method GetCurrentResourceVersions() returns (rvs: map<Location, nat>)
      requires Valid()
      ensures rvs == SeenVersions(state.rvs)
      ensures forall loc :: loc in rvs <==> loc in state.rvs && state.rvs[loc] > 0
      ensures forall loc :: loc in rvs ==> rvs[loc] == state.rvs[loc]
    {
      rvs := map[];
      var i := 0;
      while i < ring.regions
        invariant 0 <= i <= ring.regions
        invariant forall loc ::
                    loc in rvs <==> LaidOut(ring.partitions, i, 0, loc) && HasLocation(ring, loc) && state.rvs[loc] > 0
        invariant forall loc :: loc in rvs ==> loc in state.rvs && rvs[loc] == state.rvs[loc]
      {
        var j := 0;
        while j < ring.partitions
          invariant 0 <= j <= ring.partitions
          invariant forall loc ::
                      loc in rvs <==>
                        LaidOut(ring.partitions, i, j, loc) && HasLocation(ring, loc) && state.rvs[loc] > 0
          invariant forall loc :: loc in rvs ==> loc in state.rvs && rvs[loc] == state.rvs[loc]
        {
          ghost var loc := Location(i, j);
          assert loc in state.rvs && state.rvs[loc] == currentRVs[i, j];
          if currentRVs[i, j] > 0 {
            rvs := rvs[Location(i, j) := currentRVs[i, j]];
          }
          j := j + 1;
        }
        i := i + 1;
      }
    }

    /**
     * A batch of events, some of them nil: the store and the queues end up as after delivering the
     * others one by one; their nodes are handed over for saving in order, in full batches but for
     * the last; and the wait counter is left at the number of nodes handed over.
     */
    method ProcessNodeEvents(nodeEvents: seq<Option<Event>>, helper: DistributorPersistHelper)
      returns (ok: bool, rvs: map<Location, nat>, ghost batches: seq<seq<Node>>)
      requires Valid() && helper !in wires
      requires forall e :: Some(e) in nodeEvents ==> CanProcess(RouterOf(ring), state, e)
      modifies this, currentRVs, vNodeStores, wires, helper
      ensures Valid() && Steady() && ok
      ensures forall i :: 0 <= i < |Present(nodeEvents)| ==>
                CanProcess(RouterOf(ring), old(state), Present(nodeEvents)[i])
      ensures World(state, queues, map[], channels) ==
              DeliverAll(RouterOf(ring), World(old(state), old(queues), map[], old(channels)), Present(nodeEvents))
      ensures rvs == SeenVersions(state.rvs)
      ensures forall loc :: loc in rvs <==> loc in state.rvs && state.rvs[loc] > 0
      ensures forall loc :: loc in rvs ==> rvs[loc] == state.rvs[loc]
      ensures helper.launched == old(helper.launched) + batches && WellBatched(batches)
      ensures Flatten(batches) == NodesIn(Present(nodeEvents))
      ensures forall i :: 0 <= i < |batches| ==> 0 < |batches[i]| <= 100 && (i < |batches| - 1 ==> |batches[i]| == 100)
      ensures helper.counter == old(helper.counter) + |Flatten(batches)|
      ensures helper.statuses == old(helper.statuses) + [StatusOf(ring, state.rvs)]
    {
      hide Valid, DeliverAll, Delivered, CanProcess, RouterOf, SeenVersions, Present, Flatten, WellBatched, Split,
        NodesIn, StatusOf;
      helper.SetWaitCount(|nodeEvents|);
      ok, batches := true, [];
      var eventsToPersist: seq<Node> := [];
      ghost var start := World(state, queues, map[], channels);
      NothingYet(RouterOf(ring), start);
      var n := 0;
      while n < |nodeEvents|
        invariant 0 <= n <= |nodeEvents|
        invariant Valid() && Steady() && helper !in wires
        invariant Reached(RouterOf(ring), start, Present(nodeEvents[..n]), World(state, queues, map[], channels))
        invariant helper.launched == old(helper.launched) + batches && helper.statuses == old(helper.statuses)
        invariant Split(NodesIn(Present(nodeEvents[..n])), batches, eventsToPersist)
        invariant helper.counter == old(helper.counter) + |nodeEvents| - n + |Present(nodeEvents[..n])|
      {
        var next := nodeEvents[n];
        PresentStep(nodeEvents, n);
        n := n + 1;
        if next == None {
          helper.Done();
          continue;
        }
        var e := next.value;
        assert Some(e) in nodeEvents;
        ReachedStep(RouterOf(ring), start, Present(nodeEvents[..n - 1]), World(state, queues, map[], channels), e);
        var processed := ProcessNodeEvent(e);
        NodesInStep(Present(nodeEvents[..n - 1]), e);
        SplitStep(NodesIn(Present(nodeEvents[..n - 1])), batches, eventsToPersist, e.node);
        eventsToPersist := eventsToPersist + [e.node];
        if |eventsToPersist| == BATCH_SIZE {
          helper.PersistNodes(eventsToPersist);
          batches := batches + [eventsToPersist];
          eventsToPersist := [];
        }
      }
      assert nodeEvents[..n] == nodeEvents;
      rvs, batches := PersistRest(helper, eventsToPersist, NodesIn(Present(nodeEvents)), batches);
    }

    /** The end of a batch of events: the nodes left over are handed over, and then the status. */
    method PersistRest(helper: DistributorPersistHelper, eventsToPersist: seq<Node>, ghost nodes: seq<Node>,
                       ghost before: seq<seq<Node>>)
      returns (rvs: map<Location, nat>, ghost batches: seq<seq<Node>>)
      requires Valid() && helper !in wires && Split(nodes, before, eventsToPersist)
      modifies helper`launched, helper`statuses
      ensures WellBatched(batches) && Flatten(batches) == nodes
      ensures forall i :: 0 <= i < |batches| ==> 0 < |batches[i]| <= 100 && (i < |batches| - 1 ==> |batches[i]| == 100)
      ensures before <= batches && helper.launched == old(helper.launched) + batches[|before|..]
      ensures helper.statuses == old(helper.statuses) + [StatusOf(ring, state.rvs)]
      ensures rvs == SeenVersions(state.rvs)
      ensures forall loc :: loc in rvs <==> loc in state.rvs && state.rvs[loc] > 0
      ensures forall loc :: loc in rvs ==> rvs[loc] == state.rvs[loc]
    {
      hide Valid, StatusOf, SeenVersions, Flatten, WellBatched, Split;
      SplitEnd(nodes, before, eventsToPersist);
      batches := before;
      if |eventsToPersist| > 0 {
        helper.PersistNodes(eventsToPersist);
        batches := batches + [eventsToPersist];
      }
      rvs := PersistStatus(helper);
    }

    /** The end of a batch: the status is handed over, and the versions seen are returned. */
    method PersistStatus(helper: DistributorPersistHelper) returns (rvs: map<Location, nat>)
      requires Valid()
      modifies helper`statuses
      ensures helper.statuses == old(helper.statuses) + [StatusOf(ring, state.rvs)]
      ensures rvs == SeenVersions(state.rvs)
      ensures forall loc :: loc in rvs <==> loc in state.rvs && state.rvs[loc] > 0
      ensures forall loc :: loc in rvs ==> rvs[loc] == state.rvs[loc]
    {
      hide Valid, StatusOf, SeenVersions;
      var status := GetNodeStoreStatus();
      rvs := GetCurrentResourceVersions();
      helper.PersistStoreConfigs(status);
    }

    /** The geometry of the ring and the versions seen. */
    method GetNodeStoreStatus() returns (status: NodeStoreStatus)
      requires Valid()
      ensures status == StatusOf(ring, state.rvs)
      ensures status.regionNum == ring.regions && status.partitionMaxNum == ring.partitions
      ensures status.virtualNodeNumPerRP == ring.perPartition
      ensures forall loc :: loc in status.currentResourceVersions <==> loc in state.rvs && state.rvs[loc] > 0
      ensures forall loc :: loc in status.currentResourceVersions ==>
                status.currentResourceVersions[loc] == state.rvs[loc]
    {
      hide Valid, StoreCount;
      StoresPerPartition(ring);
      var rvs := GetCurrentResourceVersions();
      status := NodeStoreStatus(ring.regions, ring.partitions, StoreCount(ring) / (ring.regions * ring.partitions),
          rvs);
    }

    /** A new client's queue joins the queues that stores may report to. */
    ghost method AddQueue(c: string, queue: NodeEventQueue)
      requires Valid() && c !in clients && queue.Valid()
      requires queue.Repr !! wires && this !in queue.Repr && currentRVs !in queue.Repr
      requires forall s :: s in vNodeStores ==> s !in queue.Repr
      modifies this`clients, this`queues, this`channels, this`reprs, this`wires
      ensures Valid()
      ensures clients == old(clients)[c := queue] && queues == old(queues)[c := queue.history]
      ensures channels == old(channels)[c := Channel(queue.watching, queue.senders)]
      ensures wires == old(wires) + queue.Repr
    {
      hide NodeEventQueue.Valid, Separate, Tied, Shaped, Tiled, Distinct, Queues, Wired, Valid;
      Facts();
      JoinQueues(c, queue);
      StillWired();
    }

    ghost method JoinQueues(c: string, queue: NodeEventQueue)
      requires this !in wires && this !in queue.Repr && queue.Repr !! wires && c !in clients && queue.Valid()
      requires clients.Keys == queues.Keys == channels.Keys == reprs.Keys && Separate(reprs, wires)
      requires forall d :: d in clients ==>
                 && Carries(clients[d], queues[d], channels[d], reprs[d])
                 && clients[d] in wires && clients[d].Repr <= wires
      modifies this`clients, this`queues, this`channels, this`reprs, this`wires
      ensures Queues()
      ensures clients == old(clients)[c := queue] && queues == old(queues)[c := queue.history]
      ensures channels == old(channels)[c := Channel(queue.watching, queue.senders)]
      ensures wires == old(wires) + queue.Repr
    {
      hide NodeEventQueue.Valid, Separate, Queues, Carries;
      clients := clients[c := queue];
      SeparateGrows(reprs, wires, c, queue.Repr);
      RecordQueue(c);
    }

    /** One store takes on a client, which the store refuses for the empty name. */
    method AssignStore(i: nat, c: string, queue: NodeEventQueue)
      requires Valid() && i < |vNodeStores| && c in clients && clients[c] == queue
      requires state.stores[i].client == ""
      modifies this`state, vNodeStores
      ensures Valid() && Steady() && queues == old(queues) && channels == old(channels) && wires == old(wires)
      ensures state == old(state).(stores := Assign(old(state).stores, [i], c))
    {
      hide Valid, Shaped, Tiled, Tied, Distinct, Queues, Wired, Assign, Separate, Reports, NodeEventQueue.Valid;
      ShapeFacts();
      Facts();
      SizeFact();
      StoreValue(i);
      AssignFields(i, c, queue);
      StillWired();
    }

    method AssignFields(i: nat, c: string, queue: NodeEventQueue)
      requires currentRVs.Length0 == ring.regions && currentRVs.Length1 == ring.partitions
      requires Distinct() && Tied() && i < |vNodeStores| && vNodeStores[i].clientId == ""
      requires c in clients && clients[c] == queue
      requires forall s :: s in vNodeStores ==> Reports(s)
      modifies this`state, StoreAt(i)`clientId, StoreAt(i)`eventQueue
      ensures Tied()
      ensures state == old(state).(stores := Assign(old(state).stores, [i], c))
      ensures forall s :: s in vNodeStores ==> Reports(s)
    {
      var ok := vNodeStores[i].AssignToClient(c, queue);
      state := state.(stores := Assign(state.stores, [i], c));
      assert forall s :: s in vNodeStores && s != vNodeStores[i] ==> old(Reports(s));
    }

    /** Starting a watch on a client's queue: its channel is installed, or nothing changes. */
    method WatchQueue(queue: NodeEventQueue, ghost c: string, rvs: map<Location, nat>) returns (r: WatchResult)
      requires Valid() && c in clients && clients[c] == queue
      modifies wires, this`queues, this`channels, this`reprs, this`wires
      ensures Valid() && Steady() && wires == old(wires) && reprs == old(reprs)
      ensures state == old(state) && queues == old(queues) && c in queues
      ensures r == AlreadyWatched <==> old(queue.watching)
      ensures r.Started? ==> queue.watching && queue.senders == multiset{}
      ensures !r.Started? ==> queue.watching == old(queue.watching) && queue.senders == old(queue.senders)
      ensures forall d :: d in clients && d != c ==>
                clients[d].watching == old(clients[d].watching) && clients[d].senders == old(clients[d].senders)
      ensures channels == if r.Started? then old(channels)[c := Channel(true, multiset{})] else old(channels)
      ensures AllSorted(queues[c]) ==> Serves(queues[c], rvs, r)
    {
      hide NodeEventQueue.Valid, Valid, Shaped, Tiled, Distinct, Tied, Queues, Wired, Separate, Reports, Serves;
      Facts();
      r := WatchIt(queue, c, rvs);
      StillWired();
    }

    method WatchIt(queue: NodeEventQueue, ghost c: string, rvs: map<Location, nat>) returns (r: WatchResult)
      requires Queues() && c in clients && clients[c] == queue
      modifies wires, this`queues, this`channels, this`reprs, this`wires
      ensures Queues() && wires == old(wires) && reprs == old(reprs) && queues == old(queues) && c in queues
      ensures r == AlreadyWatched <==> old(queue.watching)
      ensures r.Started? ==> queue.watching && queue.senders == multiset{}
      ensures !r.Started? ==> queue.watching == old(queue.watching) && queue.senders == old(queue.senders)
      ensures forall d :: d in clients && d != c ==>
                clients[d].watching == old(clients[d].watching) && clients[d].senders == old(clients[d].senders)
      ensures channels == if r.Started? then old(channels)[c := Channel(true, multiset{})] else old(channels)
      ensures AllSorted(queues[c]) ==> Serves(queues[c], rvs, r)
    {
      hide NodeEventQueue.Valid, Separate, Serves, Queues, Carries, AllSorted;
      QueueFacts();
      OwnFacts(c);
      OthersApart(c);
      r := queue.Watch(rvs);
      assert queues[c := queue.history] == queues && reprs[c := queue.Repr] == reprs && wires + queue.Repr == wires;
      assert r.Started? || channels[c := Channel(queue.watching, queue.senders)] == channels;
      SeparateGrows(reprs, wires, c, queue.Repr);
      RecordQueue(c);
    }

    lemma OwnFacts(c: string)
      requires c in clients && c in queues && c in channels && c in reprs
      requires Carries(clients[c], queues[c], channels[c], reprs[c])
      ensures clients[c].Valid() && clients[c].Repr == reprs[c] && clients[c].history == queues[c]
      ensures channels[c] == Channel(clients[c].watching, clients[c].senders)
    {
    }

    /** Queue objects of different clients are different objects. */
    lemma OthersApart(c: string)
      requires c in clients && clients.Keys == queues.Keys == channels.Keys == reprs.Keys && Separate(reprs, wires)
      requires forall d :: d in clients ==> Carries(clients[d], queues[d], channels[d], reprs[d])
      ensures forall d :: d in clients && d != c ==> clients[d].Repr !! clients[c].Repr && clients[d] != clients[c]
    {
      hide NodeEventQueue.Valid;
    }
  }
}
