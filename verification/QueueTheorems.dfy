/**
 * What every run keeps about client queues: they stay sorted, and they start with a bookmark that
 * covers any later list.
 */
module QueueTheorems {
  import opened Types
  import opened EventLog
  import opened EventQueue
  import opened World
  import opened Ownership

  // ---------------------------------------------------------------- orderly runs

  /** Deliveries stay at their own location and come in version order there; registrations are free. */
  ghost predicate Orderly(r: Router, w: World, op: Op)
    requires Enabled(r, w, op)
  {
    match op
    case Deliver(e) => IsUpdate(e) ==> w.ring.stores[Index(r, e)].loc == e.loc && w.ring.rvs[e.loc] <= e.node.rv
    case Register(_, _, _, _) => true
  }

  ghost predicate OrderlyRun(r: Router, w: World, ops: seq<Op>)
    requires Legal(r, w, ops)
  {
    ops == [] || (OrderlyRun(r, w, ops[..|ops| - 1]) && Orderly(r, Run(r, w, ops[..|ops| - 1]), ops[|ops| - 1]))
  }

  /** Every stored node is at home and no newer than its location's version counter. */
  ghost predicate Homed(w: RingState) {
    forall i, h :: 0 <= i < |w.stores| && h in w.stores[i].nodes ==>
      var e := w.stores[i].nodes[h];
      IsUpdate(e) && e.loc == w.stores[i].loc && e.loc in w.rvs && e.node.rv <= w.rvs[e.loc]
  }

  ghost predicate SortedUpTo(s: seq<Event>, rv: nat) {
    Sorted(s) && forall i :: 0 <= i < |s| ==> s[i].node.rv <= rv
  }

  /** Whole queue histories are in version order, up to the location's version counter. */
  ghost predicate QueuesSorted(w: World) {
    forall c, loc :: c in w.queues && loc in w.queues[c] ==>
      loc in w.ring.rvs && SortedUpTo(w.queues[c][loc], w.ring.rvs[loc])
  }

  /** Some node of these stores at this location is at least as new as `rv`. */
  ghost predicate Covered(stores: seq<VStore>, sel: seq<nat>, loc: Location, rv: nat)
    requires InRange(stores, sel)
  {
    exists j, h ::
      0 <= j < |sel| && h in stores[sel[j]].nodes && stores[sel[j]].loc == loc && stores[sel[j]].nodes[h].node.rv >= rv
  }

  /** A client has a queue at every location it holds; each starts with a bookmark still covered. */
  ghost predicate Bookmarked(w: World) {
    && (forall c :: c in w.owned ==> c in w.queues && InRange(w.ring.stores, w.owned[c]))
    && (forall c, j :: c in w.owned && 0 <= j < |w.owned[c]| ==> w.ring.stores[w.owned[c][j]].loc in w.queues[c])
    && (forall c, loc :: c in w.owned && loc in w.queues[c] ==>
          && w.queues[c][loc] != [] && w.queues[c][loc][0].kind == Bookmark
          && Covered(w.ring.stores, w.owned[c], loc, w.queues[c][loc][0].node.rv))
  }

  ghost predicate Inv(w: World) {
    Owners(w) && Homed(w.ring) && QueuesSorted(w) && Bookmarked(w)
  }

  // ---------------------------------------------------------------- deliveries

  lemma DeliverKeepsHomed(r: Router, w: World, e: Event)
    requires Homed(w.ring) && IsUpdate(e) && Enabled(r, w, Deliver(e)) && Orderly(r, w, Deliver(e))
    ensures Homed(Process(r, w.ring, e))
  {
  }

  lemma AppendSorted(s: seq<Event>, e: Event, n: nat, rv: nat)
    requires SortedUpTo(s, rv) && rv <= e.node.rv
    ensures SortedUpTo(s + Copies(e, n), e.node.rv)
  {
  }

  lemma DeliverKeepsQueuesSorted(r: Router, w: World, e: Event)
    requires QueuesSorted(w) && IsUpdate(e) && Enabled(r, w, Deliver(e)) && Orderly(r, w, Deliver(e))
    ensures QueuesSorted(Step(r, w, Deliver(e)))
  {
    var w', n := Step(r, w, Deliver(e)), EffectIn(r, w.ring, e).copies;
    forall c, loc | c in w'.queues && loc in w'.queues[c]
      ensures loc in w'.ring.rvs && SortedUpTo(w'.queues[c][loc], w'.ring.rvs[loc])
    {
      if w'.queues[c] != w.queues[c] && loc == e.loc {
        if loc !in w.queues[c] {
          assert SortedUpTo([], w.ring.rvs[loc]);
        }
        AppendSorted(At(w.queues[c], loc), e, n, w.ring.rvs[loc]);
      } else {
        assert loc in w.queues[c] && w'.queues[c][loc] == w.queues[c][loc];
      }
    }
  }

  /** Stored nodes are only ever replaced by nodes that are at least as new. */
  lemma DeliverKeepsCovered(r: Router, w: World, e: Event, sel: seq<nat>, loc: Location, rv: nat)
    requires Homed(w.ring) && IsUpdate(e) && Enabled(r, w, Deliver(e)) && Orderly(r, w, Deliver(e))
    requires InRange(w.ring.stores, sel) && Covered(w.ring.stores, sel, loc, rv)
    ensures Covered(Process(r, w.ring, e).stores, sel, loc, rv)
  {
    var stores, stores' := w.ring.stores, Process(r, w.ring, e).stores;
    var j, h :| 0 <= j < |sel| && h in stores[sel[j]].nodes && stores[sel[j]].loc == loc
      && stores[sel[j]].nodes[h].node.rv >= rv;
    assert h in stores'[sel[j]].nodes && stores'[sel[j]].loc == loc;
    assert stores'[sel[j]].nodes[h].node.rv >= stores[sel[j]].nodes[h].node.rv;
  }

  /** A delivery adds to the queues of clients; it starts no location's queue that the client did not hold. */
  lemma {:induction false} DeliverKeepsFirsts(r: Router, w: World, e: Event, c: string, loc: Location)
    requires Owners(w) && Bookmarked(w) && IsUpdate(e) && Enabled(r, w, Deliver(e)) && Orderly(r, w, Deliver(e))
    requires c in w.owned && c in w.queues && c in Queued(r, w, e) && loc in Queued(r, w, e)[c]
    ensures loc in w.queues[c] && Queued(r, w, e)[c][loc] != [] && Queued(r, w, e)[c][loc][0] == w.queues[c][loc][0]
  {
    hide Covered, Process;
    var i := Index(r, e);
    var holder := w.ring.stores[i].client;
    if holder != "" {
      assert holder in w.owned && i in w.owned[holder];
      assert e.loc in w.queues[holder];
    }
  }

  /** Only queues that exist are added to. */
  lemma QueuedKeepsClients(r: Router, w: World, e: Event)
    requires IsUpdate(e) && CanProcess(r, w.ring, e)
    ensures Queued(r, w, e).Keys == w.queues.Keys
    ensures forall c, loc :: c in w.queues && loc in w.queues[c] ==> loc in Queued(r, w, e)[c]
  {
  }

  lemma {:induction false} DeliverKeepsBookmarked(r: Router, w: World, e: Event)
    requires Owners(w) && Homed(w.ring) && Bookmarked(w)
    requires IsUpdate(e) && Enabled(r, w, Deliver(e)) && Orderly(r, w, Deliver(e))
    ensures Bookmarked(Step(r, w, Deliver(e)))
  {
    hide Covered, Process, Queued, Owners, Homed;
    var w' := Step(r, w, Deliver(e));
    ProcessKeepsStores(r, w.ring, e);
    QueuedKeepsClients(r, w, e);
    forall c, loc | c in w'.owned && loc in w'.queues[c]
      ensures w'.queues[c][loc] != [] && w'.queues[c][loc][0].kind == Bookmark
      ensures Covered(w'.ring.stores, w'.owned[c], loc, w'.queues[c][loc][0].node.rv)
    {
      DeliverKeepsFirsts(r, w, e, c, loc);
      DeliverKeepsCovered(r, w, e, w.owned[c], loc, w.queues[c][loc][0].node.rv);
    }
  }

  // ---------------------------------------------------------------- registrations

  ghost predicate DistinctLocations(es: seq<Event>) {
    forall i, j :: 0 <= i < j < |es| ==> es[i].loc != es[j].loc
  }

  /** Bookmarks of distinct locations make one single-element queue each. */
  lemma {:induction false} MarksMakeQueues(marks: seq<Event>)
    requires DistinctLocations(marks)
    ensures var q := EnqueueAll(map[], marks);
            && (forall j :: 0 <= j < |marks| ==> marks[j].loc in q && q[marks[j].loc] == [marks[j]])
            && (forall loc :: loc in q ==> exists j :: 0 <= j < |marks| && marks[j].loc == loc)
  {
    if marks != [] {
      var n := |marks| - 1;
      var init, last := marks[..n], marks[n];
      assert forall j :: 0 <= j < n ==> init[j] == marks[j];
      MarksMakeQueues(init);
      var before := EnqueueAll(map[], init);
      assert last.loc !in before;
      assert At(before, last.loc) + [last] == [last];
      assert EnqueueAll(map[], marks) == before[last.loc := [last]];
    }
  }

  lemma SeenAfter(stores: seq<VStore>, firsts: seq<nat>, last: nat, loc: Location)
    requires InRange(stores, firsts) && last < |stores|
    ensures Seen(stores, firsts + [last], loc) <==> Seen(stores, firsts, loc) || stores[last].loc == loc
  {
    var more := firsts + [last];
    assert more[|firsts|] == last;
    assert forall i :: 0 <= i < |firsts| ==> more[i] == firsts[i];
  }

  /** The first stores of each location have distinct locations and miss none. */
  lemma {:induction false} FirstsAreDistinct(stores: seq<VStore>, sel: seq<nat>)
    requires InRange(stores, sel)
    ensures var firsts := FirstOfLocation(stores, sel);
            && (forall i, j :: 0 <= i < j < |firsts| ==> stores[firsts[i]].loc != stores[firsts[j]].loc)
            && (forall i :: 0 <= i < |firsts| ==> firsts[i] in sel)
            && (forall j :: 0 <= j < |sel| ==> Seen(stores, firsts, stores[sel[j]].loc))
  {
    if sel != [] {
      var n := |sel| - 1;
      var init, last := sel[..n], sel[n];
      assert sel == init + [last];
      FirstsAreDistinct(stores, init);
      var before := FirstOfLocation(stores, init);
      forall j | 0 <= j < |sel|
        ensures Seen(stores, FirstOfLocation(stores, sel), stores[sel[j]].loc)
      {
        SeenAfter(stores, before, last, stores[sel[j]].loc);
        assert j < n ==> sel[j] == init[j];
      }
    }
  }

  /** The store comes first in the list among those of its location. */
  ghost predicate ComesFirst(stores: seq<VStore>, sel: seq<nat>, k: nat)
    requires InRange(stores, sel)
  {
    exists j :: 0 <= j < |sel| && sel[j] == k && forall i :: 0 <= i < j ==> stores[sel[i]].loc != stores[k].loc
  }

  lemma {:induction false} LastComesFirst(stores: seq<VStore>, init: seq<nat>, last: nat, k: nat)
    requires InRange(stores, init + [last])
    ensures InRange(stores, init) && last < |stores|
    ensures ComesFirst(stores, init + [last], k) <==>
            || ComesFirst(stores, init, k)
            || (k == last && forall i :: 0 <= i < |init| ==> stores[init[i]].loc != stores[last].loc)
  {
    var sel := init + [last];
    assert sel[|init|] == last;
    assert forall i :: 0 <= i < |init| ==> sel[i] == init[i];
    if ComesFirst(stores, init, k) {
      var j :| 0 <= j < |init| && init[j] == k && forall i :: 0 <= i < j ==> stores[init[i]].loc != stores[k].loc;
      assert sel[j] == k;
    }
    if k == last && forall i :: 0 <= i < |init| ==> stores[init[i]].loc != stores[last].loc {
      assert sel[|init|] == k;
    }
  }

  lemma {:induction false} FirstsComeFirst(stores: seq<VStore>, sel: seq<nat>, k: nat)
    requires InRange(stores, sel)
    ensures k in FirstOfLocation(stores, sel) <==> ComesFirst(stores, sel, k)
  {
    if sel != [] {
      var init, last := sel[..|sel| - 1], sel[|sel| - 1];
      assert sel == init + [last];
      FirstsComeFirst(stores, init, k);
      LastComesFirst(stores, init, last, k);
      SeenMeans(stores, init, stores[last].loc);
      hide ComesFirst, Seen;
    }
  }

  lemma {:induction false} SeenMeans(stores: seq<VStore>, sel: seq<nat>, loc: Location)
    requires InRange(stores, sel)
    ensures Seen(stores, FirstOfLocation(stores, sel), loc) <==> exists i :: 0 <= i < |sel| && stores[sel[i]].loc == loc
  {
    var firsts := FirstOfLocation(stores, sel);
    FirstsAreDistinct(stores, sel);
    if Seen(stores, firsts, loc) {
      var i := SeenAt(stores, firsts, loc);
      var j :| 0 <= j < |sel| && sel[j] == firsts[i];
      assert stores[sel[j]].loc == loc;
    }
    if i :| 0 <= i < |sel| && stores[sel[i]].loc == loc {
      assert Seen(stores, firsts, stores[sel[i]].loc);
    }
  }

  /** The bookmarks of a registration: one for the first store granted at each location, of a node it holds. */
  lemma {:induction false} MarksMean(stores: seq<VStore>, sel: seq<nat>, marks: seq<Event>)
    requires InRange(stores, sel) && MarksFor(stores, sel, marks)
    ensures var firsts := FirstOfLocation(stores, sel);
            && |marks| == |firsts|
            && (forall i, j :: 0 <= i < j < |firsts| ==> stores[firsts[i]].loc != stores[firsts[j]].loc)
            && (forall k :: k in firsts <==> ComesFirst(stores, sel, k))
            && forall j :: 0 <= j < |marks| ==> BookmarkOf(stores[firsts[j]], marks[j])
  {
    var firsts := FirstOfLocation(stores, sel);
    FirstsAreDistinct(stores, sel);
    forall k
      ensures k in firsts <==> ComesFirst(stores, sel, k)
    {
      FirstsComeFirst(stores, sel, k);
    }
  }

  /** A bookmark is of a node that the store holds: its location and version. */
  lemma BookmarkMeans(s: VStore, mark: Event)
    requires BookmarkOf(s, mark)
    ensures exists h :: h in s.nodes && mark == Event(Bookmark, s.nodes[h].loc, s.nodes[h].node)
  {
    var h :| h in s.nodes && mark.loc == s.nodes[h].loc && mark.node == s.nodes[h].node;
    assert mark == Event(Bookmark, s.nodes[h].loc, s.nodes[h].node);
  }

  /** At home, a bookmark names its store's own location and a version that is stored there. */
  lemma MarkAtHome(w: RingState, sel: seq<nat>, i: nat, mark: Event)
    requires Homed(w) && InRange(w.stores, sel) && i in sel && i < |w.stores| && BookmarkOf(w.stores[i], mark)
    ensures mark.kind == Bookmark && mark.loc == w.stores[i].loc
    ensures mark.loc in w.rvs && mark.node.rv <= w.rvs[mark.loc]
    ensures Covered(w.stores, sel, mark.loc, mark.node.rv)
  {
  }

  /** A bookmark at its own location, no newer than the counter there, and covered. */
  ghost predicate GoodMark(w: RingState, sel: seq<nat>, mark: Event)
    requires InRange(w.stores, sel)
  {
    && mark.kind == Bookmark && mark.loc in w.rvs && mark.node.rv <= w.rvs[mark.loc]
    && Covered(w.stores, sel, mark.loc, mark.node.rv)
  }

  /** The queue a registration builds: one good bookmark at each location granted. */
  ghost predicate FreshQueue(w: RingState, sel: seq<nat>, q: History)
    requires InRange(w.stores, sel)
  {
    && (forall j :: 0 <= j < |sel| ==> w.stores[sel[j]].loc in q)
    && (forall loc :: loc in q ==> |q[loc]| == 1 && q[loc][0].loc == loc && GoodMark(w, sel, q[loc][0]))
  }

  lemma {:induction false} MarksAreGood(w: RingState, sel: seq<nat>, marks: seq<Event>)
    requires Homed(w) && InRange(w.stores, sel) && MarksFor(w.stores, sel, marks)
    ensures var firsts := FirstOfLocation(w.stores, sel);
            |marks| == |firsts| && forall j :: 0 <= j < |marks| ==>
              marks[j].loc == w.stores[firsts[j]].loc && GoodMark(w, sel, marks[j])
  {
    var firsts := FirstOfLocation(w.stores, sel);
    FirstsAreDistinct(w.stores, sel);
    forall j | 0 <= j < |marks|
      ensures marks[j].loc == w.stores[firsts[j]].loc && GoodMark(w, sel, marks[j])
    {
      MarkAtHome(w, sel, firsts[j], marks[j]);
    }
  }

  lemma RegistrationQueue(w: RingState, sel: seq<nat>, marks: seq<Event>)
    requires Homed(w) && InRange(w.stores, sel) && MarksFor(w.stores, sel, marks)
    ensures FreshQueue(w, sel, EnqueueAll(map[], marks))
  {
    hide Homed, GoodMark, EnqueueAll, FirstOfLocation, MarksFor, Seen;
    var q, firsts := EnqueueAll(map[], marks), FirstOfLocation(w.stores, sel);
    FirstsAreDistinct(w.stores, sel);
    MarksAreGood(w, sel, marks);
    MarksMakeQueues(marks);
    forall j | 0 <= j < |sel|
      ensures w.stores[sel[j]].loc in q
    {
      var i := SeenAt(w.stores, firsts, w.stores[sel[j]].loc);
      assert marks[i].loc in q;
    }
  }

  lemma SeenAt(stores: seq<VStore>, firsts: seq<nat>, loc: Location) returns (i: nat)
    requires InRange(stores, firsts) && Seen(stores, firsts, loc)
    ensures i < |firsts| && stores[firsts[i]].loc == loc
  {
    i :| 0 <= i < |firsts| && stores[firsts[i]].loc == loc;
  }

  lemma CoveredAfterAssign(w: RingState, sel: seq<nat>, c: string, held: seq<nat>, loc: Location, rv: nat)
    requires InRange(w.stores, held) && Covered(w.stores, held, loc, rv)
    ensures Covered(Assign(w.stores, sel, c), held, loc, rv)
  {
  }

  lemma RegisterKeepsRing(w: RingState, sel: seq<nat>, c: string)
    requires Homed(w)
    ensures Homed(w.(stores := Assign(w.stores, sel, c)))
  {
  }

  lemma {:induction false} RegisterKeepsBookmarked(w: World, w': World, c: string, sel: seq<nat>, q: History)
    requires Bookmarked(w) && c !in w.owned
    requires InRange(w.ring.stores, sel) && FreshQueue(w.ring, sel, q)
    requires w'.ring.stores == Assign(w.ring.stores, sel, c)
    requires w'.queues == w.queues[c := q] && w'.owned == w.owned[c := sel]
    ensures Bookmarked(w')
  {
    forall d, loc | d in w'.owned && loc in w'.queues[d]
      ensures w'.queues[d][loc] != [] && w'.queues[d][loc][0].kind == Bookmark
      ensures InRange(w'.ring.stores, w'.owned[d])
              && Covered(w'.ring.stores, w'.owned[d], loc, w'.queues[d][loc][0].node.rv)
    {
      if d == c {
        assert GoodMark(w.ring, sel, q[loc][0]);
        CoveredAfterAssign(w.ring, sel, c, sel, loc, q[loc][0].node.rv);
      } else {
        CoveredAfterAssign(w.ring, sel, c, w.owned[d], loc, w.queues[d][loc][0].node.rv);
      }
    }
  }

  lemma RegisterKeepsQueuesSorted(w: World, w': World, c: string, sel: seq<nat>, q: History)
    requires QueuesSorted(w) && InRange(w.ring.stores, sel) && FreshQueue(w.ring, sel, q)
    requires w'.ring.rvs == w.ring.rvs && w'.queues == w.queues[c := q]
    ensures QueuesSorted(w')
  {
  }

  // ---------------------------------------------------------------- runs

  lemma DeliverKeepsInv(r: Router, w: World, e: Event)
    requires Inv(w) && Enabled(r, w, Deliver(e)) && Orderly(r, w, Deliver(e))
    ensures Inv(Step(r, w, Deliver(e)))
  {
    hide Owners, Homed, QueuesSorted, Bookmarked, EffectIn, Queued;
    StepKeepsOwners(r, w, Deliver(e));
    if IsUpdate(e) {
      DeliverKeepsHomed(r, w, e);
      DeliverKeepsQueuesSorted(r, w, e);
      DeliverKeepsBookmarked(r, w, e);
    }
  }

  lemma RegisterKeepsInv(r: Router, w: World, c: string, request: int, sel: seq<nat>, marks: seq<Event>)
    requires Inv(w) && Enabled(r, w, Register(c, request, sel, marks))
    ensures Inv(Step(r, w, Register(c, request, sel, marks)))
  {
    hide Owners, Homed, QueuesSorted, Bookmarked, HostSum, HostsOf, MarksFor, EnqueueAll, FreshQueue, Assign,
      FirstOfLocation;
    var w' := Step(r, w, Register(c, request, sel, marks));
    StepKeepsOwners(r, w, Register(c, request, sel, marks));
    RegistrationQueue(w.ring, sel, marks);
    RegisterKeepsRing(w.ring, sel, c);
    RegisterKeepsQueuesSorted(w, w', c, sel, EnqueueAll(map[], marks));
    RegisterKeepsBookmarked(w, w', c, sel, EnqueueAll(map[], marks));
  }

  lemma {:induction false} StepKeepsInv(r: Router, w: World, op: Op)
    requires Inv(w) && Enabled(r, w, op) && Orderly(r, w, op)
    ensures Inv(Step(r, w, op))
  {
    hide *;
    match op
    case Deliver(e) => DeliverKeepsInv(r, w, e);
    case Register(c, request, sel, marks) => RegisterKeepsInv(r, w, c, request, sel, marks);
  }

  /**
   * Over every orderly run from the start: stored nodes are at home, queue histories are sorted,
   * and every client queue starts with a bookmark that a stored node still covers.
   */
  lemma {:induction false} RunKeepsInv(r: Router, w: World, ops: seq<Op>)
    requires Initial(w) && Legal(r, w, ops) && OrderlyRun(r, w, ops)
    ensures Inv(Run(r, w, ops))
  {
    if ops != [] {
      RunKeepsInv(r, w, ops[..|ops| - 1]);
      StepKeepsInv(r, Run(r, w, ops[..|ops| - 1]), ops[|ops| - 1]);
    }
  }

  // ---------------------------------------------------------------- what the invariant gives a client

  /** A stored node that covers the bookmark of one of a client's queues. */
  lemma NodeCovering(w: World, c: string, loc: Location) returns (j: nat, h: real)
    requires Inv(w) && c in w.owned && loc in w.queues[c]
    ensures w.queues[c][loc] != [] && j < |w.owned[c]| && w.owned[c][j] < |w.ring.stores|
    ensures var nodes := w.ring.stores[w.owned[c][j]].nodes;
            h in nodes && nodes[h].loc == loc && nodes[h].node.rv >= w.queues[c][loc][0].node.rv
  {
    hide Owners, QueuesSorted;
    j, h := CoveredBy(w.ring.stores, w.owned[c], loc, w.queues[c][loc][0].node.rv);
  }

  lemma CoveredBy(stores: seq<VStore>, sel: seq<nat>, loc: Location, rv: nat) returns (j: nat, h: real)
    requires InRange(stores, sel) && Covered(stores, sel, loc, rv)
    ensures j < |sel| && sel[j] < |stores|
    ensures h in stores[sel[j]].nodes && stores[sel[j]].loc == loc && stores[sel[j]].nodes[h].node.rv >= rv
  {
    j, h :| 0 <= j < |sel| && h in stores[sel[j]].nodes && stores[sel[j]].loc == loc
      && stores[sel[j]].nodes[h].node.rv >= rv;
  }

  lemma HeldInRange(w: World, c: string)
    requires Inv(w) && c in w.owned
    ensures c in w.queues && InRange(w.ring.stores, w.owned[c])
  {
    hide Owners, Homed, QueuesSorted;
  }

  lemma HeldHasQueue(w: World, c: string, i: nat)
    requires Inv(w) && c in w.owned && i in w.owned[c]
    ensures i < |w.ring.stores| && w.ring.stores[i].loc in w.queues[c]
  {
    hide Owners, Homed, QueuesSorted;
    var j :| 0 <= j < |w.owned[c]| && w.owned[c][j] == i;
  }
}
