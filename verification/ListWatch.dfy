/**
 * List-then-Watch as a protocol of interleaved steps. Producers enqueue an event first and apply
 * it to its store second; a list holds the client's enqueue lock while it snapshots the client's
 * stores one at a time, so enqueues wait but pending applies do not.
 */
module ListWatch {
  import opened Types
  import opened EventLog
  import opened EventQueue
  import opened NewestWins
  import opened World
  import opened StoreTheorems

  /**
   * What stays fixed: the placement, the nodes in use, each store's location, the client's stores,
   * and whether the versions of a location strictly increase or may repeat for different nodes.
   */
  datatype Setting = Setting(r: Router, keys: set<Key>, locs: seq<Location>, sel: seq<nat>, strict: bool)

  /**
   * One producer per location. `Adding` and `Updating` have enqueued their event and not applied
   * it; `NeedsUpdate` and `NeedsAdd` learned that the other operation is due and have not enqueued again.
   */
  datatype Producer = Idle | Adding(e: Event) | NeedsUpdate(e: Event) | Updating(e: Event) | NeedsAdd(e: Event)

  datatype Lister = NoList | Snapping(snaps: seq<map<real, Event>>) | Listed(snaps: seq<map<real, Event>>)

  /** `latest` records the newest version enqueued of every node in the client's stores. */
  datatype Sys = Sys(stores: seq<map<real, Event>>, hist: History, producers: map<Location, Producer>,
                     lister: Lister, latest: Versions)

  datatype SysStep = Begin(e: Event) | Apply(loc: Location) | EnqueueAgain(loc: Location) | StartList | SnapNext

  predicate Mine(c: Setting, e: Event) {
    Index(c.r, e) in c.sel
  }

  /** Before, in the order that the versions of different nodes at one location come in. */
  predicate Older(c: Setting, a: nat, b: nat) {
    if c.strict then a < b else a <= b
  }

  /** Enqueuing for the client takes its enqueue lock, which a running list holds. */
  predicate LockFree(c: Setting, s: Sys, e: Event) {
    Mine(c, e) ==> !s.lister.Snapping?
  }

  /** Versions of a node strictly increase; those of a location come in order. */
  predicate ComesNext(c: Setting, k: Key, a: Event, e: Event) {
    if k == KeyOf(e) then a.node.rv < e.node.rv else Older(c, a.node.rv, e.node.rv)
  }

  ghost predicate CanStep(c: Setting, s: Sys, step: SysStep) {
    match step
    case Begin(e) =>
      && IsUpdate(e) && KeyOf(e) in c.keys && e.loc in s.producers && s.producers[e.loc] == Idle && LockFree(c, s, e)
      && (Mine(c, e) ==> forall k :: k in s.latest && k.0 == e.loc ==> ComesNext(c, k, s.latest[k], e))
    case Apply(loc) =>
      loc in s.producers && (s.producers[loc].Adding? || s.producers[loc].Updating?)
      && 0 <= Index(c.r, s.producers[loc].e) < |s.stores|
    case EnqueueAgain(loc) =>
      loc in s.producers && (s.producers[loc].NeedsUpdate? || s.producers[loc].NeedsAdd?)
        && LockFree(c, s, s.producers[loc].e)
    case StartList => !s.lister.Snapping?
    case SnapNext => s.lister.Snapping? && |s.lister.snaps| < |c.sel| && c.sel[|s.lister.snaps|] < |s.stores|
  }

  function Told(c: Setting, h: History, e: Event): History {
    if Mine(c, e) then Enqueued(h, e) else h
  }

  ghost function Next(c: Setting, s: Sys, step: SysStep): Sys
    requires CanStep(c, s, step)
  {
    match step
    case Begin(e) =>
      s.(hist := Told(c, s.hist, e),
         producers := s.producers[e.loc := if e.kind.Added? then Adding(e) else Updating(e)],
         latest := if Mine(c, e) then s.latest[KeyOf(e) := e] else s.latest)
    case Apply(loc) =>
      var p := s.producers[loc];
      var i, h := Index(c.r, p.e), Hash(c.r, p.e);
      (match if p.Adding? then AddTo(s.stores[i], h, p.e) else UpdateIn(s.stores[i], h, p.e)
       case Some(nodes) => s.(stores := s.stores[i := nodes], producers := s.producers[loc := Idle])
       case None => s.(producers := s.producers[loc := if p.Adding? then NeedsUpdate(p.e) else NeedsAdd(p.e)]))
    case EnqueueAgain(loc) =>
      var p := s.producers[loc];
      s.(hist := Told(c, s.hist, p.e),
          producers := s.producers[loc := if p.NeedsUpdate? then Updating(p.e) else Adding(p.e)])
    case StartList => s.(lister := Snapping([]))
    case SnapNext =>
      var snaps := s.lister.snaps + [s.stores[c.sel[|s.lister.snaps|]]];
      s.(lister := if |snaps| == |c.sel| then Listed(snaps) else Snapping(snaps))
  }

  // ---------------------------------------------------------------- the joint invariant

  ghost predicate Sound(c: Setting) {
    && NoDuplicates(c.sel) && c.sel != []
    && (forall p :: 0 <= p < |c.sel| ==> c.sel[p] < |c.locs|)
    && CollisionFree(c.r, |c.locs|, c.keys)
    && (forall k :: k in c.keys ==> c.locs[c.r.index(k.0, k.1)] == k.0)
  }

  /** The event that the producer of a location still has to finish, if the client is concerned. */
  predicate Pending(c: Setting, s: Sys, loc: Location) {
    loc in s.producers && s.producers[loc] != Idle && Mine(c, s.producers[loc].e)
  }

  /** A version that is the newest of its node, or strictly older than it. */
  predicate Known(s: Sys, e: Event) {
    KeyOf(e) in s.latest && (e == s.latest[KeyOf(e)] || e.node.rv < s.latest[KeyOf(e)].node.rv)
  }

  predicate KeyIsMine(c: Setting, k: Key) {
    k in c.keys && c.r.index(k.0, k.1) in c.sel
  }

  ghost predicate LatestInv(c: Setting, s: Sys) {
    forall k :: k in s.latest ==> KeyIsMine(c, k) && KeyOf(s.latest[k]) == k && IsUpdate(s.latest[k])
  }

  /** An event under way is the newest version of its location, and it is in the queue. */
  ghost predicate PendingInv(c: Setting, s: Sys) {
    forall loc :: loc in s.producers && s.producers[loc] != Idle ==> UnderWay(c, s, loc, s.producers[loc].e)
  }

  ghost predicate UnderWay(c: Setting, s: Sys, loc: Location, e: Event) {
    && IsUpdate(e) && e.loc == loc && KeyOf(e) in c.keys
    && (Mine(c, e) ==>
          && KeyOf(e) in s.latest && s.latest[KeyOf(e)] == e
          && e in At(s.hist, loc)
          && Top(c, s, KeyOf(e)))
  }

  ghost predicate Top(c: Setting, s: Sys, k: Key) {
    && k in s.latest
    && forall o :: o in s.latest && o.0 == k.0 && o != k ==> Older(c, s.latest[o].node.rv, s.latest[k].node.rv)
  }

  /** Entries of the client's stores are at their own places and known. */
  ghost predicate EntriesInv(c: Setting, s: Sys, i: nat, nodes: map<real, Event>) {
    forall h :: h in nodes ==>
      KeyOf(nodes[h]) in c.keys && Index(c.r, nodes[h]) == i && Hash(c.r, nodes[h]) == h && Known(s, nodes[h])
  }

  /** A node is stored at its newest version, unless its event is the one still pending. */
  ghost predicate StoredInv(c: Setting, s: Sys, k: Key)
    requires KeyIsMine(c, k) && 0 <= c.r.index(k.0, k.1) < |s.stores|
  {
    var cur := Lookup(s.stores[c.r.index(k.0, k.1)], c.r.hash(k.0, k.1));
    if Pending(c, s, k.0) && KeyOf(s.producers[k.0].e) == k
    then cur != Some(s.producers[k.0].e)
    else cur == if k in s.latest then Some(s.latest[k]) else None
  }

  ghost predicate StoresInv(c: Setting, s: Sys) {
    && |s.stores| == |c.locs|
    && (forall p :: 0 <= p < |c.sel| && c.sel[p] < |s.stores| ==>
         s.stores[c.sel[p]] != map[] && EntriesInv(c, s, c.sel[p], s.stores[c.sel[p]]))
    && (forall k :: KeyIsMine(c, k) && 0 <= c.r.index(k.0, k.1) < |s.stores| ==> StoredInv(c, s, k))
  }

  /** Queued events are at home, known and in version order; distinct ones of a node differ in version. */
  ghost predicate HistInv(c: Setting, s: Sys) {
    HistHomes(c, s.hist) && HistKnown(s) && AllSorted(s.hist) && HistDistinct(s.hist)
  }

  ghost predicate HistHomes(c: Setting, h: History) {
    forall loc :: loc in h ==> exists p :: 0 <= p < |c.sel| && c.sel[p] < |c.locs| && c.locs[c.sel[p]] == loc
  }

  ghost predicate HistKnown(s: Sys) {
    forall loc, e :: loc in s.hist && e in s.hist[loc] ==> QueuedKnown(s, loc, e)
  }

  ghost predicate HistDistinct(h: History) {
    forall loc, a, b :: loc in h && a in h[loc] && b in h[loc] ==> SameIfSameVersion(a, b)
  }

  predicate QueuedKnown(s: Sys, loc: Location, e: Event) {
    && e.loc == loc && KeyOf(e) in s.latest && e.node.rv <= s.latest[KeyOf(e)].node.rv
    && (IsUpdate(e) ==> Known(s, e))
  }

  predicate SameIfSameVersion(a: Event, b: Event) {
    IsUpdate(a) && IsUpdate(b) && KeyOf(a) == KeyOf(b) && a.node.rv == b.node.rv ==> a == b
  }

  /** Every snapped entry at this location is older than `rv`. */
  ghost predicate AllOlder(c: Setting, snaps: seq<map<real, Event>>, loc: Location, rv: nat) {
    forall p, h :: 0 <= p < |snaps| && h in snaps[p] && snaps[p][h].loc == loc ==> Older(c, snaps[p][h].node.rv, rv)
  }

  /** The newest version is in the snapshot, or it is newer than all of it and waits in the queue. */
  ghost predicate SnappedOrQueued(c: Setting, s: Sys, snaps: seq<map<real, Event>>, p: nat, k: Key)
    requires p < |snaps| && k in s.latest
  {
    || Lookup(snaps[p], c.r.hash(k.0, k.1)) == Some(s.latest[k])
    || (&& s.latest[k] in At(s.hist, k.0)
        && AllOlder(c, snaps, k.0, s.latest[k].node.rv)
        && (s.lister.Snapping? ==> Top(c, s, k)))
  }

  ghost predicate SnapsInv(c: Setting, s: Sys, snaps: seq<map<real, Event>>) {
    && |snaps| <= |c.sel|
    && (forall p :: 0 <= p < |snaps| ==> snaps[p] != map[] && EntriesInv(c, s, c.sel[p], snaps[p]))
    && (forall p, k :: 0 <= p < |snaps| && k in s.latest && c.r.index(k.0, k.1) == c.sel[p] ==>
         SnappedOrQueued(c, s, snaps, p, k))
  }

  ghost predicate ListInv(c: Setting, s: Sys) {
    match s.lister
    case NoList => true
    case Snapping(snaps) => |snaps| < |c.sel| && SnapsInv(c, s, snaps)
    case Listed(snaps) => |snaps| == |c.sel| && SnapsInv(c, s, snaps)
  }

  function SnapsOf(l: Lister): seq<map<real, Event>> {
    if l.NoList? then [] else l.snaps
  }

  /** What a list shows of the client's `p`-th store: its snapshot once taken, the store until then. */
  function View(c: Setting, stores: seq<map<real, Event>>, snaps: seq<map<real, Event>>, p: nat): map<real, Event>
    requires p < |c.sel|
  {
    if p < |snaps| then snaps[p] else if c.sel[p] < |stores| then stores[c.sel[p]] else map[]
  }

  /** Some entry shown at this location is at least as new as `rv`. */
  ghost predicate ViewCovers(c: Setting, stores: seq<map<real, Event>>, snaps: seq<map<real, Event>>, loc: Location,
                             rv: nat) {
    exists p, h :: 0 <= p < |c.sel| && h in View(c, stores, snaps, p)
                && View(c, stores, snaps, p)[h].loc == loc && View(c, stores, snaps, p)[h].node.rv >= rv
  }

  /** The first event ever queued at a location is covered by the stores and by the list under way. */
  ghost predicate FirstCovered(c: Setting, s: Sys, loc: Location)
    requires loc in s.hist
  {
    && s.hist[loc] != []
    && ViewCovers(c, s.stores, [], loc, s.hist[loc][0].node.rv)
    && ViewCovers(c, s.stores, SnapsOf(s.lister), loc, s.hist[loc][0].node.rv)
  }

  /** Every location the client holds has a queue, and what was queued first is covered. */
  ghost predicate MarkInv(c: Setting, s: Sys) {
    && (forall p :: 0 <= p < |c.sel| && c.sel[p] < |c.locs| ==> c.locs[c.sel[p]] in s.hist)
    && (forall loc :: loc in s.hist ==> FirstCovered(c, s, loc))
  }

  ghost predicate Inv(c: Setting, s: Sys) {
    Sound(c) && LatestInv(c, s) && PendingInv(c, s) && StoresInv(c, s) && HistInv(c, s) && MarkInv(c, s)
      && ListInv(c, s)
  }

  // ---------------------------------------------------------------- coverage

  /** Entries shown stay shown at their location, and only get newer. */
  ghost predicate ViewsGrow(c: Setting, stores: seq<map<real, Event>>, snaps: seq<map<real, Event>>,
                            stores': seq<map<real, Event>>, snaps': seq<map<real, Event>>) {
    forall p, h :: 0 <= p < |c.sel| && h in View(c, stores, snaps, p) ==>
      var a, b := View(c, stores, snaps, p), View(c, stores', snaps', p);
      h in b && b[h].loc == a[h].loc && b[h].node.rv >= a[h].node.rv
  }

  lemma CoverGrows(c: Setting, stores: seq<map<real, Event>>, snaps: seq<map<real, Event>>,
                   stores': seq<map<real, Event>>, snaps': seq<map<real, Event>>, loc: Location, rv: nat)
    requires ViewCovers(c, stores, snaps, loc, rv) && ViewsGrow(c, stores, snaps, stores', snaps')
    ensures ViewCovers(c, stores', snaps', loc, rv)
  {
    hide View;
    var p, h :| 0 <= p < |c.sel| && h in View(c, stores, snaps, p)
                && View(c, stores, snaps, p)[h].loc == loc && View(c, stores, snaps, p)[h].node.rv >= rv;
    assert h in View(c, stores', snaps', p);
  }

  /** Queues keep what they hold first. */
  ghost predicate SameFirsts(h: History, h': History) {
    h'.Keys == h.Keys && forall loc :: loc in h && h[loc] != [] ==> h'[loc] != [] && h'[loc][0] == h[loc][0]
  }

  lemma GrowthKeepsMarks(c: Setting, s: Sys, s': Sys)
    requires MarkInv(c, s) && SameFirsts(s.hist, s'.hist)
    requires ViewsGrow(c, s.stores, [], s'.stores, [])
    requires ViewsGrow(c, s.stores, SnapsOf(s.lister), s'.stores, SnapsOf(s'.lister)) || s'.lister == Snapping([])
    ensures MarkInv(c, s')
  {
    hide ViewCovers, ViewsGrow;
    forall loc | loc in s'.hist
      ensures FirstCovered(c, s', loc)
    {
      assert FirstCovered(c, s, loc);
      var rv := s.hist[loc][0].node.rv;
      CoverGrows(c, s.stores, [], s'.stores, [], loc, rv);
      if s'.lister != Snapping([]) {
        CoverGrows(c, s.stores, SnapsOf(s.lister), s'.stores, SnapsOf(s'.lister), loc, rv);
      }
    }
  }

  lemma SameViews(c: Setting, stores: seq<map<real, Event>>, snaps: seq<map<real, Event>>)
    ensures ViewsGrow(c, stores, snaps, stores, snaps)
  {
  }

  lemma MineHasQueue(c: Setting, s: Sys, e: Event)
    requires Sound(c) && MarkInv(c, s) && Mine(c, e) && KeyOf(e) in c.keys
    ensures e.loc in s.hist
  {
    hide FirstCovered;
    var p :| 0 <= p < |c.sel| && c.sel[p] == Index(c.r, e);
    assert c.locs[c.sel[p]] == KeyOf(e).0;
  }

  /** Telling the queue an event of the client's own stores. */
  lemma ToldKeepsMarks(c: Setting, s: Sys, s': Sys, e: Event)
    requires Sound(c) && MarkInv(c, s) && (Mine(c, e) ==> KeyOf(e) in c.keys)
    requires s'.hist == Told(c, s.hist, e) && s'.stores == s.stores && s'.lister == s.lister
    ensures MarkInv(c, s')
  {
    hide Sound, MarkInv, Mine, ViewsGrow;
    if Mine(c, e) {
      MineHasQueue(c, s, e);
    }
    SameViews(c, s.stores, []);
    SameViews(c, s.stores, SnapsOf(s.lister));
    GrowthKeepsMarks(c, s, s');
  }

  /** Nothing queued, and the stores of the client unchanged except for one newer version. */
  lemma WriteKeepsMarks(c: Setting, s: Sys, s': Sys, i: int, h: real, e: Event)
    requires MarkInv(c, s) && 0 <= i < |s.stores| && s'.hist == s.hist && s'.lister == s.lister
    requires s'.stores == s.stores[i := s.stores[i][h := e]]
    requires i in c.sel && h in s.stores[i] ==> s.stores[i][h].loc == e.loc && s.stores[i][h].node.rv <= e.node.rv
    ensures MarkInv(c, s')
  {
    OverwriteGrows(c, s.stores, [], i, h, e);
    OverwriteGrows(c, s.stores, SnapsOf(s.lister), i, h, e);
    hide MarkInv, ViewsGrow;
    GrowthKeepsMarks(c, s, s');
  }

  lemma OverwriteGrows(c: Setting, stores: seq<map<real, Event>>, snaps: seq<map<real, Event>>, i: int, h: real,
                       e: Event)
    requires 0 <= i < |stores|
    requires i in c.sel && h in stores[i] ==> stores[i][h].loc == e.loc && stores[i][h].node.rv <= e.node.rv
    ensures ViewsGrow(c, stores, snaps, stores[i := stores[i][h := e]], snaps)
  {
  }

  /** Stores of others may change in any way. */
  lemma ForeignKeepsMarks(c: Setting, s: Sys, s': Sys)
    requires MarkInv(c, s) && s'.hist == s.hist && s'.lister == s.lister && |s'.stores| == |s.stores|
    requires forall i :: 0 <= i < |s.stores| && i in c.sel ==> s'.stores[i] == s.stores[i]
    ensures MarkInv(c, s')
  {
    assert forall p :: 0 <= p < |c.sel| ==> View(c, s'.stores, [], p) == View(c, s.stores, [], p);
    var snaps := SnapsOf(s.lister);
    assert forall p :: 0 <= p < |c.sel| ==> View(c, s'.stores, snaps, p) == View(c, s.stores, snaps, p);
    hide MarkInv, View;
    GrowthKeepsMarks(c, s, s');
  }

  /** Taking a snapshot shows what was shown. */
  lemma SnapKeepsMarks(c: Setting, s: Sys, s': Sys)
    requires MarkInv(c, s) && s.lister.Snapping? && |s.lister.snaps| < |c.sel| && c.sel[|s.lister.snaps|] < |s.stores|
    requires s' == s.(lister := s'.lister) && !s'.lister.NoList?
    requires s'.lister.snaps == s.lister.snaps + [s.stores[c.sel[|s.lister.snaps|]]]
    ensures MarkInv(c, s')
  {
    hide MarkInv;
    SameViews(c, s.stores, []);
    assert forall p :: 0 <= p < |c.sel| ==>
             View(c, s.stores, s'.lister.snaps, p) == View(c, s.stores, s.lister.snaps, p);
    hide View;
    GrowthKeepsMarks(c, s, s');
  }

  // ---------------------------------------------------------------- Begin

  lemma AtEnqueued(h: History, e: Event, loc: Location, x: Event)
    ensures x in At(Enqueued(h, e), loc) <==> x in At(h, loc) || (loc == e.loc && x == e)
  {
  }

  /** An event of another location stays as it was. */
  lemma OthersStayUnderWay(c: Setting, s: Sys, e: Event, loc: Location, o: Event)
    requires CanStep(c, s, Begin(e)) && UnderWay(c, s, loc, o) && loc != e.loc
    ensures UnderWay(c, Next(c, s, Begin(e)), loc, o)
  {
    AtEnqueued(s.hist, e, loc, o);
  }

  lemma BegunIsUnderWay(c: Setting, s: Sys, e: Event)
    requires CanStep(c, s, Begin(e))
    ensures UnderWay(c, Next(c, s, Begin(e)), e.loc, e)
  {
    AtEnqueued(s.hist, e, e.loc, e);
  }

  lemma BeginKeepsPending(c: Setting, s: Sys, e: Event)
    requires PendingInv(c, s) && CanStep(c, s, Begin(e))
    ensures PendingInv(c, Next(c, s, Begin(e)))
  {
    hide UnderWay;
    var s' := Next(c, s, Begin(e));
    forall loc | loc in s'.producers && s'.producers[loc] != Idle
      ensures UnderWay(c, s', loc, s'.producers[loc].e)
    {
      if loc == e.loc {
        BegunIsUnderWay(c, s, e);
      } else {
        OthersStayUnderWay(c, s, e, loc, s'.producers[loc].e);
      }
    }
  }

  lemma KnownAfterBegin(c: Setting, s: Sys, e: Event, o: Event)
    requires CanStep(c, s, Begin(e)) && Known(s, o)
    ensures Known(Next(c, s, Begin(e)), o)
  {
  }

  lemma {:induction false} BeginKeepsStores(c: Setting, s: Sys, e: Event)
    requires Sound(c) && LatestInv(c, s) && PendingInv(c, s) && StoresInv(c, s) && CanStep(c, s, Begin(e))
    ensures StoresInv(c, Next(c, s, Begin(e)))
  {
    var s' := Next(c, s, Begin(e));
    forall p | 0 <= p < |c.sel| && c.sel[p] < |s'.stores|
      ensures s'.stores[c.sel[p]] != map[] && EntriesInv(c, s', c.sel[p], s'.stores[c.sel[p]])
    {
      var nodes := s.stores[c.sel[p]];
      assert EntriesInv(c, s, c.sel[p], nodes);
      forall h | h in nodes
        ensures Known(s', nodes[h])
      {
        KnownAfterBegin(c, s, e, nodes[h]);
      }
    }
    forall k | KeyIsMine(c, k) && 0 <= c.r.index(k.0, k.1) < |s'.stores|
      ensures StoredInv(c, s', k)
    {
      assert StoredInv(c, s, k);
    }
  }

  /** Everything queued at a location is no newer than an event that tops the location. */
  lemma QueuedBelow(s: Sys, loc: Location, x: Event, e: Event)
    requires HistKnown(s) && loc in s.hist && x in s.hist[loc]
    requires forall k :: k in s.latest && k.0 == loc ==> s.latest[k].node.rv <= e.node.rv
    ensures x.node.rv <= e.node.rv
  {
    assert QueuedKnown(s, loc, x);
    assert KeyOf(x).0 == loc;
  }

  lemma AppendSorted(s: seq<Event>, e: Event)
    requires Sorted(s) && forall x :: x in s ==> x.node.rv <= e.node.rv
    ensures Sorted(s + [e])
  {
  }

  /** `e` becomes the newest version of its node, and was or becomes the newest of its location. */
  ghost predicate Tops(s: Sys, s': Sys, e: Event) {
    && KeyOf(e) in s'.latest && s'.latest[KeyOf(e)] == e
    && (forall k :: k in s.latest && k != KeyOf(e) ==> k in s'.latest && s'.latest[k] == s.latest[k])
    && (forall k :: k in s.latest && k.0 == e.loc ==> s.latest[k].node.rv <= e.node.rv)
    && (KeyOf(e) in s.latest ==> s.latest[KeyOf(e)] == e || s.latest[KeyOf(e)].node.rv < e.node.rv)
  }

  lemma EnqueueKeepsHomes(c: Setting, h: History, e: Event)
    requires Sound(c) && HistHomes(c, h) && KeyOf(e) in c.keys && Mine(c, e)
    ensures HistHomes(c, Enqueued(h, e))
  {
    var p :| 0 <= p < |c.sel| && c.sel[p] == Index(c.r, e);
    assert c.locs[c.sel[p]] == KeyOf(e).0 == e.loc;
    hide Sound;
  }

  lemma EnqueueKeepsKnown(s: Sys, s': Sys, e: Event)
    requires HistKnown(s) && IsUpdate(e) && s'.hist == Enqueued(s.hist, e) && Tops(s, s', e)
    ensures HistKnown(s')
  {
    forall loc, x | loc in s'.hist && x in s'.hist[loc]
      ensures QueuedKnown(s', loc, x)
    {
      AtEnqueued(s.hist, e, loc, x);
      if x in At(s.hist, loc) {
        assert QueuedKnown(s, loc, x);
      }
    }
  }

  /** What is queued at the event's location already is older, or the same event, or of another node. */
  lemma QueuedBefore(s: Sys, s': Sys, e: Event, x: Event)
    requires HistKnown(s) && IsUpdate(e) && Tops(s, s', e) && x in At(s.hist, e.loc)
    ensures x.node.rv <= e.node.rv && SameIfSameVersion(x, e) && SameIfSameVersion(e, x)
  {
    QueuedBelow(s, e.loc, x, e);
    assert QueuedKnown(s, e.loc, x);
  }

  lemma EnqueueKeepsSorted(s: Sys, s': Sys, e: Event)
    requires HistKnown(s) && IsUpdate(e) && s'.hist == Enqueued(s.hist, e) && Tops(s, s', e)
    requires AllSorted(s.hist)
    ensures AllSorted(s'.hist)
  {
    var before := At(s.hist, e.loc);
    forall x | x in before
      ensures x.node.rv <= e.node.rv
    {
      QueuedBefore(s, s', e, x);
    }
    hide HistKnown, Tops;
    AppendSorted(before, e);
    hide Sorted;
  }

  lemma EnqueueKeepsDistinct(s: Sys, s': Sys, e: Event)
    requires HistKnown(s) && IsUpdate(e) && s'.hist == Enqueued(s.hist, e) && Tops(s, s', e)
    requires HistDistinct(s.hist)
    ensures HistDistinct(s'.hist)
  {
    forall x | x in At(s.hist, e.loc)
      ensures SameIfSameVersion(x, e) && SameIfSameVersion(e, x)
    {
      QueuedBefore(s, s', e, x);
    }
    hide HistKnown, Tops;
    forall loc, a, b | loc in s'.hist && a in s'.hist[loc] && b in s'.hist[loc]
      ensures SameIfSameVersion(a, b)
    {
      AtEnqueued(s.hist, e, loc, a);
      AtEnqueued(s.hist, e, loc, b);
    }
  }

  /** Enqueuing the newest version of its location, for the first or the second time. */
  lemma EnqueueKeepsHist(c: Setting, s: Sys, s': Sys, e: Event)
    requires Sound(c) && HistInv(c, s) && IsUpdate(e) && KeyOf(e) in c.keys && Mine(c, e)
    requires s'.hist == Enqueued(s.hist, e) && Tops(s, s', e)
    ensures HistInv(c, s')
  {
    hide Sound, HistHomes, HistKnown, AllSorted, HistDistinct, Tops;
    EnqueueKeepsHomes(c, s.hist, e);
    EnqueueKeepsKnown(s, s', e);
    EnqueueKeepsSorted(s, s', e);
    EnqueueKeepsDistinct(s, s', e);
  }

  lemma BeginTops(c: Setting, s: Sys, e: Event)
    requires CanStep(c, s, Begin(e)) && Mine(c, e)
    ensures IsUpdate(e) && KeyOf(e) in c.keys
    ensures Next(c, s, Begin(e)).hist == Enqueued(s.hist, e) && Tops(s, Next(c, s, Begin(e)), e)
  {
  }

  lemma {:induction false} BeginKeepsHist(c: Setting, s: Sys, e: Event)
    requires Sound(c) && HistInv(c, s) && CanStep(c, s, Begin(e))
    ensures HistInv(c, Next(c, s, Begin(e)))
  {
    hide Sound, HistInv, Tops, Mine;
    if Mine(c, e) {
      BeginTops(c, s, e);
      EnqueueKeepsHist(c, s, Next(c, s, Begin(e)), e);
    } else {
      SameViewKeepsHist(c, s, Next(c, s, Begin(e)));
    }
  }

  /** The queue and the newest versions only move forward, and no snapshot is under way. */
  ghost predicate Forward(c: Setting, s: Sys, s': Sys) {
    && s'.lister == s.lister
    && (forall loc, x :: x in At(s.hist, loc) ==> x in At(s'.hist, loc))
    && (forall x :: Known(s, x) ==> Known(s', x))
    && (forall k :: k in s'.latest ==>
          || (k in s.latest && s'.latest[k] == s.latest[k])
          || (&& s'.latest[k] in At(s'.hist, k.0)
              && forall o :: o in s.latest && o.0 == k.0 ==> ComesNext(c, o, s.latest[o], s'.latest[k])))
  }

  lemma ForwardKeepsSnaps(c: Setting, s: Sys, s': Sys, snaps: seq<map<real, Event>>)
    requires SnapsInv(c, s, snaps) && Forward(c, s, s') && !s.lister.Snapping?
    ensures SnapsInv(c, s', snaps)
  {
    forall p | 0 <= p < |snaps|
      ensures EntriesInv(c, s', c.sel[p], snaps[p])
    {
      assert EntriesInv(c, s, c.sel[p], snaps[p]);
    }
    forall p, k | 0 <= p < |snaps| && k in s'.latest && c.r.index(k.0, k.1) == c.sel[p]
      ensures SnappedOrQueued(c, s', snaps, p, k)
    {
      if k in s.latest && s'.latest[k] == s.latest[k] {
        assert SnappedOrQueued(c, s, snaps, p, k);
      } else {
        forall q, h | 0 <= q < |snaps| && h in snaps[q] && snaps[q][h].loc == k.0
          ensures Older(c, snaps[q][h].node.rv, s'.latest[k].node.rv)
        {
          assert EntriesInv(c, s, c.sel[q], snaps[q]);
          assert Known(s, snaps[q][h]) && KeyOf(snaps[q][h]).0 == k.0;
        }
      }
    }
  }

  lemma {:induction false} BeginKeepsList(c: Setting, s: Sys, e: Event)
    requires Sound(c) && LatestInv(c, s) && ListInv(c, s) && CanStep(c, s, Begin(e))
    ensures ListInv(c, Next(c, s, Begin(e)))
  {
    var s' := Next(c, s, Begin(e));
    if Mine(c, e) {
      forall loc, x | x in At(s.hist, loc)
        ensures x in At(s'.hist, loc)
      {
        AtEnqueued(s.hist, e, loc, x);
      }
      forall x | Known(s, x)
        ensures Known(s', x)
      {
        KnownAfterBegin(c, s, e, x);
      }
      AtEnqueued(s.hist, e, e.loc, e);
      assert Forward(c, s, s');
      if s.lister.Listed? {
        ForwardKeepsSnaps(c, s, s', s.lister.snaps);
      }
    } else {
      SameViewKeepsList(c, s, s');
    }
  }

  /** What the list invariant looks at did not change. */
  lemma SameViewKeepsList(c: Setting, s: Sys, s': Sys)
    requires ListInv(c, s) && s'.hist == s.hist && s'.latest == s.latest && s'.lister == s.lister
    ensures ListInv(c, s')
  {
  }

  lemma {:induction false} BeginKeepsInv(c: Setting, s: Sys, e: Event)
    requires Inv(c, s) && CanStep(c, s, Begin(e))
    ensures Inv(c, Next(c, s, Begin(e)))
  {
    hide PendingInv, StoresInv, HistInv, ListInv, MarkInv;
    BeginKeepsPending(c, s, e);
    ToldKeepsMarks(c, s, Next(c, s, Begin(e)), e);
    BeginKeepsStores(c, s, e);
    BeginKeepsHist(c, s, e);
    BeginKeepsList(c, s, e);
  }

  // ---------------------------------------------------------------- EnqueueAgain

  /** The same events under way, whatever is to be done with them next. */
  ghost predicate SameUnderWay(s: Sys, s': Sys) {
    && s'.producers.Keys == s.producers.Keys
    && forall loc :: loc in s.producers ==> SameWork(s.producers[loc], s'.producers[loc])
  }

  predicate SameWork(p: Producer, q: Producer) {
    (p == Idle <==> q == Idle) && (p != Idle ==> p.e == q.e)
  }

  lemma SameUnderWayKeepsPending(c: Setting, s: Sys, s': Sys)
    requires PendingInv(c, s) && SameUnderWay(s, s') && s'.latest == s.latest
    requires forall loc, x :: x in At(s.hist, loc) ==> x in At(s'.hist, loc)
    ensures PendingInv(c, s')
  {
  }

  lemma SameUnderWayKeepsStores(c: Setting, s: Sys, s': Sys)
    requires StoresInv(c, s) && SameUnderWay(s, s') && s'.latest == s.latest && s'.stores == s.stores
    ensures StoresInv(c, s')
  {
  }

  lemma AgainKeepsWork(c: Setting, s: Sys, loc: Location)
    requires PendingInv(c, s) && StoresInv(c, s) && CanStep(c, s, EnqueueAgain(loc))
    ensures PendingInv(c, Next(c, s, EnqueueAgain(loc))) && StoresInv(c, Next(c, s, EnqueueAgain(loc)))
  {
    hide PendingInv, StoresInv;
    var s', e := Next(c, s, EnqueueAgain(loc)), s.producers[loc].e;
    forall l, x | x in At(s.hist, l)
      ensures x in At(s'.hist, l)
    {
      AtEnqueued(s.hist, e, l, x);
    }
    SameUnderWayKeepsPending(c, s, s');
    SameUnderWayKeepsStores(c, s, s');
  }

  lemma UnderWayInUse(c: Setting, s: Sys, loc: Location)
    requires PendingInv(c, s) && loc in s.producers && s.producers[loc] != Idle
    ensures KeyOf(s.producers[loc].e) in c.keys
  {
  }

  lemma {:induction false} EnqueueAgainKeepsInv(c: Setting, s: Sys, loc: Location)
    requires Inv(c, s) && CanStep(c, s, EnqueueAgain(loc))
    ensures Inv(c, Next(c, s, EnqueueAgain(loc)))
  {
    hide PendingInv, StoresInv, HistInv, ListInv, MarkInv, Sound;
    var s', e := Next(c, s, EnqueueAgain(loc)), s.producers[loc].e;
    AgainKeepsWork(c, s, loc);
    UnderWayInUse(c, s, loc);
    ToldKeepsMarks(c, s, s', e);
    if Mine(c, e) {
      AgainTops(c, s, loc);
      EnqueueKeepsHist(c, s, s', e);
      AgainKeepsList(c, s, loc);
    } else {
      SameViewKeepsList(c, s, s');
      SameViewKeepsHist(c, s, s');
    }
  }

  lemma SameViewKeepsHist(c: Setting, s: Sys, s': Sys)
    requires HistInv(c, s) && s'.hist == s.hist && s'.latest == s.latest
    ensures HistInv(c, s')
  {
  }

  lemma AgainTops(c: Setting, s: Sys, loc: Location)
    requires PendingInv(c, s) && CanStep(c, s, EnqueueAgain(loc)) && Mine(c, s.producers[loc].e)
    ensures var e := s.producers[loc].e;
            && IsUpdate(e) && KeyOf(e) in c.keys && e.loc == loc && KeyOf(e) in s.latest && s.latest[KeyOf(e)] == e
            && forall k :: k in s.latest && k.0 == e.loc ==> s.latest[k].node.rv <= e.node.rv
  {
  }

  lemma AgainKeepsList(c: Setting, s: Sys, loc: Location)
    requires ListInv(c, s) && CanStep(c, s, EnqueueAgain(loc)) && Mine(c, s.producers[loc].e)
    ensures ListInv(c, Next(c, s, EnqueueAgain(loc)))
  {
  }

  // ---------------------------------------------------------------- Apply

  /** The write of a pending event of the client: it never meets a newer version or another node. */
  lemma ApplyWrites(c: Setting, s: Sys, loc: Location)
    requires Sound(c) && PendingInv(c, s) && StoresInv(c, s) && CanStep(c, s, Apply(loc)) && Mine(c, s.producers[loc].e)
    ensures var p, s' := s.producers[loc], Next(c, s, Apply(loc));
            var i, h := Index(c.r, p.e), Hash(c.r, p.e);
            || s' == s.(producers := s.producers[loc := if p.Adding? then NeedsUpdate(p.e) else NeedsAdd(p.e)])
            || (&& s' == s.(stores := s.stores[i := s.stores[i][h := p.e]], producers := s.producers[loc := Idle])
                && (h in s.stores[i] ==> KeyOf(s.stores[i][h]) == KeyOf(p.e) && s.stores[i][h].node.rv < p.e.node.rv))
  {
    var e := s.producers[loc].e;
    PendingIsNewer(c, s, loc);
    hide Sound, PendingInv, StoresInv;
    assert Lookup(s.stores[Index(c.r, e)], Hash(c.r, e)).None? ==> Hash(c.r, e) !in s.stores[Index(c.r, e)];
  }

  /** What lies at the place of a pending event of the client: nothing, or an older version of its node. */
  lemma PendingIsNewer(c: Setting, s: Sys, loc: Location)
    requires Sound(c) && PendingInv(c, s) && StoresInv(c, s) && Pending(c, s, loc)
    requires 0 <= Index(c.r, s.producers[loc].e) < |s.stores|
    ensures var e := s.producers[loc].e;
            var cur := Lookup(s.stores[Index(c.r, e)], Hash(c.r, e));
            cur.Some? ==> KeyOf(cur.value) == KeyOf(e) && cur.value.node.rv < e.node.rv
  {
    var e := s.producers[loc].e;
    var i, h := Index(c.r, e), Hash(c.r, e);
    var q :| 0 <= q < |c.sel| && c.sel[q] == i;
    assert EntriesInv(c, s, c.sel[q], s.stores[i]);
    assert KeyIsMine(c, KeyOf(e)) && StoredInv(c, s, KeyOf(e));
    if h in s.stores[i] {
      var o := s.stores[i][h];
      assert KeyOf(o) == KeyOf(e) && Known(s, o);
    }
  }

  lemma DoneKeepsPending(c: Setting, s: Sys, s': Sys, loc: Location)
    requires PendingInv(c, s) && s'.producers == s.producers[loc := Idle]
    requires s'.hist == s.hist && s'.latest == s.latest
    ensures PendingInv(c, s')
  {
  }

  /** Writing the pending event makes its node current and leaves the others alone. */
  lemma WriteKeepsStores(c: Setting, s: Sys, s': Sys, loc: Location, i: int, h: real)
    requires Sound(c) && PendingInv(c, s) && StoresInv(c, s) && Pending(c, s, loc)
    requires i == Index(c.r, s.producers[loc].e) && h == Hash(c.r, s.producers[loc].e) && 0 <= i < |s.stores|
    requires s' == s.(stores := s.stores[i := s.stores[i][h := s.producers[loc].e]],
                 producers := s.producers[loc := Idle])
    ensures StoresInv(c, s')
  {
    var e := s.producers[loc].e;
    forall p | 0 <= p < |c.sel| && c.sel[p] < |s'.stores|
      ensures s'.stores[c.sel[p]] != map[] && EntriesInv(c, s', c.sel[p], s'.stores[c.sel[p]])
    {
      var nodes, nodes' := s.stores[c.sel[p]], s'.stores[c.sel[p]];
      assert EntriesInv(c, s, c.sel[p], nodes);
      assert c.sel[p] == i ==> h in nodes';
      forall g | g in nodes'
        ensures Index(c.r, nodes'[g]) == c.sel[p] && Hash(c.r, nodes'[g]) == g && Known(s', nodes'[g])
      {
        if c.sel[p] != i || g != h {
          assert g in nodes && nodes'[g] == nodes[g] && Known(s, nodes[g]);
        }
      }
    }
    forall k | KeyIsMine(c, k) && 0 <= c.r.index(k.0, k.1) < |s'.stores|
      ensures StoredInv(c, s', k)
    {
      assert StoredInv(c, s, k);
      if k != KeyOf(e) {
        assert c.r.hash(k.0, k.1) != h;
      }
    }
  }

  /** An event for somebody else's store. */
  lemma ForeignKeepsStores(c: Setting, s: Sys, s': Sys, loc: Location, p: Producer)
    requires StoresInv(c, s) && loc in s.producers && s.producers[loc] != Idle && !Mine(c, s.producers[loc].e)
    requires s'.latest == s.latest && |s'.stores| == |s.stores|
    requires forall i :: 0 <= i < |s.stores| && i in c.sel ==> s'.stores[i] == s.stores[i]
    requires s'.producers == s.producers[loc := p] && (p != Idle ==> p.e == s.producers[loc].e)
    ensures StoresInv(c, s')
  {
  }

  lemma ForeignKeepsPending(c: Setting, s: Sys, s': Sys, loc: Location, p: Producer)
    requires PendingInv(c, s) && loc in s.producers && s.producers[loc] != Idle && !Mine(c, s.producers[loc].e)
    requires s'.latest == s.latest && s'.hist == s.hist
    requires s'.producers == s.producers[loc := p] && (p != Idle ==> p.e == s.producers[loc].e)
    ensures PendingInv(c, s')
  {
  }

  lemma {:induction false} ApplyMineKeepsInv(c: Setting, s: Sys, loc: Location)
    requires Sound(c) && PendingInv(c, s) && StoresInv(c, s) && MarkInv(c, s)
    requires CanStep(c, s, Apply(loc)) && Mine(c, s.producers[loc].e)
    ensures var s' := Next(c, s, Apply(loc));
            PendingInv(c, s') && StoresInv(c, s') && MarkInv(c, s')
  {
    hide PendingInv, StoresInv, Sound, MarkInv, Mine;
    ApplyWrites(c, s, loc);
    var s', p := Next(c, s, Apply(loc)), s.producers[loc];
    if s'.producers[loc] == Idle {
      DoneKeepsPending(c, s, s', loc);
      WriteKeepsStores(c, s, s', loc, Index(c.r, p.e), Hash(c.r, p.e));
      WriteKeepsMarks(c, s, s', Index(c.r, p.e), Hash(c.r, p.e), p.e);
    } else {
      SameUnderWayKeepsPending(c, s, s');
      SameUnderWayKeepsStores(c, s, s');
      ForeignKeepsMarks(c, s, s');
    }
  }

  lemma ApplyForeignKeepsInv(c: Setting, s: Sys, loc: Location)
    requires PendingInv(c, s) && StoresInv(c, s) && MarkInv(c, s)
    requires CanStep(c, s, Apply(loc)) && !Mine(c, s.producers[loc].e)
    ensures var s' := Next(c, s, Apply(loc));
            PendingInv(c, s') && StoresInv(c, s') && MarkInv(c, s')
  {
    hide PendingInv, StoresInv, MarkInv;
    var s' := Next(c, s, Apply(loc));
    ForeignKeepsPending(c, s, s', loc, s'.producers[loc]);
    ForeignKeepsStores(c, s, s', loc, s'.producers[loc]);
    ForeignKeepsMarks(c, s, s');
  }

  lemma {:induction false} ApplyKeepsInv(c: Setting, s: Sys, loc: Location)
    requires Inv(c, s) && CanStep(c, s, Apply(loc))
    ensures Inv(c, Next(c, s, Apply(loc)))
  {
    hide PendingInv, StoresInv, HistInv, ListInv, Sound, LatestInv, MarkInv, Mine;
    if Mine(c, s.producers[loc].e) {
      ApplyMineKeepsInv(c, s, loc);
    } else {
      ApplyForeignKeepsInv(c, s, loc);
    }
    var s' := Next(c, s, Apply(loc));
    SameLatest(c, s, s');
    SameViewKeepsHist(c, s, s');
    SameViewKeepsList(c, s, s');
  }

  lemma SameLatest(c: Setting, s: Sys, s': Sys)
    requires LatestInv(c, s) && s'.latest == s.latest
    ensures LatestInv(c, s')
  {
  }

  // ---------------------------------------------------------------- listing

  lemma {:induction false} StartListKeepsInv(c: Setting, s: Sys)
    requires Inv(c, s) && CanStep(c, s, StartList)
    ensures Inv(c, Next(c, s, StartList))
  {
    hide PendingInv, StoresInv, HistInv, MarkInv, LatestInv;
    var s' := Next(c, s, StartList);
    SameLatest(c, s, s');
    SameViews(c, s.stores, []);
    GrowthKeepsMarks(c, s, s');
    SameUnderWayKeepsPending(c, s, s');
    SameUnderWayKeepsStores(c, s, s');
    SameViewKeepsHist(c, s, s');
  }

  /** A snapshot of a store next: its entries are older than every newest version that waits in the queue. */
  lemma SnapIsOlder(c: Setting, s: Sys, n: nat, k: Key, h: real)
    requires Sound(c) && n < |c.sel| && c.sel[n] < |s.stores|
    requires EntriesInv(c, s, c.sel[n], s.stores[c.sel[n]]) && h in s.stores[c.sel[n]]
             && s.stores[c.sel[n]][h].loc == k.0
    requires Top(c, s, k)
    requires k == KeyOf(s.stores[c.sel[n]][h]) ==> s.stores[c.sel[n]][h] != s.latest[k]
    ensures Older(c, s.stores[c.sel[n]][h].node.rv, s.latest[k].node.rv)
  {
  }

  /** An entry snapped earlier is older than the newest version of a node whose store comes next. */
  lemma EarlierIsOlder(c: Setting, s: Sys, q: nat, k: Key, h: real)
    requires !s.lister.NoList? && Sound(c) && SnapsInv(c, s, s.lister.snaps) && q < |s.lister.snaps| < |c.sel|
    requires h in s.lister.snaps[q] && s.lister.snaps[q][h].loc == k.0
    requires c.r.index(k.0, k.1) == c.sel[|s.lister.snaps|] && Top(c, s, k)
    ensures Older(c, s.lister.snaps[q][h].node.rv, s.latest[k].node.rv)
  {
    var o := s.lister.snaps[q][h];
    assert EntriesInv(c, s, c.sel[q], s.lister.snaps[q]);
    assert Known(s, o) && KeyOf(o).0 == k.0;
    assert c.sel[q] != c.sel[|s.lister.snaps|];
  }

  lemma {:induction false} SnapNextCovers(c: Setting, s: Sys, p: nat, k: Key)
    requires Sound(c) && LatestInv(c, s) && PendingInv(c, s) && StoresInv(c, s) && ListInv(c, s)
             && CanStep(c, s, SnapNext)
    requires p <= |s.lister.snaps| && k in s.latest && c.r.index(k.0, k.1) == c.sel[p]
    ensures SnappedOrQueued(c, s, s.lister.snaps + [s.stores[c.sel[|s.lister.snaps|]]], p, k)
  {
    var snaps, n := s.lister.snaps, |s.lister.snaps|;
    var nodes := s.stores[c.sel[n]];
    assert EntriesInv(c, s, c.sel[n], nodes);
    assert StoredInv(c, s, k);
    assert p < n ==> SnappedOrQueued(c, s, snaps, p, k);
    var all := snaps + [nodes];
    if Lookup(all[p], c.r.hash(k.0, k.1)) != Some(s.latest[k]) {
      assert Top(c, s, k) && s.latest[k] in At(s.hist, k.0);
      forall q, h | 0 <= q < |all| && h in all[q] && all[q][h].loc == k.0
        ensures Older(c, all[q][h].node.rv, s.latest[k].node.rv)
      {
        if q == n {
          SnapIsOlder(c, s, n, k, h);
        } else if p == n {
          EarlierIsOlder(c, s, q, k, h);
        }
      }
    }
  }

  /** The snapshots after one more, entry by entry. */
  lemma SnapNextEntries(c: Setting, s: Sys, snaps: seq<map<real, Event>>)
    requires StoresInv(c, s) && ListInv(c, s) && CanStep(c, s, SnapNext)
    requires snaps == s.lister.snaps + [s.stores[c.sel[|s.lister.snaps|]]]
    ensures forall p :: 0 <= p < |snaps| ==> snaps[p] != map[] && EntriesInv(c, s, c.sel[p], snaps[p])
  {
    hide EntriesInv, StoredInv, SnappedOrQueued;
    var n := |s.lister.snaps|;
    assert EntriesInv(c, s, c.sel[n], s.stores[c.sel[n]]) && s.stores[c.sel[n]] != map[];
    assert forall p :: 0 <= p < n ==> snaps[p] == s.lister.snaps[p];
  }

  /** Entries do not look at the lister. */
  lemma SameEntries(c: Setting, s: Sys, s': Sys, i: nat, nodes: map<real, Event>)
    requires EntriesInv(c, s, i, nodes) && s'.latest == s.latest
    ensures EntriesInv(c, s', i, nodes)
  {
  }

  lemma {:induction false} SnapNextKeepsSnaps(c: Setting, s: Sys)
    requires Sound(c) && LatestInv(c, s) && PendingInv(c, s) && StoresInv(c, s) && ListInv(c, s)
             && CanStep(c, s, SnapNext)
    ensures SnapsInv(c, Next(c, s, SnapNext), Next(c, s, SnapNext).lister.snaps)
  {
    hide Sound, LatestInv, PendingInv, StoresInv, EntriesInv, ListInv;
    var s' := Next(c, s, SnapNext);
    var snaps := s'.lister.snaps;
    SnapNextEntries(c, s, snaps);
    forall p | 0 <= p < |snaps|
      ensures EntriesInv(c, s', c.sel[p], snaps[p])
    {
      SameEntries(c, s, s', c.sel[p], snaps[p]);
    }
    forall p, k | 0 <= p < |snaps| && k in s'.latest && c.r.index(k.0, k.1) == c.sel[p]
      ensures SnappedOrQueued(c, s', snaps, p, k)
    {
      SnapNextCovers(c, s, p, k);
    }
  }

  lemma {:induction false} SnapNextKeepsInv(c: Setting, s: Sys)
    requires Inv(c, s) && CanStep(c, s, SnapNext)
    ensures Inv(c, Next(c, s, SnapNext))
  {
    var s' := Next(c, s, SnapNext);
    SnapNextKeepsSnaps(c, s);
    hide PendingInv, HistInv, StoresInv, SnapsInv, MarkInv, Sound, LatestInv;
    SnapKeepsMarks(c, s, s');
    SameLatest(c, s, s');
    SameUnderWayKeepsPending(c, s, s');
    SameUnderWayKeepsStores(c, s, s');
    SameViewKeepsHist(c, s, s');
  }

  // ---------------------------------------------------------------- runs

  lemma {:induction false} StepKeepsInv(c: Setting, s: Sys, step: SysStep)
    requires Inv(c, s) && CanStep(c, s, step)
    ensures Inv(c, Next(c, s, step))
  {
    hide *;
    match step
    case Begin(e) => BeginKeepsInv(c, s, e);
    case Apply(loc) => ApplyKeepsInv(c, s, loc);
    case EnqueueAgain(loc) => EnqueueAgainKeepsInv(c, s, loc);
    case StartList => StartListKeepsInv(c, s);
    case SnapNext => SnapNextKeepsInv(c, s);
  }

  ghost predicate LegalRun(c: Setting, s: Sys, steps: seq<SysStep>)
    decreases |steps|, 0
  {
    steps == []
      || (LegalRun(c, s, steps[..|steps| - 1]) && CanStep(c, After(c, s, steps[..|steps| - 1]), steps[|steps| - 1]))
  }

  /** The state after a run. */
  ghost function After(c: Setting, s: Sys, steps: seq<SysStep>): Sys
    requires LegalRun(c, s, steps)
    decreases |steps|, 1
  {
    if steps == [] then s else Next(c, After(c, s, steps[..|steps| - 1]), steps[|steps| - 1])
  }

  /** Every interleaving of producers and lists keeps the joint invariant. */
  lemma {:induction false} RunKeepsInv(c: Setting, s: Sys, steps: seq<SysStep>)
    requires Inv(c, s) && LegalRun(c, s, steps)
    ensures Inv(c, After(c, s, steps))
  {
    if steps != [] {
      RunKeepsInv(c, s, steps[..|steps| - 1]);
      StepKeepsInv(c, After(c, s, steps[..|steps| - 1]), steps[|steps| - 1]);
    }
  }
}
