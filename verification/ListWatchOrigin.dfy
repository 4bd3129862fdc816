/**
 * Where the list-then-watch protocol starts, and what its steps add up to: a registration leads
 * to a state of the protocol, an uninterrupted producer delivers its event, and an uninterrupted
 * list reads what the distributor lists.
 */
module ListWatchOrigin {
  import opened Types
  import opened EventLog
  import opened EventQueue
  import opened NewestWins
  import opened World
  import opened StoreTheorems
  import opened Listing
  import Queues = QueueTheorems
  import opened ListWatch
  import opened ListWatchTheorems
  import opened ListWatchCoverage

  function NodesOf(stores: seq<VStore>): (r: seq<map<real, Event>>)
    ensures |r| == |stores| && forall i :: 0 <= i < |r| ==> r[i] == stores[i].nodes
  {
    seq(|stores|, i requires 0 <= i < |stores| => stores[i].nodes)
  }

  function LocsOf(stores: seq<VStore>): (r: seq<Location>)
    ensures |r| == |stores| && forall i :: 0 <= i < |r| ==> r[i] == stores[i].loc
  {
    seq(|stores|, i requires 0 <= i < |stores| => stores[i].loc)
  }

  function SettingOf(r: Router, w: RingState, keys: set<Key>, sel: seq<nat>, strict: bool): Setting {
    Setting(r, keys, LocsOf(w.stores), sel, strict)
  }

  /** The protocol state of a client whose producers all rest, when the ring holds the flat map `m`. */
  ghost function Resting(c: Setting, w: World, m: Versions, client: string): Sys
    requires client in w.queues
  {
    Sys(NodesOf(w.ring.stores), w.queues[client], map loc | loc in w.ring.rvs :: Idle, NoList,
        map k | k in m && c.r.index(k.0, k.1) in c.sel :: m[k])
  }

  /** The placement keeps every node in use at a store of its own location. */
  ghost predicate AtHome(r: Router, w: RingState, keys: set<Key>) {
    forall k :: k in keys ==> 0 <= r.index(k.0, k.1) < |w.stores| && w.stores[r.index(k.0, k.1)].loc == k.0
  }

  // ---------------------------------------------------------------- registration

  /** A bookmark names a node of a store of the client, at the version stored. */
  lemma MarkIsKnown(r: Router, w: RingState, m: Versions, keys: set<Key>, i: nat, mark: Event)
    requires Represents(r, w, m, keys) && i < |w.stores| && BookmarkOf(w.stores[i], mark)
    ensures KeyOf(mark) in m && m[KeyOf(mark)].node.rv == mark.node.rv && r.index(mark.loc, mark.node.id) == i
    ensures !IsUpdate(mark)
  {
  }

  /** The queue of a fresh registration: known bookmarks of the client's own stores, one a location. */
  ghost predicate OnlyMarks(c: Setting, m: Versions, h: History) {
    forall loc :: loc in h ==>
      && |h[loc]| == 1 && h[loc][0].loc == loc && !IsUpdate(h[loc][0])
      && KeyOf(h[loc][0]) in m && c.r.index(loc, h[loc][0].node.id) in c.sel
      && h[loc][0].node.rv == m[KeyOf(h[loc][0])].node.rv
  }

  lemma {:induction false} FreshQueueOnlyMarks(r: Router, w: RingState, m: Versions, keys: set<Key>, sel: seq<nat>,
                                               marks: seq<Event>, strict: bool)
    requires Represents(r, w, m, keys) && Queues.Homed(w)
    requires InRange(w.stores, sel) && MarksFor(w.stores, sel, marks)
    ensures OnlyMarks(SettingOf(r, w, keys, sel, strict), m, EnqueueAll(map[], marks))
  {
    var q: History := EnqueueAll(map[], marks);
    var firsts := FirstOfLocation(w.stores, sel);
    Queues.FirstsAreDistinct(w.stores, sel);
    Queues.MarksAreGood(w, sel, marks);
    Queues.MarksMakeQueues(marks);
    forall loc | loc in q
      ensures |q[loc]| == 1 && q[loc][0].loc == loc && !IsUpdate(q[loc][0])
      ensures KeyOf(q[loc][0]) in m && r.index(loc, q[loc][0].node.id) in sel
      ensures q[loc][0].node.rv == m[KeyOf(q[loc][0])].node.rv
    {
      var j :| 0 <= j < |marks| && marks[j].loc == loc;
      MarkIsKnown(r, w, m, keys, firsts[j], marks[j]);
    }
  }

  lemma {:induction false} RestingHist(c: Setting, w: World, m: Versions, client: string)
    requires client in w.queues && OnlyMarks(c, m, w.queues[client])
    requires c.locs == LocsOf(w.ring.stores) && AtHome(c.r, w.ring, c.keys) && forall k :: k in m ==> k in c.keys
    ensures HistInv(c, Resting(c, w, m, client))
  {
    var s := Resting(c, w, m, client);
    forall loc | loc in s.hist
      ensures exists p :: 0 <= p < |c.sel| && c.sel[p] < |c.locs| && c.locs[c.sel[p]] == loc
      ensures |s.hist[loc]| == 1
      ensures !IsUpdate(s.hist[loc][0]) && QueuedKnown(s, loc, s.hist[loc][0])
    {
      var k := KeyOf(s.hist[loc][0]);
      var p :| 0 <= p < |c.sel| && c.sel[p] == c.r.index(k.0, k.1);
      assert k in c.keys && c.locs[c.sel[p]] == loc;
    }
    hide OnlyMarks, AtHome, QueuedKnown;
    MarksOnlyHist(c, s);
  }

  /** One bookmark a location leaves nothing to compare. */
  lemma MarksOnlyHist(c: Setting, s: Sys)
    requires forall loc :: loc in s.hist ==>
               exists p :: 0 <= p < |c.sel| && c.sel[p] < |c.locs| && c.locs[c.sel[p]] == loc
    requires forall loc :: loc in s.hist ==> |s.hist[loc]| == 1
    requires forall loc :: loc in s.hist ==> !IsUpdate(s.hist[loc][0]) && QueuedKnown(s, loc, s.hist[loc][0])
    ensures HistInv(c, s)
  {
    hide QueuedKnown, IsUpdate;
    forall loc, e | loc in s.hist && e in s.hist[loc]
      ensures e == s.hist[loc][0]
    {
    }
    forall loc, a, b | loc in s.hist && a in s.hist[loc] && b in s.hist[loc]
      ensures SameIfSameVersion(a, b)
    {
    }
  }

  lemma RestingStores(c: Setting, w: World, m: Versions, client: string)
    requires client in w.queues && Represents(c.r, w.ring, m, c.keys)
    requires c.locs == LocsOf(w.ring.stores)
    requires forall p :: 0 <= p < |c.sel| && c.sel[p] < |w.ring.stores| ==> w.ring.stores[c.sel[p]].nodes != map[]
    ensures StoresInv(c, Resting(c, w, m, client))
  {
    var s := Resting(c, w, m, client);
    forall p | 0 <= p < |c.sel| && c.sel[p] < |s.stores|
      ensures EntriesInv(c, s, c.sel[p], s.stores[c.sel[p]])
    {
      forall h | h in s.stores[c.sel[p]]
        ensures var e := s.stores[c.sel[p]][h];
                KeyOf(e) in c.keys && Index(c.r, e) == c.sel[p] && Hash(c.r, e) == h && Known(s, e)
      {
        EntryAt(c.r, w.ring, m, c.sel[p], h);
      }
    }
    forall k | KeyIsMine(c, k) && 0 <= c.r.index(k.0, k.1) < |s.stores|
      ensures StoredInv(c, s, k)
    {
      EntryIsFlat(c.r, w.ring, m, c.keys, k);
    }
  }

  lemma StoredAreUpdates(r: Router, w: RingState, m: Versions, keys: set<Key>, k: Key)
    requires Represents(r, w, m, keys) && Queues.Homed(w) && k in m
    ensures IsUpdate(m[k])
  {
  }

  /** Assigning stores changes no contents. */
  lemma AssignRepresents(r: Router, w: RingState, m: Versions, keys: set<Key>, sel: seq<nat>, client: string)
    requires Represents(r, w, m, keys)
    ensures Represents(r, w.(stores := Assign(w.stores, sel, client)), m, keys)
  {
  }

  lemma GrantIsSound(stores: seq<VStore>, request: int, sel: seq<nat>, client: string)
    requires IsGrant(stores, request, sel)
    ensures NoDuplicates(sel) && sel != []
    ensures forall p :: 0 <= p < |sel| ==> sel[p] < |stores| && Assign(stores, sel, client)[sel[p]].nodes != map[]
  {
  }

  /** A bookmark is covered by the node it was made of. */
  lemma MarkIsCovered(c: Setting, w: World, m: Versions, k: Key)
    requires Represents(c.r, w.ring, m, c.keys) && k in m && c.r.index(k.0, k.1) in c.sel
    ensures ViewCovers(c, NodesOf(w.ring.stores), [], k.0, m[k].node.rv)
  {
    EntryIsFlat(c.r, w.ring, m, c.keys, k);
    assert KeyOf(m[k]) == k;
    hide Represents;
    var p :| 0 <= p < |c.sel| && c.sel[p] == c.r.index(k.0, k.1);
    var h := c.r.hash(k.0, k.1);
    assert h in View(c, NodesOf(w.ring.stores), [], p) && View(c, NodesOf(w.ring.stores), [], p)[h] == m[k];
  }

  /** Every held location has a queue, and its bookmark is covered. */
  lemma RestingMarks(c: Setting, w: World, m: Versions, client: string)
    requires Represents(c.r, w.ring, m, c.keys) && client in w.queues && OnlyMarks(c, m, w.queues[client])
    requires c.locs == LocsOf(w.ring.stores)
    requires forall p :: 0 <= p < |c.sel| ==> c.sel[p] < |c.locs| && c.locs[c.sel[p]] in w.queues[client]
    ensures MarkInv(c, Resting(c, w, m, client))
  {
    hide Represents, ViewCovers, NodesOf;
    var s := Resting(c, w, m, client);
    forall loc | loc in s.hist
      ensures FirstCovered(c, s, loc)
    {
      MarkIsCovered(c, w, m, KeyOf(s.hist[loc][0]));
    }
  }

  /** What there is to learn: the stored version of every node in the client's stores. */
  lemma RestingLatest(c: Setting, w: World, m: Versions, client: string)
    requires client in w.queues && Represents(c.r, w.ring, m, c.keys) && Queues.Homed(w.ring)
    ensures LatestInv(c, Resting(c, w, m, client))
  {
    forall k | k in m
      ensures IsUpdate(m[k]) && k in c.keys && KeyOf(m[k]) == k
    {
      StoredAreUpdates(c.r, w.ring, m, c.keys, k);
    }
    hide Represents, Queues.Homed;
  }

  lemma RestingSound(c: Setting, w: RingState, m: Versions)
    requires Represents(c.r, w, m, c.keys) && AtHome(c.r, w, c.keys) && c.locs == LocsOf(w.stores)
    requires NoDuplicates(c.sel) && c.sel != [] && forall p :: 0 <= p < |c.sel| ==> c.sel[p] < |w.stores|
    ensures Sound(c)
  {
    hide CollisionFree, EntriesIn;
  }

  /** A ring that holds the flat map, with the client's stores in it, gives a state of the invariant. */
  lemma {:induction false} RestingIsInv(c: Setting, w: World, m: Versions, client: string)
    requires Represents(c.r, w.ring, m, c.keys) && Queues.Homed(w.ring) && AtHome(c.r, w.ring, c.keys)
    requires client in w.queues && OnlyMarks(c, m, w.queues[client]) && c.locs == LocsOf(w.ring.stores)
    requires NoDuplicates(c.sel) && c.sel != []
    requires forall p :: 0 <= p < |c.sel| ==> c.sel[p] < |w.ring.stores| && w.ring.stores[c.sel[p]].nodes != map[]
    requires forall p :: 0 <= p < |c.sel| ==> w.ring.stores[c.sel[p]].loc in w.queues[client]
    ensures var s := Resting(c, w, m, client); Inv(c, s) && TailInv(c, s) && Quiet(c, s)
  {
    hide OnlyMarks, Queues.Homed, HistInv, StoresInv, MarkInv, LatestInv, Sound, AtHome, TailInv, Quiet;
    RestingSound(c, w.ring, m);
    RestingLatest(c, w, m, client);
    KeysInUse(c.r, w.ring, m, c.keys);
    hide Represents;
    RestingHist(c, w, m, client);
    RestingStores(c, w, m, client);
    RestingMarks(c, w, m, client);
    RestingTail(c, w, m, client);
    RestingIsQuiet(c, w, m, client);
  }

  /** Nothing is under way, and the bookmarks are covered. */
  lemma RestingTail(c: Setting, w: World, m: Versions, client: string)
    requires client in w.queues && OnlyMarks(c, m, w.queues[client]) && MarkInv(c, Resting(c, w, m, client))
    ensures TailInv(c, Resting(c, w, m, client))
  {
    hide ViewCovers, NodesOf;
    var s := Resting(c, w, m, client);
    forall loc | loc in s.hist
      ensures QueueCovered(c, s, loc)
    {
      assert FirstCovered(c, s, loc);
    }
  }

  lemma KeysInUse(r: Router, w: RingState, m: Versions, keys: set<Key>)
    requires Represents(r, w, m, keys)
    ensures forall k :: k in m ==> k in keys
  {
  }

  lemma AssignKeepsPlaces(r: Router, w: RingState, keys: set<Key>, sel: seq<nat>, client: string)
    requires AtHome(r, w, keys)
    ensures AtHome(r, w.(stores := Assign(w.stores, sel, client)), keys)
    ensures LocsOf(Assign(w.stores, sel, client)) == LocsOf(w.stores)
  {
  }

  lemma MarksAtHeldLocations(w: RingState, sel: seq<nat>, marks: seq<Event>)
    requires Queues.Homed(w) && InRange(w.stores, sel) && MarksFor(w.stores, sel, marks)
    ensures forall p :: 0 <= p < |sel| ==> w.stores[sel[p]].loc in EnqueueAll(map[], marks)
  {
    Queues.RegistrationQueue(w, sel, marks);
  }

  /** What a registration that goes through leaves behind, piece by piece. */
  lemma RegisteredWorld(w: World, client: string, request: int, sel: seq<nat>, marks: seq<Event>, r: Router)
    requires Enabled(r, w, Register(client, request, sel, marks))
    ensures IsGrant(w.ring.stores, request, sel) && MarksFor(w.ring.stores, sel, marks) && InRange(w.ring.stores, sel)
    ensures Step(r, w, Register(client, request, sel, marks)) ==
            World(w.ring.(stores := Assign(w.ring.stores, sel, client)),
                  w.queues[client := EnqueueAll(map[], marks)], w.owned[client := sel],
                  w.channels[client := Channel(false, multiset{})])
  {
  }

  lemma AssignKeepsLocs(stores: seq<VStore>, sel: seq<nat>, client: string)
    ensures forall i :: 0 <= i < |stores| ==> Assign(stores, sel, client)[i].loc == stores[i].loc
  {
  }

  /** Every registration in a reachable state starts the protocol in a state of its invariant. */
  lemma {:induction false} RegistrationStartsProtocol(r: Router, w: World, m: Versions, keys: set<Key>,
                                   client: string, request: int, sel: seq<nat>, marks: seq<Event>, strict: bool)
    requires Queues.Inv(w) && Represents(r, w.ring, m, keys) && AtHome(r, w.ring, keys) && client != ""
    requires Enabled(r, w, Register(client, request, sel, marks))
    ensures var w', c := Step(r, w, Register(client, request, sel, marks)), SettingOf(r, w.ring, keys, sel, strict);
            var start := Resting(c, w', m, client);
            Inv(c, start) && TailInv(c, start) && Quiet(c, start)
  {
    hide Represents, OnlyMarks, Queues.Homed, MarksFor, EnqueueAll, Inv, TailInv, Quiet, AtHome, IsGrant, Refusal,
      Assign, Enabled, Step, LocsOf;
    RegisteredWorld(w, client, request, sel, marks, r);
    FreshQueueOnlyMarks(r, w.ring, m, keys, sel, marks, strict);
    AssignRepresents(r, w.ring, m, keys, sel, client);
    GrantIsSound(w.ring.stores, request, sel, client);
    Queues.RegisterKeepsRing(w.ring, sel, client);
    AssignKeepsPlaces(r, w.ring, keys, sel, client);
    MarksAtHeldLocations(w.ring, sel, marks);
    AssignKeepsLocs(w.ring.stores, sel, client);
    RestingIsInv(SettingOf(r, w.ring, keys, sel, strict), Step(r, w, Register(client, request, sel, marks)), m, client);
  }

  // ---------------------------------------------------------------- one producer alone

  /** The steps of a producer that nobody interrupts. */
  function Alone(r: Router, w: RingState, e: Event): seq<SysStep>
    requires IsUpdate(e) && CanProcess(r, w, e)
  {
    if EffectIn(r, w, e).copies == 2 then [Begin(e), Apply(e.loc), EnqueueAgain(e.loc), Apply(e.loc)]
    else [Begin(e), Apply(e.loc)]
  }

  lemma RunTwo(c: Setting, s: Sys, a: SysStep, b: SysStep)
    requires CanStep(c, s, a) && CanStep(c, Next(c, s, a), b)
    ensures LegalRun(c, s, [a, b]) && After(c, s, [a, b]) == Next(c, Next(c, s, a), b)
  {
    var run := [a, b];
    assert run[..1] == [a] && run[..1][..0] == [];
    assert LegalRun(c, s, run[..1][..0]);
    assert LegalRun(c, s, run[..1]) && After(c, s, run[..1]) == Next(c, s, a);
  }

  lemma {:induction false} RunAppend(c: Setting, s: Sys, a: seq<SysStep>, b: seq<SysStep>)
    requires LegalRun(c, s, a) && LegalRun(c, After(c, s, a), b)
    ensures LegalRun(c, s, a + b) && After(c, s, a + b) == After(c, After(c, s, a), b)
  {
    if b == [] {
      assert a + b == a;
    } else {
      RunAppend(c, s, a, b[..|b| - 1]);
      assert (a + b)[..|a + b| - 1] == a + b[..|b| - 1];
    }
  }

  /** The protocol state mirrors a ring. */
  ghost predicate Mirrors(s: Sys, w: RingState) {
    s.stores == NodesOf(w.stores)
  }

  /** The nodes of one store after an event. */
  function Written(nodes: map<real, Event>, h: real, e: Event): map<real, Event> {
    if EffectOf(Lookup(nodes, h), e).put then nodes[h := e] else nodes
  }

  lemma ProcessWrites(r: Router, w: RingState, e: Event)
    requires IsUpdate(e) && CanProcess(r, w, e)
    ensures NodesOf(Process(r, w, e).stores)
            == NodesOf(w.stores)[Index(r, e) := Written(w.stores[Index(r, e)].nodes, Hash(r, e), e)]
  {
  }

  /** The first try settles an event that is enqueued once; the second try settles the others. */
  lemma TriesWrite(nodes: map<real, Event>, h: real, e: Event)
    requires IsUpdate(e)
    ensures var first := if e.kind.Added? then AddTo(nodes, h, e) else UpdateIn(nodes, h, e);
            var second := if e.kind.Added? then UpdateIn(nodes, h, e) else AddTo(nodes, h, e);
            if EffectOf(Lookup(nodes, h), e).copies == 2 then first == None && second == Some(Written(nodes, h, e))
            else first == Some(Written(nodes, h, e))
  {
  }

  /** After the event was told to the queue, and the producer went on to `p` with these stores. */
  ghost function Begun(c: Setting, s: Sys, e: Event, stores: seq<map<real, Event>>, p: Producer): Sys {
    s.(stores := stores, hist := Told(c, s.hist, e), producers := s.producers[e.loc := p],
       latest := if Mine(c, e) then s.latest[KeyOf(e) := e] else s.latest)
  }

  lemma FirstApply(c: Setting, s: Sys, w: RingState, e: Event)
    requires s.stores == NodesOf(w.stores) && IsUpdate(e) && CanProcess(c.r, w, e)
    requires e.loc in s.producers && s.producers[e.loc] == if e.kind.Added? then Adding(e) else Updating(e)
    ensures CanStep(c, s, Apply(e.loc))
    ensures Next(c, s, Apply(e.loc)) ==
            if EffectIn(c.r, w, e).copies == 2
            then s.(producers := s.producers[e.loc := if e.kind.Added? then NeedsUpdate(e) else NeedsAdd(e)])
            else s.(stores := NodesOf(Process(c.r, w, e).stores), producers := s.producers[e.loc := Idle])
  {
    hide EffectOf, AddTo, UpdateIn, NodesOf, Process, Written;
    var i, h := Index(c.r, e), Hash(c.r, e);
    ProcessWrites(c.r, w, e);
    TriesWrite(w.stores[i].nodes, h, e);
  }

  lemma FirstTry(c: Setting, s: Sys, w: RingState, e: Event)
    requires Mirrors(s, w) && CanStep(c, s, Begin(e)) && CanProcess(c.r, w, e)
    ensures LegalRun(c, s, [Begin(e), Apply(e.loc)])
    ensures After(c, s, [Begin(e), Apply(e.loc)]) ==
            if EffectIn(c.r, w, e).copies == 2
              then Begun(c, s, e, s.stores, if e.kind.Added? then NeedsUpdate(e) else NeedsAdd(e))
            else Begun(c, s, e, NodesOf(Process(c.r, w, e).stores), Idle)
  {
    hide LegalRun, After, EffectIn, NodesOf, Process, Told, Mine;
    FirstApply(c, Next(c, s, Begin(e)), w, e);
    RunTwo(c, s, Begin(e), Apply(e.loc));
  }

  lemma SecondTry(c: Setting, s: Sys, w: RingState, e: Event)
    requires Mirrors(s, w) && IsUpdate(e) && CanProcess(c.r, w, e) && EffectIn(c.r, w, e).copies == 2
             && !s.lister.Snapping?
    requires e.loc in s.producers && s.producers[e.loc] == if e.kind.Added? then NeedsUpdate(e) else NeedsAdd(e)
    ensures LegalRun(c, s, [EnqueueAgain(e.loc), Apply(e.loc)])
    ensures After(c, s, [EnqueueAgain(e.loc), Apply(e.loc)]) ==
            s.(stores := NodesOf(Process(c.r, w, e).stores), hist := Told(c, s.hist, e),
                producers := s.producers[e.loc := Idle])
  {
    hide EffectOf, AddTo, UpdateIn, NodesOf, Process, Written;
    var i, h := Index(c.r, e), Hash(c.r, e);
    ProcessWrites(c.r, w, e);
    TriesWrite(w.stores[i].nodes, h, e);
    RunTwo(c, s, EnqueueAgain(e.loc), Apply(e.loc));
  }

  lemma ToldAgain(c: Setting, h: History, e: Event)
    ensures Mine(c, e) ==>
              Told(c, h, e) == EnqueuedTimes(h, e, 1) && Told(c, Told(c, h, e), e) == EnqueuedTimes(h, e, 2)
  {
    assert At(h, e.loc) + [e] + [e] == At(h, e.loc) + Copies(e, 2);
  }

  lemma AloneRuns(c: Setting, s: Sys, w: RingState, e: Event)
    requires Mirrors(s, w) && CanStep(c, s, Begin(e)) && CanProcess(c.r, w, e) && !s.lister.Snapping?
    ensures LegalRun(c, s, Alone(c.r, w, e))
    ensures var told := Told(c, s.hist, e);
            After(c, s, Alone(c.r, w, e)) ==
            Begun(c, s, e, NodesOf(Process(c.r, w, e).stores), Idle)
              .(hist := if EffectIn(c.r, w, e).copies == 2 then Told(c, told, e) else told)
  {
    hide LegalRun, After, EffectIn, NodesOf, Process, Told, Mine;
    FirstTry(c, s, w, e);
    if EffectIn(c.r, w, e).copies == 2 {
      var first, second := [Begin(e), Apply(e.loc)], [EnqueueAgain(e.loc), Apply(e.loc)];
      SecondTry(c, After(c, s, first), w, e);
      RunAppend(c, s, first, second);
      assert Alone(c.r, w, e) == first + second;
    }
  }

  /**
   * A producer that is not interrupted does to the stores and to the queue what the delivery of
   * its event does, and rests again.
   */
  lemma ProducerAloneDelivers(c: Setting, s: Sys, w: RingState, e: Event)
    requires Mirrors(s, w) && CanStep(c, s, Begin(e)) && CanProcess(c.r, w, e) && !s.lister.Snapping?
    ensures LegalRun(c, s, Alone(c.r, w, e))
    ensures var s' := After(c, s, Alone(c.r, w, e));
            && Mirrors(s', Process(c.r, w, e))
            && s'.producers == s.producers && s'.lister == s.lister
            && s'.hist == if Mine(c, e) then EnqueuedTimes(s.hist, e, EffectIn(c.r, w, e).copies) else s.hist
  {
    hide LegalRun, After, EffectIn, NodesOf, Process, EnqueuedTimes, Enqueued;
    AloneRuns(c, s, w, e);
    ToldAgain(c, s.hist, e);
    CopiesAreOneOrTwo(c.r, w, e);
  }

  lemma CopiesAreOneOrTwo(r: Router, w: RingState, e: Event)
    requires IsUpdate(e) && CanProcess(r, w, e)
    ensures EffectIn(r, w, e).copies in {1, 2}
  {
  }

  // ---------------------------------------------------------------- one list alone

  /** Snapshots taken all at once. */
  ghost predicate TakenFrom(snaps: seq<map<real, Event>>, stores: seq<VStore>, sel: seq<nat>) {
    |snaps| == |sel| && InRange(stores, sel) && forall p :: 0 <= p < |sel| ==> snaps[p] == stores[sel[p]].nodes
  }

  lemma SnappedAt(snaps: seq<map<real, Event>>, stores: seq<VStore>, sel: seq<nat>, q: Position)
    returns (p: nat, h: real)
    requires TakenFrom(snaps, stores, sel) && Holds(stores, sel, q)
    ensures p < |snaps| && h in snaps[p] && snaps[p][h] == EventAt(stores, q)
  {
    h := q.1;
    p :| 0 <= p < |sel| && sel[p] == q.0;
  }

  lemma TakenAt(snaps: seq<map<real, Event>>, stores: seq<VStore>, sel: seq<nat>, p: nat, h: real)
    requires TakenFrom(snaps, stores, sel) && p < |snaps| && h in snaps[p]
    ensures Holds(stores, sel, (sel[p], h)) && EventAt(stores, (sel[p], h)) == snaps[p][h]
  {
  }

  /** The versions of the protocol's list are those the distributor's list returns. */
  lemma ListedAloneIsTheList(snaps: seq<map<real, Event>>, stores: seq<VStore>, sel: seq<nat>, rvs: map<Location, nat>)
    requires TakenFrom(snaps, stores, sel)
    ensures IsListedRvs(snaps, rvs) <==> IsRvMap(stores, sel, rvs)
  {
    if IsListedRvs(snaps, rvs) {
      ListedRvsAreTheRvMap(snaps, stores, sel, rvs);
    }
    if IsRvMap(stores, sel, rvs) {
      RvMapIsListedRvs(snaps, stores, sel, rvs);
    }
  }

  lemma ListedRvsAreTheRvMap(snaps: seq<map<real, Event>>, stores: seq<VStore>, sel: seq<nat>, rvs: map<Location, nat>)
    requires TakenFrom(snaps, stores, sel) && IsListedRvs(snaps, rvs)
    ensures IsRvMap(stores, sel, rvs)
  {
    forall q | Holds(stores, sel, q)
      ensures EventAt(stores, q).loc in rvs && EventAt(stores, q).node.rv <= rvs[EventAt(stores, q).loc]
    {
      var p, h := SnappedAt(snaps, stores, sel, q);
    }
    forall loc | loc in rvs
      ensures exists q ::
                Holds(stores, sel, q) && EventAt(stores, q).loc == loc && EventAt(stores, q).node.rv == rvs[loc]
    {
      var p, h :| 0 <= p < |snaps| && h in snaps[p] && snaps[p][h].loc == loc && snaps[p][h].node.rv == rvs[loc];
      TakenAt(snaps, stores, sel, p, h);
    }
  }

  lemma RvMapIsListedRvs(snaps: seq<map<real, Event>>, stores: seq<VStore>, sel: seq<nat>, rvs: map<Location, nat>)
    requires TakenFrom(snaps, stores, sel) && IsRvMap(stores, sel, rvs)
    ensures IsListedRvs(snaps, rvs)
  {
    hide TakenFrom;
    forall p, h | 0 <= p < |snaps| && h in snaps[p]
      ensures snaps[p][h].loc in rvs && snaps[p][h].node.rv <= rvs[snaps[p][h].loc]
    {
      SnapIsListed(snaps, stores, sel, rvs, p, h);
    }
    forall loc | loc in rvs
      ensures exists p, h ::
                0 <= p < |snaps| && h in snaps[p] && snaps[p][h].loc == loc && snaps[p][h].node.rv == rvs[loc]
    {
      var q :| Holds(stores, sel, q) && EventAt(stores, q).loc == loc && EventAt(stores, q).node.rv == rvs[loc];
      var p, h := SnappedAt(snaps, stores, sel, q);
    }
  }

  lemma SnapIsListed(snaps: seq<map<real, Event>>, stores: seq<VStore>, sel: seq<nat>, rvs: map<Location, nat>, p: nat,
                     h: real)
    requires TakenFrom(snaps, stores, sel) && IsRvMap(stores, sel, rvs)
    requires p < |snaps| && h in snaps[p]
    ensures snaps[p][h].loc in rvs && snaps[p][h].node.rv <= rvs[snaps[p][h].loc]
  {
    TakenAt(snaps, stores, sel, p, h);
  }

  // ---------------------------------------------------------------- a client just registered

  /** Nothing is under way for the client, and no update was queued yet. */
  ghost predicate Quiet(c: Setting, s: Sys) {
    && (forall loc :: !Pending(c, s, loc))
    && (forall loc, x :: loc in s.hist && x in s.hist[loc] ==> !IsUpdate(x))
    && s.lister.NoList?
  }

  lemma RestingIsQuiet(c: Setting, w: World, m: Versions, client: string)
    requires client in w.queues && OnlyMarks(c, m, w.queues[client])
    ensures Quiet(c, Resting(c, w, m, client))
  {
  }

  /** The client's stores as they are. */
  function Taken(c: Setting, stores: seq<map<real, Event>>): (snaps: seq<map<real, Event>>)
    requires forall p :: 0 <= p < |c.sel| ==> c.sel[p] < |stores|
    ensures |snaps| == |c.sel| && forall p :: 0 <= p < |c.sel| ==> snaps[p] == stores[c.sel[p]]
  {
    seq(|c.sel|, p requires 0 <= p < |c.sel| => stores[c.sel[p]])
  }

  /** A list that nobody interrupts. */
  function ListSteps(n: nat): seq<SysStep> {
    if n == 0 then [StartList] else ListSteps(n - 1) + [SnapNext]
  }

  lemma OneMoreStep(c: Setting, s: Sys, steps: seq<SysStep>, step: SysStep)
    requires LegalRun(c, s, steps) && CanStep(c, After(c, s, steps), step)
    ensures LegalRun(c, s, steps + [step]) && After(c, s, steps + [step]) == Next(c, After(c, s, steps), step)
  {
    assert (steps + [step])[..|steps|] == steps;
  }

  /** The state of a list that took the first `n` stores. */
  function Took(c: Setting, s: Sys, n: nat): Sys
    requires n <= |c.sel| && forall p :: 0 <= p < |c.sel| ==> c.sel[p] < |s.stores|
  {
    var taken := Taken(c, s.stores)[..n];
    s.(lister := if n == |c.sel| then Listed(taken) else Snapping(taken))
  }

  lemma TakesNext(c: Setting, s: Sys, n: nat)
    requires 0 < n <= |c.sel| && forall p :: 0 <= p < |c.sel| ==> c.sel[p] < |s.stores|
    ensures CanStep(c, Took(c, s, n - 1), SnapNext) && Next(c, Took(c, s, n - 1), SnapNext) == Took(c, s, n)
  {
    var taken := Taken(c, s.stores);
    assert taken[..n - 1] + [taken[n - 1]] == taken[..n];
  }

  lemma {:induction false} ListingRuns(c: Setting, s: Sys, n: nat)
    requires c.sel != [] && !s.lister.Snapping? && n <= |c.sel|
    requires forall p :: 0 <= p < |c.sel| ==> c.sel[p] < |s.stores|
    ensures LegalRun(c, s, ListSteps(n)) && After(c, s, ListSteps(n)) == Took(c, s, n)
  {
    if n == 0 {
      assert [StartList][..0] == [] && LegalRun(c, s, []) && After(c, s, []) == s;
    } else {
      ListingRuns(c, s, n - 1);
      TakesNext(c, s, n);
      hide LegalRun, After, Took, CanStep, Next;
      OneMoreStep(c, s, ListSteps(n - 1), SnapNext);
    }
  }

  lemma HeldAreStores(c: Setting, s: Sys)
    requires Inv(c, s)
    ensures forall p :: 0 <= p < |c.sel| ==> c.sel[p] < |s.stores|
  {
    hide LatestInv, PendingInv, HistInv, MarkInv, ListInv, EntriesInv, StoredInv, CollisionFree;
  }

  /** With nothing under way, what a list takes is the newest version of every node. */
  lemma QuietListMirrors(c: Setting, s: Sys)
    requires Inv(c, s) && Quiet(c, s)
    ensures forall p :: 0 <= p < |c.sel| ==> c.sel[p] < |s.stores|
    ensures IsMirror(Taken(c, s.stores), s.latest)
  {
    hide Inv, Quiet;
    HeldAreStores(c, s);
    var snaps := Taken(c, s.stores);
    forall p, h | 0 <= p < |snaps| && h in snaps[p]
      ensures KeyOf(snaps[p][h]) in s.latest && s.latest[KeyOf(snaps[p][h])] == snaps[p][h]
    {
      StoredIsLatest(c, s, p, h);
    }
    forall k | k in s.latest
      ensures exists p, h :: 0 <= p < |snaps| && h in snaps[p] && snaps[p][h] == s.latest[k] && KeyOf(s.latest[k]) == k
    {
      LatestIsStored(c, s, k);
    }
  }

  lemma StoredIsLatest(c: Setting, s: Sys, p: nat, h: real)
    requires Inv(c, s) && Quiet(c, s) && p < |c.sel| && c.sel[p] < |s.stores| && h in s.stores[c.sel[p]]
    ensures var o := s.stores[c.sel[p]][h]; KeyOf(o) in s.latest && s.latest[KeyOf(o)] == o
  {
    hide Sound, PendingInv, HistInv, MarkInv, ListInv;
    var o := s.stores[c.sel[p]][h];
    assert EntriesInv(c, s, c.sel[p], s.stores[c.sel[p]]);
    assert KeyIsMine(c, KeyOf(o)) && StoredInv(c, s, KeyOf(o));
  }

  lemma LatestIsStored(c: Setting, s: Sys, k: Key)
    requires Inv(c, s) && Quiet(c, s) && k in s.latest
    ensures exists p, h :: 0 <= p < |c.sel| && c.sel[p] < |s.stores| && h in s.stores[c.sel[p]]
                           && s.stores[c.sel[p]][h] == s.latest[k] && KeyOf(s.latest[k]) == k
  {
    hide PendingInv, HistInv, MarkInv, ListInv;
    assert KeyIsMine(c, k);
    var p :| 0 <= p < |c.sel| && c.sel[p] == c.r.index(k.0, k.1);
    assert StoredInv(c, s, k);
    assert c.r.hash(k.0, k.1) in s.stores[c.sel[p]];
  }

  /** The greatest version that snapshots hold at a location. */
  ghost predicate Greatest(snaps: seq<map<real, Event>>, loc: Location, rv: nat) {
    && (exists p, h :: 0 <= p < |snaps| && h in snaps[p] && snaps[p][h].loc == loc && snaps[p][h].node.rv == rv)
    && (forall p, h :: 0 <= p < |snaps| && h in snaps[p] && snaps[p][h].loc == loc ==> snaps[p][h].node.rv <= rv)
  }

  ghost predicate Occurs(snaps: seq<map<real, Event>>, loc: Location) {
    exists p, h :: 0 <= p < |snaps| && h in snaps[p] && snaps[p][h].loc == loc
  }

  lemma {:induction false} GreatestBelow(snaps: seq<map<real, Event>>, loc: Location, bound: nat)
    requires Occurs(snaps, loc)
    requires forall p, h :: 0 <= p < |snaps| && h in snaps[p] && snaps[p][h].loc == loc ==> snaps[p][h].node.rv <= bound
    ensures exists rv :: Greatest(snaps, loc, rv)
  {
    if !Greatest(snaps, loc, bound) {
      forall p, h | 0 <= p < |snaps| && h in snaps[p] && snaps[p][h].loc == loc
        ensures bound > 0 && snaps[p][h].node.rv <= bound - 1
      {
      }
      GreatestBelow(snaps, loc, bound - 1);
    }
  }

  /** Every list has versions to return. */
  lemma ListedRvsExist(snaps: seq<map<real, Event>>) returns (rvs: map<Location, nat>)
    ensures IsListedRvs(snaps, rvs)
  {
    var locs := set p, h | 0 <= p < |snaps| && h in snaps[p] :: snaps[p][h].loc;
    assert forall loc :: loc in locs <==> Occurs(snaps, loc);
    forall loc | loc in locs
      ensures exists rv :: Greatest(snaps, loc, rv)
    {
      GreatestBelow(snaps, loc, MAX_UINT64);
    }
    rvs := map loc | loc in locs :: var rv: nat :| Greatest(snaps, loc, rv); rv;
    forall p, h | 0 <= p < |snaps| && h in snaps[p]
      ensures snaps[p][h].loc in rvs && snaps[p][h].node.rv <= rvs[snaps[p][h].loc]
    {
      assert Occurs(snaps, snaps[p][h].loc);
      assert Greatest(snaps, snaps[p][h].loc, rvs[snaps[p][h].loc]);
    }
    forall loc | loc in rvs
      ensures exists p, h ::
                0 <= p < |snaps| && h in snaps[p] && snaps[p][h].loc == loc && snaps[p][h].node.rv == rvs[loc]
    {
      assert Greatest(snaps, loc, rvs[loc]);
    }
  }

  /** A client that just registered and lists has the newest version of every node. */
  lemma {:induction false} RegisteredListIsComplete(c: Setting, s: Sys, rvs: map<Location, nat>)
    requires Inv(c, s) && Quiet(c, s)
    requires (forall p :: 0 <= p < |c.sel| ==> c.sel[p] < |s.stores|) && IsListedRvs(Taken(c, s.stores), rvs)
    ensures LegalRun(c, s, ListSteps(|c.sel|))
    ensures var t := After(c, s, ListSteps(|c.sel|));
            && t == s.(lister := Listed(Taken(c, s.stores)))
            && HasListed(c, t, s.latest, rvs) && !Missed(t.hist, rvs)
  {
    hide PendingInv, StoresInv, HistInv, MarkInv, ListInv, IsMirror, IsListedRvs;
    QuietListMirrors(c, s);
    ListingRuns(c, s, |c.sel|);
    hide LegalRun, After;
    assert Taken(c, s.stores)[..|c.sel|] == Taken(c, s.stores);
    RunKeepsInv(c, s, ListSteps(|c.sel|));
  }

  /**
   * From every registration in two or more locations: the client lists, one more event of its stores
   * is taken up at one location, and the watch is answered with nothing, because another location
   * has nothing newer. The client stays behind.
   */
  lemma {:induction false} RegisteredClientIsLeftBehind(c: Setting, s: Sys, rvs: map<Location, nat>, e: Event,
                                                        a: Location)
    requires Inv(c, s) && Quiet(c, s)
    requires (forall p :: 0 <= p < |c.sel| ==> c.sel[p] < |s.stores|) && IsListedRvs(Taken(c, s.stores), rvs)
    requires CanStep(c, s, Begin(e)) && Mine(c, e) && a in s.hist && a != e.loc && |s.hist[a]| <= LENGTH
    ensures LegalRun(c, s, ListSteps(|c.sel|) + [Begin(e)])
    ensures var t := After(c, s, ListSteps(|c.sel|) + [Begin(e)]);
            && HasListed(c, t, s.latest, rvs) && Answers(t.hist, rvs, Nothing)
            && UpsertAll(s.latest, Updates(Received(Nothing))) != t.latest
  {
    hide Inv, Quiet, HasListed, Missed, IsListedRvs, LegalRun, After, Answers, UpsertAll, Taken;
    RegisteredListIsComplete(c, s, rvs);
    OneMoreStep(c, s, ListSteps(|c.sel|), Begin(e));
    EndOfOneLocationHidesAnother(c, After(c, s, ListSteps(|c.sel|)), s.latest, rvs, e, a);
  }
}
