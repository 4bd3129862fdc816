/**
 * How long a list can be watched from: when a list ends, all but the last two events of every queue
 * are no newer than the version it returns, so the watch is served while fewer than the capacity of
 * the queue less two were told since, whatever was evicted before.
 */
module ListWatchCoverage {
  import opened Types
  import opened EventLog
  import opened EventQueue
  import opened NewestWins
  import opened World
  import opened ListWatch
  import opened ListWatchTheorems
  import opened WatchSession

  // ---------------------------------------------------------------- attempts

  /** An event that was enqueued a second time, because the first operation found the other was due. */
  predicate SecondTry(p: Producer) {
    (p.Adding? && p.e.kind.Modified?) || (p.Updating? && p.e.kind.Added?)
  }

  /** How many copies of the event under way are at the end of the client's queue. */
  function Copied(c: Setting, s: Sys, loc: Location): nat {
    if !Pending(c, s, loc) then 0 else if SecondTry(s.producers[loc]) then 2 else 1
  }

  predicate Occupied(c: Setting, s: Sys, e: Event) {
    0 <= Index(c.r, e) < |s.stores| && Hash(c.r, e) in s.stores[Index(c.r, e)]
  }

  /** What the first try found is still so: the second cannot fail. */
  predicate AttemptOk(c: Setting, s: Sys, p: Producer) {
    match p
    case Idle => true
    case Adding(e) => e.kind.Modified? ==> !Occupied(c, s, e)
    case NeedsUpdate(e) => e.kind.Added? && Occupied(c, s, e)
    case Updating(e) => e.kind.Added? ==> Occupied(c, s, e)
    case NeedsAdd(e) => e.kind.Modified? && !Occupied(c, s, e)
  }

  ghost predicate AttemptInv(c: Setting, s: Sys) {
    forall loc :: Pending(c, s, loc) ==> AttemptOk(c, s, s.producers[loc])
  }

  /** Somebody else's write leaves the place of an event under way as it was. */
  lemma OthersKeepPlace(c: Setting, s: Sys, s': Sys, e: Event, o: Event)
    requires Sound(c) && KeyOf(e) in c.keys && KeyOf(o) in c.keys && KeyOf(e) != KeyOf(o)
    requires |s'.stores| == |s.stores|
    requires s'.stores == s.stores
             || (0 <= Index(c.r, o) < |s.stores|
                 && s'.stores == s.stores[Index(c.r, o) := s.stores[Index(c.r, o)][Hash(c.r, o) := o]])
    ensures Occupied(c, s', e) <==> Occupied(c, s, e)
  {
    assert Hash(c.r, e) != Hash(c.r, o);
  }

  /** The stores after an apply step: unchanged, or with the event at its place. */
  lemma ApplyStores(c: Setting, s: Sys, loc: Location)
    requires CanStep(c, s, Apply(loc))
    ensures var s', o := Next(c, s, Apply(loc)), s.producers[loc].e;
            && s'.producers.Keys == s.producers.Keys
               && (forall l :: l in s.producers && l != loc ==> s'.producers[l] == s.producers[l])
            && (s'.stores == s.stores
                   || s'.stores == s.stores[Index(c.r, o) := s.stores[Index(c.r, o)][Hash(c.r, o) := o]])
  {
  }

  lemma InUse(c: Setting, s: Sys, loc: Location)
    requires PendingInv(c, s) && loc in s.producers && s.producers[loc] != Idle
    ensures KeyOf(s.producers[loc].e) in c.keys && s.producers[loc].e.loc == loc && IsUpdate(s.producers[loc].e)
  {
  }

  /** The producer's own step. */
  lemma OwnAttempt(c: Setting, s: Sys, loc: Location)
    requires CanStep(c, s, Apply(loc)) && IsUpdate(s.producers[loc].e) && AttemptOk(c, s, s.producers[loc])
    requires UpdatesItself(c, s, s.producers[loc].e)
    ensures AttemptOk(c, Next(c, s, Apply(loc)), Next(c, s, Apply(loc)).producers[loc])
    ensures Next(c, s, Apply(loc)).producers[loc] != Idle ==>
              && Next(c, s, Apply(loc)).producers[loc].e == s.producers[loc].e
              && !SecondTry(s.producers[loc]) && !SecondTry(Next(c, s, Apply(loc)).producers[loc])
  {
  }

  /** What lies at the place of this event, if anything, is an older version of its node. */
  predicate UpdatesItself(c: Setting, s: Sys, e: Event) {
    Occupied(c, s, e) ==> s.stores[Index(c.r, e)][Hash(c.r, e)].node.id == e.node.id
                          && s.stores[Index(c.r, e)][Hash(c.r, e)].node.rv < e.node.rv
  }

  lemma ApplyKeepsAttempts(c: Setting, s: Sys, loc: Location)
    requires Inv(c, s) && AttemptInv(c, s) && CanStep(c, s, Apply(loc))
    ensures AttemptInv(c, Next(c, s, Apply(loc)))
  {
    var s' := Next(c, s, Apply(loc));
    hide StoresInv, HistInv, ListInv, MarkInv, LatestInv, PendingInv, Sound, CanStep, Next, AttemptOk, Occupied, Mine;
    InUse(c, s, loc);
    ApplyStores(c, s, loc);
    forall l | Pending(c, s', l)
      ensures AttemptOk(c, s', s'.producers[l])
    {
      if l == loc {
        OwnApply(c, s, loc);
      } else {
        InUse(c, s, l);
        OthersKeepPlace(c, s, s', s.producers[l].e, s.producers[loc].e);
        SamePlaceKeepsAttempt(c, s, s', s.producers[l]);
      }
    }
  }

  lemma SamePlaceKeepsAttempt(c: Setting, s: Sys, s': Sys, p: Producer)
    requires AttemptOk(c, s, p)
    requires p != Idle ==> (Occupied(c, s', p.e) <==> Occupied(c, s, p.e))
    ensures AttemptOk(c, s', p)
  {
  }

  lemma OwnApply(c: Setting, s: Sys, loc: Location)
    requires Inv(c, s) && CanStep(c, s, Apply(loc)) && AttemptInv(c, s)
    requires Pending(c, Next(c, s, Apply(loc)), loc)
    ensures AttemptOk(c, Next(c, s, Apply(loc)), Next(c, s, Apply(loc)).producers[loc])
    ensures Pending(c, s, loc) && Next(c, s, Apply(loc)).producers[loc].e == s.producers[loc].e
    ensures !SecondTry(s.producers[loc]) && !SecondTry(Next(c, s, Apply(loc)).producers[loc])
  {
    hide HistInv, ListInv, MarkInv, LatestInv, AttemptOk;
    InUse(c, s, loc);
    assert Pending(c, s, loc);
    PendingIsNewer(c, s, loc);
    hide StoresInv, PendingInv, Sound;
    assert UpdatesItself(c, s, s.producers[loc].e);
    OwnAttempt(c, s, loc);
  }

  lemma StepKeepsAttempts(c: Setting, s: Sys, step: SysStep)
    requires Inv(c, s) && AttemptInv(c, s) && CanStep(c, s, step)
    ensures AttemptInv(c, Next(c, s, step))
  {
    hide *;
    if step.Apply? {
      ApplyKeepsAttempts(c, s, step.loc);
    } else {
      OthersKeepAttempts(c, s, step);
    }
  }

  lemma OthersKeepAttempts(c: Setting, s: Sys, step: SysStep)
    requires AttemptInv(c, s) && CanStep(c, s, step) && !step.Apply?
    ensures AttemptInv(c, Next(c, s, step))
  {
    hide CanStep, Next, AttemptOk;
    forall l | Pending(c, Next(c, s, step), l)
      ensures AttemptOk(c, Next(c, s, step), Next(c, s, step).producers[l])
    {
      OtherStepsAttempt(c, s, step, l);
    }
  }

  lemma OtherStepsAttempt(c: Setting, s: Sys, step: SysStep, l: Location)
    requires AttemptInv(c, s) && CanStep(c, s, step) && !step.Apply? && Pending(c, Next(c, s, step), l)
    ensures l in Next(c, s, step).producers && AttemptOk(c, Next(c, s, step), Next(c, s, step).producers[l])
  {
    assert !(step.Begin? && l == step.e.loc) ==> Pending(c, s, l);
  }

  // ---------------------------------------------------------------- coverage of whole queues

  /** The first `n` events are covered. */
  ghost predicate CoversFirst(c: Setting, stores: seq<map<real, Event>>, snaps: seq<map<real, Event>>,
                              loc: Location, h: seq<Event>, n: int) {
    forall i :: 0 <= i < n && i < |h| ==> ViewCovers(c, stores, snaps, loc, h[i].node.rv)
  }

  /**
   * The stores cover what is queued, except for the event under way; so does a list that is being
   * taken, except for the last two.
   */
  ghost predicate QueueCovered(c: Setting, s: Sys, loc: Location)
    requires loc in s.hist
  {
    && CoversFirst(c, s.stores, [], loc, s.hist[loc], |s.hist[loc]| - Copied(c, s, loc))
    && (s.lister.Snapping? ==> CoversFirst(c, s.stores, s.lister.snaps, loc, s.hist[loc], |s.hist[loc]| - 2))
  }

  ghost predicate TailInv(c: Setting, s: Sys) {
    AttemptInv(c, s) && forall loc :: loc in s.hist ==> QueueCovered(c, s, loc)
  }

  lemma CoversGrow(c: Setting, stores: seq<map<real, Event>>, snaps: seq<map<real, Event>>,
                   stores': seq<map<real, Event>>,
                   snaps': seq<map<real, Event>>, loc: Location, h: seq<Event>, n: int)
    requires CoversFirst(c, stores, snaps, loc, h, n) && ViewsGrow(c, stores, snaps, stores', snaps')
    ensures CoversFirst(c, stores', snaps', loc, h, n)
  {
    hide ViewCovers, ViewsGrow;
    forall i | 0 <= i < n && i < |h|
      ensures ViewCovers(c, stores', snaps', loc, h[i].node.rv)
    {
      CoverGrows(c, stores, snaps, stores', snaps', loc, h[i].node.rv);
    }
  }

  /** The queue of this location as it was, and no fewer copies under way. */
  lemma SameQueueCovered(c: Setting, s: Sys, s': Sys, loc: Location)
    requires loc in s.hist && QueueCovered(c, s, loc) && loc in s'.hist && s'.hist[loc] == s.hist[loc]
    requires Copied(c, s', loc) >= Copied(c, s, loc)
    requires ViewsGrow(c, s.stores, [], s'.stores, [])
    requires s'.lister.Snapping? ==>
               s.lister.Snapping? && ViewsGrow(c, s.stores, s.lister.snaps, s'.stores, s'.lister.snaps)
    ensures QueueCovered(c, s', loc)
  {
    hide CoversFirst, ViewsGrow;
    CoversGrow(c, s.stores, [], s'.stores, [], loc, s.hist[loc], |s.hist[loc]| - Copied(c, s, loc));
    FewerCovered(c, s'.stores, [], loc, s.hist[loc], |s.hist[loc]| - Copied(c, s, loc),
        |s.hist[loc]| - Copied(c, s', loc));
    if s'.lister.Snapping? {
      CoversGrow(c, s.stores, s.lister.snaps, s'.stores, s'.lister.snaps, loc, s.hist[loc], |s.hist[loc]| - 2);
    }
  }

  lemma FewerCovered(c: Setting, stores: seq<map<real, Event>>, snaps: seq<map<real, Event>>, loc: Location,
                     h: seq<Event>, n: int, n': int)
    requires CoversFirst(c, stores, snaps, loc, h, n) && n' <= n
    ensures CoversFirst(c, stores, snaps, loc, h, n')
  {
  }

  /** One more event at the end, which is under way. */
  lemma ToldQueueCovered(c: Setting, s: Sys, s': Sys, loc: Location, e: Event)
    requires loc in s.hist && QueueCovered(c, s, loc) && loc in s'.hist && s'.hist[loc] == s.hist[loc] + [e]
    requires Copied(c, s', loc) == Copied(c, s, loc) + 1 && s'.stores == s.stores && !s'.lister.Snapping?
    ensures QueueCovered(c, s', loc)
  {
    hide ViewCovers;
  }

  // ---------------------------------------------------------------- steps

  /** The step tells the client's queue an event: the first time, or again. */
  ghost predicate Tells(s: Sys, step: SysStep, e: Event) {
    || step == Begin(e)
    || (step == EnqueueAgain(e.loc) && e.loc in s.producers && s.producers[e.loc] != Idle && s.producers[e.loc].e == e)
  }

  lemma TellKeepsTail(c: Setting, s: Sys, step: SysStep, e: Event)
    requires Inv(c, s) && TailInv(c, s) && CanStep(c, s, step) && Tells(s, step, e)
    ensures TailInv(c, Next(c, s, step))
  {
    hide Inv, AttemptInv, QueueCovered, CanStep, Next, Copied, Mine, Tells, Enqueued;
    StepKeepsAttempts(c, s, step);
    if Mine(c, e) {
      TellsMine(c, s, step, e);
      MineCovered(c, s, Next(c, s, step), e);
    } else {
      TellsOther(c, s, step, e);
      OtherCovered(c, s, Next(c, s, step));
    }
  }

  /** The client's queue got one more event, which is under way. */
  lemma MineCovered(c: Setting, s: Sys, s': Sys, e: Event)
    requires forall loc :: loc in s.hist ==> QueueCovered(c, s, loc)
    requires e.loc in s.hist && s'.hist == Enqueued(s.hist, e) && s'.stores == s.stores
    requires s'.lister == s.lister && !s.lister.Snapping?
    requires Copied(c, s', e.loc) == Copied(c, s, e.loc) + 1
    requires forall loc :: loc != e.loc ==> Copied(c, s', loc) == Copied(c, s, loc)
    ensures forall loc :: loc in s'.hist ==> QueueCovered(c, s', loc)
  {
    hide QueueCovered, Copied, ViewsGrow;
    SameViews(c, s.stores, []);
    forall loc | loc in s'.hist
      ensures QueueCovered(c, s', loc)
    {
      if loc == e.loc {
        ToldQueueCovered(c, s, s', loc, e);
      } else {
        SameQueueCovered(c, s, s', loc);
      }
    }
  }

  lemma OtherCovered(c: Setting, s: Sys, s': Sys)
    requires forall loc :: loc in s.hist ==> QueueCovered(c, s, loc)
    requires s'.hist == s.hist && s'.stores == s.stores && s'.lister == s.lister
    requires forall loc :: Copied(c, s', loc) == Copied(c, s, loc)
    ensures forall loc :: loc in s'.hist ==> QueueCovered(c, s', loc)
  {
    hide QueueCovered, Copied, ViewsGrow;
    SameViews(c, s.stores, []);
    SameViews(c, s.stores, SnapsOf(s.lister));
    forall loc | loc in s'.hist
      ensures QueueCovered(c, s', loc)
    {
      SameQueueCovered(c, s, s', loc);
    }
  }

  lemma TellsMine(c: Setting, s: Sys, step: SysStep, e: Event)
    requires Inv(c, s) && AttemptInv(c, s) && CanStep(c, s, step) && Mine(c, e) && Tells(s, step, e)
    ensures var s' := Next(c, s, step);
            && e.loc in s.hist && s'.hist == Enqueued(s.hist, e) && s'.stores == s.stores
            && s'.lister == s.lister && !s.lister.Snapping?
            && Copied(c, s', e.loc) == Copied(c, s, e.loc) + 1
            && forall loc :: loc != e.loc ==> Copied(c, s', loc) == Copied(c, s, loc)
  {
    hide StoresInv, HistInv, ListInv, LatestInv, MarkInv, PendingInv, Sound, Occupied, Enqueued, Mine;
    TellsInUse(c, s, step, e);
    MineHasQueue(c, s, e);
    if step.EnqueueAgain? {
      assert Pending(c, s, e.loc);
      assert AttemptOk(c, s, s.producers[e.loc]);
    }
  }

  lemma TellsInUse(c: Setting, s: Sys, step: SysStep, e: Event)
    requires PendingInv(c, s) && CanStep(c, s, step) && Tells(s, step, e)
    ensures KeyOf(e) in c.keys && IsUpdate(e)
  {
    hide Mine;
    if step.EnqueueAgain? {
      InUse(c, s, e.loc);
    }
  }

  lemma TellsOther(c: Setting, s: Sys, step: SysStep, e: Event)
    requires CanStep(c, s, step) && !Mine(c, e) && Tells(s, step, e)
    ensures var s' := Next(c, s, step);
            && s'.hist == s.hist && s'.stores == s.stores && s'.lister == s.lister
            && forall loc :: Copied(c, s', loc) == Copied(c, s, loc)
  {
    hide Inv;
  }

  /** The event under way is the newest of its queue. */
  lemma TailBelow(c: Setting, s: Sys, loc: Location, x: Event)
    requires Inv(c, s) && Pending(c, s, loc) && loc in s.hist && x in s.hist[loc]
    ensures x.node.rv <= s.producers[loc].e.node.rv
  {
    hide StoresInv, ListInv, MarkInv, LatestInv, HistHomes, HistDistinct, AllSorted, Sound;
    assert UnderWay(c, s, loc, s.producers[loc].e);
    QueuedBelow(s, loc, x, s.producers[loc].e);
  }

  /** Once the event is written, the stores cover all of its queue. */
  lemma WrittenCoversAll(c: Setting, s: Sys, s': Sys, loc: Location)
    requires Inv(c, s) && Pending(c, s, loc) && loc in s.hist
    requires Occupied(c, s', s.producers[loc].e)
    requires s'.stores[Index(c.r, s.producers[loc].e)][Hash(c.r, s.producers[loc].e)] == s.producers[loc].e
    ensures CoversFirst(c, s'.stores, [], loc, s.hist[loc], |s.hist[loc]|)
  {
    var e := s.producers[loc].e;
    forall i | 0 <= i < |s.hist[loc]|
      ensures s.hist[loc][i].node.rv <= e.node.rv
    {
      TailBelow(c, s, loc, s.hist[loc][i]);
    }
    hide StoresInv, HistInv, ListInv, MarkInv, LatestInv, PendingInv, Sound, Occupied, ViewCovers;
    InUse(c, s, loc);
    forall i | 0 <= i < |s.hist[loc]|
      ensures ViewCovers(c, s'.stores, [], loc, s.hist[loc][i].node.rv)
    {
      StoredCovers(c, s', e, s.hist[loc][i].node.rv);
    }
  }

  /** An event in a store of the client covers what is no newer. */
  lemma StoredCovers(c: Setting, s: Sys, e: Event, rv: nat)
    requires Mine(c, e) && Occupied(c, s, e) && s.stores[Index(c.r, e)][Hash(c.r, e)] == e && rv <= e.node.rv
    ensures ViewCovers(c, s.stores, [], e.loc, rv)
  {
    var p :| 0 <= p < |c.sel| && c.sel[p] == Index(c.r, e);
    assert Hash(c.r, e) in View(c, s.stores, [], p) && View(c, s.stores, [], p)[Hash(c.r, e)] == e;
  }

  lemma ApplyKeepsTail(c: Setting, s: Sys, loc: Location)
    requires Inv(c, s) && TailInv(c, s) && CanStep(c, s, Apply(loc))
    ensures TailInv(c, Next(c, s, Apply(loc)))
  {
    StepKeepsAttempts(c, s, Apply(loc));
    hide AttemptInv, QueueCovered, Copied, Inv;
    var s' := Next(c, s, Apply(loc));
    ApplyGrows(c, s, loc);
    forall l | l in s'.hist
      ensures QueueCovered(c, s', l)
    {
      if l == loc && Pending(c, s, loc) {
        OwnQueueCovered(c, s, loc);
      } else {
        ApplyCopies(c, s, loc, l);
        hide CanStep, Next;
        SameQueueCovered(c, s, s', l);
      }
    }
  }

  /** Applying an event makes the stores, and a list under way, show no older versions. */
  lemma ApplyGrows(c: Setting, s: Sys, loc: Location)
    requires Inv(c, s) && CanStep(c, s, Apply(loc))
    ensures var s' := Next(c, s, Apply(loc));
            && s'.hist == s.hist && s'.lister == s.lister
            && ViewsGrow(c, s.stores, [], s'.stores, [])
            && (s.lister.Snapping? ==> ViewsGrow(c, s.stores, s.lister.snaps, s'.stores, s.lister.snaps))
  {
    hide StoresInv, HistInv, ListInv, MarkInv, LatestInv, PendingInv, Sound, ViewsGrow;
    var s', e := Next(c, s, Apply(loc)), s.producers[loc].e;
    SameViews(c, s.stores, []);
    SameViews(c, s.stores, SnapsOf(s.lister));
    if Mine(c, e) {
      ApplyWrites(c, s, loc);
      if s'.producers[loc] == Idle {
        OverwriteGrows(c, s.stores, [], Index(c.r, e), Hash(c.r, e), e);
        OverwriteGrows(c, s.stores, SnapsOf(s.lister), Index(c.r, e), Hash(c.r, e), e);
      }
    } else {
      ForeignGrows(c, s.stores, [], s'.stores);
      ForeignGrows(c, s.stores, SnapsOf(s.lister), s'.stores);
    }
  }

  lemma ForeignGrows(c: Setting, stores: seq<map<real, Event>>, snaps: seq<map<real, Event>>,
                     stores': seq<map<real, Event>>)
    requires |stores'| == |stores| && forall i :: 0 <= i < |stores| && i in c.sel ==> stores'[i] == stores[i]
    ensures ViewsGrow(c, stores, snaps, stores', snaps)
  {
    assert forall p :: 0 <= p < |c.sel| ==> View(c, stores', snaps, p) == View(c, stores, snaps, p);
  }

  lemma ApplyCopies(c: Setting, s: Sys, loc: Location, l: Location)
    requires CanStep(c, s, Apply(loc)) && (l != loc || !Pending(c, s, loc))
    ensures Copied(c, Next(c, s, Apply(loc)), l) == Copied(c, s, l)
  {
  }

  lemma OwnQueueCovered(c: Setting, s: Sys, loc: Location)
    requires Inv(c, s) && TailInv(c, s) && CanStep(c, s, Apply(loc)) && Pending(c, s, loc) && loc in s.hist
    ensures loc in Next(c, s, Apply(loc)).hist && QueueCovered(c, Next(c, s, Apply(loc)), loc)
  {
    hide Inv, QueueCovered, CoversFirst, AttemptInv, ViewsGrow, Mine;
    var s', e := Next(c, s, Apply(loc)), s.producers[loc].e;
    ApplyGrows(c, s, loc);
    if s'.producers[loc] == Idle {
      InvParts(c, s);
      OwnWritten(c, s, loc);
      WrittenCoversAll(c, s, s', loc);
      WrittenQueueCovered(c, s, s', loc);
    } else {
      OwnApply(c, s, loc);
      SameQueueCovered(c, s, s', loc);
    }
  }

  lemma InvParts(c: Setting, s: Sys)
    requires Inv(c, s)
    ensures Sound(c) && PendingInv(c, s) && StoresInv(c, s)
  {
  }

  lemma OwnWritten(c: Setting, s: Sys, loc: Location)
    requires CanStep(c, s, Apply(loc)) && Next(c, s, Apply(loc)).producers[loc] == Idle
    requires Pending(c, s, loc) && Sound(c) && PendingInv(c, s) && StoresInv(c, s)
    ensures WrittenAt(c, Next(c, s, Apply(loc)), s.producers[loc].e)
  {
    hide StoresInv, PendingInv, Sound;
    ApplyWrites(c, s, loc);
  }

  predicate WrittenAt(c: Setting, s: Sys, e: Event) {
    Occupied(c, s, e) && s.stores[Index(c.r, e)][Hash(c.r, e)] == e
  }

  lemma WrittenQueueCovered(c: Setting, s: Sys, s': Sys, loc: Location)
    requires loc in s.hist && QueueCovered(c, s, loc) && s'.hist == s.hist && s'.lister == s.lister
    requires CoversFirst(c, s'.stores, [], loc, s.hist[loc], |s.hist[loc]|)
    requires s.lister.Snapping? ==> ViewsGrow(c, s.stores, s.lister.snaps, s'.stores, s.lister.snaps)
    requires !Pending(c, s', loc)
    ensures QueueCovered(c, s', loc)
  {
    hide CoversFirst, ViewsGrow;
    if s.lister.Snapping? {
      CoversGrow(c, s.stores, s.lister.snaps, s'.stores, s.lister.snaps, loc, s.hist[loc], |s.hist[loc]| - 2);
    }
  }

  /** A list starts from the stores, which cover all but the event under way, at most two copies of it. */
  lemma StartListKeepsTail(c: Setting, s: Sys)
    requires Inv(c, s) && TailInv(c, s) && CanStep(c, s, StartList)
    ensures TailInv(c, Next(c, s, StartList))
  {
    hide Inv, AttemptInv, CoversFirst;
    StepKeepsAttempts(c, s, StartList);
    var s' := Next(c, s, StartList);
    forall loc | loc in s'.hist
      ensures QueueCovered(c, s', loc)
    {
      StartCovered(c, s, s', loc);
    }
  }

  lemma StartCovered(c: Setting, s: Sys, s': Sys, loc: Location)
    requires loc in s.hist && QueueCovered(c, s, loc) && s' == s.(lister := Snapping([]))
    ensures QueueCovered(c, s', loc)
  {
    hide CoversFirst;
    assert Copied(c, s', loc) == Copied(c, s, loc) <= 2;
    FewerCovered(c, s.stores, [], loc, s.hist[loc], |s.hist[loc]| - Copied(c, s, loc), |s.hist[loc]| - 2);
  }

  lemma SnapNextKeepsTail(c: Setting, s: Sys)
    requires Inv(c, s) && TailInv(c, s) && CanStep(c, s, SnapNext)
    ensures TailInv(c, Next(c, s, SnapNext))
  {
    hide Inv, AttemptInv, QueueCovered, Copied, ViewsGrow;
    StepKeepsAttempts(c, s, SnapNext);
    var s' := Next(c, s, SnapNext);
    SnapShowsSame(c, s);
    forall loc | loc in s'.hist
      ensures QueueCovered(c, s', loc)
    {
      SnapCovered(c, s, s', loc);
    }
  }

  lemma SnapCovered(c: Setting, s: Sys, s': Sys, loc: Location)
    requires loc in s.hist && QueueCovered(c, s, loc) && s' == s.(lister := s'.lister)
    requires s.lister.Snapping? && !s'.lister.NoList?
    requires ViewsGrow(c, s.stores, s.lister.snaps, s.stores, s'.lister.snaps)
    ensures QueueCovered(c, s', loc)
  {
    hide QueueCovered, ViewsGrow;
    SameViews(c, s.stores, []);
    assert Copied(c, s', loc) == Copied(c, s, loc);
    SameQueueCovered(c, s, s', loc);
  }

  lemma SnapShowsSame(c: Setting, s: Sys)
    requires CanStep(c, s, SnapNext)
    ensures ViewsGrow(c, s.stores, s.lister.snaps, s.stores, Next(c, s, SnapNext).lister.snaps)
  {
    var snaps := Next(c, s, SnapNext).lister.snaps;
    assert forall p :: 0 <= p < |c.sel| ==> View(c, s.stores, snaps, p) == View(c, s.stores, s.lister.snaps, p);
  }

  lemma StepKeepsTail(c: Setting, s: Sys, step: SysStep)
    requires Inv(c, s) && TailInv(c, s) && CanStep(c, s, step)
    ensures TailInv(c, Next(c, s, step))
  {
    match step
    case Begin(e) =>
      hide *;
      TellKeepsTail(c, s, step, e);
    case Apply(loc) =>
      hide *;
      ApplyKeepsTail(c, s, loc);
    case EnqueueAgain(loc) =>
      UnderWayAt(c, s, loc);
      TellKeepsTail(c, s, step, s.producers[loc].e);
    case StartList => StartListKeepsTail(c, s);
    case SnapNext => SnapNextKeepsTail(c, s);
  }

  lemma UnderWayAt(c: Setting, s: Sys, loc: Location)
    requires Inv(c, s) && CanStep(c, s, EnqueueAgain(loc))
    ensures s.producers[loc].e.loc == loc
  {
    InUse(c, s, loc);
  }

  /** Over every interleaving: whole queues are covered, up to the event under way. */
  lemma {:induction false} RunKeepsTail(c: Setting, s: Sys, steps: seq<SysStep>)
    requires Inv(c, s) && TailInv(c, s) && LegalRun(c, s, steps)
    ensures Inv(c, After(c, s, steps)) && TailInv(c, After(c, s, steps))
  {
    if steps != [] {
      RunKeepsTail(c, s, steps[..|steps| - 1]);
      hide Inv, TailInv;
      StepKeepsInv(c, After(c, s, steps[..|steps| - 1]), steps[|steps| - 1]);
      StepKeepsTail(c, After(c, s, steps[..|steps| - 1]), steps[|steps| - 1]);
    }
  }

  // ---------------------------------------------------------------- how long a list is served

  /** All but the last two events at this location are no newer than the version listed, and so is the first. */
  ghost predicate ListedUpTo(h: seq<Event>, rv: nat) {
    h != [] && h[0].node.rv <= rv && forall i :: 0 <= i < |h| - 2 ==> h[i].node.rv <= rv
  }

  /** The step that ends a list leaves all but the last two events of every queue listed. */
  lemma {:induction false} ListEndsCovered(c: Setting, s: Sys, rvs: map<Location, nat>, loc: Location)
    requires Inv(c, s) && TailInv(c, s) && CanStep(c, s, SnapNext) && Next(c, s, SnapNext).lister.Listed?
    requires IsListedRvs(Next(c, s, SnapNext).lister.snaps, rvs) && loc in s.hist
    ensures loc in rvs && ListedUpTo(s.hist[loc], rvs[loc])
  {
    hide Inv, ViewCovers, ViewsGrow, IsListedRvs, AttemptInv;
    var s' := Next(c, s, SnapNext);
    SnapNextKeepsInv(c, s);
    FirstIsShown(c, s', loc);
    FirstIsListed(c, s.stores, s'.lister.snaps, rvs, loc, s.hist[loc][0].node.rv);
    SnapShowsSame(c, s);
    assert QueueCovered(c, s, loc);
    CoversGrow(c, s.stores, s.lister.snaps, s.stores, s'.lister.snaps, loc, s.hist[loc], |s.hist[loc]| - 2);
    hide QueueCovered, TailInv, CanStep;
    forall i | 0 <= i < |s.hist[loc]| - 2
      ensures s.hist[loc][i].node.rv <= rvs[loc]
    {
      FirstIsListed(c, s.stores, s'.lister.snaps, rvs, loc, s.hist[loc][i].node.rv);
    }
  }

  lemma {:induction false} ToldAt(h: History, told: seq<Event>, loc: Location)
    ensures At(EnqueueAll(h, told), loc) == At(h, loc) + Proj(told, loc)
    ensures loc in h ==> loc in EnqueueAll(h, told)
  {
    if told != [] {
      var init, last := told[..|told| - 1], told[|told| - 1];
      ToldAt(h, init, loc);
      ProjAppend(init, [last], loc);
      assert told == init + [last];
      assert Proj([last], loc) == if last.loc == loc then [last] else [];
    }
  }

  /** The oldest event held was listed while fewer than the capacity less two were told since. */
  lemma OldestIsListed(h: seq<Event>, told: seq<Event>, rv: nat)
    requires ListedUpTo(h, rv) && |told| < LENGTH - 2
    ensures Window(h + told)[0].node.rv <= rv
  {
    var all := h + told;
    var start := WindowStart(|all|);
    assert Window(all)[0] == all[start] == h[start];
  }

  /**
   * A list is served however old the queue is: from the end of any list on, a watch from the
   * versions it returned is not too old at a location while fewer than the capacity less two events
   * were told there.
   */
  lemma {:induction false} RecentListIsServed(c: Setting, s: Sys, rvs: map<Location, nat>, steps: seq<SysStep>,
                                              loc: Location)
    requires Inv(c, s) && TailInv(c, s) && CanStep(c, s, SnapNext) && Next(c, s, SnapNext).lister.Listed?
    requires IsListedRvs(Next(c, s, SnapNext).lister.snaps, rvs) && loc in s.hist
    requires LegalRun(c, Next(c, s, SnapNext), steps) && NoNewList(steps)
    requires |Proj(ToldIn(c, Next(c, s, SnapNext), steps), loc)| < LENGTH - 2
    ensures !TooOldAt(After(c, Next(c, s, SnapNext), steps).hist, rvs, loc)
  {
    hide Inv, TailInv, IsListedRvs, CanStep, Next, LegalRun, ToldIn, Proj, ListedUpTo, Window;
    ListEndsCovered(c, s, rvs, loc);
    SnapTellsNothing(c, s);
    var s1 := Next(c, s, SnapNext);
    RunTells(c, s1, steps);
    ToldAt(s1.hist, ToldIn(c, s1, steps), loc);
    OldestIsListed(s1.hist[loc], Proj(ToldIn(c, s1, steps), loc), rvs[loc]);
  }

  lemma SnapTellsNothing(c: Setting, s: Sys)
    requires CanStep(c, s, SnapNext)
    ensures Next(c, s, SnapNext).hist == s.hist
  {
  }

  /** So the watch is answered without error while that holds at every location. */
  lemma {:induction false} RecentListIsNotRefused(c: Setting, s: Sys, rvs: map<Location, nat>, steps: seq<SysStep>,
                                                  r: Backlog)
    requires Inv(c, s) && TailInv(c, s) && CanStep(c, s, SnapNext) && Next(c, s, SnapNext).lister.Listed?
    requires IsListedRvs(Next(c, s, SnapNext).lister.snaps, rvs)
    requires LegalRun(c, Next(c, s, SnapNext), steps) && NoNewList(steps)
    requires forall loc :: |Proj(ToldIn(c, Next(c, s, SnapNext), steps), loc)| < LENGTH - 2
    requires Answers(After(c, Next(c, s, SnapNext), steps).hist, rvs, r)
    ensures !r.Failed?
  {
    if r.Failed? {
      QueuesStay(c, s, steps, r.loc);
      hide Inv, TailInv, IsListedRvs, CanStep, Next, LegalRun;
      RecentListIsServed(c, s, rvs, steps, r.loc);
    }
  }

  /** No queue appears after registration. */
  lemma QueuesStay(c: Setting, s: Sys, steps: seq<SysStep>, loc: Location)
    requires Inv(c, s) && CanStep(c, s, SnapNext)
    requires LegalRun(c, Next(c, s, SnapNext), steps)
    ensures loc in After(c, Next(c, s, SnapNext), steps).hist ==> loc in s.hist
  {
    SnapNextKeepsInv(c, s);
    var s1 := Next(c, s, SnapNext);
    RunKeepsInv(c, s1, steps);
    hide StoresInv, ListInv, LatestInv, PendingInv, FirstCovered;
    var s2 := After(c, s1, steps);
    if loc in s2.hist {
      assert HistHomes(c, s2.hist);
    }
  }
}
