/**
 * A watch session: the backlog is sent first, then live events that senders hand over one by one
 * and in any order. Nothing is lost or duplicated until the session stops.
 */
module WatchSession {
  import opened Types
  import opened EventQueue
  import opened NewestWins
  import opened World
  import opened StoreTheorems
  import Isolation
  import opened ListWatch
  import opened ListWatchTheorems

  /**
   * `pending` are the senders that wait at the watch channel, `hand` is the event the forwarder
   * took and has not sent yet, `out` is what the client was sent, in order.
   */
  datatype Session = Session(backlog: seq<Event>, pending: multiset<Event>, hand: Option<Event>, out: seq<Event>,
                             stopped: bool)

  datatype SessionStep = SendInit | Enqueue(e: Event) | Take(e: Event) | Forward | Stop

  function Start(backlog: seq<Event>): Session {
    Session(backlog, multiset{}, None, [], false)
  }

  predicate CanDo(s: Session, step: SessionStep) {
    match step
    case SendInit => s.backlog != []
    case Enqueue(_) => true
    case Take(e) => s.backlog == [] && s.hand.None? && !s.stopped && e in s.pending
    case Forward => s.hand.Some?
    // the stop signal is only looked at between two live events
    case Stop => s.backlog == [] && s.hand.None? && !s.stopped
  }

  function Do(s: Session, step: SessionStep): Session
    requires CanDo(s, step)
  {
    match step
    case SendInit => s.(backlog := s.backlog[1..], out := s.out + [s.backlog[0]])
    // without a channel nothing is handed over
    case Enqueue(e) => if s.stopped then s else s.(pending := s.pending + multiset{e})
    case Take(e) => s.(pending := s.pending - multiset{e}, hand := Some(e))
    case Forward => s.(hand := None, out := s.out + [s.hand.value])
    case Stop => s.(stopped := true)
  }

  predicate CanRun(s: Session, steps: seq<SessionStep>)
    decreases |steps|, 0
  {
    steps == [] || (CanRun(s, steps[..|steps| - 1]) && CanDo(DoAll(s, steps[..|steps| - 1]), steps[|steps| - 1]))
  }

  function DoAll(s: Session, steps: seq<SessionStep>): Session
    requires CanRun(s, steps)
    decreases |steps|, 1
  {
    if steps == [] then s else Do(DoAll(s, steps[..|steps| - 1]), steps[|steps| - 1])
  }

  /** The events enqueued during a run, in order. */
  function EnqueuedIn(steps: seq<SessionStep>): seq<Event> {
    if steps == [] then []
    else EnqueuedIn(steps[..|steps| - 1]) + if steps[|steps| - 1].Enqueue? then [steps[|steps| - 1].e] else []
  }

  function Held(o: Option<Event>): multiset<Event> {
    if o.Some? then multiset{o.value} else multiset{}
  }

  /** Every event the session has, wherever it is. */
  function Everything(s: Session): multiset<Event> {
    multiset(s.backlog) + s.pending + Held(s.hand) + multiset(s.out)
  }

  // ---------------------------------------------------------------- conservation

  lemma SendInitConserves(s: Session)
    requires s.backlog != []
    ensures Everything(Do(s, SendInit)) == Everything(s)
  {
    var sent, rest := s.backlog[0], s.backlog[1..];
    assert s.backlog == [sent] + rest;
    assert multiset(s.backlog) == multiset{sent} + multiset(rest);
    assert multiset(s.out + [sent]) == multiset(s.out) + multiset{sent};
  }

  lemma TakeConserves(s: Session, e: Event)
    requires CanDo(s, Take(e))
    ensures Everything(Do(s, Take(e))) == Everything(s)
  {
  }

  lemma ForwardConserves(s: Session)
    requires s.hand.Some?
    ensures Everything(Do(s, Forward)) == Everything(s)
  {
  }

  lemma DoConserves(s: Session, step: SessionStep)
    requires CanDo(s, step)
    ensures Everything(Do(s, step))
         == Everything(s) + if step.Enqueue? && !s.stopped then multiset{step.e} else multiset{}
  {
    match step
    case SendInit => SendInitConserves(s);
    case Take(e) => TakeConserves(s, e);
    case Forward => ForwardConserves(s);
    case _ =>
  }

  /**
   * Until the session stops, every occurrence of an event in the backlog or enqueued since the
   * start is in exactly one place: still to be sent, with a sender, in hand, or delivered.
   */
  lemma {:induction false} SessionConserves(backlog: seq<Event>, steps: seq<SessionStep>)
    requires CanRun(Start(backlog), steps) && !DoAll(Start(backlog), steps).stopped
    ensures Everything(DoAll(Start(backlog), steps)) == multiset(backlog) + multiset(EnqueuedIn(steps))
  {
    if steps != [] {
      var init, last := steps[..|steps| - 1], steps[|steps| - 1];
      SessionConserves(backlog, init);
      DoConserves(DoAll(Start(backlog), init), last);
    }
  }

  /** While some backlog is left, only backlog was sent; after that all of it was, before anything else. */
  predicate BacklogFirst(backlog: seq<Event>, s: Session) {
    if s.backlog != [] then s.out + s.backlog == backlog && s.hand.None? && !s.stopped else backlog <= s.out
  }

  /** The whole backlog is delivered, in order, before any live event. */
  lemma {:induction false} BacklogComesFirst(backlog: seq<Event>, steps: seq<SessionStep>)
    requires CanRun(Start(backlog), steps)
    ensures BacklogFirst(backlog, DoAll(Start(backlog), steps))
  {
    if steps != [] {
      var init, last := steps[..|steps| - 1], steps[|steps| - 1];
      BacklogComesFirst(backlog, init);
      var s := DoAll(Start(backlog), init);
      if last.SendInit? {
        assert s.out + s.backlog == (s.out + [s.backlog[0]]) + s.backlog[1..];
      }
    }
  }

  /** Nothing is left to hand over. */
  predicate Drained(s: Session) {
    !s.stopped && s.backlog == [] && s.pending == multiset{} && s.hand.None?
  }

  lemma DrainedIsOut(s: Session)
    requires Drained(s)
    ensures s.backlog == [] && Everything(s) == multiset(s.out)
  {
  }

  /** A drained session delivered the backlog and then the live events, each exactly once. */
  lemma DrainedDeliversAll(backlog: seq<Event>, steps: seq<SessionStep>)
    requires CanRun(Start(backlog), steps) && Drained(DoAll(Start(backlog), steps))
    ensures var out := DoAll(Start(backlog), steps).out;
            backlog <= out && multiset(out[|backlog|..]) == multiset(EnqueuedIn(steps))
  {
    SessionConserves(backlog, steps);
    BacklogComesFirst(backlog, steps);
    DrainedIsOut(DoAll(Start(backlog), steps));
    hide CanRun, DoAll, EnqueuedIn, Drained, Everything;
    var out := DoAll(Start(backlog), steps).out;
    var live := out[|backlog|..];
    assert out == backlog + live;
    assert multiset(out) == multiset(backlog) + multiset(live);
    assert multiset(live) == multiset(out) - multiset(backlog);
  }

  /** As long as events are left and nobody stops it, the session can go on delivering. */
  lemma SessionMakesProgress(s: Session)
    requires !s.stopped && !Drained(s)
    ensures CanDo(s, SendInit) || CanDo(s, Forward) || exists e :: CanDo(s, Take(e))
  {
    if s.backlog == [] && s.hand.None? {
      var e :| e in s.pending;
      assert CanDo(s, Take(e));
    }
  }

  /** A session that stopped sends nothing more, whatever is enqueued, and keeps no event in hand. */
  lemma {:induction false} StoppedIsSilent(backlog: seq<Event>, steps: seq<SessionStep>, more: seq<SessionStep>)
    requires CanRun(Start(backlog), steps + more) && CanRun(Start(backlog), steps)
    requires DoAll(Start(backlog), steps).stopped
    ensures DoAll(Start(backlog), steps + more) == DoAll(Start(backlog), steps)
    ensures backlog <= DoAll(Start(backlog), steps).out && DoAll(Start(backlog), steps).hand == None
  {
    NoneInHand(backlog, steps);
    BacklogComesFirst(backlog, steps);
    if more == [] {
      assert steps + more == steps;
    } else {
      var all := steps + more;
      assert all[..|all| - 1] == steps + more[..|more| - 1];
      StoppedIsSilent(backlog, steps, more[..|more| - 1]);
    }
  }

  lemma {:induction false} NoneInHand(backlog: seq<Event>, steps: seq<SessionStep>)
    requires CanRun(Start(backlog), steps) && DoAll(Start(backlog), steps).stopped
    ensures DoAll(Start(backlog), steps).hand == None
  {
    if steps != [] && DoAll(Start(backlog), steps[..|steps| - 1]).stopped {
      NoneInHand(backlog, steps[..|steps| - 1]);
    }
  }

  // ---------------------------------------------------------------- list, then watch, then live

  /** The events that a run of producers told the client's queue, in order. */
  ghost function ToldIn(c: Setting, s: Sys, steps: seq<SysStep>): seq<Event>
    requires LegalRun(c, s, steps)
  {
    if steps == [] then []
    else
      var init, last := steps[..|steps| - 1], steps[|steps| - 1];
      ToldIn(c, s, init) + ToldBy(c, After(c, s, init), last)
  }

  ghost function ToldBy(c: Setting, s: Sys, step: SysStep): seq<Event>
    requires CanStep(c, s, step)
  {
    match step
    case Begin(e) => if Mine(c, e) then [e] else []
    case EnqueueAgain(loc) => if Mine(c, s.producers[loc].e) then [s.producers[loc].e] else []
    case _ => []
  }

  /** No list starts during the run. */
  predicate NoNewList(steps: seq<SysStep>) {
    StartList !in steps
  }

  lemma ToldByStep(c: Setting, s: Sys, step: SysStep)
    requires CanStep(c, s, step)
    ensures Next(c, s, step).hist == EnqueueAll(s.hist, ToldBy(c, s, step))
    ensures step != StartList && s.lister.Listed? ==> Next(c, s, step).lister == s.lister
  {
  }

  lemma {:induction false} EnqueueAllAppend(h: History, a: seq<Event>, b: seq<Event>)
    ensures EnqueueAll(h, a + b) == EnqueueAll(EnqueueAll(h, a), b)
  {
    if b == [] {
      assert a + b == a;
    } else {
      EnqueueAllAppend(h, a, b[..|b| - 1]);
      assert (a + b)[..|a + b| - 1] == a + b[..|b| - 1];
    }
  }

  lemma {:induction false} RunTells(c: Setting, s: Sys, steps: seq<SysStep>)
    requires LegalRun(c, s, steps) && s.lister.Listed? && NoNewList(steps)
    ensures After(c, s, steps).hist == EnqueueAll(s.hist, ToldIn(c, s, steps))
    ensures After(c, s, steps).lister == s.lister
  {
    if steps != [] {
      var init, last := steps[..|steps| - 1], steps[|steps| - 1];
      RunTells(c, s, init);
      ToldByStep(c, After(c, s, init), last);
      EnqueueAllAppend(s.hist, ToldIn(c, s, init), ToldBy(c, After(c, s, init), last));
    }
  }

  lemma {:induction false} EnqueueAllMembers(h: History, es: seq<Event>, loc: Location, e: Event)
    ensures e in At(EnqueueAll(h, es), loc) <==> e in At(h, loc) || (e in es && e.loc == loc)
  {
    if es != [] {
      EnqueueAllMembers(h, es[..|es| - 1], loc, e);
      AtEnqueued(EnqueueAll(h, es[..|es| - 1]), es[|es| - 1], loc, e);
      assert es == es[..|es| - 1] + [es[|es| - 1]];
    }
  }

  /** What the watch starts with was queued, and nothing newer is missing from a good start. */
  lemma {:induction false} StartIsQueued(c: Setting, s: Sys, m: Versions, rvs: map<Location, nat>, r: Backlog)
    requires HasListed(c, s, m, rvs) && Answers(s.hist, rvs, r) && !r.Failed?
    ensures forall e :: e in Received(r) ==> e in At(s.hist, e.loc)
    ensures (r.Nothing? ==> !Missed(s.hist, rvs)) ==> Suffices(s.hist, rvs, Received(r))
  {
    if r.Events? {
      ReadSuffices(c, s, m, rvs, r.events);
    }
  }

  lemma UnionMembers(a: seq<Event>, b: seq<Event>, all: seq<Event>)
    requires multiset(all) == multiset(a) + multiset(b)
    ensures forall e :: e in all <==> e in a || e in b
  {
    assert forall e :: e in all <==> e in multiset(all);
  }

  /** The newest version of a node after a run is the one before it, or was told during it. */
  lemma {:induction false} LatestIsOldOrTold(c: Setting, s: Sys, steps: seq<SysStep>, k: Key)
    requires LegalRun(c, s, steps)
    ensures k in s.latest ==> k in After(c, s, steps).latest
    ensures k in After(c, s, steps).latest ==>
              || (k in s.latest && After(c, s, steps).latest[k] == s.latest[k])
              || After(c, s, steps).latest[k] in ToldIn(c, s, steps)
  {
    if steps != [] {
      LatestIsOldOrTold(c, s, steps[..|steps| - 1], k);
      assert CanStep(c, After(c, s, steps[..|steps| - 1]), steps[|steps| - 1]);
    }
  }

  /** Some event of this node was told. */
  ghost predicate ToldOf(told: seq<Event>, k: Key) {
    exists e :: e in told && KeyOf(e) == k
  }

  /** If a node was told at all during a run, it was told its newest version. */
  lemma ToldOfNewest(c: Setting, s: Sys, steps: seq<SysStep>, k: Key)
    requires Inv(c, s) && s.lister.Listed? && LegalRun(c, s, steps) && NoNewList(steps)
    requires k in s.latest && ToldOf(ToldIn(c, s, steps), k)
    ensures k in After(c, s, steps).latest && After(c, s, steps).latest[k] in ToldIn(c, s, steps)
  {
    hide Inv, LegalRun, ToldIn, After;
    LatestIsOldOrTold(c, s, steps, k);
    var e :| e in ToldIn(c, s, steps) && KeyOf(e) == k;
    NewestIsKnown(c, s, k);
    ToldIsNewest(c, s, steps, s.latest[k], e);
    ToldAreKnown(c, s, steps, e, e);
  }

  lemma NewestIsKnown(c: Setting, s: Sys, k: Key)
    requires Inv(c, s) && k in s.latest
    ensures KeyOf(s.latest[k]) == k && Known(s, s.latest[k])
  {
  }

  /** What was told since the start was queued, and so was what the watch started with. */
  lemma SentIsQueued(h: History, backlog: seq<Event>, told: seq<Event>, out: seq<Event>)
    requires forall e :: e in backlog ==> e in At(h, e.loc)
    requires multiset(out) == multiset(backlog) + multiset(told)
    ensures forall e :: e in out ==> e in At(EnqueueAll(h, told), e.loc)
  {
    UnionMembers(backlog, told, out);
    forall e | e in out
      ensures e in At(EnqueueAll(h, told), e.loc)
    {
      EnqueueAllMembers(h, told, e.loc, e);
    }
  }

  /** The newest version of a node now is at hand exactly when that at the start was, or it was told since. */
  lemma {:induction false} HandNow(c: Setting, s: Sys, m: Versions, steps: seq<SysStep>, backlog: seq<Event>,
                                   out: seq<Event>)
    requires Inv(c, s) && s.lister.Listed? && LegalRun(c, s, steps) && NoNewList(steps)
    requires Inv(c, After(c, s, steps))
    requires forall e :: e in out <==> e in backlog || e in ToldIn(c, s, steps)
    ensures (forall k :: k in After(c, s, steps).latest ==> AtHand(m, out, After(c, s, steps).latest[k]))
       <==> forall k :: k in s.latest ==> AtHand(m, backlog, s.latest[k]) || ToldOf(ToldIn(c, s, steps), k)
  {
    var s', told := After(c, s, steps), ToldIn(c, s, steps);
    forall k
      ensures k in s.latest ==>
                && k in s'.latest
                && (AtHand(m, out, s'.latest[k]) <==> AtHand(m, backlog, s.latest[k]) || ToldOf(told, k))
      ensures k in s'.latest && k !in s.latest ==> AtHand(m, out, s'.latest[k])
    {
      LatestIsOldOrTold(c, s, steps, k);
      if k in s'.latest {
        NewestIsKnown(c, s', k);
      }
      if k in s.latest && ToldOf(told, k) {
        ToldOfNewest(c, s, steps, k);
      }
    }
    hide Inv, LegalRun, AtHand;
  }

  /**
   * End to end, exactly: a client lists, its watch starts from what the list returned, producers go
   * on in any interleaving, and the session hands events over in any order. When the session is
   * drained, the listed nodes merged with all that was sent are the newest version of every node, if
   * and only if every node whose newest version was missed at the start was told an event since.
   */
  lemma {:induction false} DrainedExactly(c: Setting, s: Sys, m: Versions, rvs: map<Location, nat>, r: Backlog,
                                          steps: seq<SysStep>, session: seq<SessionStep>)
    requires HasListed(c, s, m, rvs) && Answers(s.hist, rvs, r) && !r.Failed?
    requires LegalRun(c, s, steps) && NoNewList(steps)
    requires Delivers(Received(r), session, ToldIn(c, s, steps))
    ensures MergeAll(m, Updates(Outcome(Received(r), session))) == After(c, s, steps).latest
       <==> forall k :: k in s.latest ==> AtHand(m, Received(r), s.latest[k]) || ToldOf(ToldIn(c, s, steps), k)
  {
    hide Inv, Answers, AtHand, ToldOf, Missed, Suffices, LegalRun, IsMirror, IsListedRvs;
    var told, out := ToldIn(c, s, steps), Outcome(Received(r), session);
    RunTells(c, s, steps);
    RunKeepsInv(c, s, steps);
    StartIsQueued(c, s, m, rvs, r);
    SessionConserves(Received(r), session);
    DrainedIsOut(DoAll(Start(Received(r)), session));
    UnionMembers(Received(r), told, out);
    SentIsQueued(s.hist, Received(r), told, out);
    MirrorIsCurrentExactly(c, After(c, s, steps), m, rvs, out);
    HandNow(c, s, m, steps, Received(r), out);
  }

  /** From a good start a drained session leaves the client up to date. */
  lemma {:induction false} WatchKeepsMirrorCurrent(c: Setting, s: Sys, m: Versions, rvs: map<Location, nat>, r: Backlog,
                                                   steps: seq<SysStep>, session: seq<SessionStep>)
    requires HasListed(c, s, m, rvs) && GoodStart(s, m, rvs, r)
    requires LegalRun(c, s, steps) && NoNewList(steps)
    requires Delivers(Received(r), session, ToldIn(c, s, steps))
    ensures MergeAll(m, Updates(Outcome(Received(r), session))) == After(c, s, steps).latest
  {
    hide Inv, Answers, Delivers, LegalRun, IsMirror, IsListedRvs;
    StartIsQueued(c, s, m, rvs, r);
    forall k | k in s.latest
      ensures AtHand(m, Received(r), s.latest[k])
    {
      NewestIsAtHand(c, s, m, rvs, k);
    }
    hide Suffices, Missed, Unlisted, AtHand;
    DrainedExactly(c, s, m, rvs, r, steps, session);
  }

  /**
   * The same from the start of the protocol: what the client ends with is the newest-wins merge of
   * the versions at registration and of every event of its stores since then.
   */
  lemma {:induction false} ClientLearnsEverything(c: Setting, start: Sys, before: seq<SysStep>, m: Versions,
                                                  rvs: map<Location, nat>, r: Backlog,
                                                  steps: seq<SysStep>, session: seq<SessionStep>)
    requires Inv(c, start) && LegalRun(c, start, before) && After(c, start, before).lister.Listed?
    requires IsMirror(After(c, start, before).lister.snaps, m) && IsListedRvs(After(c, start, before).lister.snaps, rvs)
    requires GoodStart(After(c, start, before), m, rvs, r)
    requires LegalRun(c, After(c, start, before), steps) && NoNewList(steps)
    requires Delivers(Received(r), session, ToldIn(c, After(c, start, before), steps))
    ensures MergeAll(m, Updates(Outcome(Received(r), session)))
         == MergeAll(start.latest, BegunIn(c, before) + BegunIn(c, steps))
  {
    hide Inv, IsMirror, IsListedRvs, GoodStart, Drained, CanRun, DoAll;
    RunKeepsInv(c, start, before);
    WatchKeepsMirrorCurrent(c, After(c, start, before), m, rvs, r, steps, session);
    LatestIsNewest(c, start, before);
    LatestIsNewest(c, After(c, start, before), steps);
    MergeAllAppend(start.latest, BegunIn(c, before), BegunIn(c, steps));
  }

  /**
   * A client held in one location needs no assumption on what its watch was answered, errors apart,
   * where versions strictly increase.
   */
  lemma {:induction false} OneLocationLearnsEverything(c: Setting, s: Sys, m: Versions, rvs: map<Location, nat>,
                                                       r: Backlog, home: Location,
                                                       steps: seq<SysStep>, session: seq<SessionStep>)
    requires HasListed(c, s, m, rvs) && Answers(s.hist, rvs, r) && !r.Failed? && c.strict
    requires forall p :: 0 <= p < |c.sel| ==> c.locs[c.sel[p]] == home
    requires LegalRun(c, s, steps) && NoNewList(steps)
    requires Delivers(Received(r), session, ToldIn(c, s, steps))
    ensures MergeAll(m, Updates(Outcome(Received(r), session))) == After(c, s, steps).latest
  {
    OneLocationStartsGood(c, s, m, rvs, r, home);
    hide HasListed, GoodStart;
    WatchKeepsMirrorCurrent(c, s, m, rvs, r, steps, session);
  }

  // ---------------------------------------------------------------- a client that overwrites

  /** A session that was told these events and handed all of them over. */
  predicate Delivers(backlog: seq<Event>, session: seq<SessionStep>, told: seq<Event>) {
    CanRun(Start(backlog), session) && EnqueuedIn(session) == told && Drained(DoAll(Start(backlog), session))
  }

  /** What the client was sent. */
  function Outcome(backlog: seq<Event>, session: seq<SessionStep>): seq<Event>
    requires CanRun(Start(backlog), session)
  {
    DoAll(Start(backlog), session).out
  }

  lemma StepKeepsKnown(c: Setting, s: Sys, step: SysStep, x: Event)
    requires CanStep(c, s, step) && Known(s, x)
    ensures Known(Next(c, s, step), x)
  {
    if step.Begin? {
      KnownAfterBegin(c, s, step.e, x);
    }
  }

  lemma {:induction false} RunKeepsKnown(c: Setting, s: Sys, steps: seq<SysStep>, x: Event)
    requires Inv(c, s) && LegalRun(c, s, steps) && Known(s, x)
    ensures Inv(c, After(c, s, steps)) && Known(After(c, s, steps), x)
  {
    if steps != [] {
      var init := steps[..|steps| - 1];
      RunKeepsKnown(c, s, init, x);
      hide Inv, Known;
      StepKeepsInv(c, After(c, s, init), steps[|steps| - 1]);
      StepKeepsKnown(c, After(c, s, init), steps[|steps| - 1], x);
    }
  }

  /** An event told in one step is its node's newest version, or newer than it. */
  lemma ToldByIsNewest(c: Setting, s: Sys, step: SysStep, x: Event, e: Event)
    requires LatestInv(c, s) && PendingInv(c, s) && CanStep(c, s, step) && Known(s, x)
    requires e in ToldBy(c, s, step) && KeyOf(x) == KeyOf(e)
    ensures x.node.rv < e.node.rv || x == e
  {
  }

  lemma ToldByIsUpdate(c: Setting, s: Sys, step: SysStep, e: Event)
    requires PendingInv(c, s) && CanStep(c, s, step) && e in ToldBy(c, s, step)
    ensures IsUpdate(e)
  {
  }

  /** An event told during a run is newer than, or the same as, any version known at its start. */
  lemma {:induction false} ToldIsNewest(c: Setting, s: Sys, steps: seq<SysStep>, x: Event, e: Event)
    requires Inv(c, s) && LegalRun(c, s, steps) && Known(s, x)
    requires e in ToldIn(c, s, steps) && KeyOf(x) == KeyOf(e)
    ensures x.node.rv < e.node.rv || x == e
  {
    var init, last := steps[..|steps| - 1], steps[|steps| - 1];
    if e in ToldIn(c, s, init) {
      ToldIsNewest(c, s, init, x, e);
    } else {
      RunKeepsKnown(c, s, init, x);
      hide Known, LatestInv, PendingInv, CanStep;
      ToldByIsNewest(c, After(c, s, init), last, x, e);
    }
  }

  /** Events told during a run are updates, known at its end, and distinct ones of a node differ in version. */
  lemma {:induction false} ToldAreUpdates(c: Setting, s: Sys, steps: seq<SysStep>, e: Event)
    requires Inv(c, s) && LegalRun(c, s, steps) && e in ToldIn(c, s, steps)
    ensures IsUpdate(e)
  {
    var init, last := steps[..|steps| - 1], steps[|steps| - 1];
    if e in ToldIn(c, s, init) {
      ToldAreUpdates(c, s, init, e);
    } else {
      RunKeepsInv(c, s, init);
      hide PendingInv, CanStep;
      ToldByIsUpdate(c, After(c, s, init), last, e);
    }
  }

  lemma {:induction false} ToldAreKnown(c: Setting, s: Sys, steps: seq<SysStep>, a: Event, b: Event)
    requires Inv(c, s) && s.lister.Listed? && LegalRun(c, s, steps) && NoNewList(steps)
    requires a in ToldIn(c, s, steps) && b in ToldIn(c, s, steps) && KeyOf(a) == KeyOf(b)
    ensures IsUpdate(a) && Known(After(c, s, steps), a)
    ensures a.node.rv == b.node.rv ==> a == b
  {
    var s' := After(c, s, steps);
    RunKeepsInv(c, s, steps);
    RunTells(c, s, steps);
    EnqueueAllMembers(s.hist, ToldIn(c, s, steps), a.loc, a);
    EnqueueAllMembers(s.hist, ToldIn(c, s, steps), b.loc, b);
    ToldAreUpdates(c, s, steps, a);
    ToldAreUpdates(c, s, steps, b);
    hide Inv, Known, IsUpdate;
    QueuedIsKnown(c, s', a.loc, a);
    NoTwoOfOneVersion(c, s', a, b);
  }

  lemma {:induction false} UpdatesAppend(a: seq<Event>, b: seq<Event>)
    ensures Updates(a + b) == Updates(a) + Updates(b)
  {
    if b == [] {
      assert a + b == a;
    } else {
      UpdatesAppend(a, b[..|b| - 1]);
      assert (a + b)[..|a + b| - 1] == a + b[..|b| - 1];
    }
  }

  /** The one is older, or they are the same event; nothing is said of different nodes. */
  predicate NotAfter(a: Event, b: Event) {
    KeyOf(a) == KeyOf(b) ==> a.node.rv < b.node.rv || a == b
  }

  lemma InOrderAppend(m: Versions, a: seq<Event>, b: seq<Event>)
    requires InOrder(m, a)
    requires forall x, y :: x in a && y in b ==> NotAfter(x, y)
    requires forall x, y :: x in b && y in b && KeyOf(x) == KeyOf(y) ==> x == y
    requires forall y :: y in b && KeyOf(y) in m ==> m[KeyOf(y)].node.rv < y.node.rv || m[KeyOf(y)] == y
    ensures InOrder(m, a + b)
  {
    var all := a + b;
    forall i, j | 0 <= i < j < |all| && KeyOf(all[i]) == KeyOf(all[j])
      ensures all[i].node.rv < all[j].node.rv || all[i] == all[j]
    {
      if i < |a| <= j {
        assert all[i] in a && all[j] in b && NotAfter(all[i], all[j]);
      }
    }
  }

  /** When every node is told at most one event, whatever the client is sent comes in order. */
  lemma {:induction false} SentInOrder(c: Setting, s: Sys, m: Versions, rvs: map<Location, nat>, r: Backlog,
                                       steps: seq<SysStep>, live: seq<Event>)
    requires HasListed(c, s, m, rvs) && GoodStart(s, m, rvs, r) && LegalRun(c, s, steps)
    requires forall e :: e in live <==> e in ToldIn(c, s, steps)
    requires OneEventPerNode(ToldIn(c, s, steps))
    ensures InOrder(m, Updates(Received(r) + live))
  {
    var backlog, told := Received(r), ToldIn(c, s, steps);
    StartInOrder(c, s, m, rvs, r);
    UpdatesAppend(backlog, live);
    forall x, y | x in Updates(backlog) && y in Updates(live)
      ensures NotAfter(x, y)
    {
      UpdatesMembers(backlog, x);
      UpdatesMembers(live, y);
      ListedBeforeTold(c, s, steps, x, y);
    }
    forall y | y in Updates(live)
      ensures y in told
      ensures KeyOf(y) in m ==> m[KeyOf(y)].node.rv < y.node.rv || m[KeyOf(y)] == y
    {
      UpdatesMembers(live, y);
      if KeyOf(y) in m {
        MirrorIsKnown(c, s, m, rvs, KeyOf(y));
        ToldIsNewest(c, s, steps, m[KeyOf(y)], y);
      }
    }
    hide HasListed, GoodStart;
    InOrderAppend(m, Updates(backlog), Updates(live));
  }

  lemma ListedBeforeTold(c: Setting, s: Sys, steps: seq<SysStep>, x: Event, y: Event)
    requires Inv(c, s) && LegalRun(c, s, steps) && IsUpdate(x) && x in At(s.hist, x.loc) && y in ToldIn(c, s, steps)
    ensures NotAfter(x, y)
  {
    QueuedIsKnown(c, s, x.loc, x);
    hide Inv, Known, LegalRun;
    if KeyOf(x) == KeyOf(y) {
      ToldIsNewest(c, s, steps, x, y);
    }
  }

  lemma {:induction false} StartInOrder(c: Setting, s: Sys, m: Versions, rvs: map<Location, nat>, r: Backlog)
    requires HasListed(c, s, m, rvs) && GoodStart(s, m, rvs, r)
    ensures InOrder(m, Updates(Received(r)))
    ensures forall e :: e in Received(r) ==> e in At(s.hist, e.loc)
  {
    hide HasListed, Answers;
    if r.Events? {
      ReadSuffices(c, s, m, rvs, r.events);
      ReadIsInOrder(c, s, m, rvs, r.events);
    }
  }

  /** No node was told two different events. */
  ghost predicate OneEventPerNode(told: seq<Event>) {
    forall a, b :: a in told && b in told && KeyOf(a) == KeyOf(b) ==> a == b
  }

  /** What a session that delivered everything sent: the backlog, then the events told in some order. */
  lemma DeliveredParts(backlog: seq<Event>, session: seq<SessionStep>, told: seq<Event>) returns (live: seq<Event>)
    requires Delivers(backlog, session, told)
    ensures Outcome(backlog, session) == backlog + live
    ensures forall e :: e in live <==> e in told
  {
    DrainedDeliversAll(backlog, session);
    var out := Outcome(backlog, session);
    live := out[|backlog|..];
    assert out == backlog + live;
    SameMembers(live, told);
  }

  lemma {:induction false} BlindClientIsRight(c: Setting, s: Sys, m: Versions, rvs: map<Location, nat>, r: Backlog,
                                              steps: seq<SysStep>, session: seq<SessionStep>)
    requires HasListed(c, s, m, rvs) && GoodStart(s, m, rvs, r) && LegalRun(c, s, steps) && NoNewList(steps)
    requires Delivers(Received(r), session, ToldIn(c, s, steps)) && OneEventPerNode(ToldIn(c, s, steps))
    ensures UpsertAll(m, Updates(Outcome(Received(r), session))) == After(c, s, steps).latest
  {
    hide HasListed, Answers, Missed, OneEventPerNode, LegalRun, ToldIn, CanRun, DoAll, EnqueuedIn, Drained, InOrder;
    WatchKeepsMirrorCurrent(c, s, m, rvs, r, steps, session);
    var live := DeliveredParts(Received(r), session, ToldIn(c, s, steps));
    SentInOrder(c, s, m, rvs, r, steps, live);
    UpsertIsMergeInOrder(m, Updates(Received(r) + live));
  }

  // ---------------------------------------------------------------- any order can happen

  lemma {:induction false} CanSend(backlog: seq<Event>, n: nat) returns (steps: seq<SessionStep>)
    requires n <= |backlog|
    ensures CanRun(Start(backlog), steps) && EnqueuedIn(steps) == []
    ensures DoAll(Start(backlog), steps) == Session(backlog[n..], multiset{}, None, backlog[..n], false)
  {
    if n == 0 {
      steps := [];
    } else {
      var before := CanSend(backlog, n - 1);
      OneMore(Start(backlog), before, SendInit);
      steps := before + [SendInit];
      assert backlog[n - 1..][1..] == backlog[n..];
      assert backlog[..n - 1] + [backlog[n - 1]] == backlog[..n];
    }
  }

  lemma {:induction false} CanTell(backlog: seq<Event>, told: seq<Event>) returns (steps: seq<SessionStep>)
    ensures CanRun(Start(backlog), steps) && EnqueuedIn(steps) == told
    ensures DoAll(Start(backlog), steps) == Session([], multiset(told), None, backlog, false)
  {
    hide CanRun, DoAll, EnqueuedIn;
    if told == [] {
      steps := CanSend(backlog, |backlog|);
      assert backlog[..|backlog|] == backlog;
    } else {
      var init, last := told[..|told| - 1], told[|told| - 1];
      var before := CanTell(backlog, init);
      OneMore(Start(backlog), before, Enqueue(last));
      steps := before + [Enqueue(last)];
      assert told == init + [last];
    }
  }

  /**
   * After a watch has started, over every run of the distributor, the senders that wait at the
   * client's channel are those of a session that was told what the client's queue took in.
   */
  lemma {:induction false} ChannelFeedsSession(r: Router, w: World, ops: seq<Op>, c: string, backlog: seq<Event>)
    returns (session: seq<SessionStep>)
    requires Legal(r, w, ops) && c != "" && c in w.queues && c in w.channels
    requires w.channels[c] == Channel(true, multiset{})
    ensures CanRun(Start(backlog), session) && EnqueuedIn(session) == Isolation.ToldTo(r, w, ops, c)
    ensures c in Run(r, w, ops).channels
    ensures Run(r, w, ops).channels[c] == Channel(true, DoAll(Start(backlog), session).pending)
  {
    Isolation.WatchedClientIsHandedAll(r, w, ops, c);
    session := CanTell(backlog, Isolation.ToldTo(r, w, ops, c));
    hide CanRun, DoAll, EnqueuedIn, Isolation.ToldTo, Legal, Run;
  }

  /** Handing over the first `n` events of an order. */
  lemma {:induction false} CanHandOver(backlog: seq<Event>, told: seq<Event>, order: seq<Event>,
                                       n: nat)
    returns (steps: seq<SessionStep>)
    requires multiset(order) == multiset(told) && n <= |order|
    ensures CanRun(Start(backlog), steps) && EnqueuedIn(steps) == told
    ensures DoAll(Start(backlog), steps) == Session([], multiset(order[n..]), None, backlog + order[..n], false)
  {
    hide CanRun, DoAll, EnqueuedIn;
    if n == 0 {
      steps := CanTell(backlog, told);
      assert order[0..] == order && backlog + order[..0] == backlog;
    } else {
      var before := CanHandOver(backlog, told, order, n - 1);
      var e := order[n - 1];
      assert order[n - 1..] == [e] + order[n..];
      OneMore(Start(backlog), before, Take(e));
      assert multiset(order[n - 1..]) - multiset{e} == multiset(order[n..]);
      OneMore(Start(backlog), before + [Take(e)], Forward);
      steps := before + [Take(e)] + [Forward];
      assert backlog + order[..n - 1] + [e] == backlog + order[..n];
    }
  }

  /** Every order of the live events is the outcome of some session. */
  lemma {:induction false} AnyOrderHappens(backlog: seq<Event>, told: seq<Event>,
                                           order: seq<Event>)
    returns (session: seq<SessionStep>)
    requires multiset(order) == multiset(told)
    ensures Delivers(backlog, session, told) && Outcome(backlog, session) == backlog + order
  {
    session := CanHandOver(backlog, told, order, |order|);
    assert order[|order|..] == [] && order[..|order|] == order;
  }

  /** An order that ends with a given event. */
  lemma EndingWith(told: seq<Event>, e: Event) returns (order: seq<Event>)
    requires e in told
    ensures order != [] && order[|order| - 1] == e && multiset(order) == multiset(told)
  {
    var i :| 0 <= i < |told| && told[i] == e;
    order := told[..i] + told[i + 1..] + [e];
    assert told == told[..i] + [e] + told[i + 1..];
  }

  /** The session that delivers the older of two versions last leaves a blind client with it. */
  lemma {:induction false} OlderLastIsWrong(c: Setting, s: Sys, m: Versions, r: Backlog, steps: seq<SysStep>,
                                            older: Event, newer: Event)
    returns (session: seq<SessionStep>)
    requires Inv(c, s) && s.lister.Listed? && !r.Failed? && LegalRun(c, s, steps) && NoNewList(steps)
    requires older in ToldIn(c, s, steps) && newer in ToldIn(c, s, steps)
    requires KeyOf(older) == KeyOf(newer) && older.node.rv < newer.node.rv
    ensures Delivers(Received(r), session, ToldIn(c, s, steps))
    ensures UpsertAll(m, Updates(Outcome(Received(r), session))) != After(c, s, steps).latest
  {
    hide Inv, LegalRun, ToldIn, CanRun, DoAll, EnqueuedIn, UpsertAll, Updates;
    ToldAreKnown(c, s, steps, older, newer);
    ToldAreKnown(c, s, steps, newer, older);
    var order := EndingWith(ToldIn(c, s, steps), older);
    session := AnyOrderHappens(Received(r), ToldIn(c, s, steps), order);
    LastOneWins(m, Received(r) + order, older);
  }

  lemma LastOneWins(m: Versions, out: seq<Event>, e: Event)
    requires out != [] && out[|out| - 1] == e && IsUpdate(e)
    ensures KeyOf(e) in UpsertAll(m, Updates(out)) && UpsertAll(m, Updates(out))[KeyOf(e)] == e
  {
    var us := Updates(out);
    assert us[|us| - 1] == e;
  }

  /**
   * The exact condition for a client that overwrites without comparing versions: it ends with the
   * newest version of every node, whatever order its session hands the live events over in, if and
   * only if no node was told two different events.
   */
  lemma {:induction false} BlindClientIsRightExactly(c: Setting, s: Sys, m: Versions, rvs: map<Location, nat>,
                                                     r: Backlog, steps: seq<SysStep>)
    requires HasListed(c, s, m, rvs) && GoodStart(s, m, rvs, r) && LegalRun(c, s, steps) && NoNewList(steps)
    ensures (forall session :: Delivers(Received(r), session, ToldIn(c, s, steps)) ==>
               UpsertAll(m, Updates(Outcome(Received(r), session))) == After(c, s, steps).latest)
       <==> OneEventPerNode(ToldIn(c, s, steps))
  {
    var told := ToldIn(c, s, steps);
    if OneEventPerNode(told) {
      hide *;
      forall session | Delivers(Received(r), session, told)
        ensures UpsertAll(m, Updates(Outcome(Received(r), session))) == After(c, s, steps).latest
      {
        BlindClientIsRight(c, s, m, rvs, r, steps, session);
      }
    } else {
      hide Inv, Delivers, LegalRun, ToldIn, Answers, UpsertAll;
      var a, b :| a in told && b in told && KeyOf(a) == KeyOf(b) && a != b;
      ToldAreKnown(c, s, steps, a, b);
      if a.node.rv < b.node.rv {
        var session := OlderLastIsWrong(c, s, m, r, steps, a, b);
      } else {
        var session := OlderLastIsWrong(c, s, m, r, steps, b, a);
      }
    }
  }

  /**
   * Live events may overtake each other, so a client that overwrites without comparing versions
   * can end with an old version although the session delivered everything.
   */
  lemma LiveEventsMayOvertake(older: Event, newer: Event) returns (session: seq<SessionStep>)
    requires KeyOf(older) == KeyOf(newer) && older.node.rv < newer.node.rv
    ensures Delivers([], session, [older, newer])
    ensures UpsertAll(map[], Outcome([], session)) == map[KeyOf(newer) := older]
  {
    hide CanRun, DoAll, EnqueuedIn;
    session := AnyOrderHappens([], [older, newer], [newer, older]);
    assert [] + [newer, older] == [newer, older];
    UpsertTwo(newer, older);
  }

  lemma UpsertTwo(a: Event, b: Event)
    requires KeyOf(a) == KeyOf(b)
    ensures UpsertAll(map[], [a, b]) == map[KeyOf(a) := b]
  {
    var out := [a, b];
    assert out[..1] == [a] && out[..1][..0] == [];
    assert UpsertAll(map[], out[..1]) == map[KeyOf(a) := a];
  }

  lemma OneMore(s: Session, steps: seq<SessionStep>, step: SessionStep)
    requires CanRun(s, steps) && CanDo(DoAll(s, steps), step)
    ensures CanRun(s, steps + [step]) && DoAll(s, steps + [step]) == Do(DoAll(s, steps), step)
    ensures EnqueuedIn(steps + [step]) == EnqueuedIn(steps) + if step.Enqueue? then [step.e] else []
  {
  }
}
