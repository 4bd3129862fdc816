/** The event queue of one client: one circular log per location, and the watch backlog. */
module EventQueue {
  import opened Types
  import opened EventLog

  /** Everything ever enqueued for a client, location by location. */
  type History = map<Location, seq<Event>>

  function At(h: History, loc: Location): seq<Event> {
    if loc in h then h[loc] else []
  }

  function Enqueued(h: History, e: Event): History {
    h[e.loc := At(h, e.loc) + [e]]
  }

  /** The events of one location within a mixed list, in order. */
  function Proj(s: seq<Event>, loc: Location): seq<Event> {
    if s == [] then []
    else (if s[0].loc == loc then [s[0]] else []) + Proj(s[1..], loc)
  }

  lemma {:induction false} ProjAppend(a: seq<Event>, b: seq<Event>, loc: Location)
    ensures Proj(a + b, loc) == Proj(a, loc) + Proj(b, loc)
  {
    if a == [] {
      assert a + b == b;
    } else {
      ProjAppend(a[1..], b, loc);
      assert (a + b)[1..] == a[1..] + b;
    }
  }

  lemma {:induction false} ProjUniform(s: seq<Event>, home: Location, loc: Location)
    requires forall e :: e in s ==> e.loc == home
    ensures Proj(s, loc) == if home == loc then s else []
  {
    if s != [] {
      assert s == [s[0]] + s[1..];
      ProjUniform(s[1..], home, loc);
    }
  }

  lemma {:induction false} ProjNone(s: seq<Event>, loc: Location)
    requires forall e :: e in s ==> e.loc != loc
    ensures Proj(s, loc) == []
  {
    if s != [] {
      assert s == [s[0]] + s[1..];
      ProjNone(s[1..], loc);
    }
  }

  lemma {:induction false} ProjMembers(s: seq<Event>, loc: Location, e: Event)
    ensures e in Proj(s, loc) <==> e in s && e.loc == loc
  {
    if s != [] {
      ProjMembers(s[1..], loc, e);
      assert s == [s[0]] + s[1..];
    }
  }

  /** Appending a piece of one location extends that location's part only. */
  lemma ProjAdds(a: seq<Event>, piece: seq<Event>, home: Location)
    requires forall e :: e in piece ==> e.loc == home
    ensures forall loc :: Proj(a + piece, loc) == if loc == home then Proj(a, loc) + piece else Proj(a, loc)
  {
    forall loc
      ensures Proj(a + piece, loc) == if loc == home then Proj(a, loc) + piece else Proj(a, loc)
    {
      ProjAppend(a, piece, loc);
      ProjUniform(piece, home, loc);
    }
  }

  /** What a read of everything since a resource version map returns. */
  datatype Backlog = Events(events: seq<Event>) | Nothing | Failed(loc: Location)

  ghost predicate AllSorted(h: History) {
    forall loc :: loc in h ==> Sorted(h[loc])
  }

  predicate TooOldAt(h: History, rvs: map<Location, nat>, loc: Location) {
    loc in rvs && loc in h && h[loc] != [] && Window(h[loc])[0].node.rv > rvs[loc]
  }

  predicate AtEnd(h: History, rvs: map<Location, nat>, loc: Location) {
    loc in rvs && loc in h && !TooOldAt(h, rvs, loc) && Newer(h[loc], rvs[loc]) == []
  }

  /** What one location contributes: what is newer than the request, or all that is still held. */
  function Share(h: History, rvs: map<Location, nat>, loc: Location): seq<Event>
    requires loc in h
  {
    if loc in rvs then Newer(h[loc], rvs[loc]) else Window(h[loc])
  }

  /**
   * The read over all locations: it fails only where the request is too old, it returns nothing
   * as soon as one requested location is at its end, and otherwise it returns, location by
   * location and in order, exactly what is newer in the whole history.
   */
  ghost predicate Answers(h: History, rvs: map<Location, nat>, r: Backlog) {
    match r
    case Failed(loc) => TooOldAt(h, rvs, loc)
    case Nothing => exists loc :: AtEnd(h, rvs, loc)
    case Events(es) =>
      && (forall loc :: !TooOldAt(h, rvs, loc) && !AtEnd(h, rvs, loc))
      && (forall loc :: loc in h ==> Proj(es, loc) == Share(h, rvs, loc))
      && (forall e :: e in es ==> e.loc in h)
  }

  /** The list being collected, when the locations in `todo` are still to be read. */
  ghost predicate Collected(h: History, rvs: map<Location, nat>, es: seq<Event>, todo: set<Location>) {
    && (forall e :: e in es ==> e.loc in h)
    && forall loc :: loc in h && Sorted(h[loc]) ==> Proj(es, loc) == if loc in todo then [] else Share(h, rvs, loc)
  }

  lemma CollectStep(h: History, rvs: map<Location, nat>, es: seq<Event>, todo: set<Location>, loc: Location,
                    events: seq<Event>)
    requires Collected(h, rvs, es, todo) && loc in todo && loc in h
    requires forall e :: e in events ==> e.loc == loc
    requires Sorted(h[loc]) ==> events == Share(h, rvs, loc)
    ensures Collected(h, rvs, es + events, todo - {loc})
  {
    hide Share, Sorted, Proj;
    ProjAdds(es, events, loc);
  }

  /** A start position found for one location: past the oldest event, at the first newer one. */
  ghost predicate StartsAt(h: History, loc: Location, pos: nat, rv: nat) {
    && loc in h
    && WindowStart(|h[loc]|) < pos < |h[loc]|
    && Window(h[loc])[0].node.rv <= rv
    && (Sorted(h[loc]) ==> Newer(h[loc], rv) == h[loc][pos..])
  }

  lemma FailedAnswers(h: History, rvs: map<Location, nat>, loc: Location)
    requires TooOldAt(h, rvs, loc)
    ensures Answers(h, rvs, Failed(loc))
  {
  }

  lemma EndAnswers(h: History, rvs: map<Location, nat>, loc: Location)
    requires loc in rvs && loc in h && !TooOldAt(h, rvs, loc) && Newer(h[loc], rvs[loc]) == []
    ensures Answers(h, rvs, Nothing)
  {
    assert AtEnd(h, rvs, loc);
  }

  lemma CollectedAnswers(h: History, rvs: map<Location, nat>, starts: map<Location, nat>, es: seq<Event>)
    requires AllSorted(h) && Collected(h, rvs, es, {})
    requires forall loc :: loc in starts <==> loc in rvs && loc in h
    requires forall loc :: loc in starts ==> StartsAt(h, loc, starts[loc], rvs[loc])
    ensures Answers(h, rvs, Events(es))
  {
  }

  ghost predicate AllFrom(s: seq<Event>, loc: Location) {
    forall e :: e in s ==> e.loc == loc
  }

  /** Of a location that the request does not name, all that is held is returned, oldest first. */
  ghost predicate HeldOfUnnamed(h: History, rvs: map<Location, nat>, es: seq<Event>) {
    forall loc :: loc in h && loc !in rvs ==>
      Proj(es, loc) == if |h[loc]| <= 10000 then h[loc] else h[loc][|h[loc]| - 10000..]
  }

  /** Of a location that the request names, exactly the newer events are returned, in their order. */
  ghost predicate NewerOfNamed(h: History, rvs: map<Location, nat>, es: seq<Event>) {
    forall loc :: loc in h && loc in rvs ==>
      && (forall e :: e in Proj(es, loc) <==> e in h[loc] && e.node.rv > rvs[loc])
      && exists n :: 0 <= n <= |h[loc]| && Proj(es, loc) == h[loc][n..]
  }

  lemma {:induction false} AnswerByLocation(h: History, rvs: map<Location, nat>, es: seq<Event>)
    requires AllSorted(h) && Answers(h, rvs, Events(es))
    ensures HeldOfUnnamed(h, rvs, es) && NewerOfNamed(h, rvs, es)
  {
    forall loc | loc in h && loc !in rvs
      ensures Proj(es, loc) == if |h[loc]| <= 10000 then h[loc] else h[loc][|h[loc]| - 10000..]
    {
      WindowHolds(h[loc]);
    }
    forall loc | loc in h && loc in rvs
      ensures forall e :: e in Proj(es, loc) <==> e in h[loc] && e.node.rv > rvs[loc]
      ensures exists n :: 0 <= n <= |h[loc]| && Proj(es, loc) == h[loc][n..]
    {
      forall e
        ensures e in Proj(es, loc) <==> e in h[loc] && e.node.rv > rvs[loc]
      {
        NewerMembers(h[loc], rvs[loc], e);
      }
      NewerIsSuffix(h[loc], rvs[loc]);
    }
  }

  /** The version of the oldest event still held. */
  function OldestHeld(s: seq<Event>): nat
    requires s != []
  {
    if |s| <= 10000 then s[0].node.rv else s[|s| - 10000].node.rv
  }

  /**
   * The read, location by location. It fails at a location whose oldest held event is newer than
   * requested, and returns nothing where the whole history has nothing newer; it returns events only
   * if neither is so at any location named, and then those of each location and no others.
   */
  lemma {:induction false} AnswerMeans(h: History, rvs: map<Location, nat>, r: Backlog)
    requires AllSorted(h) && Answers(h, rvs, r)
    ensures match r
            case Failed(loc) => loc in rvs && loc in h && h[loc] != [] && OldestHeld(h[loc]) > rvs[loc]
            case Nothing => exists loc :: loc in rvs && loc in h && forall e :: e in h[loc] ==> e.node.rv <= rvs[loc]
            case Events(es) =>
              && HeldOfUnnamed(h, rvs, es) && NewerOfNamed(h, rvs, es) && (forall e :: e in es ==> e.loc in h)
              && forall loc :: loc in rvs && loc in h ==>
                   && (h[loc] != [] ==> OldestHeld(h[loc]) <= rvs[loc])
                   && exists e :: e in h[loc] && e.node.rv > rvs[loc]
  {
    hide HeldOfUnnamed, NewerOfNamed, Sorted;
    match r
    case Failed(loc) =>
    case Nothing =>
      var loc :| AtEnd(h, rvs, loc);
      forall e | e in h[loc]
        ensures e.node.rv <= rvs[loc]
      {
        NewerMembers(h[loc], rvs[loc], e);
      }
    case Events(es) =>
      AnswerByLocation(h, rvs, es);
      forall loc | loc in rvs && loc in h
        ensures h[loc] != [] ==> OldestHeld(h[loc]) <= rvs[loc]
        ensures exists e :: e in h[loc] && e.node.rv > rvs[loc]
      {
        assert !TooOldAt(h, rvs, loc) && !AtEnd(h, rvs, loc);
        NewerMembers(h[loc], rvs[loc], Newer(h[loc], rvs[loc])[0]);
      }
  }

  lemma {:induction false} NewerIsSuffix(s: seq<Event>, rv: nat)
    requires Sorted(s)
    ensures exists n :: 0 <= n <= |s| && Newer(s, rv) == s[n..]
  {
    if s == [] {
      assert Newer(s, rv) == s[0..];
    } else if s[0].node.rv > rv {
      NewerOfLater(s, rv);
      assert Newer(s, rv) == s[0..];
    } else {
      NewerIsSuffix(s[1..], rv);
      var n :| 0 <= n <= |s[1..]| && Newer(s[1..], rv) == s[1..][n..];
      assert s[1..][n..] == s[n + 1..];
    }
  }

  datatype WatchResult = Started(backlog: seq<Event>) | AlreadyWatched | Refused(loc: Location)

  /** A watch starts from what the read returns; a read that returns nothing starts it empty. */
  ghost predicate Serves(h: History, rvs: map<Location, nat>, r: WatchResult) {
    match r
    case AlreadyWatched => true
    case Refused(loc) => Answers(h, rvs, Failed(loc))
    case Started(backlog) => Answers(h, rvs, Events(backlog)) || (backlog == [] && Answers(h, rvs, Nothing))
  }

  /** Events are only returned if every location named that has a queue contributes one. */
  lemma NamedIsNotEmpty(h: History, rvs: map<Location, nat>, es: seq<Event>)
    requires NewerOfNamed(h, rvs, es)
    requires forall loc :: loc in rvs && loc in h ==> exists e :: e in h[loc] && e.node.rv > rvs[loc]
    ensures rvs.Keys !! h.Keys || es != []
  {
    if loc :| loc in rvs && loc in h {
      var e :| e in h[loc] && e.node.rv > rvs[loc];
      ProjMembers(es, loc, e);
    }
  }

  /**
   * What a watch sends before any live event. A request that names no location with a queue gets
   * everything held; otherwise a backlog that is not empty is what is newer, and everything held of
   * the locations not named. A refusal is for a location whose oldest held event is newer.
   */
  lemma {:induction false} StartMeans(h: History, rvs: map<Location, nat>, r: WatchResult)
    requires AllSorted(h) && Serves(h, rvs, r)
    ensures r.Started? && (rvs.Keys !! h.Keys || r.backlog != []) ==>
              HeldOfUnnamed(h, rvs, r.backlog) && NewerOfNamed(h, rvs, r.backlog)
    ensures r.Started? && !(rvs.Keys !! h.Keys) && r.backlog == [] ==>
              exists loc :: loc in rvs && loc in h && forall e :: e in h[loc] ==> e.node.rv <= rvs[loc]
    ensures r.Refused? ==> r.loc in rvs && r.loc in h && h[r.loc] != [] && OldestHeld(h[r.loc]) > rvs[r.loc]
  {
    hide Answers, AllSorted, HeldOfUnnamed, NewerOfNamed;
    match r
    case AlreadyWatched =>
    case Refused(loc) => AnswerMeans(h, rvs, Failed(loc));
    case Started(backlog) =>
      if Answers(h, rvs, Events(backlog)) {
        AnswerMeans(h, rvs, Events(backlog));
        NamedIsNotEmpty(h, rvs, backlog);
      } else {
        AnswerMeans(h, rvs, Nothing);
      }
  }

  class NodeEventQueue {
    const clientId: string
    var eventQueueByLoc: map<Location, NodeEventQueueByLoc>
    /** Whether a watch channel is installed, and the senders that wait to hand it an event. */
    var watching: bool
    var senders: multiset<Event>
    ghost var history: History
    ghost var Repr: set<object>

    ghost predicate Owns(loc: Location)
      requires loc in eventQueueByLoc
      reads this, Repr
    {
      var q := eventQueueByLoc[loc];
      && q in Repr && q.circularEventQueue in Repr
      && q.Valid()
      && loc in history && q.history == history[loc] != []
      && AllFrom(history[loc], loc)
    }

    ghost predicate Valid()
      reads this, Repr
      ensures Valid() ==> this in Repr
    {
      && this in Repr
      && history.Keys == eventQueueByLoc.Keys
      && (forall loc :: loc in eventQueueByLoc ==> Owns(loc))
      && (forall a, b :: a in eventQueueByLoc && b in eventQueueByLoc && a != b ==>
            eventQueueByLoc[a].circularEventQueue != eventQueueByLoc[b].circularEventQueue)
    }

    constructor (clientId: string)
      ensures Valid() && fresh(Repr)
      ensures this.clientId == clientId && history == map[] && !watching && senders == multiset{}
    {
      this.clientId := clientId;
      eventQueueByLoc, history := map[], map[];
      watching, senders := false, multiset{};
      Repr := {this};
    }

    method EnqueueEvent(e: Event)
      requires Valid()
      modifies Repr
      ensures Valid() && fresh(Repr - old(Repr))
      ensures history == Enqueued(old(history), e)
      ensures watching == old(watching)
      ensures senders == if watching then old(senders) + multiset{e} else old(senders)
    {
      if watching {
        senders := senders + multiset{e};
      }
      if e.loc in eventQueueByLoc {
        Append(e);
      } else {
        AppendToNew(e);
      }
    }

    method Append(e: Event)
      requires Valid() && e.loc in eventQueueByLoc
      modifies Repr
      ensures Valid() && Repr == old(Repr)
      ensures history == Enqueued(old(history), e)
      ensures watching == old(watching) && senders == old(senders)
    {
      hide NodeEventQueueByLoc.Valid;
      assert Owns(e.loc);
      var queue := eventQueueByLoc[e.loc];
      forall loc | loc in eventQueueByLoc && loc != e.loc
        ensures Owns(loc) && eventQueueByLoc[loc] != queue
        ensures eventQueueByLoc[loc].circularEventQueue != queue.circularEventQueue
      {
      }
      queue.EnqueueEvent(e);
      history := Enqueued(history, e);
      forall loc | loc in eventQueueByLoc
        ensures Owns(loc)
      {
      }
    }

    method AppendToNew(e: Event)
      requires Valid() && e.loc !in eventQueueByLoc
      modifies this
      ensures Valid() && fresh(Repr - old(Repr))
      ensures history == Enqueued(old(history), e)
      ensures watching == old(watching) && senders == old(senders)
    {
      hide NodeEventQueueByLoc.Valid, AllFrom;
      var created := QueueOf(e);
      forall loc | loc in eventQueueByLoc
        ensures Owns(loc) && eventQueueByLoc[loc].circularEventQueue in old(Repr)
      {
        assert old(Owns(loc));
      }
      assert At(history, e.loc) + [e] == [e];
      eventQueueByLoc := eventQueueByLoc[e.loc := created];
      Repr := Repr + {created, created.circularEventQueue};
      history := Enqueued(history, e);
    }

    /** A new log with one event. */
    method QueueOf(e: Event) returns (created: NodeEventQueueByLoc)
      ensures fresh(created) && fresh(created.circularEventQueue) && created.Valid()
      ensures created.history == [e] && AllFrom(created.history, e.loc)
    {
      created := new NodeEventQueueByLoc();
      created.EnqueueEvent(e);
    }

    method GetAllEventsSinceResourceVersion(rvs: map<Location, nat>) returns (r: Backlog)
      requires Valid()
      ensures AllSorted(history) ==> Answers(history, rvs, r)
      ensures AllSorted(history) && r.Events? ==>
                HeldOfUnnamed(history, rvs, r.events) && NewerOfNamed(history, rvs, r.events)
    {
      hide Answers, AtEnd, StartsAt, Sorted, HeldOfUnnamed, NewerOfNamed;
      var starts: map<Location, nat> := map[];
      var todo := rvs.Keys;
      while todo != {}
        invariant todo <= rvs.Keys
        invariant forall loc :: loc in starts <==> loc in rvs && loc in history && loc !in todo
        invariant forall loc :: loc in starts ==> StartsAt(history, loc, starts[loc], rvs[loc])
      {
        var loc :| loc in todo;
        todo := todo - {loc};
        if loc in eventQueueByLoc {
          var found := FindStart(loc, rvs[loc]);
          if found.EndOfQueue? {
            if AllSorted(history) {
              EndAnswers(history, rvs, loc);
            }
            return Nothing;
          } else if found.TooOld? {
            FailedAnswers(history, rvs, loc);
            return Failed(loc);
          }
          starts := starts[loc := found.pos];
        }
      }
      var events := Collect(rvs, starts);
      if AllSorted(history) {
        CollectedAnswers(history, rvs, starts, events);
        AnswerByLocation(history, rvs, events);
      }
      r := Events(events);
    }

    method FindStart(loc: Location, rv: nat) returns (r: SearchResult)
      requires Valid() && loc in history
      ensures r != EmptyQueue && history[loc] != []
      ensures r == TooOld <==> Window(history[loc])[0].node.rv > rv
      ensures r == EndOfQueue && Sorted(history[loc]) ==> Newer(history[loc], rv) == []
      ensures r.Found? ==> StartsAt(history, loc, r.pos, rv)
    {
      assert Owns(loc);
      r := eventQueueByLoc[loc].GetEventIndexSinceResourceVersion(rv);
    }

    method ReadShare(loc: Location, rvs: map<Location, nat>, starts: map<Location, nat>) returns (events: seq<Event>)
      requires Valid() && loc in history
      requires loc in starts <==> loc in rvs
      requires loc in starts ==> StartsAt(history, loc, starts[loc], rvs[loc])
      ensures forall e :: e in events ==> e.loc == loc
      ensures Sorted(history[loc]) ==> events == Share(history, rvs, loc)
    {
      assert Owns(loc);
      var queue := eventQueueByLoc[loc];
      var read;
      if loc in starts {
        read := queue.GetEventsFromIndex(starts[loc]);
      } else {
        read := queue.GetEventsFromIndex(queue.startPos);
      }
      events := read.value;
    }

    /** Second pass: reads every location from its start position, or from its oldest event. */
    method Collect(rvs: map<Location, nat>, starts: map<Location, nat>) returns (nodeEvents: seq<Event>)
      requires Valid()
      requires forall loc :: loc in starts <==> loc in rvs && loc in history
      requires forall loc :: loc in starts ==> StartsAt(history, loc, starts[loc], rvs[loc])
      ensures Collected(history, rvs, nodeEvents, {})
    {
      nodeEvents := [];
      var todo := eventQueueByLoc.Keys;
      assert Collected(history, rvs, nodeEvents, todo);
      hide Collected, StartsAt, Share, Sorted;
      while todo != {}
        invariant todo <= history.Keys
        invariant Collected(history, rvs, nodeEvents, todo)
      {
        var loc :| loc in todo;
        var events := ReadShare(loc, rvs, starts);
        CollectStep(history, rvs, nodeEvents, todo, loc, events);
        todo := todo - {loc};
        nodeEvents := nodeEvents + events;
      }
    }

    /** Starts the one watcher a queue supports: reads the backlog and installs the channel. */
    method Watch(rvs: map<Location, nat>) returns (r: WatchResult)
      requires Valid()
      modifies this`watching, this`senders
      ensures Valid()
      ensures r == AlreadyWatched <==> old(watching)
      ensures Repr == old(Repr) && history == old(history)
      ensures r.Started? ==> watching && senders == multiset{}
      ensures !r.Started? ==> watching == old(watching) && senders == old(senders)
      ensures AllSorted(history) ==> Serves(history, rvs, r)
      ensures AllSorted(history) && r.Started? && (rvs.Keys !! history.Keys || r.backlog != []) ==>
                HeldOfUnnamed(history, rvs, r.backlog) && NewerOfNamed(history, rvs, r.backlog)
    {
      hide Answers, NodeEventQueueByLoc.Valid, HeldOfUnnamed, NewerOfNamed, AllSorted;
      if watching {
        return AlreadyWatched;
      }
      var backlog := GetAllEventsSinceResourceVersion(rvs);
      match backlog {
        case Failed(loc) => r := Refused(loc);
        case Nothing =>
          watching, senders := true, multiset{};
          r := Started([]);
        case Events(es) =>
          watching, senders := true, multiset{};
          r := Started(es);
      }
      if AllSorted(history) {
        StartMeans(history, rvs, r);
      }
    }
  }
}
