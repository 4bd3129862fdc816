/** Each client's queue receives the events of its own stores, all of them and no others. */
module Isolation {
  import opened Types
  import opened EventQueue
  import opened World
  import opened Ownership

  /** The updates delivered in a run that are routed to one of these stores, from one location. */
  function Routed(r: Router, sel: seq<nat>, ops: seq<Op>, loc: Location): seq<Event> {
    if ops == [] then []
    else
      Routed(r, sel, ops[..|ops| - 1], loc) +
      match ops[|ops| - 1]
      case Deliver(e) => if IsUpdate(e) && e.loc == loc && Index(r, e) in sel then [e] else []
      case Register(_, _, _, _) => []
  }

  /** `t` is `s` with every event written once or twice in a row. */
  ghost predicate OnceOrTwice(t: seq<Event>, s: seq<Event>)
    decreases |s|
  {
    if s == [] then t == []
    else
      var e, rest := s[|s| - 1], s[..|s| - 1];
      || (|t| >= 1 && t[|t| - 1] == e && OnceOrTwice(t[..|t| - 1], rest))
      || (|t| >= 2 && t[|t| - 1] == e && t[|t| - 2] == e && OnceOrTwice(t[..|t| - 2], rest))
  }

  lemma OnceOrTwiceExtends(t: seq<Event>, s: seq<Event>, e: Event, n: nat)
    requires OnceOrTwice(t, s)
    ensures OnceOrTwice(t + Copies(e, n), s + [e])
  {
  }

  lemma {:induction false} OnceOrTwiceMembers(t: seq<Event>, s: seq<Event>, e: Event)
    requires OnceOrTwice(t, s)
    ensures e in t <==> e in s
    decreases |s|
  {
    if s != [] {
      var last, rest := s[|s| - 1], s[..|s| - 1];
      assert s == rest + [last];
      if |t| >= 1 && t[|t| - 1] == last && OnceOrTwice(t[..|t| - 1], rest) {
        OnceOrTwiceMembers(t[..|t| - 1], rest, e);
        assert t == t[..|t| - 1] + [last];
      } else {
        OnceOrTwiceMembers(t[..|t| - 2], rest, e);
        assert t == t[..|t| - 2] + [last, last];
      }
    }
  }

  /** What was enqueued for a client at a location since a given history. */
  function Since(w: World, w': World, c: string, loc: Location): seq<Event>
    requires c in w.queues && c in w'.queues
    requires |At(w.queues[c], loc)| <= |At(w'.queues[c], loc)|
  {
    At(w'.queues[c], loc)[|At(w.queues[c], loc)|..]
  }

  /** The client keeps its list and its history, which grew by its own stores' events alone. */
  ghost predicate Isolated(r: Router, w: World, w': World, ops: seq<Op>, c: string, loc: Location)
    requires c in w.owned && c in w.queues
  {
    && c in w'.owned && w'.owned[c] == w.owned[c]
    && c in w'.queues && At(w.queues[c], loc) <= At(w'.queues[c], loc)
    && OnceOrTwice(Since(w, w', c, loc), Routed(r, w.owned[c], ops, loc))
  }

  /** One delivery extends the queue of the client that holds its store, and no other queue. */
  lemma DeliverExtends(r: Router, w: World, e: Event, c: string, loc: Location)
    requires Owners(w) && c in w.owned && c != "" && Enabled(r, w, Deliver(e)) && IsUpdate(e)
    ensures c in Step(r, w, Deliver(e)).queues
    ensures At(Step(r, w, Deliver(e)).queues[c], loc)
         == At(w.queues[c], loc)
            + if e.loc == loc && Index(r, e) in w.owned[c] then Copies(e, EffectIn(r, w.ring, e).copies) else []
  {
  }

  /**
   * Isolation over every run: beyond what a client's queue held before, it holds exactly the
   * Added and Modified events since then that route to the client's stores, in order, each once
   * or twice.
   */
  lemma {:induction false} QueueHoldsOwnEvents(r: Router, w: World, ops: seq<Op>, c: string, loc: Location)
    requires Owners(w) && Legal(r, w, ops) && c in w.owned && c in w.queues && c != ""
    ensures Isolated(r, w, Run(r, w, ops), ops, c, loc)
  {
    hide *;
    if ops == [] {
      IsolatedStart(r, w, c, loc);
    } else {
      var init, op := ops[..|ops| - 1], ops[|ops| - 1];
      LastStep(r, w, ops);
      QueueHoldsOwnEvents(r, w, init, c, loc);
      RunKeepsOwners(r, w, init);
      IsolatedStep(r, w, Run(r, w, init), init, op, c, loc);
      assert init + [op] == ops;
    }
  }

  lemma LastStep(r: Router, w: World, ops: seq<Op>)
    requires ops != [] && Legal(r, w, ops)
    ensures var init, op := ops[..|ops| - 1], ops[|ops| - 1];
            Legal(r, w, init) && Enabled(r, Run(r, w, init), op) && Run(r, w, ops) == Step(r, Run(r, w, init), op)
  {
  }

  lemma IsolatedStart(r: Router, w: World, c: string, loc: Location)
    requires Owners(w) && c in w.owned
    ensures c in w.queues && Legal(r, w, []) && Isolated(r, w, Run(r, w, []), [], c, loc)
  {
  }

  lemma IsolatedStep(r: Router, w: World, mid: World, init: seq<Op>, op: Op, c: string, loc: Location)
    requires c in w.owned && c in w.queues && c != "" && Owners(mid)
    requires Isolated(r, w, mid, init, c, loc) && Enabled(r, mid, op)
    ensures Isolated(r, w, Step(r, mid, op), init + [op], c, loc)
  {
    var w', sel := Step(r, mid, op), w.owned[c];
    hide Isolated;
    match op
    case Deliver(e) =>
      if IsUpdate(e) {
        DeliverExtends(r, mid, e, c, loc);
        KeepsList(r, w, mid, init, c, loc);
        hide Step, Owners, Enabled;
        if e.loc == loc && Index(r, e) in sel {
          IsolatedExtends(r, w, mid, w', init, e, EffectIn(r, mid.ring, e).copies, c, loc);
        } else {
          IsolatedUnchanged(r, w, mid, w', init, op, c, loc);
        }
      } else {
        KeepsList(r, w, mid, init, c, loc);
        IsolatedUnchanged(r, w, mid, w', init, op, c, loc);
      }
    case Register(d, _, _, _) =>
      KeepsList(r, w, mid, init, c, loc);
      assert d != c;
      IsolatedUnchanged(r, w, mid, w', init, op, c, loc);
  }

  lemma KeepsList(r: Router, w: World, mid: World, init: seq<Op>, c: string, loc: Location)
    requires c in w.owned && c in w.queues && Isolated(r, w, mid, init, c, loc)
    ensures c in mid.owned && mid.owned[c] == w.owned[c] && c in mid.queues
  {
  }

  lemma IsolatedUnchanged(r: Router, w: World, mid: World, w': World, init: seq<Op>, op: Op, c: string, loc: Location)
    requires c in w.owned && c in w.queues && Isolated(r, w, mid, init, c, loc)
    requires op.Deliver? && IsUpdate(op.e) ==> op.e.loc != loc || Index(r, op.e) !in w.owned[c]
    requires c in w'.owned && w'.owned[c] == mid.owned[c] && c in w'.queues
    requires At(w'.queues[c], loc) == At(mid.queues[c], loc)
    ensures Isolated(r, w, w', init + [op], c, loc)
  {
    var ops := init + [op];
    assert ops[..|ops| - 1] == init;
    assert Routed(r, w.owned[c], ops, loc) == Routed(r, w.owned[c], init, loc);
  }

  lemma IsolatedExtends(r: Router, w: World, mid: World, w': World, init: seq<Op>, e: Event, n: nat, c: string,
                        loc: Location)
    requires c in w.owned && c in w.queues && Isolated(r, w, mid, init, c, loc)
    requires IsUpdate(e) && e.loc == loc && Index(r, e) in w.owned[c]
    requires c in w'.owned && w'.owned[c] == mid.owned[c] && c in w'.queues
    requires At(w'.queues[c], loc) == At(mid.queues[c], loc) + Copies(e, n)
    ensures Isolated(r, w, w', init + [Deliver(e)], c, loc)
  {
    hide OnceOrTwice, Copies;
    RoutedExtends(r, w.owned[c], init, e, loc);
    OnceOrTwiceExtends(Since(w, mid, c, loc), Routed(r, w.owned[c], init, loc), e, n);
    hide Routed;
    SinceExtends(At(w.queues[c], loc), At(mid.queues[c], loc), Copies(e, n));
  }

  lemma RoutedExtends(r: Router, sel: seq<nat>, init: seq<Op>, e: Event, loc: Location)
    requires IsUpdate(e) && e.loc == loc && Index(r, e) in sel
    ensures Routed(r, sel, init + [Deliver(e)], loc) == Routed(r, sel, init, loc) + [e]
  {
    assert (init + [Deliver(e)])[..|init|] == init;
  }

  /** What came after a prefix of a history, when the history grows. */
  lemma SinceExtends(before: seq<Event>, mid: seq<Event>, more: seq<Event>)
    requires before <= mid
    ensures before <= mid + more && (mid + more)[|before|..] == mid[|before|..] + more
  {
  }

  lemma {:induction false} RoutedMembers(r: Router, sel: seq<nat>, ops: seq<Op>, loc: Location, e: Event)
    requires e in Routed(r, sel, ops, loc)
    ensures Index(r, e) in sel
  {
    if e in Routed(r, sel, ops[..|ops| - 1], loc) {
      RoutedMembers(r, sel, ops[..|ops| - 1], loc, e);
    }
  }

  /** No event enters the queues of two clients. */
  lemma {:induction false} NoEventInTwoQueues(r: Router, w: World, ops: seq<Op>, c: string, d: string, a: Location,
                                              b: Location, e: Event)
    requires Owners(w) && Legal(r, w, ops)
    requires c in w.owned && d in w.owned && c != "" && d != "" && c != d
    ensures Isolated(r, w, Run(r, w, ops), ops, c, a) && Isolated(r, w, Run(r, w, ops), ops, d, b)
    ensures !(e in Since(w, Run(r, w, ops), c, a) && e in Since(w, Run(r, w, ops), d, b))
  {
    var w' := Run(r, w, ops);
    QueueHoldsOwnEvents(r, w, ops, c, a);
    QueueHoldsOwnEvents(r, w, ops, d, b);
    if e in Since(w, w', c, a) && e in Since(w, w', d, b) {
      OnceOrTwiceMembers(Since(w, w', c, a), Routed(r, w.owned[c], ops, a), e);
      OnceOrTwiceMembers(Since(w, w', d, b), Routed(r, w.owned[d], ops, b), e);
      RoutedMembers(r, w.owned[c], ops, a, e);
      RoutedMembers(r, w.owned[d], ops, b, e);
      SharedStore(w, c, d, Index(r, e));
    }
  }

  lemma SharedStore(w: World, c: string, d: string, i: int)
    requires Owners(w) && c in w.owned && d in w.owned && c != "" && d != ""
    requires i in w.owned[c] && i in w.owned[d]
    ensures c == d
  {
    OwnersAreExclusive(w);
  }
  // ---------------------------------------------------------------- the watch channel

  /** What a run enqueues for a client, in order, every copy of it. */
  ghost function ToldTo(r: Router, w: World, ops: seq<Op>, c: string): seq<Event>
    requires Legal(r, w, ops)
  {
    if ops == [] then []
    else
      var init, op := ops[..|ops| - 1], ops[|ops| - 1];
      var before := Run(r, w, init);
      ToldTo(r, w, init, c) +
      if op.Deliver? && IsUpdate(op.e) && before.ring.stores[Index(r, op.e)].client == c
      then Copies(op.e, EffectIn(r, before.ring, op.e).copies)
      else []
  }

  /** The queue took these events and the senders of the installed channel were handed the same. */
  ghost predicate QueuedAndHanded(w: World, w': World, c: string, told: seq<Event>)
    requires c in w.queues && c in w.channels
  {
    && c in w'.queues && c in w'.channels
    && w'.channels[c] == Channel(true, w.channels[c].senders + multiset(told))
    && forall loc :: At(w'.queues[c], loc) == At(w.queues[c], loc) + Proj(told, loc)
  }

  lemma NothingHanded(w: World, w': World, c: string)
    requires c in w.queues && c in w.channels && w.channels[c].watching
    requires c in w'.queues && c in w'.channels
    requires w'.queues[c] == w.queues[c] && w'.channels[c] == w.channels[c]
    ensures QueuedAndHanded(w, w', c, [])
  {
    assert w.channels[c].senders + multiset([]) == w.channels[c].senders;
  }

  lemma {:induction false} HolderIsHanded(w: World, w': World, e: Event, n: nat, c: string)
    requires c != "" && c in w.queues && c in w.channels && w.channels[c].watching
    requires w'.queues == Notified(w.queues, c, e, n) && w'.channels == Handed(w.channels, c, e, n)
    ensures QueuedAndHanded(w, w', c, Copies(e, n))
  {
    forall loc
      ensures Proj(Copies(e, n), loc) == if e.loc == loc then Copies(e, n) else []
    {
      ProjUniform(Copies(e, n), e.loc, loc);
    }
    hide Copies, Proj;
  }

  /** One step hands over what it enqueues. */
  lemma {:induction false} StepHands(r: Router, w: World, op: Op, c: string)
    requires Enabled(r, w, op) && c != "" && c in w.queues && c in w.channels && w.channels[c].watching
    ensures QueuedAndHanded(w, Step(r, w, op), c,
                            if op.Deliver? && IsUpdate(op.e) && w.ring.stores[Index(r, op.e)].client == c
                            then Copies(op.e, EffectIn(r, w.ring, op.e).copies) else [])
  {
    hide HostSum, IsGrant, MarksFor, EnqueueAll, EffectIn, Process, QueuedAndHanded, Copies;
    if op.Deliver? && IsUpdate(op.e) && w.ring.stores[Index(r, op.e)].client == c {
      HolderIsHanded(w, Step(r, w, op), op.e, EffectIn(r, w.ring, op.e).copies, c);
    } else {
      NothingHanded(w, Step(r, w, op), c);
    }
  }

  lemma HandedOnward(w: World, mid: World, w': World, c: string, a: seq<Event>, b: seq<Event>)
    requires c in w.queues && c in w.channels && QueuedAndHanded(w, mid, c, a) && QueuedAndHanded(mid, w', c, b)
    ensures QueuedAndHanded(w, w', c, a + b)
  {
    hide At, Proj;
    assert multiset(a + b) == multiset(a) + multiset(b);
    forall loc
      ensures At(w'.queues[c], loc) == At(w.queues[c], loc) + Proj(a + b, loc)
    {
      ProjAppend(a, b, loc);
    }
  }

  /**
   * Over every run a client that is watched is handed, through its channel, exactly what its queue
   * takes in, every occurrence of it.
   */
  lemma {:induction false} WatchedClientIsHandedAll(r: Router, w: World, ops: seq<Op>, c: string)
    requires Legal(r, w, ops) && c != "" && c in w.queues && c in w.channels && w.channels[c].watching
    ensures QueuedAndHanded(w, Run(r, w, ops), c, ToldTo(r, w, ops, c))
  {
    if ops == [] {
      assert w.channels[c].senders + multiset([]) == w.channels[c].senders;
    } else {
      var init, op := ops[..|ops| - 1], ops[|ops| - 1];
      WatchedClientIsHandedAll(r, w, init, c);
      hide Step, Enabled, Copies;
      StepHands(r, Run(r, w, init), op, c);
      var before, now := ToldTo(r, w, init, c), ToldTo(r, w, ops, c);
      HandedOnward(w, Run(r, w, init), Run(r, w, ops), c, before, now[|before|..]);
    }
  }
}
