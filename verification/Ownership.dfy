/**
 * Host accounting, admission of clients, and exclusive ownership of virtual stores over every
 * run of deliveries and registrations.
 */
module Ownership {
  import opened Types
  import opened World

  // ---------------------------------------------------------------- sums of hosts

  lemma {:induction false} HostSumUpdate(stores: seq<VStore>, i: nat, s: VStore, at: set<nat>)
    requires i < |stores|
    ensures HostSum(stores[i := s], at)
         == HostSum(stores, at) + if i in at then |s.nodes| - |stores[i].nodes| else 0
  {
    var n := |stores| - 1;
    if i < n {
      HostSumUpdate(stores[..n], i, s, at);
      assert stores[i := s][..n] == stores[..n][i := s];
    } else {
      assert stores[i := s][..n] == stores[..n];
    }
  }

  lemma {:induction false} HostSumSplit(stores: seq<VStore>, a: set<nat>, b: set<nat>)
    requires a !! b
    ensures HostSum(stores, a + b) == HostSum(stores, a) + HostSum(stores, b)
  {
    if stores != [] {
      HostSumSplit(stores[..|stores| - 1], a, b);
    }
  }

  /** The sum depends only on the hosts of the stores it counts. */
  lemma {:induction false} HostSumAgrees(s: seq<VStore>, t: seq<VStore>, a: set<nat>, b: set<nat>)
    requires |s| == |t|
    requires forall i :: 0 <= i < |s| ==> (if i in a then |s[i].nodes| else 0) == (if i in b then |t[i].nodes| else 0)
    ensures HostSum(s, a) == HostSum(t, b)
  {
    if s != [] {
      HostSumAgrees(s[..|s| - 1], t[..|t| - 1], a, b);
    }
  }

  function Members(sel: seq<nat>): set<nat> {
    set i | i in sel
  }

  /** A list of distinct stores has the hosts of the set of its members. */
  lemma {:induction false} HostsOfMembers(stores: seq<VStore>, sel: seq<nat>)
    requires InRange(stores, sel) && NoDuplicates(sel)
    ensures HostsOf(stores, sel) == HostSum(stores, Members(sel))
  {
    if sel == [] {
      assert Members(sel) == {};
      HostSumNone(stores);
    } else {
      var init, last := sel[..|sel| - 1], sel[|sel| - 1];
      HostsOfMembers(stores, init);
      assert sel == init + [last];
      assert Members(sel) == Members(init) + {last};
      HostSumSplit(stores, Members(init), {last});
      HostSumOne(stores, last);
    }
  }

  lemma {:induction false} HostSumNone(stores: seq<VStore>)
    ensures HostSum(stores, {}) == 0
  {
    if stores != [] {
      HostSumNone(stores[..|stores| - 1]);
    }
  }

  lemma {:induction false} HostSumOne(stores: seq<VStore>, i: nat)
    requires i < |stores|
    ensures HostSum(stores, {i}) == |stores[i].nodes|
  {
    var n := |stores| - 1;
    if i < n {
      HostSumOne(stores[..n], i);
    } else {
      HostSumAgrees(stores[..n], stores[..n], {i}, {});
      HostSumNone(stores[..n]);
    }
  }

  function AllHosts(stores: seq<VStore>): nat {
    HostSum(stores, Indices(|stores|))
  }

  // ---------------------------------------------------------------- host accounting

  /** An Added event that meets another node at its position: it replaces that node. */
  predicate Collides(r: Router, w: RingState, e: Event)
    requires IsUpdate(e) && CanProcess(r, w, e)
  {
    var cur := Lookup(w.stores[Index(r, e)].nodes, Hash(r, e));
    e.kind.Added? && cur.Some? && cur.value.node.id != e.node.id
  }

  /** The host count gains on the stores' sizes exactly when an Added event collides. */
  lemma ProcessCounts(r: Router, w: RingState, e: Event)
    requires CanProcess(r, w, e)
    ensures Process(r, w, e).total - AllHosts(Process(r, w, e).stores)
         == w.total - AllHosts(w.stores) + if IsUpdate(e) && Collides(r, w, e) then 1 else 0
  {
    if IsUpdate(e) {
      var i, h := Index(r, e), Hash(r, e);
      var s := w.stores[i];
      HostSumUpdate(w.stores, i, s.(nodes := s.nodes[h := e]), Indices(|w.stores|));
      assert s.nodes[h := e].Keys == s.nodes.Keys + {h};
      assert |s.nodes[h := e]| == |s.nodes[h := e].Keys| && |s.nodes| == |s.nodes.Keys|;
    }
  }

  lemma AssignKeepsHosts(stores: seq<VStore>, sel: seq<nat>, c: string, at: set<nat>)
    ensures HostSum(Assign(stores, sel, c), at) == HostSum(stores, at)
  {
    HostSumAgrees(Assign(stores, sel, c), stores, at, at);
  }

  // ---------------------------------------------------------------- admission

  lemma FreeIsUnassigned(stores: seq<VStore>)
    ensures HostSum(stores, FreeStores(stores)) == HostSum(stores, Unassigned(stores)) <= AllHosts(stores)
  {
    HostSumAgrees(stores, stores, FreeStores(stores), Unassigned(stores));
    var rest := Indices(|stores|) - Unassigned(stores);
    HostSumSplit(stores, Unassigned(stores), rest);
    assert Unassigned(stores) + rest == Indices(|stores|);
  }

  /**
   * With a host count that covers the stores, a fresh client is admitted exactly when it asks for
   * more than the minimum and for no more than the unassigned stores hold.
   */
  lemma AdmissionIsExact(w: World, c: string, request: int)
    requires w.ring.total >= AllHosts(w.ring.stores)
    requires c !in w.queues && c !in w.owned
    ensures Refusal(w, c, request) == None
       <==> MINIMAL_REQUEST < request <= HostSum(w.ring.stores, Unassigned(w.ring.stores))
  {
    FreeIsUnassigned(w.ring.stores);
    if FreeStores(w.ring.stores) == {} {
      HostSumNone(w.ring.stores);
    }
  }

  /** Some unassigned store holds a node. */
  predicate HasFreeHosts(stores: seq<VStore>) {
    exists i :: 0 <= i < |stores| && stores[i].client == "" && |stores[i].nodes| > 0
  }

  /** Each answer to a registration, exactly. */
  lemma RefusalExactly(w: World, c: string, request: int)
    ensures var stores, refusal := w.ring.stores, Refusal(w, c, request);
            var known := c in w.queues || c in w.owned;
            var inLimits := 50 < request <= w.ring.total && request <= AllHosts(stores);
            var free := HostSum(stores, Unassigned(stores));
            && (refusal == Some(BelowMinimum) <==> request <= 50)
            && (refusal == Some(ExceedsLimit) <==> request > 50 && request > w.ring.total)
            && (refusal == Some(ExceedsCapacity) <==> 50 < request <= w.ring.total && request > AllHosts(stores))
            && (refusal == Some(ClientExists) <==> inLimits && known)
            && (refusal == Some(NoHosts) <==> inLimits && !known && !HasFreeHosts(stores))
            && (refusal == Some(NotEnoughHosts) <==> inLimits && !known && HasFreeHosts(stores) && request > free)
            && (refusal == None <==> inLimits && !known && request <= free)
  {
    var stores := w.ring.stores;
    FreeIsUnassigned(stores);
    if HasFreeHosts(stores) {
      var i :| 0 <= i < |stores| && stores[i].client == "" && |stores[i].nodes| > 0;
      assert i in FreeStores(stores);
    } else {
      assert FreeStores(stores) == {};
      HostSumNone(stores);
    }
    hide HostSum;
  }

  /** What an admission grants: unassigned stores with hosts, enough of them, and too few without the last. */
  lemma GrantMeans(stores: seq<VStore>, request: int, sel: seq<nat>)
    requires IsGrant(stores, request, sel)
    ensures sel != [] && NoDuplicates(sel) && InRange(stores, sel)
    ensures forall j :: 0 <= j < |sel| ==> stores[sel[j]].client == "" && |stores[sel[j]].nodes| > 0
    ensures HostSum(stores, Members(sel)) >= request
    ensures HostSum(stores, Members(sel)) - |stores[sel[|sel| - 1]].nodes| < request
  {
    HostsOfMembers(stores, sel);
    hide HostSum;
  }

  /** Whatever the order of the free stores, one prefix of it is a grant. */
  lemma GrantInAnyOrder(w: World, c: string, request: int, order: seq<nat>)
    requires Refusal(w, c, request) == None
    requires NoDuplicates(order) && Members(order) == FreeStores(w.ring.stores)
    ensures exists n :: 0 <= n <= |order| && IsGrant(w.ring.stores, request, order[..n])
  {
    var stores := w.ring.stores;
    forall j | 0 <= j < |order|
      ensures order[j] in FreeStores(stores)
    {
      assert order[j] in Members(order);
    }
    HostsOfMembers(stores, order);
    var n := ShortestPrefix(stores, request, order);
    PrefixIsGrant(stores, request, order, n);
  }

  lemma PrefixIsGrant(stores: seq<VStore>, request: int, order: seq<nat>, n: nat)
    requires NoDuplicates(order) && InRange(stores, order) && 0 < n <= |order|
    requires forall j :: 0 <= j < |order| ==> order[j] in FreeStores(stores)
    requires HostsOf(stores, order[..n]) >= request > HostsOf(stores, order[..n][..n - 1])
    ensures IsGrant(stores, request, order[..n])
  {
    hide HostsOf, FreeStores;
    assert forall j :: 0 <= j < n ==> order[..n][j] == order[j];
  }

  /** No other prefix of that order is a grant. */
  lemma GrantIsUnique(stores: seq<VStore>, request: int, order: seq<nat>, a: nat, b: nat)
    requires InRange(stores, order) && a <= b <= |order|
    requires IsGrant(stores, request, order[..a]) && IsGrant(stores, request, order[..b])
    ensures a == b
  {
    if a < b {
      PrefixHosts(stores, order, a, b - 1);
      SubPrefix(order, b);
    }
  }

  lemma SubPrefix(order: seq<nat>, b: nat)
    requires 0 < b <= |order|
    ensures order[..b][..b - 1] == order[..b - 1]
  {
  }

  lemma ShortestPrefix(stores: seq<VStore>, request: int, order: seq<nat>) returns (n: nat)
    requires InRange(stores, order) && HostsOf(stores, order) >= request > 0
    ensures 0 < n <= |order|
    ensures HostsOf(stores, order[..n]) >= request > HostsOf(stores, order[..n][..n - 1])
  {
    n := |order|;
    assert order[..n] == order;
    while HostsOf(stores, order[..n][..n - 1]) >= request
      invariant 0 < n <= |order|
      invariant HostsOf(stores, order[..n]) >= request
      decreases n
    {
      assert order[..n][..n - 1] == order[..n - 1];
      n := n - 1;
    }
  }

  lemma {:induction false} PrefixHosts(stores: seq<VStore>, order: seq<nat>, a: nat, b: nat)
    requires InRange(stores, order) && a <= b <= |order|
    ensures HostsOf(stores, order[..a]) <= HostsOf(stores, order[..b])
  {
    if a < b {
      PrefixHosts(stores, order, a, b - 1);
      assert order[..b][..b - 1] == order[..b - 1];
    }
  }

  // ---------------------------------------------------------------- exclusive ownership

  /** Stores and client lists agree on who holds what; the empty name never holds a store. */
  ghost predicate Owners(w: World) {
    && w.owned.Keys == w.queues.Keys
    && (forall c :: c in w.owned ==> NoDuplicates(w.owned[c]) && InRange(w.ring.stores, w.owned[c]))
    && (forall c, i :: c in w.owned && c != "" && i in w.owned[c] ==> w.ring.stores[i].client == c)
    && (forall i :: 0 <= i < |w.ring.stores| && w.ring.stores[i].client != "" ==>
          w.ring.stores[i].client in w.owned && i in w.owned[w.ring.stores[i].client])
  }

  lemma ProcessKeepsStores(r: Router, w: RingState, e: Event)
    requires CanProcess(r, w, e)
    ensures forall i :: 0 <= i < |w.stores| ==>
              && Process(r, w, e).stores[i].client == w.stores[i].client
              && Process(r, w, e).stores[i].loc == w.stores[i].loc
  {
  }

  lemma StepKeepsOwners(r: Router, w: World, op: Op)
    requires Owners(w) && Enabled(r, w, op)
    ensures Owners(Step(r, w, op))
  {
    hide Owners, HostSum, HostsOf, MarksFor, EnqueueAll;
    match op
    case Deliver(e) =>
      DeliverKeepsOwners(r, w, e);
    case Register(c, request, sel, marks) =>
      OwnersAreQueued(w);
      RegisterKeepsOwners(w, Step(r, w, op), c, sel);
  }

  lemma OwnersAreQueued(w: World)
    requires Owners(w)
    ensures w.owned.Keys == w.queues.Keys
  {
  }

  lemma DeliverKeepsOwners(r: Router, w: World, e: Event)
    requires Owners(w) && CanProcess(r, w.ring, e)
    ensures Owners(Delivered(r, w, e))
  {
    ProcessKeepsStores(r, w.ring, e);
    hide Process, EffectIn, EnqueuedTimes;
  }

  lemma RegisterKeepsOwners(w: World, w': World, c: string, sel: seq<nat>)
    requires Owners(w) && c !in w.owned && NoDuplicates(sel) && InRange(w.ring.stores, sel)
    requires forall j :: 0 <= j < |sel| ==> w.ring.stores[sel[j]].client == ""
    requires w'.ring.stores == Assign(w.ring.stores, sel, c)
    requires w'.owned == w.owned[c := sel] && w'.queues.Keys == w.queues.Keys + {c}
    ensures Owners(w')
  {
  }

  /** Over every run a store's client is `c` exactly when the store is in `c`'s list. */
  lemma {:induction false} RunKeepsOwners(r: Router, w: World, ops: seq<Op>)
    requires Owners(w) && Legal(r, w, ops)
    ensures Owners(Run(r, w, ops))
  {
    if ops != [] {
      RunKeepsOwners(r, w, ops[..|ops| - 1]);
      StepKeepsOwners(r, Run(r, w, ops[..|ops| - 1]), ops[|ops| - 1]);
    }
  }

  ghost function ClientHosts(w: World, cs: set<string>): nat
    requires Owners(w) && cs <= w.owned.Keys
  {
    if cs == {} then 0
    else
      var c :| c in cs;
      HostsOf(w.ring.stores, w.owned[c]) + ClientHosts(w, cs - {c})
  }

  function HeldBy(stores: seq<VStore>, cs: set<string>): set<nat> {
    set i: nat | i < |stores| && stores[i].client in cs
  }

  lemma {:induction false} ClientHostsAreHeld(w: World, cs: set<string>)
    requires Owners(w) && cs <= w.owned.Keys - {""}
    ensures ClientHosts(w, cs) == HostSum(w.ring.stores, HeldBy(w.ring.stores, cs))
  {
    var stores := w.ring.stores;
    if cs == {} {
      assert HeldBy(stores, cs) == {};
      HostSumNone(stores);
    } else {
      var c :| c in cs && ClientHosts(w, cs) == HostsOf(stores, w.owned[c]) + ClientHosts(w, cs - {c});
      ClientHostsAreHeld(w, cs - {c});
      HostsOfMembers(stores, w.owned[c]);
      assert Members(w.owned[c]) == HeldBy(stores, {c});
      assert HeldBy(stores, cs) == HeldBy(stores, {c}) + HeldBy(stores, cs - {c});
      HostSumSplit(stores, HeldBy(stores, {c}), HeldBy(stores, cs - {c}));
    }
  }

  /** No two named clients share a store. */
  ghost predicate Exclusive(w: World) {
    forall c, d, i :: c in w.owned && d in w.owned && c != "" && d != "" && i in w.owned[c] && i in w.owned[d] ==>
      c == d
  }

  /** Hosts held by named clients and hosts in unassigned stores make up all hosts. */
  lemma HostsAreConserved(w: World)
    requires Owners(w)
    ensures ClientHosts(w, w.owned.Keys - {""}) + HostSum(w.ring.stores, Unassigned(w.ring.stores))
            == AllHosts(w.ring.stores)
  {
    var stores, named := w.ring.stores, w.owned.Keys - {""};
    ClientHostsAreHeld(w, named);
    var held, free := HeldBy(stores, named), Unassigned(stores);
    forall i: nat
      ensures i in held + free <==> i in Indices(|stores|)
    {
      if i < |stores| && stores[i].client != "" {
        assert stores[i].client in w.owned;
      }
    }
    assert held + free == Indices(|stores|);
    HostSumSplit(stores, held, free);
  }

  lemma OwnersAreExclusive(w: World)
    requires Owners(w)
    ensures Exclusive(w)
  {
    forall c, d, i | c in w.owned && d in w.owned && c != "" && d != "" && i in w.owned[c] && i in w.owned[d]
      ensures c == d
    {
      assert w.ring.stores[i].client == c;
      assert w.ring.stores[i].client == d;
    }
  }

  /** The Added events of a run that met another node at their position. */
  ghost function CollisionsIn(r: Router, w: World, ops: seq<Op>): nat
    requires Legal(r, w, ops)
  {
    if ops == [] then 0
    else
      var init, last := ops[..|ops| - 1], ops[|ops| - 1];
      var before := Run(r, w, init).ring;
      CollisionsIn(r, w, init) + if last.Deliver? && IsUpdate(last.e) && Collides(r, before, last.e) then 1 else 0
  }

  /** Over every run the host count gains on the stores' sizes by exactly the number of collisions. */
  lemma {:induction false} RunCounts(r: Router, w: World, ops: seq<Op>)
    requires Legal(r, w, ops)
    ensures var w' := Run(r, w, ops);
            w'.ring.total - AllHosts(w'.ring.stores) == w.ring.total - AllHosts(w.ring.stores) + CollisionsIn(r, w, ops)
  {
    if ops != [] {
      var init, last := ops[..|ops| - 1], ops[|ops| - 1];
      RunCounts(r, w, init);
      StepCounts(r, Run(r, w, init), last);
    }
  }

  lemma StepCounts(r: Router, w: World, op: Op)
    requires Enabled(r, w, op)
    ensures Step(r, w, op).ring.total - AllHosts(Step(r, w, op).ring.stores)
         == w.ring.total - AllHosts(w.ring.stores)
            + if op.Deliver? && IsUpdate(op.e) && Collides(r, w.ring, op.e) then 1 else 0
  {
    hide AllHosts, HostSum, Collides, HostsOf, MarksFor, EnqueueAll;
    match op
    case Deliver(e) => ProcessCounts(r, w.ring, e);
    case Register(c, request, sel, marks) => AssignKeepsAllHosts(w.ring.stores, sel, c);
  }

  lemma AssignKeepsAllHosts(stores: seq<VStore>, sel: seq<nat>, c: string)
    ensures AllHosts(Assign(stores, sel, c)) == AllHosts(stores)
  {
    AssignKeepsHosts(stores, sel, c, Indices(|stores|));
  }

  lemma InitiallyNoHosts(w: World)
    requires Initial(w)
    ensures AllHosts(w.ring.stores) == 0
  {
    HostSumAgrees(w.ring.stores, w.ring.stores, Indices(|w.ring.stores|), {});
    HostSumNone(w.ring.stores);
  }

  /**
   * In every reachable state stores and lists agree, the lists of two clients share no store,
   * the host count exceeds the stores' sizes by exactly the collisions so far, and held and free
   * hosts make up all hosts.
   */
  lemma {:induction false} OwnershipOverRuns(r: Router, w: World, ops: seq<Op>)
    requires Initial(w) && Legal(r, w, ops)
    ensures var w' := Run(r, w, ops);
            && Owners(w')
            && Exclusive(w')
            && w'.ring.total == AllHosts(w'.ring.stores) + CollisionsIn(r, w, ops)
            && ClientHosts(w', w'.owned.Keys - {""}) + HostSum(w'.ring.stores, Unassigned(w'.ring.stores))
               == AllHosts(w'.ring.stores)
  {
    RunKeepsOwners(r, w, ops);
    InitiallyNoHosts(w);
    RunCounts(r, w, ops);
    OwnersAreExclusive(Run(r, w, ops));
    HostsAreConserved(Run(r, w, ops));
  }

  /**
   * The empty client name is admitted like any other and gets a list, but no store records it:
   * the stores it was granted stay free for the next client.
   */
  lemma EmptyNameHoldsNothing(r: Router, w: World, request: int, sel: seq<nat>, marks: seq<Event>)
    requires Enabled(r, w, Register("", request, sel, marks))
    ensures var w' := Step(r, w, Register("", request, sel, marks));
            && w'.owned[""] == sel
            && FreeStores(w'.ring.stores) == FreeStores(w.ring.stores)
            && forall i :: i in sel ==> i in FreeStores(w'.ring.stores)
  {
  }
}
