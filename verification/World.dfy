/**
 * The distributor's state as a value, and what one event and one registration do to it. The
 * classes in NodeStore.dfy and Distributor.dfy are proved against these functions.
 */
module World {
  import opened Types
  import opened EventQueue

  /** A virtual node store. An empty client name means the store is unassigned. */
  datatype VStore = VStore(loc: Location, nodes: map<real, Event>, client: string)

  /** The sharded ring, the newest version per location, and the number of hosts counted. */
  datatype RingState = RingState(stores: seq<VStore>, rvs: map<Location, nat>, total: nat)

  /** A client's watch channel: whether it is installed, and the events handed to it that still wait. */
  datatype Channel = Channel(watching: bool, senders: multiset<Event>)

  /** The ring, each client's queue history, the stores each client holds, and its watch channel. */
  datatype World = World(ring: RingState, queues: map<string, History>, owned: map<string, seq<nat>>,
                         channels: map<string, Channel>)

  /**
   * How nodes are placed: the store a node goes to and its key there. Ring.dfy gives the placement
   * of the hash ring; the theorems about stores and queues hold for every placement.
   */
  datatype Router = Router(index: (Location, string) -> int, hash: (Location, string) -> real)

  function Index(r: Router, e: Event): int {
    r.index(e.loc, e.node.id)
  }

  function Hash(r: Router, e: Event): real {
    r.hash(e.loc, e.node.id)
  }

  // ---------------------------------------------------------------- one event

  /** What an event does to its store: put it there, count a host, and how often it is enqueued. */
  datatype Effect = Effect(put: bool, grows: bool, copies: nat)

  function Lookup(nodes: map<real, Event>, k: real): Option<Event> {
    if k in nodes then Some(nodes[k]) else None
  }

  function EffectOf(cur: Option<Event>, e: Event): Effect {
    match cur
    case None => Effect(true, true, if e.kind.Added? then 1 else 2)
    case Some(held) =>
      if held.node.id == e.node.id then Effect(held.node.rv < e.node.rv, false, if e.kind.Added? then 2 else 1)
      else if e.kind.Added? then Effect(true, true, 1)
      else Effect(false, false, 1)
  }

  /** The write of an add: None when the node itself is already there. */
  function AddTo(nodes: map<real, Event>, k: real, e: Event): Option<map<real, Event>> {
    if k in nodes && nodes[k].node.id == e.node.id then None else Some(nodes[k := e])
  }

  /** The write of an update: None when the position is empty. */
  function UpdateIn(nodes: map<real, Event>, k: real, e: Event): Option<map<real, Event>> {
    if k !in nodes then None
    else if nodes[k].node.id == e.node.id && nodes[k].node.rv < e.node.rv then Some(nodes[k := e])
    else Some(nodes)
  }

  /** The ring with other nodes in one store and more hosts counted. */
  function WithNodes(w: RingState, i: nat, nodes: map<real, Event>, added: nat): RingState
    requires i < |w.stores|
  {
    RingState(w.stores[i := w.stores[i].(nodes := nodes)], w.rvs, w.total + added)
  }

  /** The source indexes out of range, and panics, on every other event. */
  predicate CanProcess(r: Router, w: RingState, e: Event) {
    IsUpdate(e) ==> 0 <= Index(r, e) < |w.stores| && e.loc in w.rvs
  }

  function EffectIn(r: Router, w: RingState, e: Event): Effect
    requires IsUpdate(e) && CanProcess(r, w, e)
  {
    EffectOf(Lookup(w.stores[Index(r, e)].nodes, Hash(r, e)), e)
  }

  function Raised(rvs: map<Location, nat>, e: Event): map<Location, nat>
    requires e.loc in rvs
  {
    if rvs[e.loc] < e.node.rv then rvs[e.loc := e.node.rv] else rvs
  }

  function Process(r: Router, w: RingState, e: Event): (w': RingState)
    requires CanProcess(r, w, e)
    ensures |w'.stores| == |w.stores| && w'.rvs.Keys == w.rvs.Keys
  {
    if !IsUpdate(e) then w
    else
      var i, k, f := Index(r, e), Hash(r, e), EffectIn(r, w, e);
      RingState(
        if f.put then w.stores[i := w.stores[i].(nodes := w.stores[i].nodes[k := e])] else w.stores,
        Raised(w.rvs, e),
        if f.grows then w.total + 1 else w.total)
  }

  function ProcessAll(r: Router, w: RingState, es: seq<Event>): (w': RingState)
    requires forall i :: 0 <= i < |es| ==> CanProcess(r, w, es[i])
    ensures |w'.stores| == |w.stores| && w'.rvs.Keys == w.rvs.Keys
  {
    if es == [] then w
    else
      var before := ProcessAll(r, w, es[..|es| - 1]);
      assert CanProcess(r, w, es[|es| - 1]) && before.rvs.Keys == w.rvs.Keys;
      Process(r, before, es[|es| - 1])
  }

  /** The reads of the node store. */
  function ReadNode(r: Router, w: RingState, loc: Location, id: string): Option<Node>
    requires 0 <= r.index(loc, id) < |w.stores|
  {
    match Lookup(w.stores[r.index(loc, id)].nodes, r.hash(loc, id))
    case Some(e) => Some(e.node)
    case None => None
  }

  function Copies(e: Event, n: nat): seq<Event> {
    if n == 2 then [e, e] else [e]
  }

  function EnqueuedTimes(h: History, e: Event, n: nat): History {
    h[e.loc := At(h, e.loc) + Copies(e, n)]
  }

  function EnqueueAll(h: History, es: seq<Event>): History {
    if es == [] then h else Enqueued(EnqueueAll(h, es[..|es| - 1]), es[|es| - 1])
  }

  /** The queues after `n` copies of an event went to the queue of client `c`, if it has one. */
  function Notified(queues: map<string, History>, c: string, e: Event, n: nat): map<string, History> {
    if c == "" || c !in queues then queues else queues[c := EnqueuedTimes(queues[c], e, n)]
  }

  /** The channels after `n` copies of an event went to client `c`: only an installed one is handed them. */
  function Handed(channels: map<string, Channel>, c: string, e: Event, n: nat): map<string, Channel> {
    if c == "" || c !in channels || !channels[c].watching then channels
    else channels[c := Channel(true, channels[c].senders + multiset(Copies(e, n)))]
  }

  /** An event reaches the queue of the client that holds its store, and no other. */
  function Queued(r: Router, w: World, e: Event): map<string, History>
    requires IsUpdate(e) && CanProcess(r, w.ring, e)
  {
    Notified(w.queues, w.ring.stores[Index(r, e)].client, e, EffectIn(r, w.ring, e).copies)
  }

  function Delivered(r: Router, w: World, e: Event): World
    requires CanProcess(r, w.ring, e)
  {
    if !IsUpdate(e) then World(Process(r, w.ring, e), w.queues, w.owned, w.channels)
    else
      var holder, n := w.ring.stores[Index(r, e)].client, EffectIn(r, w.ring, e).copies;
      World(Process(r, w.ring, e), Queued(r, w, e), w.owned, Handed(w.channels, holder, e, n))
  }

  function DeliverAll(r: Router, w: World, es: seq<Event>): (w': World)
    requires forall i :: 0 <= i < |es| ==> CanProcess(r, w.ring, es[i])
    ensures |w'.ring.stores| == |w.ring.stores| && w'.ring.rvs.Keys == w.ring.rvs.Keys
    ensures w'.ring == ProcessAll(r, w.ring, es) && w'.owned == w.owned
  {
    if es == [] then w
    else
      var before := DeliverAll(r, w, es[..|es| - 1]);
      assert CanProcess(r, w.ring, es[|es| - 1]) && before.ring.rvs.Keys == w.ring.rvs.Keys;
      Delivered(r, before, es[|es| - 1])
  }

  // ---------------------------------------------------------------- one registration

  datatype RegError = BelowMinimum | ExceedsLimit | ExceedsCapacity | ClientExists | NoHosts | NotEnoughHosts

  const MINIMAL_REQUEST := 50

  /** Hosts in the stores whose index lies in `s`. */
  function HostSum(stores: seq<VStore>, s: set<nat>): nat {
    if stores == [] then 0
    else
      var n := |stores| - 1;
      HostSum(stores[..n], s) + if n in s then |stores[n].nodes| else 0
  }

  predicate InRange(stores: seq<VStore>, sel: seq<nat>) {
    forall j :: 0 <= j < |sel| ==> sel[j] < |stores|
  }

  /** Hosts in a list of stores. */
  function HostsOf(stores: seq<VStore>, sel: seq<nat>): nat
    requires InRange(stores, sel)
  {
    if sel == [] then 0
    else HostsOf(stores, sel[..|sel| - 1]) + |stores[sel[|sel| - 1]].nodes|
  }

  function Indices(n: nat): (s: set<nat>)
    ensures forall i: nat :: i in s <==> i < n
  {
    if n == 0 then {} else Indices(n - 1) + {n - 1}
  }

  /** Unassigned stores, and those of them that hold hosts. */
  function Unassigned(stores: seq<VStore>): set<nat> {
    set i: nat | i < |stores| && stores[i].client == ""
  }

  function FreeStores(stores: seq<VStore>): set<nat> {
    set i: nat | i < |stores| && stores[i].client == "" && stores[i].nodes != map[]
  }

  /** The checks of a registration, in the order the source makes them. */
  function Refusal(w: World, c: string, request: int): Option<RegError> {
    if request <= MINIMAL_REQUEST then Some(BelowMinimum)
    else if request > w.ring.total then Some(ExceedsLimit)
    else if HostSum(w.ring.stores, Indices(|w.ring.stores|)) < request then Some(ExceedsCapacity)
    else if c in w.queues || c in w.owned then Some(ClientExists)
    else if FreeStores(w.ring.stores) == {} then Some(NoHosts)
    else if HostSum(w.ring.stores, FreeStores(w.ring.stores)) < request then Some(NotEnoughHosts)
    else None
  }

  predicate NoDuplicates(s: seq<nat>) {
    forall i, j :: 0 <= i < j < |s| ==> s[i] != s[j]
  }

  /** The free stores granted: enough for the request, and too few without the last. */
  predicate IsGrant(stores: seq<VStore>, request: int, sel: seq<nat>) {
    && NoDuplicates(sel)
    && InRange(stores, sel)
    && (forall j :: 0 <= j < |sel| ==> sel[j] in FreeStores(stores))
    && sel != []
    && HostsOf(stores, sel) >= request
    && HostsOf(stores, sel[..|sel| - 1]) < request
  }

  predicate Seen(stores: seq<VStore>, firsts: seq<nat>, loc: Location)
    requires InRange(stores, firsts)
  {
    exists i :: 0 <= i < |firsts| && stores[firsts[i]].loc == loc
  }

  /** The first selected store of each location, in selection order. */
  function FirstOfLocation(stores: seq<VStore>, sel: seq<nat>): (r: seq<nat>)
    requires InRange(stores, sel)
    ensures InRange(stores, r)
  {
    if sel == [] then []
    else
      var firsts, last := FirstOfLocation(stores, sel[..|sel| - 1]), sel[|sel| - 1];
      if Seen(stores, firsts, stores[last].loc) then firsts else firsts + [last]
  }

  /** A bookmark of some node of a store. */
  ghost predicate BookmarkOf(s: VStore, e: Event) {
    e.kind == Bookmark && exists k :: k in s.nodes && e.loc == s.nodes[k].loc && e.node == s.nodes[k].node
  }

  ghost predicate MarksFor(stores: seq<VStore>, sel: seq<nat>, marks: seq<Event>)
    requires InRange(stores, sel)
  {
    var firsts := FirstOfLocation(stores, sel);
    |marks| == |firsts| && forall j :: 0 <= j < |marks| ==> BookmarkOf(stores[firsts[j]], marks[j])
  }

  /** A store refuses assignment to the empty client name. */
  function Assign(stores: seq<VStore>, sel: seq<nat>, c: string): (r: seq<VStore>)
    ensures |r| == |stores|
    ensures forall i :: 0 <= i < |r| ==> r[i] == if i in sel && c != "" then stores[i].(client := c) else stores[i]
  {
    seq(|stores|, i requires 0 <= i < |stores| => if i in sel && c != "" then stores[i].(client := c) else stores[i])
  }

  // ---------------------------------------------------------------- runs

  /** A registration is nondeterministic in the stores picked and in the nodes bookmarked. */
  datatype Op = Deliver(e: Event) | Register(client: string, request: int, sel: seq<nat>, marks: seq<Event>)

  ghost predicate Enabled(r: Router, w: World, op: Op) {
    match op
    case Deliver(e) => CanProcess(r, w.ring, e)
    case Register(c, request, sel, marks) =>
      Refusal(w, c, request) == None && IsGrant(w.ring.stores, request, sel) && MarksFor(w.ring.stores, sel, marks)
  }

  ghost function Step(r: Router, w: World, op: Op): World
    requires Enabled(r, w, op)
  {
    match op
    case Deliver(e) => Delivered(r, w, e)
    case Register(c, request, sel, marks) =>
      World(w.ring.(stores := Assign(w.ring.stores, sel, c)),
            w.queues[c := EnqueueAll(map[], marks)],
            w.owned[c := sel],
            w.channels[c := Channel(false, multiset{})])
  }

  ghost predicate Legal(r: Router, w: World, ops: seq<Op>)
    decreases |ops|, 0
  {
    ops == [] || (Legal(r, w, ops[..|ops| - 1]) && Enabled(r, Run(r, w, ops[..|ops| - 1]), ops[|ops| - 1]))
  }

  ghost function Run(r: Router, w: World, ops: seq<Op>): World
    requires Legal(r, w, ops)
    decreases |ops|, 1
  {
    if ops == [] then w else Step(r, Run(r, w, ops[..|ops| - 1]), ops[|ops| - 1])
  }

  function Deliveries(es: seq<Event>): seq<Op> {
    seq(|es|, i requires 0 <= i < |es| => Deliver(es[i]))
  }

  /** Delivering a batch is a run of single deliveries. */
  lemma {:induction false} BatchIsRun(r: Router, w: World, es: seq<Event>)
    requires forall i :: 0 <= i < |es| ==> CanProcess(r, w.ring, es[i])
    ensures Legal(r, w, Deliveries(es))
    ensures Run(r, w, Deliveries(es)) == DeliverAll(r, w, es)
  {
    if es != [] {
      var init, ops := es[..|es| - 1], Deliveries(es);
      BatchIsRun(r, w, init);
      assert ops[..|ops| - 1] == Deliveries(init);
      assert CanProcess(r, w.ring, es[|es| - 1]);
    }
  }

  /** The distributor before anything happened. */
  ghost predicate Initial(w: World) {
    && (forall i :: 0 <= i < |w.ring.stores| ==> w.ring.stores[i].nodes == map[] && w.ring.stores[i].client == "")
    && (forall loc :: loc in w.ring.rvs ==> w.ring.rvs[loc] == 0)
    && w.ring.total == 0
    && w.queues == map[] && w.owned == map[] && w.channels == map[]
  }
}
