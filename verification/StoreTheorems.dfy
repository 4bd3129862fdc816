/**
 * The sharded ring is a flat newest-wins map, whatever the placement, as long as no two nodes
 * in use share a position; it converges whatever the order of events.
 */
module StoreTheorems {
  import opened Types
  import opened NewestWins
  import opened EventQueue
  import opened World

  /** The nodes in use are placed on the ring, no two at the same position. */
  ghost predicate CollisionFree(r: Router, n: nat, keys: set<Key>) {
    && (forall k :: k in keys ==> 0 <= r.index(k.0, k.1) < n)
    && (forall a, b :: a in keys && b in keys && r.hash(a.0, a.1) == r.hash(b.0, b.1) ==> a == b)
  }

  /** Every event that changes the store names a node in use, at a known location. */
  ghost predicate InUse(w: RingState, keys: set<Key>, e: Event) {
    IsUpdate(e) ==> KeyOf(e) in keys && e.loc in w.rvs
  }

  ghost predicate AllInUse(w: RingState, keys: set<Key>, es: seq<Event>) {
    forall i :: 0 <= i < |es| ==> InUse(w, keys, es[i])
  }

  /** The entry of node `k` in the ring. */
  function EntryOf(r: Router, w: RingState, k: Key): Option<Event>
    requires 0 <= r.index(k.0, k.1) < |w.stores|
  {
    Lookup(w.stores[r.index(k.0, k.1)].nodes, r.hash(k.0, k.1))
  }

  /** Every entry of every store is an entry of the flat map, at its own place. */
  ghost predicate EntriesIn(r: Router, w: RingState, m: Versions) {
    forall i, h :: 0 <= i < |w.stores| && h in w.stores[i].nodes ==>
      var e := w.stores[i].nodes[h];
      KeyOf(e) in m && m[KeyOf(e)] == e && Index(r, e) == i && Hash(r, e) == h
  }

  /**
   * One Added or Modified event at its place, branch by branch: an empty place takes it; the node
   * itself takes it if it is newer; another node's place is taken by Added alone. The host count
   * grows when a node is added, and the location's counter is raised.
   */
  lemma PlaceAfterUpdate(r: Router, w: RingState, e: Event)
    requires (e.kind == Added || e.kind == Modified) && CanProcess(r, w, e)
    ensures var w', i, h := Process(r, w, e), r.index(e.loc, e.node.id), r.hash(e.loc, e.node.id);
            var nodes := w.stores[i].nodes;
            var same := h in nodes && nodes[h].node.id == e.node.id;
            && w'.stores[i].nodes
               == (if h !in nodes then nodes[h := e]
                   else if same && e.node.rv > nodes[h].node.rv then nodes[h := e]
                   else if !same && e.kind == Added then nodes[h := e]
                   else nodes)
            && w'.total == w.total + (if h !in nodes || (!same && e.kind == Added) then 1 else 0)
            && (forall j :: 0 <= j < |w.stores| && j != i ==> w'.stores[j] == w.stores[j])
            && w'.stores[i].loc == w.stores[i].loc && w'.stores[i].client == w.stores[i].client
            && w'.rvs == w.rvs[e.loc := if e.node.rv > w.rvs[e.loc] then e.node.rv else w.rvs[e.loc]]
  {
    var nodes, h := w.stores[Index(r, e)].nodes, Hash(r, e);
    assert h in nodes ==> nodes[h := nodes[h]] == nodes;
  }

  /** The copies told of: two of an Added node that is there and of a Modified one that finds the place empty. */
  lemma CopiesTold(r: Router, w: RingState, e: Event)
    requires (e.kind == Added || e.kind == Modified) && CanProcess(r, w, e)
    ensures var nodes, h := w.stores[r.index(e.loc, e.node.id)].nodes, r.hash(e.loc, e.node.id);
            var twice := if e.kind == Added then h in nodes && nodes[h].node.id == e.node.id else h !in nodes;
            Copies(e, EffectIn(r, w, e).copies) == if twice then [e, e] else [e]
  {
  }

  /** The holder of that place is told, at the event's location, and no other client is. */
  lemma ToldAfterUpdate(r: Router, w: World, e: Event)
    requires (e.kind == Added || e.kind == Modified) && CanProcess(r, w.ring, e)
    ensures var w', c := Delivered(r, w, e), w.ring.stores[r.index(e.loc, e.node.id)].client;
            var told := Copies(e, EffectIn(r, w.ring, e).copies);
            && w'.queues.Keys == w.queues.Keys && w'.channels.Keys == w.channels.Keys
            && (forall d :: d in w.queues && d != c ==> w'.queues[d] == w.queues[d])
            && (forall d :: d in w.channels && d != c ==> w'.channels[d] == w.channels[d])
            && (c != "" && c in w.queues ==> w'.queues[c] == w.queues[c][e.loc := At(w.queues[c], e.loc) + told])
            && (c != "" && c in w.channels ==>
                  && w'.channels[c].watching == w.channels[c].watching
                  && w'.channels[c].senders
                     == w.channels[c].senders + if w.channels[c].watching then multiset(told) else multiset{})
  {
    hide Process, EffectIn, Copies;
  }

  /** The ring holds the flat map `m`: the same versions, and as many hosts counted. */
  ghost predicate Represents(r: Router, w: RingState, m: Versions, keys: set<Key>) {
    && CollisionFree(r, |w.stores|, keys)
    && (forall k :: k in m ==> k in keys && KeyOf(m[k]) == k)
    && (forall k :: k in m ==> EntryOf(r, w, k) == Some(m[k]))
    && EntriesIn(r, w, m)
    && w.total == |m|
  }

  /** The events that change the store, in order. */
  function Updates(es: seq<Event>): seq<Event> {
    if es == [] then []
    else Updates(es[..|es| - 1]) + if IsUpdate(es[|es| - 1]) then [es[|es| - 1]] else []
  }

  lemma {:induction false} UpdatesMembers(es: seq<Event>, e: Event)
    ensures e in Updates(es) <==> e in es && IsUpdate(e)
  {
    if es != [] {
      UpdatesMembers(es[..|es| - 1], e);
      assert es == es[..|es| - 1] + [es[|es| - 1]];
    }
  }

  lemma EntryAt(r: Router, w: RingState, m: Versions, i: nat, h: real)
    requires EntriesIn(r, w, m) && i < |w.stores| && h in w.stores[i].nodes
    ensures var e := w.stores[i].nodes[h]; KeyOf(e) in m && m[KeyOf(e)] == e && Index(r, e) == i && Hash(r, e) == h
  {
  }

  /** A node in use is in its store exactly when it is in the flat map, with the same event. */
  lemma EntryIsFlat(r: Router, w: RingState, m: Versions, keys: set<Key>, k: Key)
    requires Represents(r, w, m, keys) && k in keys
    ensures 0 <= r.index(k.0, k.1) < |w.stores|
    ensures EntryOf(r, w, k) == if k in m then Some(m[k]) else None
  {
  }

  /** One event refines one newest-wins merge. */
  lemma {:induction false} ProcessRefinesMerge(r: Router, w: RingState, m: Versions, keys: set<Key>, e: Event)
    requires Represents(r, w, m, keys) && IsUpdate(e) && InUse(w, keys, e)
    ensures CanProcess(r, w, e)
    ensures Represents(r, Process(r, w, e), Merge(m, e), keys)
  {
    var k, i, h := KeyOf(e), Index(r, e), Hash(r, e);
    EntryIsFlat(r, w, m, keys, k);
    var w', m' := Process(r, w, e), Merge(m, e);
    if m' == m {
      assert w'.stores == w.stores;
    } else {
      assert w'.stores == w.stores[i := w.stores[i].(nodes := w.stores[i].nodes[h := e])];
      assert m' == m[k := e];
      PutRepresents(r, w, w', m, keys, e);
    }
  }

  /** `w'` is `w` with one event put at its own place. */
  ghost predicate IsPut(r: Router, w: RingState, w': RingState, e: Event) {
    && 0 <= Index(r, e) < |w.stores|
    && w'.stores
       == w.stores[Index(r, e) := w.stores[Index(r, e)].(nodes := w.stores[Index(r, e)].nodes[Hash(r, e) := e])]
  }

  lemma PutEntry(r: Router, w: RingState, w': RingState, m: Versions, keys: set<Key>, e: Event, o: Key)
    requires Represents(r, w, m, keys) && KeyOf(e) in keys && IsPut(r, w, w', e)
    requires o in m[KeyOf(e) := e]
    ensures o in keys && EntryOf(r, w', o) == Some(m[KeyOf(e) := e][o])
  {
    if o != KeyOf(e) {
      assert o in m && EntryOf(r, w, o) == Some(m[o]);
      assert r.hash(o.0, o.1) != Hash(r, e);
    }
  }

  lemma PutEntries(r: Router, w: RingState, w': RingState, m: Versions, e: Event)
    requires EntriesIn(r, w, m) && IsPut(r, w, w', e)
    requires forall k :: k in m ==> KeyOf(m[k]) == k
    ensures EntriesIn(r, w', m[KeyOf(e) := e])
  {
    var m' := m[KeyOf(e) := e];
    forall j, g | 0 <= j < |w'.stores| && g in w'.stores[j].nodes
      ensures var o := w'.stores[j].nodes[g]; KeyOf(o) in m' && m'[KeyOf(o)] == o && Index(r, o) == j && Hash(r, o) == g
    {
      if j != Index(r, e) || g != Hash(r, e) {
        EntryAt(r, w, m, j, g);
      }
    }
  }

  lemma PutRepresents(r: Router, w: RingState, w': RingState, m: Versions, keys: set<Key>, e: Event)
    requires Represents(r, w, m, keys) && KeyOf(e) in keys && IsPut(r, w, w', e)
    requires w'.total == if KeyOf(e) in m then w.total else w.total + 1
    ensures Represents(r, w', m[KeyOf(e) := e], keys)
  {
    hide EntriesIn, EntryOf;
    var m' := m[KeyOf(e) := e];
    PutEntries(r, w, w', m, e);
    PutCount(m, KeyOf(e), e);
    forall o | o in m'
      ensures o in keys && KeyOf(m'[o]) == o
      ensures EntryOf(r, w', o) == Some(m'[o])
    {
      PutEntry(r, w, w', m, keys, e, o);
    }
  }

  lemma PutCount(m: Versions, k: Key, e: Event)
    ensures |m[k := e]| == if k in m then |m| else |m| + 1
  {
    assert m[k := e].Keys == m.Keys + {k};
    assert |m[k := e]| == |m[k := e].Keys| && |m| == |m.Keys|;
  }

  lemma ProcessIgnores(r: Router, w: RingState, e: Event)
    requires !IsUpdate(e)
    ensures CanProcess(r, w, e) && Process(r, w, e) == w
  {
  }

  /**
   * Refinement over any event sequence: a ring that holds a flat map goes on to hold the map
   * that newest-wins merging of the Added and Modified events gives.
   */
  lemma {:induction false} StoreIsFlatMap(r: Router, w: RingState, m: Versions, keys: set<Key>, es: seq<Event>)
    requires Represents(r, w, m, keys) && AllInUse(w, keys, es)
    ensures forall i :: 0 <= i < |es| ==> CanProcess(r, w, es[i])
    ensures Represents(r, ProcessAll(r, w, es), MergeAll(m, Updates(es)), keys)
  {
    hide Represents, Process, Merge, CollisionFree;
    InUseCanProcess(r, w, m, keys, es);
    if es != [] {
      var init, last := es[..|es| - 1], es[|es| - 1];
      assert forall i :: 0 <= i < |init| ==> init[i] == es[i];
      StoreIsFlatMap(r, w, m, keys, init);
      var before := ProcessAll(r, w, init);
      if IsUpdate(last) {
        assert InUse(w, keys, last);
        ProcessRefinesMerge(r, before, MergeAll(m, Updates(init)), keys, last);
        assert Updates(es)[..|Updates(es)| - 1] == Updates(init);
      } else {
        ProcessIgnores(r, before, last);
        assert Updates(es) == Updates(init);
      }
    }
  }

  lemma InUseCanProcess(r: Router, w: RingState, m: Versions, keys: set<Key>, es: seq<Event>)
    requires Represents(r, w, m, keys) && AllInUse(w, keys, es)
    ensures forall i :: 0 <= i < |es| ==> CanProcess(r, w, es[i])
  {
    forall i | 0 <= i < |es|
      ensures CanProcess(r, w, es[i])
    {
      assert InUse(w, keys, es[i]);
    }
  }

  /** Reading a node reads the flat map. */
  lemma GetNodeReadsFlatMap(r: Router, w: RingState, m: Versions, keys: set<Key>, k: Key)
    requires Represents(r, w, m, keys) && k in keys
    ensures ReadNode(r, w, k.0, k.1) == if k in m then Some(m[k].node) else None
  {
  }

  /** An empty ring holds the empty map. */
  ghost predicate Empty(w: RingState) {
    w.total == 0 && forall i :: 0 <= i < |w.stores| ==> w.stores[i].nodes == map[]
  }

  /**
   * From an empty ring, over any events: a node is found exactly when an Added or Modified event
   * named it, and what is found is the one of greatest version among all of them.
   */
  lemma {:induction false} GetNodeIsNewest(r: Router, w: RingState, keys: set<Key>, es: seq<Event>, k: Key)
    requires Empty(w) && CollisionFree(r, |w.stores|, keys) && AllInUse(w, keys, es) && k in keys
    ensures forall i :: 0 <= i < |es| ==> CanProcess(r, w, es[i])
    ensures var found := ReadNode(r, ProcessAll(r, w, es), k.0, k.1);
            match found
            case None => forall e :: e in es && IsUpdate(e) ==> KeyOf(e) != k
            case Some(n) => exists e :: e in es && IsUpdate(e) && KeyOf(e) == k && e.node == n
                              && forall o :: o in es && IsUpdate(o) && KeyOf(o) == k ==> o.node.rv <= n.rv
  {
    StoreIsFlatMap(r, w, map[], keys, es);
    var w', m := ProcessAll(r, w, es), MergeAll(map[], Updates(es));
    GetNodeReadsFlatMap(r, w', m, keys, k);
    MergeAllIsNewest(map[], Updates(es), k);
    forall e ensures Offered(map[], Updates(es), k, e) <==> e in es && IsUpdate(e) && KeyOf(e) == k {
      UpdatesMembers(es, e);
    }
  }

  /** Two rings of the same size that hold the same map have the same contents. */
  lemma ContentsDetermined(r: Router, a: RingState, b: RingState, m: Versions, keys: set<Key>)
    requires Represents(r, a, m, keys) && Represents(r, b, m, keys) && |a.stores| == |b.stores|
    ensures forall i :: 0 <= i < |a.stores| ==> a.stores[i].nodes == b.stores[i].nodes
    ensures a.total == b.total
  {
    forall i | 0 <= i < |a.stores|
      ensures a.stores[i].nodes == b.stores[i].nodes
    {
      EntriesCarryOver(r, a, b, m, keys, i);
      EntriesCarryOver(r, b, a, m, keys, i);
      var x, y := a.stores[i].nodes, b.stores[i].nodes;
      assert forall h :: h in x ==> h in y && y[h] == x[h];
      assert forall h :: h in y ==> h in x;
      assert x == y;
    }
  }

  lemma EntriesCarryOver(r: Router, a: RingState, b: RingState, m: Versions, keys: set<Key>, i: nat)
    requires Represents(r, a, m, keys) && Represents(r, b, m, keys)
    requires i < |a.stores| == |b.stores|
    ensures forall h :: h in a.stores[i].nodes ==>
              h in b.stores[i].nodes && b.stores[i].nodes[h] == a.stores[i].nodes[h]
  {
  }

  /** The version counter of a location is the greatest version delivered there. */
  lemma {:induction false} VersionsAreMaxima(r: Router, w: RingState, es: seq<Event>, loc: Location)
    requires forall i :: 0 <= i < |es| ==> CanProcess(r, w, es[i])
    requires loc in w.rvs
    ensures var rv := ProcessAll(r, w, es).rvs[loc];
            && w.rvs[loc] <= rv
            && (forall e :: e in es && IsUpdate(e) && e.loc == loc ==> e.node.rv <= rv)
            && (rv == w.rvs[loc] || exists e :: e in es && IsUpdate(e) && e.loc == loc && e.node.rv == rv)
  {
    if es != [] {
      var init, last := es[..|es| - 1], es[|es| - 1];
      assert es == init + [last];
      VersionsAreMaxima(r, w, init, loc);
      assert forall e :: e in es <==> e in init || e == last;
    }
  }

  lemma {:induction false} VersionsAgree(r: Router, w: RingState, a: seq<Event>, b: seq<Event>, loc: Location)
    requires forall i :: 0 <= i < |a| ==> CanProcess(r, w, a[i])
    requires forall i :: 0 <= i < |b| ==> CanProcess(r, w, b[i])
    requires forall e :: e in a <==> e in b
    requires loc in w.rvs
    ensures ProcessAll(r, w, a).rvs[loc] == ProcessAll(r, w, b).rvs[loc]
  {
    VersionsAreMaxima(r, w, a, loc);
    VersionsAreMaxima(r, w, b, loc);
  }

  /**
   * Convergence: when no node occurs with two events of the same version, every permutation of
   * a batch leaves the same store contents, versions and host count.
   */
  lemma {:induction false} BatchOrderIsIrrelevant(r: Router, w: RingState, m: Versions, keys: set<Key>, a: seq<Event>,
                                                  b: seq<Event>)
    requires Represents(r, w, m, keys) && AllInUse(w, keys, a)
    requires multiset(a) == multiset(b)
    requires DistinctVersions(Updates(a))
    ensures forall i :: 0 <= i < |a| ==> CanProcess(r, w, a[i])
    ensures forall i :: 0 <= i < |b| ==> CanProcess(r, w, b[i])
    ensures SameContents(ProcessAll(r, w, a), ProcessAll(r, w, b))
  {
    SameMembers(a, b);
    forall i | 0 <= i < |b|
      ensures InUse(w, keys, b[i])
    {
      assert b[i] in a;
    }
    StoreIsFlatMap(r, w, m, keys, a);
    StoreIsFlatMap(r, w, m, keys, b);
    forall e ensures e in Updates(a) <==> e in Updates(b) {
      UpdatesMembers(a, e);
      UpdatesMembers(b, e);
    }
    MergeAllPermutes(m, Updates(a), Updates(b));
    var wa, wb := ProcessAll(r, w, a), ProcessAll(r, w, b);
    ContentsDetermined(r, wa, wb, MergeAll(m, Updates(a)), keys);
    forall loc | loc in w.rvs
      ensures wa.rvs[loc] == wb.rvs[loc]
    {
      VersionsAgree(r, w, a, b, loc);
    }
  }

  ghost predicate SameContents(a: RingState, b: RingState) {
    && |a.stores| == |b.stores|
    && (forall i :: 0 <= i < |a.stores| ==> a.stores[i].nodes == b.stores[i].nodes)
    && a.rvs == b.rvs
    && a.total == b.total
  }

  lemma SameMembers<T>(a: seq<T>, b: seq<T>)
    requires multiset(a) == multiset(b)
    ensures forall e :: e in a <==> e in b
  {
    assert forall e :: e in a <==> e in multiset(a);
    assert forall e :: e in b <==> e in multiset(b);
  }

  /** Processing a batch again changes nothing, whatever its versions. */
  lemma {:induction false} ReplayChangesNothing(r: Router, w: RingState, m: Versions, keys: set<Key>, es: seq<Event>)
    requires Represents(r, w, m, keys) && AllInUse(w, keys, es)
    ensures forall i :: 0 <= i < |es| ==> CanProcess(r, w, es[i])
    ensures var w' := ProcessAll(r, w, es);
            && (forall i :: 0 <= i < |es| ==> CanProcess(r, w', es[i]))
            && SameContents(ProcessAll(r, w', es), w')
  {
    hide Represents, MergeAll;
    StoreIsFlatMap(r, w, m, keys, es);
    var w', m' := ProcessAll(r, w, es), MergeAll(m, Updates(es));
    forall i | 0 <= i < |es|
      ensures InUse(w', keys, es[i])
    {
      assert InUse(w, keys, es[i]);
    }
    StoreIsFlatMap(r, w', m', keys, es);
    MergeAllIdempotent(m, Updates(es));
    ContentsDetermined(r, w', ProcessAll(r, w', es), m', keys);
    forall loc | loc in w.rvs
      ensures ProcessAll(r, w', es).rvs[loc] == w'.rvs[loc]
    {
      VersionsReplayed(r, w, es, loc);
    }
  }

  lemma VersionsReplayed(r: Router, w: RingState, es: seq<Event>, loc: Location)
    requires forall i :: 0 <= i < |es| ==> CanProcess(r, w, es[i])
    requires loc in w.rvs
    ensures forall i :: 0 <= i < |es| ==> CanProcess(r, ProcessAll(r, w, es), es[i])
    ensures ProcessAll(r, ProcessAll(r, w, es), es).rvs[loc] == ProcessAll(r, w, es).rvs[loc]
  {
    var w' := ProcessAll(r, w, es);
    forall i | 0 <= i < |es|
      ensures CanProcess(r, w', es[i])
    {
      assert CanProcess(r, w, es[i]);
    }
    hide ProcessAll, CanProcess;
    VersionsAreMaxima(r, w, es, loc);
    VersionsAreMaxima(r, w', es, loc);
  }
}
