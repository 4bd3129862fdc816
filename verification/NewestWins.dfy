/**
 * Newest-wins maps: what a stream of node events means, whatever keeps it. The node store, the
 * distributor's flat reference and a client's mirror are all compared through this module.
 */
module NewestWins {
  import opened Types

  type Key = (Location, string)
  type Versions = map<Key, Event>

  function KeyOf(e: Event): Key {
    (e.loc, e.node.id)
  }

  /** Takes an event unless a version at least as new is already there. */
  function Merge(m: Versions, e: Event): Versions {
    if KeyOf(e) in m && e.node.rv <= m[KeyOf(e)].node.rv then m else m[KeyOf(e) := e]
  }

  function MergeAll(m: Versions, es: seq<Event>): Versions {
    if es == [] then m else Merge(MergeAll(m, es[..|es| - 1]), es[|es| - 1])
  }

  /** Overwrites unconditionally: what a client does that trusts the order of its events. */
  function Upsert(m: Versions, e: Event): Versions {
    m[KeyOf(e) := e]
  }

  function UpsertAll(m: Versions, es: seq<Event>): Versions {
    if es == [] then m else Upsert(UpsertAll(m, es[..|es| - 1]), es[|es| - 1])
  }

  /** The versions of one node that are on offer: the one in the map and those in the list. */
  ghost predicate Offered(m: Versions, es: seq<Event>, k: Key, e: Event) {
    (k in m && m[k] == e) || (e in es && KeyOf(e) == k)
  }

  /** `e` is the newest version on offer, and the map's own version wins a tie. */
  ghost predicate Newest(m: Versions, es: seq<Event>, k: Key, e: Event) {
    && Offered(m, es, k, e)
    && (forall o :: Offered(m, es, k, o) ==> o.node.rv <= e.node.rv)
    && (k in m && m[k].node.rv == e.node.rv ==> m[k] == e)
  }

  /** No node occurs with two different events of the same version. */
  ghost predicate DistinctVersions(es: seq<Event>) {
    forall a, b :: a in es && b in es && KeyOf(a) == KeyOf(b) && a.node.rv == b.node.rv ==> a == b
  }

  /** Merging a list leaves exactly the newest version on offer for every node. */
  lemma {:induction false} MergeAllIsNewest(m: Versions, es: seq<Event>, k: Key)
    ensures k in MergeAll(m, es) ==> Newest(m, es, k, MergeAll(m, es)[k])
    ensures k !in MergeAll(m, es) ==> forall e :: !Offered(m, es, k, e)
  {
    if es != [] {
      var init, last := es[..|es| - 1], es[|es| - 1];
      MergeAllIsNewest(m, init, k);
      assert es == init + [last];
      forall e
        ensures Offered(m, es, k, e) <==> Offered(m, init, k, e) || (e == last && KeyOf(last) == k)
      {
      }
      var before := MergeAll(m, init);
      var after := MergeAll(m, es);
      assert after == Merge(before, last);
      assert k in m ==> Offered(m, init, k, m[k]);
      assert k in after ==> Offered(m, es, k, after[k]);
    } else {
      assert k in m ==> Offered(m, es, k, m[k]);
    }
  }

  /** Merging does not depend on the order of the events. */
  lemma MergeAllPermutes(m: Versions, a: seq<Event>, b: seq<Event>)
    requires forall e :: e in a <==> e in b
    requires DistinctVersions(a)
    ensures MergeAll(m, a) == MergeAll(m, b)
  {
    forall k
      ensures k in MergeAll(m, a) <==> k in MergeAll(m, b)
      ensures k in MergeAll(m, a) ==> MergeAll(m, a)[k] == MergeAll(m, b)[k]
    {
      MergeAllIsNewest(m, a, k);
      MergeAllIsNewest(m, b, k);
      assert forall e :: Offered(m, a, k, e) <==> Offered(m, b, k, e);
      if k in MergeAll(m, a) {
        assert Offered(m, b, k, MergeAll(m, a)[k]);
        assert Offered(m, a, k, MergeAll(m, b)[k]);
      } else {
        assert forall e :: !Offered(m, b, k, e);
      }
    }
  }

  /** Merging the same events again changes nothing. */
  lemma MergeAllIdempotent(m: Versions, es: seq<Event>)
    ensures MergeAll(MergeAll(m, es), es) == MergeAll(m, es)
  {
    MergeAllStale(m, es, es);
  }

  lemma {:induction false} MergeAllStale(m: Versions, es: seq<Event>, again: seq<Event>)
    requires forall e :: e in again ==> e in es
    ensures MergeAll(MergeAll(m, es), again) == MergeAll(m, es)
  {
    if again != [] {
      MergeAllStale(m, es, again[..|again| - 1]);
      var last := again[|again| - 1];
      assert last in again;
      MergeAllIsNewest(m, es, KeyOf(last));
      assert Offered(m, es, KeyOf(last), last);
    }
  }

  lemma {:induction false} MergeAllAppend(m: Versions, a: seq<Event>, b: seq<Event>)
    ensures MergeAll(m, a + b) == MergeAll(MergeAll(m, a), b)
  {
    if b == [] {
      assert a + b == a;
    } else {
      MergeAllAppend(m, a, b[..|b| - 1]);
      assert (a + b)[..|a + b| - 1] == a + b[..|b| - 1];
    }
  }

  /** On events that arrive in version order per node, overwriting is merging. */
  ghost predicate InOrder(m: Versions, es: seq<Event>) {
    && (forall i, j :: 0 <= i < j < |es| && KeyOf(es[i]) == KeyOf(es[j]) ==>
         es[i].node.rv < es[j].node.rv || es[i] == es[j])
    && (forall e :: e in es && KeyOf(e) in m ==> m[KeyOf(e)].node.rv < e.node.rv || m[KeyOf(e)] == e)
  }

  lemma {:induction false} UpsertIsMergeInOrder(m: Versions, es: seq<Event>)
    requires InOrder(m, es)
    ensures UpsertAll(m, es) == MergeAll(m, es)
  {
    if es != [] {
      var init, last := es[..|es| - 1], es[|es| - 1];
      InOrderBefore(m, es);
      UpsertIsMergeInOrder(m, init);
      hide InOrder;
      MergeAllIsNewest(m, init, KeyOf(last));
      if KeyOf(last) in MergeAll(m, init) {
        OfferedBefore(m, es, MergeAll(m, init)[KeyOf(last)]);
      }
    }
  }

  lemma InOrderBefore(m: Versions, es: seq<Event>)
    requires es != [] && InOrder(m, es)
    ensures InOrder(m, es[..|es| - 1])
  {
    assert forall e :: e in es[..|es| - 1] ==> e in es;
  }

  lemma OfferedBefore(m: Versions, es: seq<Event>, cur: Event)
    requires es != [] && InOrder(m, es)
    requires Offered(m, es[..|es| - 1], KeyOf(es[|es| - 1]), cur)
    ensures cur.node.rv < es[|es| - 1].node.rv || cur == es[|es| - 1]
  {
  }
}
