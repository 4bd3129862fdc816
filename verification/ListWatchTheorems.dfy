/**
 * What a client knows that lists and then watches: the listed nodes brought up to date with the
 * watch's backlog are the newest version of every node in the client's stores.
 */
module ListWatchTheorems {
  import opened Types
  import opened EventLog
  import opened EventQueue
  import opened NewestWins
  import opened StoreTheorems
  import opened VirtualStore
  import opened ListWatch

  /** The client's mirror right after the list: the snapped entries, under their own keys. */
  ghost predicate IsMirror(snaps: seq<map<real, Event>>, m: Versions) {
    && (forall p, h :: 0 <= p < |snaps| && h in snaps[p] ==>
         KeyOf(snaps[p][h]) in m && m[KeyOf(snaps[p][h])] == snaps[p][h])
    && (forall k :: k in m ==>
         exists p, h :: 0 <= p < |snaps| && h in snaps[p] && snaps[p][h] == m[k] && KeyOf(m[k]) == k)
  }

  /** The versions the list returns: the greatest one snapped at each location. */
  ghost predicate IsListedRvs(snaps: seq<map<real, Event>>, rvs: map<Location, nat>) {
    && (forall p, h :: 0 <= p < |snaps| && h in snaps[p] ==>
         snaps[p][h].loc in rvs && snaps[p][h].node.rv <= rvs[snaps[p][h].loc])
    && (forall loc :: loc in rvs ==>
         exists p, h :: 0 <= p < |snaps| && h in snaps[p] && snaps[p][h].loc == loc && snaps[p][h].node.rv == rvs[loc])
  }

  /** What a client has at hand that listed: its mirror and the versions to watch from. */
  ghost predicate HasListed(c: Setting, s: Sys, m: Versions, rvs: map<Location, nat>) {
    Inv(c, s) && s.lister.Listed? && IsMirror(s.lister.snaps, m) && IsListedRvs(s.lister.snaps, rvs)
  }

  /** Events taken from the queue, none of those missing that are newer than the list. */
  ghost predicate Suffices(h: History, rvs: map<Location, nat>, es: seq<Event>) {
    && (forall e :: e in es ==> e in At(h, e.loc))
    && (forall loc, e :: loc in rvs && e in At(h, loc) && IsUpdate(e) && e.node.rv > rvs[loc] ==> e in es)
  }

  /** The events of the client's stores that producers took up during a run, in order. */
  function BegunIn(c: Setting, steps: seq<SysStep>): seq<Event> {
    if steps == [] then []
    else
      var last := steps[|steps| - 1];
      BegunIn(c, steps[..|steps| - 1]) + if last.Begin? && Mine(c, last.e) then [last.e] else []
  }

  /** The record of newest versions is the newest-wins merge of all events taken up. */
  lemma {:induction false} LatestIsNewest(c: Setting, s: Sys, steps: seq<SysStep>)
    requires LegalRun(c, s, steps)
    ensures After(c, s, steps).latest == MergeAll(s.latest, BegunIn(c, steps))
  {
    if steps != [] {
      var init, last := steps[..|steps| - 1], steps[|steps| - 1];
      LatestIsNewest(c, s, init);
      var es, mid := BegunIn(c, steps), After(c, s, init);
      assert CanStep(c, mid, last);
      if last.Begin? && Mine(c, last.e) {
        assert es[..|es| - 1] == BegunIn(c, init) && es[|es| - 1] == last.e;
        assert KeyOf(last.e) in mid.latest ==>
                 KeyOf(last.e).0 == last.e.loc && mid.latest[KeyOf(last.e)].node.rv < last.e.node.rv;
        assert Next(c, mid, last).latest == Merge(mid.latest, last.e);
      } else {
        assert es == BegunIn(c, init);
        assert Next(c, mid, last).latest == mid.latest;
      }
    }
  }

  // ---------------------------------------------------------------- completeness of the mirror

  /** Whatever is in the mirror or in the queue is known, and no newer than the newest version. */
  lemma {:induction false} MirrorIsKnown(c: Setting, s: Sys, m: Versions, rvs: map<Location, nat>, k: Key)
    requires HasListed(c, s, m, rvs) && k in m
    ensures KeyOf(m[k]) == k && Known(s, m[k])
    ensures k.0 in rvs && m[k].node.rv <= rvs[k.0]
  {
    hide LatestInv, PendingInv, StoresInv, HistInv, MarkInv, Sound;
    var snaps := s.lister.snaps;
    var p, h :| 0 <= p < |snaps| && h in snaps[p] && snaps[p][h] == m[k] && KeyOf(m[k]) == k;
    assert EntriesInv(c, s, c.sel[p], snaps[p]);
  }

  lemma QueuedIsKnown(c: Setting, s: Sys, loc: Location, e: Event)
    requires Inv(c, s) && e in At(s.hist, loc)
    ensures e.loc == loc && (IsUpdate(e) ==> Known(s, e))
  {
  }

  /** What the invariant says of one snapshot of a finished list. */
  lemma SnapshotOf(c: Setting, s: Sys, p: nat)
    requires Inv(c, s) && s.lister.Listed? && p < |c.sel|
    ensures |s.lister.snaps| == |c.sel| && c.sel[p] < |c.locs|
    ensures s.lister.snaps[p] != map[] && EntriesInv(c, s, c.sel[p], s.lister.snaps[p])
  {
    hide LatestInv, PendingInv, StoresInv, HistInv, MarkInv, EntriesInv, CollisionFree;
  }

  lemma NodeAtHome(c: Setting, s: Sys, k: Key)
    requires Inv(c, s) && k in c.keys
    ensures 0 <= c.r.index(k.0, k.1) < |c.locs| && c.locs[c.r.index(k.0, k.1)] == k.0
  {
    hide LatestInv, PendingInv, StoresInv, HistInv, MarkInv, ListInv;
  }

  /** The list names the location of every store of the client. */
  lemma ListNamesLocations(c: Setting, s: Sys, m: Versions, rvs: map<Location, nat>, p: nat)
    requires HasListed(c, s, m, rvs) && p < |c.sel|
    ensures c.sel[p] < |c.locs| && c.locs[c.sel[p]] in rvs
  {
    SnapshotOf(c, s, p);
    hide Inv, IsMirror;
    var nodes := s.lister.snaps[p];
    SomeKey(nodes.Keys);
    var h: real :| h in nodes.Keys;
    NodeAtHome(c, s, KeyOf(nodes[h]));
    assert c.locs[c.sel[p]] == nodes[h].loc;
  }

  lemma QueuedLocationsAreListed(c: Setting, s: Sys, m: Versions, rvs: map<Location, nat>, loc: Location)
    requires HasListed(c, s, m, rvs) && loc in s.hist
    ensures loc in rvs
  {
    var p :| 0 <= p < |c.sel| && c.sel[p] < |c.locs| && c.locs[c.sel[p]] == loc;
    ListNamesLocations(c, s, m, rvs, p);
  }

  /** Where the newest version of a node is, in terms of the snapshot of its store. */
  lemma NewestOf(c: Setting, s: Sys, k: Key) returns (p: nat)
    requires Inv(c, s) && s.lister.Listed? && k in s.latest
    ensures KeyOf(s.latest[k]) == k && IsUpdate(s.latest[k]) && k in c.keys
    ensures p < |c.sel| == |s.lister.snaps| && c.sel[p] == c.r.index(k.0, k.1)
    ensures SnappedOrQueued(c, s, s.lister.snaps, p, k)
  {
    hide PendingInv, StoresInv, HistInv, MarkInv, Sound, SnappedOrQueued, EntriesInv;
    assert KeyIsMine(c, k);
    p :| 0 <= p < |c.sel| && c.sel[p] == c.r.index(k.0, k.1);
  }

  /** The newest version of a node is in the mirror, or among the events of the queue newer than the list. */
  lemma {:induction false} NewestIsAtHand(c: Setting, s: Sys, m: Versions, rvs: map<Location, nat>, k: Key)
    requires HasListed(c, s, m, rvs) && k in s.latest
    ensures KeyOf(s.latest[k]) == k && IsUpdate(s.latest[k])
    ensures (k in m && m[k] == s.latest[k])
            || (k.0 in rvs && s.latest[k] in At(s.hist, k.0) && Older(c, rvs[k.0], s.latest[k].node.rv))
  {
    hide Inv;
    var p := NewestOf(c, s, k);
    var snaps, h := s.lister.snaps, c.r.hash(k.0, k.1);
    if h in snaps[p] && snaps[p][h] == s.latest[k] {
      assert KeyOf(snaps[p][h]) in m;
    } else {
      NodeAtHome(c, s, k);
      ListNamesLocations(c, s, m, rvs, p);
      var q, g :| 0 <= q < |snaps| && g in snaps[q] && snaps[q][g].loc == k.0 && snaps[q][g].node.rv == rvs[k.0];
    }
  }

  /** The client has this event: its mirror holds it, or it was sent. */
  predicate AtHand(m: Versions, es: seq<Event>, e: Event) {
    (KeyOf(e) in m && m[KeyOf(e)] == e) || e in es
  }

  /**
   * Merged with any events of the queue, in any order, the mirror is up to date if and only if the
   * newest version of every node is at hand.
   */
  lemma {:induction false} MirrorIsCurrentExactly(c: Setting, s: Sys, m: Versions, rvs: map<Location, nat>,
                                                  es: seq<Event>)
    requires HasListed(c, s, m, rvs) && forall e :: e in es ==> e in At(s.hist, e.loc)
    ensures MergeAll(m, Updates(es)) == s.latest <==> forall k :: k in s.latest ==> AtHand(m, es, s.latest[k])
  {
    hide HasListed, MergeAll, AtHand;
    var got := MergeAll(m, Updates(es));
    forall k
      ensures k in got ==> k in s.latest
      ensures k in s.latest ==> (k in got && got[k] == s.latest[k] <==> AtHand(m, es, s.latest[k]))
    {
      NodeIsCurrentExactly(c, s, m, rvs, es, k);
    }
    if forall k :: k in s.latest ==> AtHand(m, es, s.latest[k]) {
      assert got.Keys == s.latest.Keys;
    }
  }

  /** Whatever is on offer for a node is known. */
  lemma OfferedIsKnown(c: Setting, s: Sys, m: Versions, rvs: map<Location, nat>, es: seq<Event>, k: Key, e: Event)
    requires HasListed(c, s, m, rvs) && forall x :: x in es ==> x in At(s.hist, x.loc)
    requires Offered(m, Updates(es), k, e)
    ensures Known(s, e) && KeyOf(e) == k
  {
    hide Inv;
    if k in m && m[k] == e {
      MirrorIsKnown(c, s, m, rvs, k);
    } else {
      UpdatesMembers(es, e);
      QueuedIsKnown(c, s, e.loc, e);
    }
  }

  lemma {:induction false} NodeIsCurrentExactly(c: Setting, s: Sys, m: Versions, rvs: map<Location, nat>,
                                                es: seq<Event>, k: Key)
    requires HasListed(c, s, m, rvs) && forall e :: e in es ==> e in At(s.hist, e.loc)
    ensures k in MergeAll(m, Updates(es)) ==> k in s.latest
    ensures k in s.latest ==>
              (AtHand(m, es, s.latest[k]) <==>
                k in MergeAll(m, Updates(es)) && MergeAll(m, Updates(es))[k] == s.latest[k])
  {
    var got := MergeAll(m, Updates(es));
    MergeAllIsNewest(m, Updates(es), k);
    if k in got {
      OfferedIsKnown(c, s, m, rvs, es, k, got[k]);
    }
    if k in s.latest {
      NewestIsAtHand(c, s, m, rvs, k);
      UpdatesMembers(es, s.latest[k]);
      hide HasListed;
      assert AtHand(m, es, s.latest[k]) <==> Offered(m, Updates(es), k, s.latest[k]);
    }
  }

  /** Some node's newest version is the very version listed for its location, and the list did not have it. */
  ghost predicate Unlisted(s: Sys, m: Versions, rvs: map<Location, nat>) {
    exists k :: k in s.latest && k.0 in rvs && s.latest[k].node.rv == rvs[k.0] && !AtHand(m, [], s.latest[k])
  }

  /** Where versions strictly increase that does not happen. */
  lemma StrictVersionsAreListed(c: Setting, s: Sys, m: Versions, rvs: map<Location, nat>)
    requires HasListed(c, s, m, rvs) && c.strict
    ensures !Unlisted(s, m, rvs)
  {
    forall k | k in s.latest && k.0 in rvs && s.latest[k].node.rv == rvs[k.0]
      ensures AtHand(m, [], s.latest[k])
    {
      NewestIsAtHand(c, s, m, rvs, k);
    }
  }

  /** Sufficient events have the newest version of a node at hand, unless it is at the version listed. */
  lemma NewestSuffices(c: Setting, s: Sys, m: Versions, rvs: map<Location, nat>, es: seq<Event>, k: Key)
    requires HasListed(c, s, m, rvs) && Suffices(s.hist, rvs, es) && !Unlisted(s, m, rvs) && k in s.latest
    ensures AtHand(m, es, s.latest[k])
  {
    hide Inv, IsMirror, IsListedRvs;
    NewestIsAtHand(c, s, m, rvs, k);
  }

  /** Merged with any sufficient events of the queue, in any order, the mirror is up to date. */
  lemma {:induction false} MirrorCatchesUp(c: Setting, s: Sys, m: Versions, rvs: map<Location, nat>, es: seq<Event>)
    requires HasListed(c, s, m, rvs) && Suffices(s.hist, rvs, es) && !Unlisted(s, m, rvs)
    ensures MergeAll(m, Updates(es)) == s.latest
  {
    hide HasListed, Unlisted, AtHand, MergeAll, At;
    forall k | k in s.latest
      ensures AtHand(m, es, s.latest[k])
    {
      NewestSuffices(c, s, m, rvs, es, k);
    }
    MirrorIsCurrentExactly(c, s, m, rvs, es);
  }

  // ---------------------------------------------------------------- what a watch adds

  lemma {:induction false} NewerKeepsOrder(s: seq<Event>, rv: nat)
    requires Sorted(s)
    ensures Sorted(Newer(s, rv))
  {
    if s != [] {
      NewerKeepsOrder(s[1..], rv);
      forall e | e in Newer(s[1..], rv)
        ensures s[0].node.rv <= e.node.rv
      {
        NewerMembers(s[1..], rv, e);
        var i :| 0 <= i < |s[1..]| && s[1..][i] == e;
        assert s[i + 1] == e;
      }
    }
  }

  /** Events of one location come in version order. */
  ghost predicate OrderedByLocation(es: seq<Event>) {
    forall i, j :: 0 <= i < j < |es| && es[i].loc == es[j].loc ==> es[i].node.rv <= es[j].node.rv
  }

  lemma {:induction false} SortedPartsAreOrdered(es: seq<Event>)
    requires forall loc :: Sorted(Proj(es, loc))
    ensures OrderedByLocation(es)
  {
    if es != [] {
      forall loc
        ensures Sorted(Proj(es[1..], loc))
      {
        var all, rest := Proj(es, loc), Proj(es[1..], loc);
        assert all == rest || all[1..] == rest;
      }
      SortedPartsAreOrdered(es[1..]);
      forall j | 0 < j < |es| && es[0].loc == es[j].loc
        ensures es[0].node.rv <= es[j].node.rv
      {
        var all, rest := Proj(es, es[0].loc), Proj(es[1..], es[0].loc);
        ProjMembers(es[1..], es[0].loc, es[j]);
        assert es[j] == es[1..][j - 1];
        var i :| 0 <= i < |rest| && rest[i] == es[j];
        assert all[0] == es[0] && all[i + 1] == es[j];
        assert Sorted(all);
      }
    }
  }

  lemma {:induction false} UpdatesKeepOrder(es: seq<Event>)
    requires OrderedByLocation(es)
    ensures OrderedByLocation(Updates(es))
  {
    if es != [] {
      var init, last := es[..|es| - 1], es[|es| - 1];
      UpdatesKeepOrder(init);
      forall e | e in Updates(init) && e.loc == last.loc
        ensures e.node.rv <= last.node.rv
      {
        UpdatesMembers(init, e);
        var i :| 0 <= i < |init| && init[i] == e;
        assert es[i] == e;
      }
    }
  }

  lemma QueuesAreSorted(c: Setting, s: Sys)
    requires Inv(c, s)
    ensures AllSorted(s.hist)
  {
  }

  /** The events of a successful read suffice, and they come in order. */
  lemma ReadSuffices(c: Setting, s: Sys, m: Versions, rvs: map<Location, nat>, es: seq<Event>)
    requires HasListed(c, s, m, rvs) && Answers(s.hist, rvs, Events(es))
    ensures Suffices(s.hist, rvs, es)
    ensures OrderedByLocation(es)
    ensures forall e :: e in es ==> e.loc in rvs && e.node.rv > rvs[e.loc]
  {
    hide Inv, IsMirror, IsListedRvs, Sorted;
    QueuesAreSorted(c, s);
    forall loc
      ensures Sorted(Proj(es, loc))
      ensures forall e :: e in es && e.loc == loc <==> e in At(s.hist, loc) && loc in rvs && e.node.rv > rvs[loc]
    {
      if loc in s.hist {
        QueuedLocationsAreListed(c, s, m, rvs, loc);
      }
      ReadAt(s.hist, rvs, es, loc);
    }
    SortedPartsAreOrdered(es);
  }

  /** The part of a read that comes from one location. */
  lemma {:induction false} ReadAt(h: History, rvs: map<Location, nat>, es: seq<Event>, loc: Location)
    requires Answers(h, rvs, Events(es)) && AllSorted(h) && (loc in h ==> loc in rvs)
    ensures Sorted(Proj(es, loc))
    ensures forall e :: e in es && e.loc == loc <==> e in At(h, loc) && loc in rvs && e.node.rv > rvs[loc]
  {
    forall e
      ensures e in Proj(es, loc) <==> e in es && e.loc == loc
    {
      ProjMembers(es, loc, e);
    }
    if loc in h {
      NewerKeepsOrder(h[loc], rvs[loc]);
      forall e
        ensures e in Newer(h[loc], rvs[loc]) <==> e in h[loc] && e.node.rv > rvs[loc]
      {
        NewerMembers(h[loc], rvs[loc], e);
      }
    } else {
      ProjNone(es, loc);
    }
  }

  lemma {:induction false} ReadIsInOrder(c: Setting, s: Sys, m: Versions, rvs: map<Location, nat>, es: seq<Event>)
    requires HasListed(c, s, m, rvs) && Suffices(s.hist, rvs, es) && OrderedByLocation(es)
    requires forall e :: e in es ==> e.loc in rvs && e.node.rv > rvs[e.loc]
    ensures InOrder(m, Updates(es))
  {
    hide Inv, OrderedByLocation;
    var us := Updates(es);
    forall e | e in us
      ensures e in At(s.hist, e.loc)
      ensures KeyOf(e) in m ==> m[KeyOf(e)].node.rv < e.node.rv
    {
      UpdatesMembers(es, e);
      if KeyOf(e) in m {
        MirrorIsKnown(c, s, m, rvs, KeyOf(e));
      }
    }
    UpdatesKeepOrder(es);
    OrderIsStrict(c, s, es);
  }

  lemma {:induction false} OrderIsStrict(c: Setting, s: Sys, es: seq<Event>)
    requires Inv(c, s) && OrderedByLocation(Updates(es))
    requires forall e :: e in Updates(es) ==> e in At(s.hist, e.loc)
    ensures forall i, j :: 0 <= i < j < |Updates(es)| && KeyOf(Updates(es)[i]) == KeyOf(Updates(es)[j]) ==>
              Updates(es)[i].node.rv < Updates(es)[j].node.rv || Updates(es)[i] == Updates(es)[j]
  {
    forall e | e in Updates(es)
      ensures IsUpdate(e)
    {
      UpdatesMembers(es, e);
    }
    QueuedAreDistinct(c, s);
    hide Inv, Updates, HistKnown, HistHomes, IsUpdate;
    InOrderMeansStrict(s.hist, Updates(es));
  }

  lemma QueuedAreDistinct(c: Setting, s: Sys)
    requires Inv(c, s)
    ensures HistDistinct(s.hist)
  {
    hide LatestInv, PendingInv, StoresInv, MarkInv, ListInv, Sound, HistDistinct, HistKnown;
  }

  lemma InOrderMeansStrict(h: History, us: seq<Event>)
    requires HistDistinct(h) && OrderedByLocation(us)
    requires forall e :: e in us ==> IsUpdate(e) && e in At(h, e.loc)
    ensures forall i, j :: 0 <= i < j < |us| && KeyOf(us[i]) == KeyOf(us[j]) ==>
              us[i].node.rv < us[j].node.rv || us[i] == us[j]
  {
    forall i, j | 0 <= i < j < |us| && KeyOf(us[i]) == KeyOf(us[j])
      ensures us[i].node.rv < us[j].node.rv || us[i] == us[j]
    {
      assert us[i] in us && us[j] in us;
      assert us[i].loc == us[j].loc && us[i].loc in h;
      assert SameIfSameVersion(us[i], us[j]);
    }
  }

  lemma NoTwoOfOneVersion(c: Setting, s: Sys, a: Event, b: Event)
    requires Inv(c, s) && a in At(s.hist, a.loc) && b in At(s.hist, b.loc)
    ensures SameIfSameVersion(a, b)
  {
  }

  /** Events strictly newer than the list do not make up for a version at the list's own. */
  lemma UnlistedStaysBehind(c: Setting, s: Sys, m: Versions, rvs: map<Location, nat>, es: seq<Event>)
    requires HasListed(c, s, m, rvs) && Unlisted(s, m, rvs)
    requires forall e :: e in es ==> e in At(s.hist, e.loc) && e.loc in rvs && e.node.rv > rvs[e.loc]
    ensures MergeAll(m, Updates(es)) != s.latest
  {
    var k :| k in s.latest && k.0 in rvs && s.latest[k].node.rv == rvs[k.0] && !AtHand(m, [], s.latest[k]);
    NewestIsAtHand(c, s, m, rvs, k);
    assert s.latest[k] !in es;
    hide HasListed;
    MirrorIsCurrentExactly(c, s, m, rvs, es);
  }

  /**
   * List then watch, exactly: whatever the interleaving, and whether or not versions repeat, the
   * listed nodes overwritten by the watch's backlog, in the order received, are the newest version
   * of every node of the client, if and only if no newest version is at the version listed for its
   * location without having been listed.
   */
  lemma {:induction false} ListThenWatchExactly(c: Setting, s: Sys, m: Versions, rvs: map<Location, nat>,
                                                es: seq<Event>)
    requires HasListed(c, s, m, rvs) && Answers(s.hist, rvs, Events(es))
    ensures UpsertAll(m, Updates(es)) == s.latest <==> !Unlisted(s, m, rvs)
  {
    hide Inv, Answers, OrderedByLocation, Unlisted, IsMirror, IsListedRvs;
    ReadSuffices(c, s, m, rvs, es);
    ReadIsInOrder(c, s, m, rvs, es);
    UpsertIsMergeInOrder(m, Updates(es));
    if Unlisted(s, m, rvs) {
      UnlistedStaysBehind(c, s, m, rvs, es);
    } else {
      MirrorCatchesUp(c, s, m, rvs, es);
    }
  }

  /** List then watch loses nothing where versions strictly increase at each location. */
  lemma {:induction false} ListThenWatchLosesNothing(c: Setting, s: Sys, m: Versions, rvs: map<Location, nat>,
                                                     es: seq<Event>)
    requires HasListed(c, s, m, rvs) && Answers(s.hist, rvs, Events(es)) && c.strict
    ensures UpsertAll(m, Updates(es)) == s.latest
  {
    hide HasListed, Answers, Unlisted;
    ListThenWatchExactly(c, s, m, rvs, es);
    StrictVersionsAreListed(c, s, m, rvs);
  }

  /** Some location has an update newer than the list. */
  ghost predicate Missed(h: History, rvs: map<Location, nat>) {
    exists loc, e :: loc in rvs && e in At(h, loc) && IsUpdate(e) && e.node.rv > rvs[loc]
  }

  /**
   * A watch whose read ends at some location returns nothing for any of them. That loses nothing
   * exactly when no location has a newer update, and none at the version listed that was not listed.
   */
  lemma {:induction false} NothingIsEnoughExactlyWhenNothingMissed(c: Setting, s: Sys, m: Versions,
                                                                   rvs: map<Location, nat>)
    requires HasListed(c, s, m, rvs)
    ensures m == s.latest <==> !Missed(s.hist, rvs) && !Unlisted(s, m, rvs)
  {
    hide Inv, IsListedRvs;
    if Missed(s.hist, rvs) {
      var loc, e :| loc in rvs && e in At(s.hist, loc) && IsUpdate(e) && e.node.rv > rvs[loc];
      QueuedIsKnown(c, s, loc, e);
      if KeyOf(e) in m {
        MirrorIsKnown(c, s, m, rvs, KeyOf(e));
      }
    } else if Unlisted(s, m, rvs) {
      UnlistedStaysBehind(c, s, m, rvs, []);
    } else {
      MirrorCatchesUp(c, s, m, rvs, []);
    }
  }

  /** What the client has after its watch was answered. */
  function Received(r: Backlog): seq<Event>
    requires !r.Failed?
  {
    if r.Events? then r.events else []
  }

  /** A watch answered without error, with nothing only when nothing was missed, after a complete list. */
  ghost predicate GoodStart(s: Sys, m: Versions, rvs: map<Location, nat>, r: Backlog) {
    Answers(s.hist, rvs, r) && !r.Failed? && (r.Nothing? ==> !Missed(s.hist, rvs)) && !Unlisted(s, m, rvs)
  }

  /**
   * The exact condition, for every answer that is no error: the client is up to date if and only
   * if no location is at its end or no location has a newer update, and no newest version at the
   * version listed for its location was left out of the list.
   */
  lemma {:induction false} AnswerIsEnoughExactly(c: Setting, s: Sys, m: Versions, rvs: map<Location, nat>, r: Backlog)
    requires HasListed(c, s, m, rvs) && Answers(s.hist, rvs, r) && !r.Failed?
    ensures UpsertAll(m, Updates(Received(r))) == s.latest
       <==> ((forall loc :: !AtEnd(s.hist, rvs, loc)) || !Missed(s.hist, rvs)) && !Unlisted(s, m, rvs)
  {
    hide HasListed, AtEnd, Missed, Unlisted;
    if r.Events? {
      ListThenWatchExactly(c, s, m, rvs, r.events);
    } else {
      NothingIsEnoughExactlyWhenNothingMissed(c, s, m, rvs);
    }
  }

  /** A client held in one location misses nothing newer when its watch is answered with nothing. */
  lemma {:induction false} OneLocationMissesNothing(c: Setting, s: Sys, m: Versions, rvs: map<Location, nat>,
                                                    r: Backlog, home: Location)
    requires HasListed(c, s, m, rvs) && Answers(s.hist, rvs, r) && r.Nothing?
    requires forall p :: 0 <= p < |c.sel| ==> c.locs[c.sel[p]] == home
    ensures !Missed(s.hist, rvs)
  {
    var end :| AtEnd(s.hist, rvs, end);
    QueuedAtHome(c, s, end, home);
    EndHasNothingNewer(s.hist, rvs, end);
    hide Inv, AtEnd, IsMirror, IsListedRvs;
    forall loc, e | loc in rvs && e in At(s.hist, loc) && IsUpdate(e)
      ensures e.node.rv <= rvs[loc]
    {
      QueuedAtHome(c, s, loc, home);
      NewerMembers(s.hist[loc], rvs[loc], e);
    }
  }

  /** So where versions strictly increase every watch of such a client that is no error starts well. */
  lemma OneLocationStartsGood(c: Setting, s: Sys, m: Versions, rvs: map<Location, nat>, r: Backlog, home: Location)
    requires HasListed(c, s, m, rvs) && Answers(s.hist, rvs, r) && !r.Failed? && c.strict
    requires forall p :: 0 <= p < |c.sel| ==> c.locs[c.sel[p]] == home
    ensures GoodStart(s, m, rvs, r)
  {
    hide HasListed, Answers, Unlisted, Missed;
    StrictVersionsAreListed(c, s, m, rvs);
    if r.Nothing? {
      OneLocationMissesNothing(c, s, m, rvs, r, home);
    }
  }

  lemma EndHasNothingNewer(h: History, rvs: map<Location, nat>, loc: Location)
    requires AtEnd(h, rvs, loc)
    ensures loc in h && loc in rvs && Newer(h[loc], rvs[loc]) == []
  {
  }

  lemma QueuedAtHome(c: Setting, s: Sys, loc: Location, home: Location)
    requires Sound(c) && HistInv(c, s) && loc in s.hist
    requires forall p :: 0 <= p < |c.sel| ==> c.locs[c.sel[p]] == home
    ensures loc == home
  {
  }

  /** A client held in one location is up to date whatever its watch is answered, if its list was complete. */
  lemma {:induction false} OneLocationExactly(c: Setting, s: Sys, m: Versions, rvs: map<Location, nat>, r: Backlog,
                                              home: Location)
    requires HasListed(c, s, m, rvs) && Answers(s.hist, rvs, r) && !r.Failed?
    requires forall p :: 0 <= p < |c.sel| ==> c.locs[c.sel[p]] == home
    ensures UpsertAll(m, Updates(Received(r))) == s.latest <==> !Unlisted(s, m, rvs)
  {
    hide HasListed, AtEnd, Missed, Unlisted;
    AnswerIsEnoughExactly(c, s, m, rvs, r);
    if r.Nothing? {
      OneLocationMissesNothing(c, s, m, rvs, r, home);
    } else {
      assert forall loc :: !AtEnd(s.hist, rvs, loc);
    }
  }

  /** Where versions strictly increase it loses nothing. */
  lemma OneLocationLosesNothing(c: Setting, s: Sys, m: Versions, rvs: map<Location, nat>, r: Backlog, home: Location)
    requires HasListed(c, s, m, rvs) && Answers(s.hist, rvs, r) && !r.Failed? && c.strict
    requires forall p :: 0 <= p < |c.sel| ==> c.locs[c.sel[p]] == home
    ensures UpsertAll(m, Updates(Received(r))) == s.latest
  {
    hide HasListed, Answers, Unlisted;
    OneLocationExactly(c, s, m, rvs, r, home);
    StrictVersionsAreListed(c, s, m, rvs);
  }

  // ---------------------------------------------------------------- no refusal before eviction

  /**
   * Bookmark coverage for lists that snapshot store by store: at every location of the queue the
   * version listed is not too old while the first event ever queued there is held.
   */
  lemma NotTooOldBeforeEviction(c: Setting, s: Sys, m: Versions, rvs: map<Location, nat>, loc: Location)
    requires HasListed(c, s, m, rvs) && loc in s.hist && |s.hist[loc]| <= LENGTH
    ensures loc in rvs && !TooOldAt(s.hist, rvs, loc)
  {
    FirstIsShown(c, s, loc);
    hide Inv, IsMirror;
    FirstIsListed(c, s.stores, s.lister.snaps, rvs, loc, s.hist[loc][0].node.rv);
    assert Window(s.hist[loc])[0] == s.hist[loc][0];
  }

  lemma FirstIsShown(c: Setting, s: Sys, loc: Location)
    requires Inv(c, s) && s.lister.Listed? && loc in s.hist
    ensures s.hist[loc] != [] && |s.lister.snaps| == |c.sel|
    ensures ViewCovers(c, s.stores, s.lister.snaps, loc, s.hist[loc][0].node.rv)
  {
    hide Sound, LatestInv, PendingInv, StoresInv, HistInv, SnapsInv, ViewCovers;
    assert FirstCovered(c, s, loc);
  }

  /** What a finished list shows at a location is no newer than the version it returns there. */
  lemma FirstIsListed(c: Setting, stores: seq<map<real, Event>>, snaps: seq<map<real, Event>>, rvs: map<Location, nat>,
                      loc: Location, rv: nat)
    requires |snaps| == |c.sel| && ViewCovers(c, stores, snaps, loc, rv) && IsListedRvs(snaps, rvs)
    ensures loc in rvs && rv <= rvs[loc]
  {
    var p, h :| 0 <= p < |c.sel| && h in View(c, stores, snaps, p)
                && View(c, stores, snaps, p)[h].loc == loc && View(c, stores, snaps, p)[h].node.rv >= rv;
    assert snaps[p][h].loc in rvs;
  }

  /** So a watch from any such list is answered without error until then. */
  lemma NoRefusalBeforeEviction(c: Setting, s: Sys, m: Versions, rvs: map<Location, nat>, r: Backlog)
    requires HasListed(c, s, m, rvs) && Answers(s.hist, rvs, r)
    requires forall loc :: loc in s.hist ==> |s.hist[loc]| <= LENGTH
    ensures !r.Failed?
  {
    hide HasListed;
    if r.Failed? {
      NotTooOldBeforeEviction(c, s, m, rvs, r.loc);
    }
  }

  // ---------------------------------------------------------------- what is lost

  /** The mirror of a client that missed nothing is as new as the versions listed allow. */
  lemma NothingQueuedIsNewer(c: Setting, s: Sys, m: Versions, rvs: map<Location, nat>, loc: Location)
    requires HasListed(c, s, m, rvs) && !Missed(s.hist, rvs) && loc in s.hist
    ensures loc in rvs && Newer(s.hist[loc], rvs[loc]) == []
  {
    QueuedLocationsAreListed(c, s, m, rvs, loc);
    forall x | x in s.hist[loc]
      ensures x.node.rv <= rvs[loc]
    {
      QueuedBelowNewest(c, s, loc, x);
      hide Inv;
      NewestIsListed(c, s, m, rvs, KeyOf(x));
    }
    hide HasListed, Missed;
    NothingNewer(s.hist[loc], rvs[loc]);
  }

  lemma NothingNewer(h: seq<Event>, rv: nat)
    requires forall x :: x in h ==> x.node.rv <= rv
    ensures Newer(h, rv) == []
  {
    NewerSkips(h, |h|, rv);
  }

  lemma QueuedBelowNewest(c: Setting, s: Sys, loc: Location, x: Event)
    requires Inv(c, s) && loc in s.hist && x in s.hist[loc]
    ensures KeyOf(x).0 == loc && KeyOf(x) in s.latest && x.node.rv <= s.latest[KeyOf(x)].node.rv
  {
    hide Sound, LatestInv, PendingInv, StoresInv, MarkInv, ListInv, HistHomes, HistDistinct;
    assert QueuedKnown(s, loc, x);
  }

  lemma NewestIsListed(c: Setting, s: Sys, m: Versions, rvs: map<Location, nat>, k: Key)
    requires HasListed(c, s, m, rvs) && !Missed(s.hist, rvs) && k in s.latest && k.0 in rvs
    ensures s.latest[k].node.rv <= rvs[k.0]
  {
    hide Inv;
    NewestIsAtHand(c, s, m, rvs, k);
    if k in m && m[k] == s.latest[k] {
      MirrorIsKnown(c, s, m, rvs, k);
    }
  }

  /** Taking up an event keeps what the client has from its list. */
  lemma BeginKeepsListed(c: Setting, s: Sys, m: Versions, rvs: map<Location, nat>, e: Event)
    requires HasListed(c, s, m, rvs) && CanStep(c, s, Begin(e))
    ensures HasListed(c, Next(c, s, Begin(e)), m, rvs)
  {
    hide Inv, IsMirror, IsListedRvs, Mine;
    BeginKeepsInv(c, s, e);
  }

  /**
   * A later version at one location is lost while another is at its end: from every state in which
   * a client is up to date, a new event of its stores at one location leaves it behind, because
   * another location, whose queue has lost nothing yet, has nothing newer.
   */
  lemma {:induction false} EndOfOneLocationHidesAnother(c: Setting, s: Sys, m: Versions, rvs: map<Location, nat>,
                                                        e: Event, a: Location)
    requires HasListed(c, s, m, rvs) && !Missed(s.hist, rvs)
    requires CanStep(c, s, Begin(e)) && Mine(c, e)
    requires a in s.hist && a != e.loc && |s.hist[a]| <= LENGTH
    ensures var t := Next(c, s, Begin(e));
            && HasListed(c, t, m, rvs) && Answers(t.hist, rvs, Nothing)
            && UpsertAll(m, Updates(Received(Nothing))) != t.latest
  {
    hide HasListed, Mine, CanStep, Next, TooOldAt, AtEnd;
    BeginChanges(c, s, e);
    NotTooOldBeforeEviction(c, s, m, rvs, a);
    NothingQueuedIsNewer(c, s, m, rvs, a);
    BeginKeepsListed(c, s, m, rvs, e);
    NewIsNotListed(c, s, m, rvs, e);
    StillAtEnd(s.hist, rvs, e, a);
  }

  lemma BeginChanges(c: Setting, s: Sys, e: Event)
    requires CanStep(c, s, Begin(e)) && Mine(c, e)
    ensures Next(c, s, Begin(e)).hist == Enqueued(s.hist, e)
    ensures Next(c, s, Begin(e)).latest == s.latest[KeyOf(e) := e]
  {
  }

  lemma StillAtEnd(h: History, rvs: map<Location, nat>, e: Event, a: Location)
    requires a in h && a in rvs && a != e.loc && !TooOldAt(h, rvs, a) && Newer(h[a], rvs[a]) == []
    ensures AtEnd(Enqueued(h, e), rvs, a)
  {
    assert Enqueued(h, e)[a] == h[a];
  }

  /** A new event is not in the mirror. */
  lemma NewIsNotListed(c: Setting, s: Sys, m: Versions, rvs: map<Location, nat>, e: Event)
    requires HasListed(c, s, m, rvs) && CanStep(c, s, Begin(e)) && Mine(c, e)
    ensures KeyOf(e) in m ==> m[KeyOf(e)] != e
  {
    hide Inv;
    if KeyOf(e) in m {
      MirrorIsKnown(c, s, m, rvs, KeyOf(e));
    }
  }

  /**
   * Where versions may repeat: from every state in which a client has listed, a new event at the very
   * version listed for its location is in no answer, and leaves the client behind.
   */
  lemma {:induction false} EqualVersionIsLost(c: Setting, s: Sys, m: Versions, rvs: map<Location, nat>, e: Event,
                                              r: Backlog)
    requires HasListed(c, s, m, rvs) && CanStep(c, s, Begin(e)) && Mine(c, e)
    requires e.loc in rvs && e.node.rv == rvs[e.loc]
    requires Answers(Next(c, s, Begin(e)).hist, rvs, r) && !r.Failed?
    ensures var t := Next(c, s, Begin(e));
            HasListed(c, t, m, rvs) && UpsertAll(m, Updates(Received(r))) != t.latest
  {
    var t := Next(c, s, Begin(e));
    BeginKeepsListed(c, s, m, rvs, e);
    NewIsNotListed(c, s, m, rvs, e);
    assert t.latest[KeyOf(e)] == e && !AtHand(m, [], e);
    hide HasListed, CanStep, Answers;
    assert Unlisted(t, m, rvs);
    AnswerIsEnoughExactly(c, t, m, rvs, r);
  }
}
