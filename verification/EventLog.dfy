/**
 * The circular event log of one location, kept against the history of everything that was
 * ever put into it, evicted events included.
 */
module EventLog {
  import opened Types

  /** Capacity of the circular array. */
  const LENGTH: nat := 10000

  ghost predicate Sorted(s: seq<Event>) {
    forall i, j :: 0 <= i <= j < |s| ==> s[i].node.rv <= s[j].node.rv
  }

  /** The events of a history whose resource version exceeds `rv`, in order. */
  function Newer(s: seq<Event>, rv: nat): seq<Event> {
    if s == [] then []
    else (if s[0].node.rv > rv then [s[0]] else []) + Newer(s[1..], rv)
  }

  /** Position of the oldest event still held once `n` events were enqueued. */
  function WindowStart(n: nat): nat {
    if n <= LENGTH then 0 else n - LENGTH
  }

  function Window(s: seq<Event>): seq<Event> {
    s[WindowStart(|s|)..]
  }

  /** What is held of a history: all of it, or its last 10000 events. */
  lemma {:induction false} WindowHolds(s: seq<Event>)
    ensures Window(s) == if |s| <= 10000 then s else s[|s| - 10000..]
  {
    assert s[0..] == s;
  }

  /** Answers of the index search. */
  datatype SearchResult = Found(pos: nat) | EmptyQueue | TooOld | EndOfQueue

  lemma {:induction false} NewerOfLater(s: seq<Event>, rv: nat)
    requires forall i :: 0 <= i < |s| ==> s[i].node.rv > rv
    ensures Newer(s, rv) == s
  {
    if s != [] {
      NewerOfLater(s[1..], rv);
      assert s == [s[0]] + s[1..];
    }
  }

  lemma {:induction false} NewerSkips(s: seq<Event>, p: nat, rv: nat)
    requires p <= |s|
    requires forall i :: 0 <= i < p ==> s[i].node.rv <= rv
    ensures Newer(s, rv) == Newer(s[p..], rv)
  {
    if p > 0 {
      NewerSkips(s[1..], p - 1, rv);
      assert s[1..][p - 1..] == s[p..];
    } else {
      assert s[0..] == s;
    }
  }

  lemma {:induction false} NewerMembers(s: seq<Event>, rv: nat, e: Event)
    ensures e in Newer(s, rv) <==> e in s && e.node.rv > rv
  {
    if s != [] {
      NewerMembers(s[1..], rv, e);
      assert s == [s[0]] + s[1..];
    }
  }

  /**
   * No silent gap: on a sorted history, everything from the first newer event on is exactly
   * what the whole history, evicted events included, holds beyond the requested version.
   */
  lemma NoSilentGap(s: seq<Event>, start: nat, p: nat, rv: nat)
    requires Sorted(s)
    requires start <= p <= |s|
    requires start < |s| && s[start].node.rv <= rv
    requires start < p ==> s[p - 1].node.rv <= rv
    requires p < |s| ==> s[p].node.rv > rv
    ensures Newer(s, rv) == s[p..]
  {
    NewerSkips(s, p, rv);
    NewerOfLater(s[p..], rv);
  }

  /** Distinct positions of one window use distinct slots of the array. */
  lemma SlotsDistinct(i: nat, j: nat)
    requires i < j < i + LENGTH
    ensures i % LENGTH != j % LENGTH
  {
  }

  class NodeEventQueueByLoc {
    const circularEventQueue: array<Option<Event>>
    var startPos: nat
    var endPos: nat
    ghost var history: seq<Event>

    ghost predicate Valid()
      reads this, circularEventQueue
    {
      && circularEventQueue.Length == LENGTH
      && endPos == |history|
      && startPos == WindowStart(|history|)
      && forall i :: startPos <= i < endPos ==> circularEventQueue[i % LENGTH] == Some(history[i])
    }

    constructor ()
      ensures Valid() && fresh(circularEventQueue)
      ensures history == []
    {
      circularEventQueue := new Option<Event>[LENGTH](_ => None);
      startPos, endPos, history := 0, 0, [];
    }

    method EnqueueEvent(e: Event)
      requires Valid()
      modifies this, circularEventQueue
      ensures Valid()
      ensures history == old(history) + [e]
    {
      if endPos == startPos + LENGTH {
        startPos := startPos + 1;
      }
      forall i | startPos <= i < endPos
        ensures i % LENGTH != endPos % LENGTH
      {
        SlotsDistinct(i, endPos);
      }
      circularEventQueue[endPos % LENGTH] := Some(e);
      endPos := endPos + 1;
      history := history + [e];
    }

    /** Everything from a position on, or None when the log is empty or the position is outside it. */
    method GetEventsFromIndex(startIndex: int) returns (r: Option<seq<Event>>)
      requires Valid()
      ensures r == if history != [] && WindowStart(|history|) <= startIndex <= |history|
                   then Some(history[startIndex..]) else None
    {
      if startPos == endPos || startPos > startIndex || startIndex > endPos {
        return None;
      }
      var result := [];
      var i := 0;
      while i < endPos - startIndex
        invariant 0 <= i <= endPos - startIndex
        invariant result == history[startIndex..startIndex + i]
      {
        result := result + [circularEventQueue[(startIndex + i) % LENGTH].value];
        i := i + 1;
      }
      assert history[startIndex..endPos] == history[startIndex..];
      return Some(result);
    }

    /**
     * Binary search for the first event newer than `resourceVersion`. The answer holds for any
     * history; on a sorted one it is complete.
     */
    method GetEventIndexSinceResourceVersion(resourceVersion: nat) returns (r: SearchResult)
      requires Valid()
      ensures history == [] <==> r == EmptyQueue
      ensures r == TooOld <==> history != [] && history[WindowStart(|history|)].node.rv > resourceVersion
      ensures r.Found? ==> WindowStart(|history|) < r.pos < |history|
                           && history[r.pos - 1].node.rv <= resourceVersion < history[r.pos].node.rv
      ensures r == EndOfQueue ==> history[|history| - 1].node.rv <= resourceVersion
      ensures Sorted(history) ==>
                match r
                case Found(pos) => Newer(history, resourceVersion) == history[pos..]
                case EndOfQueue => Newer(history, resourceVersion) == []
                case _ => true
    {
      if endPos - startPos == 0 {
        return EmptyQueue;
      }
      if circularEventQueue[startPos % LENGTH].value.node.rv > resourceVersion {
        return TooOld;
      }
      var index := Search(resourceVersion);
      index := index + startPos;
      if Sorted(history) {
        NoSilentGap(history, startPos, index, resourceVersion);
      }
      if index == endPos {
        return EndOfQueue;
      }
      return Found(index);
    }

    /** The library's binary search: a position where "newer than" turns from false to true. */
    method Search(resourceVersion: nat) returns (index: nat)
      requires Valid()
      ensures index <= endPos - startPos
      ensures index > 0 ==> history[startPos + index - 1].node.rv <= resourceVersion
      ensures index < endPos - startPos ==> history[startPos + index].node.rv > resourceVersion
    {
      var i, j := 0, endPos - startPos;
      while i < j
        invariant 0 <= i <= j <= endPos - startPos
        invariant i > 0 ==> history[startPos + i - 1].node.rv <= resourceVersion
        invariant j < endPos - startPos ==> history[startPos + j].node.rv > resourceVersion
      {
        var h := (i + j) / 2;
        if circularEventQueue[(startPos + h) % LENGTH].value.node.rv > resourceVersion {
          j := h;
        } else {
          i := h + 1;
        }
      }
      index := i;
    }
  }
}
