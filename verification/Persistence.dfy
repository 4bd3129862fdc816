/**
 * Batched persistence: the helper with its wait counter, and the interleaving of the event loop
 * with the goroutines that save the batches.
 */
module Persistence {
  import opened Types

  const BATCH_SIZE: nat := 100

  function Flatten<T>(batches: seq<seq<T>>): seq<T> {
    if batches == [] then [] else Flatten(batches[..|batches| - 1]) + batches[|batches| - 1]
  }

  /** Batches of exactly the batch size, except that the last may be shorter, though not empty. */
  predicate WellBatched<T>(batches: seq<seq<T>>) {
    && (forall i :: 0 <= i < |batches| - 1 ==> |batches[i]| == BATCH_SIZE)
    && (batches != [] ==> 0 < |batches[|batches| - 1]| <= BATCH_SIZE)
  }

  /** The number of batches is the number of nodes divided by the batch size, rounded up. */
  lemma {:induction false} BatchCount<T>(batches: seq<seq<T>>)
    requires WellBatched(batches)
    ensures 100 * (|batches| - 1) <= |Flatten(batches)| <= 100 * |batches|
    ensures batches != [] ==> 100 * (|batches| - 1) < |Flatten(batches)|
  {
    if batches != [] {
      var init := batches[..|batches| - 1];
      BatchCount(init);
      FullBatches(init);
    }
  }

  lemma {:induction false} FullBatches<T>(batches: seq<seq<T>>)
    requires forall i :: 0 <= i < |batches| ==> |batches[i]| == BATCH_SIZE
    ensures |Flatten(batches)| == BATCH_SIZE * |batches|
  {
    if batches != [] {
      FullBatches(batches[..|batches| - 1]);
    }
  }

  /** Nodes split so far into full batches and a buffer that is not full yet. */
  ghost predicate Split<T>(nodes: seq<T>, batches: seq<seq<T>>, buffer: seq<T>) {
    && (forall i :: 0 <= i < |batches| ==> |batches[i]| == BATCH_SIZE)
    && |buffer| < BATCH_SIZE
    && Flatten(batches) + buffer == nodes
  }

  lemma SplitStep<T>(nodes: seq<T>, batches: seq<seq<T>>, buffer: seq<T>, x: T)
    requires Split(nodes, batches, buffer)
    ensures if |buffer| + 1 == BATCH_SIZE then Split(nodes + [x], batches + [buffer + [x]], [])
            else Split(nodes + [x], batches, buffer + [x])
  {
  }

  lemma SplitEnd<T>(nodes: seq<T>, batches: seq<seq<T>>, buffer: seq<T>)
    requires Split(nodes, batches, buffer)
    ensures var all := if buffer == [] then batches else batches + [buffer];
            && WellBatched(all) && Flatten(all) == nodes
            && forall i :: 0 <= i < |all| ==> 0 < |all[i]| <= 100 && (i < |all| - 1 ==> |all[i]| == 100)
  {
  }

  /** What is stored about the node store itself after a batch. */
  datatype NodeStoreStatus = NodeStoreStatus(regionNum: nat, partitionMaxNum: nat, virtualNodeNumPerRP: nat,
                                             currentResourceVersions: map<Location, nat>)

  lemma FlattenStep<T>(batches: seq<seq<T>>, n: nat)
    requires n < |batches|
    ensures Flatten(batches[..n + 1]) == Flatten(batches[..n]) + batches[n]
  {
    assert batches[..n + 1][..n] == batches[..n];
  }

  lemma {:induction false} FlattenPrefix<T>(batches: seq<seq<T>>, n: nat)
    requires n <= |batches|
    ensures |Flatten(batches[..n])| <= |Flatten(batches)|
    decreases |batches| - n
  {
    if n < |batches| {
      FlattenStep(batches, n);
      FlattenPrefix(batches, n + 1);
    } else {
      assert batches[..n] == batches;
    }
  }

  class DistributorPersistHelper {
    /** The wait group's counter, the batches handed to saving goroutines, and the statuses stored. */
    var counter: nat
    var launched: seq<seq<Node>>
    var statuses: seq<NodeStoreStatus>

    constructor ()
      ensures counter == 0 && launched == [] && statuses == []
    {
      counter, launched, statuses := 0, [], [];
    }

    /** Hands the status to the store, which may refuse it. */
    method PersistStoreConfigs(status: NodeStoreStatus)
      modifies this`statuses
      ensures statuses == old(statuses) + [status]
    {
      statuses := statuses + [status];
    }

    method SetWaitCount(count: nat)
      modifies this`counter
      ensures counter == old(counter) + count
    {
      counter := counter + count;
    }

    /** A wait group panics when its counter would go below zero. */
    method Done()
      requires counter > 0
      modifies this`counter
      ensures counter == old(counter) - 1
    {
      counter := counter - 1;
    }

    /**
     * Waits for every batch that was launched: whatever the store answers to each attempt, all of
     * them report and the wait ends. `accepts(b, t)` is the answer to attempt `t` of batch `b`.
     */
    method WaitForAllNodesSaved(accepts: (nat, nat) -> bool) returns (attempts: seq<nat>)
      requires counter == |Flatten(launched)|
      modifies this`counter
      ensures counter == 0
      ensures |attempts| == |launched|
      ensures forall b :: 0 <= b < |attempts| ==>
                && 1 <= attempts[b] <= 6 && (attempts[b] < 6 ==> accepts(b, attempts[b] - 1))
                && forall t :: 0 <= t < attempts[b] - 1 ==> !accepts(b, t)
    {
      attempts := [];
      for b := 0 to |launched|
        invariant |attempts| == b
        invariant |Flatten(launched[..b])| + counter == |Flatten(launched)|
        invariant forall a :: 0 <= a < b ==>
                    && 1 <= attempts[a] <= 6 && (attempts[a] < 6 ==> accepts(a, attempts[a] - 1))
                    && forall t :: 0 <= t < attempts[a] - 1 ==> !accepts(a, t)
      {
        FlattenStep(launched, b);
        FlattenPrefix(launched, b + 1);
        var batch: nat := b;
        var answers := (t: nat) => accepts(batch, t);
        var tries := Save(launched[b], answers);
        assert forall t: nat :: answers(t) == accepts(batch, t);
        attempts := attempts + [tries];
      }
      assert launched[..|launched|] == launched;
    }

    method PersistNodes(nodes: seq<Node>)
      modifies this`launched
      ensures launched == old(launched) + [nodes]
    {
      launched := launched + [nodes];
    }

    /**
     * One saving goroutine: tries until the store accepts or six attempts failed, then reports
     * every node of the batch done either way. `accepts` is the store's answer to each attempt.
     */
    method Save(nodes: seq<Node>, accepts: nat -> bool) returns (attempts: nat)
      requires counter >= |nodes|
      modifies this`counter
      ensures 1 <= attempts <= 6
      ensures forall t :: 0 <= t < attempts - 1 ==> !accepts(t)
      ensures attempts < 6 ==> accepts(attempts - 1)
      ensures counter == old(counter) - |nodes|
    {
      var retries := 0;
      while true
        invariant 0 <= retries <= 5
        invariant forall t :: 0 <= t < retries ==> !accepts(t)
        decreases 5 - retries
      {
        if accepts(retries) {
          break;
        } else if retries >= 5 {
          break;
        }
        retries := retries + 1;
      }
      attempts := retries + 1;
      for i := 0 to |nodes|
        invariant counter == old(counter) - i
      {
        Done();
      }
    }
  }

  // ---------------------------------------------------------------- interleavings

  /** A saving goroutine: attempts made so far, whether it stopped trying, and reports still due. */
  datatype Saver = Saver(attempts: nat, accepted: bool, stopped: bool, due: nat)

  /** The event loop's unread events (false for nil), its unsent nodes, the savers, the counter. */
  datatype Saving = Saving(unread: seq<bool>, held: nat, savers: seq<Saver>, counter: int)

  function Due(savers: seq<Saver>): nat {
    if savers == [] then 0 else Due(savers[..|savers| - 1]) + savers[|savers| - 1].due
  }

  datatype SavingStep = ReadEvent | Flush | Attempt(i: nat, accepts: bool) | Report(i: nat)

  function Launch(s: Saving, n: nat): Saving {
    s.(held := 0, savers := s.savers + [Saver(0, false, false, n)])
  }

  predicate CanStep(s: Saving, step: SavingStep) {
    match step
    case ReadEvent => s.unread != []
    case Flush => s.unread == [] && s.held > 0
    case Attempt(i, _) => i < |s.savers| && !s.savers[i].stopped
    case Report(i) => i < |s.savers| && s.savers[i].stopped && s.savers[i].due > 0
  }

  function SavingNext(s: Saving, step: SavingStep): Saving
    requires CanStep(s, step)
  {
    match step
    case ReadEvent =>
      if !s.unread[0] then s.(unread := s.unread[1..], counter := s.counter - 1)
      else if s.held + 1 == BATCH_SIZE then Launch(s.(unread := s.unread[1..]), BATCH_SIZE)
      else s.(unread := s.unread[1..], held := s.held + 1)
    case Flush => Launch(s, s.held)
    case Attempt(i, accepts) =>
      var v := s.savers[i];
      var w := v.(attempts := v.attempts + 1, accepted := accepts, stopped := accepts || v.attempts >= 5);
      s.(savers := s.savers[i := w])
    case Report(i) =>
      var v := s.savers[i];
      s.(savers := s.savers[i := v.(due := v.due - 1)], counter := s.counter - 1)
  }

  function SavingRun(s: Saving, steps: seq<SavingStep>): Option<Saving> {
    if steps == [] then Some(s)
    else
      match SavingRun(s, steps[..|steps| - 1])
      case Some(t) => if CanStep(t, steps[|steps| - 1]) then Some(SavingNext(t, steps[|steps| - 1])) else None
      case None => None
  }

  /** The counter is what is still to be reported: unread, unsent, and due from the savers. */
  ghost predicate SavingInv(s: Saving) {
    && s.counter == |s.unread| + s.held + Due(s.savers)
    && s.held < BATCH_SIZE
    && SaversInv(s.savers)
  }

  ghost predicate SaversInv(savers: seq<Saver>) {
    forall i :: 0 <= i < |savers| ==> SaverInv(savers[i])
  }

  /** At most six attempts; a goroutine stops at the first success or after the sixth, and reports only then. */
  predicate SaverInv(v: Saver) {
    && v.attempts <= 6
    && (v.stopped <==> v.accepted || v.attempts == 6)
    && (!v.stopped ==> v.due > 0 && v.attempts <= 5)
  }

  lemma {:induction false} DueUpdate(savers: seq<Saver>, i: nat, v: Saver)
    requires i < |savers|
    ensures Due(savers[i := v]) == Due(savers) - savers[i].due + v.due
  {
    var n := |savers| - 1;
    if i < n {
      DueUpdate(savers[..n], i, v);
      assert savers[i := v][..n] == savers[..n][i := v];
    } else {
      assert savers[i := v][..n] == savers[..n];
    }
  }

  lemma {:induction false} DueAtLeast(savers: seq<Saver>, i: nat)
    requires i < |savers|
    ensures savers[i].due <= Due(savers)
  {
    if i < |savers| - 1 {
      DueAtLeast(savers[..|savers| - 1], i);
    }
  }

  lemma DueAppend(savers: seq<Saver>, v: Saver)
    ensures Due(savers + [v]) == Due(savers) + v.due
  {
    assert (savers + [v])[..|savers|] == savers;
  }

  lemma LaunchKeepsInv(s: Saving, n: nat)
    requires n > 0 && s.counter == |s.unread| + n + Due(s.savers)
    requires SaversInv(s.savers)
    ensures SavingInv(Launch(s, n))
  {
    DueAppend(s.savers, Saver(0, false, false, n));
    hide Due;
  }

  /** A step of one goroutine, which changes its own state and perhaps reports one node. */
  lemma SaverKeepsInv(s: Saving, t: Saving, i: nat, v: Saver)
    requires SavingInv(s) && i < |s.savers| && SaverInv(v)
    requires t == s.(savers := s.savers[i := v], counter := s.counter - s.savers[i].due + v.due)
    ensures SavingInv(t)
  {
    DueUpdate(s.savers, i, v);
    hide Due;
  }

  lemma SavingStepKeepsInv(s: Saving, step: SavingStep)
    requires SavingInv(s) && CanStep(s, step)
    ensures SavingInv(SavingNext(s, step))
  {
    hide Due;
    match step
    case ReadEvent =>
      if s.unread[0] && s.held + 1 == BATCH_SIZE {
        LaunchKeepsInv(s.(unread := s.unread[1..]), BATCH_SIZE);
      }
    case Flush => LaunchKeepsInv(s, s.held);
    case Attempt(i, _) => SaverKeepsInv(s, SavingNext(s, step), i, SavingNext(s, step).savers[i]);
    case Report(i) => SaverKeepsInv(s, SavingNext(s, step), i, SavingNext(s, step).savers[i]);
  }

  /** How much work is left: every step makes it smaller, so every run is finite. */
  function Work(s: Saving): nat {
    10 * |s.unread| + 9 * s.held + WorkOf(s.savers)
  }

  function WorkOf(savers: seq<Saver>): nat {
    if savers == [] then 0
    else
      var v := savers[|savers| - 1];
      WorkOf(savers[..|savers| - 1]) + v.due + if v.stopped then 0 else 7 - (if v.attempts <= 6 then v.attempts else 6)
  }

  lemma {:induction false} WorkUpdate(savers: seq<Saver>, i: nat, v: Saver)
    requires i < |savers|
    ensures WorkOf(savers[i := v]) + WorkOf([savers[i]]) == WorkOf(savers) + WorkOf([v])
  {
    var n := |savers| - 1;
    if i < n {
      WorkUpdate(savers[..n], i, v);
      assert savers[i := v][..n] == savers[..n][i := v];
    } else {
      assert savers[i := v][..n] == savers[..n];
      assert [savers[i]][..0] == [v][..0] == [];
    }
  }

  lemma SavingStepMakesProgress(s: Saving, step: SavingStep)
    requires SavingInv(s) && CanStep(s, step)
    ensures Work(SavingNext(s, step)) < Work(s)
  {
    var t := SavingNext(s, step);
    match step
    case ReadEvent =>
      assert |t.savers| > |s.savers| ==> t.savers[..|t.savers| - 1] == s.savers;
    case Flush =>
      assert t.savers[..|t.savers| - 1] == s.savers;
    case Attempt(i, accepts) =>
      WorkUpdate(s.savers, i, t.savers[i]);
      assert [s.savers[i]][..0] == [t.savers[i]][..0] == [];
    case Report(i) =>
      WorkUpdate(s.savers, i, t.savers[i]);
      assert [s.savers[i]][..0] == [t.savers[i]][..0] == [];
  }

  /**
   * Over every interleaving the counter never goes negative; it is zero exactly when every event
   * was read and every batch was reported in full, and then each batch was accepted or tried six
   * times; and a run that cannot go on has reached zero.
   */
  lemma {:induction false} WaitEndsAfterAllSaved(unread: seq<bool>, steps: seq<SavingStep>)
    requires SavingRun(Saving(unread, 0, [], |unread|), steps).Some?
    ensures var s := SavingRun(Saving(unread, 0, [], |unread|), steps).value;
            && SavingInv(s)
            && s.counter >= 0
            && (s.counter == 0 ==> s.unread == [] && s.held == 0 && forall i :: 0 <= i < |s.savers| ==>
                  s.savers[i].due == 0 && (s.savers[i].accepted || s.savers[i].attempts == 6))
            && ((forall step :: !CanStep(s, step)) ==> s.counter == 0)
  {
    SavingRunKeepsInv(unread, steps);
    var s := SavingRun(Saving(unread, 0, [], |unread|), steps).value;
    forall i | 0 <= i < |s.savers|
      ensures s.savers[i].due <= Due(s.savers)
    {
      DueAtLeast(s.savers, i);
    }
    if forall step :: !CanStep(s, step) {
      assert !CanStep(s, ReadEvent) && !CanStep(s, Flush);
      forall i | 0 <= i < |s.savers|
        ensures s.savers[i].due == 0
      {
        assert !CanStep(s, Attempt(i, true)) && !CanStep(s, Report(i));
      }
      NothingDue(s.savers);
    }
  }

  lemma {:induction false} NothingDue(savers: seq<Saver>)
    requires forall i :: 0 <= i < |savers| ==> savers[i].due == 0
    ensures Due(savers) == 0
  {
    if savers != [] {
      NothingDue(savers[..|savers| - 1]);
    }
  }

  lemma {:induction false} SavingRunKeepsInv(unread: seq<bool>, steps: seq<SavingStep>)
    requires SavingRun(Saving(unread, 0, [], |unread|), steps).Some?
    ensures SavingInv(SavingRun(Saving(unread, 0, [], |unread|), steps).value)
  {
    if steps != [] {
      SavingRunKeepsInv(unread, steps[..|steps| - 1]);
      SavingStepKeepsInv(SavingRun(Saving(unread, 0, [], |unread|), steps[..|steps| - 1]).value, steps[|steps| - 1]);
    }
  }
}
