/**
 * The client's indexed store: indices kept up to date by every write, which must agree with a
 * scan over all items. A nil object is None, and an index function that fails returns None.
 */
module IndexedStore {
  import opened Types

  type IndexFunc<!T> = Option<T> -> Option<seq<string>>

  type Index = map<string, set<string>>

  /** The store as a value. */
  datatype Store<!T> = Store(items: map<string, Option<T>>, indexers: map<string, IndexFunc<T>>,
                             indices: map<string, Index>)

  function InSet(index: Index, value: string): set<string> {
    if value in index then index[value] else {}
  }

  /** The keys that an index holds for a value. */
  function Hits(indices: map<string, Index>, name: string, value: string): set<string> {
    if name in indices then InSet(indices[name], value) else {}
  }

  predicate Yields<T>(f: IndexFunc<T>, obj: Option<T>, value: string) {
    f(obj).Some? && value in f(obj).value
  }

  /** Every index function accepts the object; otherwise the source panics. */
  ghost predicate Accepted<T>(indexers: map<string, IndexFunc<T>>, obj: Option<T>) {
    forall name :: name in indexers ==> indexers[name](obj).Some?
  }

  /** What a scan finds: the item under a key has this value for this index. */
  predicate Scans<T>(s: Store<T>, name: string, value: string, key: string) {
    name in s.indexers && key in s.items && Yields(s.indexers[name], s.items[key], value)
  }

  /** Every index set holds exactly the keys that a scan finds. */
  ghost predicate Agrees<T>(s: Store<T>) {
    forall name, value, key :: key in Hits(s.indices, name, value) <==> Scans(s, name, value, key)
  }

  // ---------------------------------------------------------------- what the operations do

  /** An object left the indices under a key. */
  ghost predicate Unindexed<T>(indexers: map<string, IndexFunc<T>>, a: map<string, Index>, b: map<string, Index>,
                               obj: Option<T>, key: string) {
    forall name, value, k :: k in Hits(b, name, value) <==>
      k in Hits(a, name, value) && !(k == key && name in indexers && Yields(indexers[name], obj, value))
  }

  /** An object entered the indices under a key. */
  ghost predicate Indexed<T>(indexers: map<string, IndexFunc<T>>, a: map<string, Index>, b: map<string, Index>,
                             obj: Option<T>, key: string) {
    forall name, value, k :: k in Hits(b, name, value) <==>
      k in Hits(a, name, value) || (k == key && name in indexers && Yields(indexers[name], obj, value))
  }

  /** A new object took the place of an old one; a nil old object is not taken out. */
  ghost predicate Reindexed<T>(indexers: map<string, IndexFunc<T>>, a: map<string, Index>, b: map<string, Index>,
                               was: Option<T>, obj: Option<T>, key: string) {
    if was == None then Indexed(indexers, a, b, obj, key)
    else exists m :: Unindexed(indexers, a, m, was, key) && Indexed(indexers, m, b, obj, key)
  }

  function Current<T>(items: map<string, Option<T>>, key: string): Option<T> {
    if key in items then items[key] else None
  }

  datatype StoreOp<!T> = Put(key: string, obj: Option<T>) | Remove(key: string)
                       | ReplaceAll(items: map<string, Option<T>>) | Extend(indexers: map<string, IndexFunc<T>>)

  /** The outcome of an operation that did not panic. */
  ghost predicate OpStep<T>(s: Store<T>, op: StoreOp<T>, t: Store<T>) {
    match op
    case Put(key, obj) =>
      && t.items == s.items[key := obj] && t.indexers == s.indexers
      && Reindexed(s.indexers, s.indices, t.indices, Current(s.items, key), obj, key)
    case Remove(key) =>
      && t.items == s.items - {key} && t.indexers == s.indexers
      && if key in s.items then Unindexed(s.indexers, s.indices, t.indices, s.items[key], key)
         else t.indices == s.indices
    case ReplaceAll(items) => t.items == items && t.indexers == s.indexers && Agrees(t)
    case Extend(more) =>
      && t.items == s.items && t.indices == s.indices
      && t.indexers == if s.items == map[] && s.indexers.Keys !! more.Keys then s.indexers + more else s.indexers
  }

  /** A put over a nil object leaves the values of nil behind that the new object does not have. */
  ghost predicate LeavesStale<T>(s: Store<T>, key: string, obj: Option<T>) {
    && key in s.items && s.items[key] == None
    && exists name, value ::
         name in s.indexers && Yields(s.indexers[name], None, value) && !Yields(s.indexers[name], obj, value)
  }

  ghost predicate NoNil<T>(op: StoreOp<T>) {
    match op
    case Put(_, obj) => obj.Some?
    case ReplaceAll(items) => forall k :: k in items ==> items[k].Some?
    case _ => true
  }

  // ---------------------------------------------------------------- agreement

  lemma ReindexedAt<T>(s: Store<T>, t: Store<T>, key: string, obj: Option<T>, name: string, value: string, k: string)
    requires OpStep(s, Put(key, obj), t)
    ensures k in Hits(t.indices, name, value) <==>
            || (k == key && name in s.indexers && Yields(s.indexers[name], obj, value))
            || (k in Hits(s.indices, name, value)
                && !(k == key && Current(s.items, key).Some? && name in s.indexers
                       && Yields(s.indexers[name], Current(s.items, key), value)))
  {
  }

  /** A put keeps the indices in agreement exactly when it does not overwrite a nil object of other values. */
  lemma PutAgreesUnlessStale<T>(s: Store<T>, t: Store<T>, key: string, obj: Option<T>)
    requires Agrees(s) && OpStep(s, Put(key, obj), t)
    ensures Agrees(t) <==> !LeavesStale(s, key, obj)
  {
    forall name, value, k
      ensures (k in Hits(t.indices, name, value) <==> Scans(t, name, value, k))
              <==> !(k == key && key in s.items && s.items[key] == None && name in s.indexers
                     && Yields(s.indexers[name], None, value) && !Yields(s.indexers[name], obj, value))
    {
      ReindexedAt(s, t, key, obj, name, value, k);
    }
    if LeavesStale(s, key, obj) {
      var name, value :| name in s.indexers && Yields(s.indexers[name], None, value)
        && !Yields(s.indexers[name], obj, value);
      assert !(key in Hits(t.indices, name, value) <==> Scans(t, name, value, key));
    }
  }

  /** Indexes nil under "nil" and every object under nothing. */
  function NilIndex(): IndexFunc<bool> {
    (obj: Option<bool>) => if obj.None? then Some(["nil"]) else Some([])
  }

  /** A nil item that is indexed, overwritten by an object that is not: the key stays in the index. */
  lemma NilOverwriteLeavesStale()
    ensures var s := Store(map["k" := None], map["i" := NilIndex()], map["i" := map["nil" := {"k"}]]);
            var t := s.(items := map["k" := Some(true)]);
            Agrees(s) && OpStep(s, Put("k", Some(true)), t) && LeavesStale(s, "k", Some(true)) && !Agrees(t)
  {
    var f := NilIndex();
    var s := Store(map["k" := None], map["i" := f], map["i" := map["nil" := {"k"}]]);
    var t := s.(items := map["k" := Some(true)]);
    forall name, value, key
      ensures key in Hits(s.indices, name, value) <==> Scans(s, name, value, key)
    {
      assert Yields(f, None, value) <==> value == "nil";
    }
    forall name, value, k
      ensures k in Hits(t.indices, name, value) <==>
              k in Hits(s.indices, name, value)
                || (k == "k" && name in s.indexers && Yields(s.indexers[name], Some(true), value))
    {
    }
    assert "i" in s.indexers && Yields(s.indexers["i"], None, "nil") && !Yields(s.indexers["i"], Some(true), "nil");
    PutAgreesUnlessStale(s, t, "k", Some(true));
  }

  lemma RemoveAgrees<T>(s: Store<T>, t: Store<T>, key: string)
    requires Agrees(s) && OpStep(s, Remove(key), t)
    ensures Agrees(t)
  {
  }

  lemma ExtendAgrees<T>(s: Store<T>, t: Store<T>, more: map<string, IndexFunc<T>>)
    requires Agrees(s) && OpStep(s, Extend(more), t)
    ensures Agrees(t)
  {
  }

  ghost predicate HoldsNoNil<T>(s: Store<T>) {
    forall k :: k in s.items ==> s.items[k].Some?
  }

  /** A run: the states before, between and after operations none of which panicked. */
  ghost predicate IsRun<T>(states: seq<Store<T>>, ops: seq<StoreOp<T>>) {
    |states| == |ops| + 1 && forall i :: 0 <= i < |ops| ==> OpStep(states[i], ops[i], states[i + 1])
  }

  /** Over any sequence of operations none of which leaves stale values of nil, the indices agree with a scan. */
  lemma {:induction false} IndexAgreesWithScan<T>(states: seq<Store<T>>, ops: seq<StoreOp<T>>)
    requires IsRun(states, ops) && Agrees(states[0])
    requires forall i :: 0 <= i < |ops| && ops[i].Put? ==> !LeavesStale(states[i], ops[i].key, ops[i].obj)
    ensures Agrees(states[|ops|])
  {
    if ops != [] {
      var n := |ops| - 1;
      IndexAgreesWithScan(states[..|ops|], ops[..n]);
      assert states[..|ops|][n] == states[n];
      var s, t, op := states[n], states[n + 1], ops[n];
      assert OpStep(s, op, t);
      match op
      case Put(key, obj) => PutAgreesUnlessStale(s, t, key, obj);
      case Remove(key) => RemoveAgrees(s, t, key);
      case ReplaceAll(_) =>
      case Extend(more) => ExtendAgrees(s, t, more);
    }
  }

  /** In particular over any sequence of operations on non-nil objects. */
  lemma {:induction false} NonNilRunsAgree<T>(states: seq<Store<T>>, ops: seq<StoreOp<T>>)
    requires IsRun(states, ops) && Agrees(states[0]) && HoldsNoNil(states[0])
    requires forall i :: 0 <= i < |ops| ==> NoNil(ops[i])
    ensures Agrees(states[|ops|]) && HoldsNoNil(states[|ops|])
  {
    if ops != [] {
      var n := |ops| - 1;
      NonNilRunsAgree(states[..|ops|], ops[..n]);
      assert states[..|ops|][n] == states[n];
      var s, t, op := states[n], states[n + 1], ops[n];
      assert OpStep(s, op, t);
      IndexAgreesWithScan([s, t], [op]);
    }
  }

  /** The keys that an index holds for any of these values. */
  ghost function AnyHit(indices: map<string, Index>, name: string, values: seq<string>): (r: set<string>)
    ensures forall k :: k in r <==> exists j :: 0 <= j < |values| && k in Hits(indices, name, values[j])
  {
    set j, k | 0 <= j < |values| && k in Hits(indices, name, values[j]) :: k
  }

  /** The items listed are those under the given keys, each once, in some order. */
  ghost predicate ListsItems<T>(items: map<string, Option<T>>, keys: set<string>, order: seq<string>,
                                list: seq<Option<T>>) {
    && (forall i, j :: 0 <= i < j < |order| ==> order[i] != order[j])
    && (forall k :: k in order <==> k in keys)
    && |list| == |order|
    && forall i :: 0 <= i < |list| ==> list[i] == Current(items, order[i])
  }

  /** A list by index is the filter of all items: no item missing, none twice, none that does not match. */
  lemma ByIndexIsFilter<T>(s: Store<T>, name: string, value: string, order: seq<string>, list: seq<Option<T>>)
    requires Agrees(s) && name in s.indexers
    requires ListsItems(s.items, Hits(s.indices, name, value), order, list)
    ensures forall k ::
              k in order <==>
                && k in s.items && s.indexers[name](s.items[k]).Some?
                && value in s.indexers[name](s.items[k]).value
    ensures forall i :: 0 <= i < |list| ==> order[i] in s.items && list[i] == s.items[order[i]]
    ensures |list| == |set k | k in s.items && Yields(s.indexers[name], s.items[k], value)|
  {
    forall k
      ensures k in order <==> k in s.items && Yields(s.indexers[name], s.items[k], value)
    {
      assert k in Hits(s.indices, name, value) <==> Scans(s, name, value, k);
    }
    forall i | 0 <= i < |list|
      ensures order[i] in s.items && list[i] == s.items[order[i]] && Yields(s.indexers[name], list[i], value)
    {
      assert order[i] in order;
    }
    CountDistinct(order, set k | k in s.items && Yields(s.indexers[name], s.items[k], value));
  }

  /** The same for the values that the index yields for an object. */
  lemma IndexIsFilter<T>(s: Store<T>, name: string, values: seq<string>, order: seq<string>, list: seq<Option<T>>)
    requires Agrees(s) && name in s.indexers
    requires ListsItems(s.items, AnyHit(s.indices, name, values), order, list)
    ensures forall k ::
              k in order <==>
                && k in s.items && s.indexers[name](s.items[k]).Some?
                && exists j :: 0 <= j < |values| && values[j] in s.indexers[name](s.items[k]).value
    ensures forall i :: 0 <= i < |list| ==> order[i] in s.items && list[i] == s.items[order[i]]
  {
  }

  lemma {:induction false} CountDistinct(order: seq<string>, keys: set<string>)
    requires forall i, j :: 0 <= i < j < |order| ==> order[i] != order[j]
    requires forall k :: k in order <==> k in keys
    ensures |order| == |keys|
  {
    if order == [] {
      assert keys == {};
    } else {
      var last := order[|order| - 1];
      var init := order[..|order| - 1];
      assert order == init + [last];
      forall k
        ensures k in init <==> k in keys - {last}
      {
      }
      CountDistinct(init, keys - {last});
    }
  }

  lemma ListsOneMore<T>(items: map<string, Option<T>>, keys: set<string>, order: seq<string>, list: seq<Option<T>>,
                        k: string)
    requires ListsItems(items, keys, order, list) && k !in keys
    ensures ListsItems(items, keys + {k}, order + [k], list + [Current(items, k)])
  {
  }

  // ---------------------------------------------------------------- sorted keys

  /** Strings in the order of their characters, a prefix before what it is a prefix of. */
  predicate LexLess(a: string, b: string) {
    b != [] && (a == [] || a[0] < b[0] || (a[0] == b[0] && LexLess(a[1..], b[1..])))
  }

  lemma {:induction false} LexTotal(a: string, b: string)
    ensures a == b || LexLess(a, b) || LexLess(b, a)
  {
    if a != [] && b != [] && a[0] == b[0] {
      LexTotal(a[1..], b[1..]);
      assert a == [a[0]] + a[1..] && b == [b[0]] + b[1..];
    }
  }

  lemma {:induction false} LexTransitive(a: string, b: string, c: string)
    requires LexLess(a, b) && LexLess(b, c)
    ensures LexLess(a, c)
  {
    if a != [] && a[0] == b[0] == c[0] {
      LexTransitive(a[1..], b[1..], c[1..]);
    }
  }

  /** One string is before another at the first character that differs, or as a proper prefix. */
  lemma {:induction false} LexLessIsFirstDifference(a: string, b: string)
    ensures LexLess(a, b) <==>
            || (|a| < |b| && a == b[..|a|])
            || exists n :: 0 <= n < |a| && n < |b| && a[..n] == b[..n] && a[n] < b[n]
  {
    if a != [] && b != [] && a[0] == b[0] {
      LexLessIsFirstDifference(a[1..], b[1..]);
      TailsDiffer(a, b);
    } else if a != [] && b != [] && a[0] < b[0] {
      assert a[..0] == b[..0];
    } else {
      forall n | 0 < n < |a| && n < |b|
        ensures a[..n] != b[..n]
      {
        assert a[..n][0] == a[0] && b[..n][0] == b[0];
      }
    }
  }

  /** After an equal first character, the rest decides. */
  lemma TailsDiffer(a: string, b: string)
    requires a != [] && b != [] && a[0] == b[0]
    ensures (|a| < |b| && a == b[..|a|]) <==> (|a[1..]| < |b[1..]| && a[1..] == b[1..][..|a[1..]|])
    ensures (exists n :: 0 <= n < |a| && n < |b| && a[..n] == b[..n] && a[n] < b[n]) <==>
            exists n :: 0 <= n < |a[1..]| && n < |b[1..]| && a[1..][..n] == b[1..][..n] && a[1..][n] < b[1..][n]
  {
    assert a == [a[0]] + a[1..] && b == [b[0]] + b[1..];
    if |a| < |b| {
      assert b[1..][..|a| - 1] == b[..|a|][1..];
    }
    if n :| 0 <= n < |a| && n < |b| && a[..n] == b[..n] && a[n] < b[n] {
      assert a[1..][..n - 1] == a[..n][1..] && b[1..][..n - 1] == b[..n][1..];
      assert a[1..][n - 1] < b[1..][n - 1];
    }
    if n :| 0 <= n < |a[1..]| && n < |b[1..]| && a[1..][..n] == b[1..][..n] && a[1..][n] < b[1..][n] {
      assert a[..n + 1] == [a[0]] + a[1..][..n] && b[..n + 1] == [b[0]] + b[1..][..n];
      assert a[n + 1] < b[n + 1];
    }
  }

  /** Strictly increasing, so without duplicates. */
  ghost predicate Increasing(s: seq<string>) {
    forall i, j :: 0 <= i < j < |s| ==> LexLess(s[i], s[j])
  }

  lemma InsertIncreasing(s: seq<string>, n: nat, key: string)
    requires Increasing(s) && n <= |s|
    requires n > 0 ==> LexLess(s[n - 1], key)
    requires n < |s| ==> LexLess(key, s[n])
    ensures Increasing(s[..n] + [key] + s[n..])
  {
    var r := s[..n] + [key] + s[n..];
    forall i, j | 0 <= i < j < |r|
      ensures LexLess(r[i], r[j])
    {
      if i < n && j == n && i < n - 1 {
        LexTransitive(s[i], s[n - 1], key);
      } else if i == n && j > n + 1 {
        LexTransitive(key, s[n], s[j - 1]);
      }
    }
  }

  /** The members of a set in increasing order. */
  method SortedKeys(keys: set<string>) returns (r: seq<string>)
    ensures Increasing(r) && forall k :: k in r <==> k in keys
  {
    r := [];
    var todo := keys;
    while todo != {}
      invariant todo <= keys
      invariant Increasing(r) && forall k :: k in r <==> k in keys && k !in todo
    {
      var key :| key in todo;
      var n := |r|;
      while n > 0 && LexLess(key, r[n - 1])
        invariant 0 <= n <= |r|
        invariant n < |r| ==> LexLess(key, r[n])
      {
        n := n - 1;
      }
      if n > 0 {
        LexTotal(key, r[n - 1]);
        assert r[n - 1] in r;
      }
      InsertIncreasing(r, n, key);
      assert forall k :: k in r[..n] + [key] + r[n..] <==> k in r || k == key by {
        assert r == r[..n] + r[n..];
      }
      r := r[..n] + [key] + r[n..];
      todo := todo - {key};
    }
  }

  /** Agreement, as if the items in `todo` were not there yet. */
  ghost predicate AgreesBut<T>(s: Store<T>, todo: set<string>) {
    forall name, value, key :: key in Hits(s.indices, name, value) <==> key !in todo && Scans(s, name, value, key)
  }

  lemma OneMoreAgrees<T>(s: Store<T>, t: Store<T>, todo: set<string>, key: string)
    requires AgreesBut(s, todo) && key in todo && key in s.items
    requires t.items == s.items && t.indexers == s.indexers
    requires Indexed(s.indexers, s.indices, t.indices, s.items[key], key)
    ensures AgreesBut(t, todo - {key})
  {
    forall name, value, k
      ensures k in Hits(t.indices, name, value) <==> k !in todo - {key} && Scans(t, name, value, k)
    {
      assert k in Hits(s.indices, name, value) <==> k !in todo && Scans(s, name, value, k);
    }
  }

  /** The indexers that a loop has dealt with. */
  ghost function Done<T>(indexers: map<string, IndexFunc<T>>, todo: set<string>): (r: map<string, IndexFunc<T>>) {
    indexers - todo
  }

  lemma IndexedOneMore<T>(indexers: map<string, IndexFunc<T>>, todo: set<string>, name: string,
                          start: map<string, Index>,
                          a: map<string, Index>, index: Index, obj: Option<T>, key: string)
    requires Indexed(Done(indexers, todo), start, a, obj, key) && name in todo && name in indexers
    requires forall value, k ::
               k in InSet(index, value) <==>
                 k in Hits(a, name, value) || (k == key && Yields(indexers[name], obj, value))
    ensures Indexed(Done(indexers, todo - {name}), start, a[name := index], obj, key)
  {
    forall n, value, k
      ensures k in Hits(a[name := index], n, value) <==>
              k in Hits(start, n, value)
                || (k == key && n in Done(indexers, todo - {name}) && Yields(indexers[n], obj, value))
    {
      assert k in Hits(a, n, value) <==>
             k in Hits(start, n, value) || (k == key && n in Done(indexers, todo) && Yields(indexers[n], obj, value));
    }
  }

  lemma UnindexedOneMore<T>(indexers: map<string, IndexFunc<T>>, todo: set<string>, name: string,
                            start: map<string, Index>,
                            a: map<string, Index>, index: Index, obj: Option<T>, key: string)
    requires Unindexed(Done(indexers, todo), start, a, obj, key) && name in todo && name in indexers
    requires forall value, k ::
               k in InSet(index, value) <==>
                 k in Hits(a, name, value) && !(k == key && Yields(indexers[name], obj, value))
    ensures Unindexed(Done(indexers, todo - {name}), start, a[name := index], obj, key)
  {
  }

  /** An index that was never made has nothing to take out. */
  lemma UnindexedMissing<T>(indexers: map<string, IndexFunc<T>>, todo: set<string>, name: string,
                            start: map<string, Index>,
                            a: map<string, Index>, obj: Option<T>, key: string)
    requires Unindexed(Done(indexers, todo), start, a, obj, key) && name in todo && name in indexers && name !in a
    ensures Unindexed(Done(indexers, todo - {name}), start, a, obj, key)
  {
  }

  method InsertAll(index: Index, values: seq<string>, key: string) returns (r: Index)
    ensures forall value, k :: k in InSet(r, value) <==> k in InSet(index, value) || (k == key && value in values)
  {
    r := index;
    for i := 0 to |values|
      invariant forall value, k ::
                  k in InSet(r, value) <==> k in InSet(index, value) || (k == key && value in values[..i])
    {
      ghost var before := r;
      var keys := if values[i] in r then r[values[i]] else {};
      r := r[values[i] := keys + {key}];
      assert forall value :: InSet(r, value) == InSet(before, value) + if value == values[i] then {key} else {};
      assert values[..i + 1] == values[..i] + [values[i]];
    }
    assert values[..|values|] == values;
  }

  method DeleteAll(index: Index, values: seq<string>, key: string) returns (r: Index)
    ensures forall value, k :: k in InSet(r, value) <==> k in InSet(index, value) && !(k == key && value in values)
  {
    r := index;
    for i := 0 to |values|
      invariant forall value, k ::
                  k in InSet(r, value) <==> k in InSet(index, value) && !(k == key && value in values[..i])
    {
      if values[i] in r {
        r := r[values[i] := r[values[i]] - {key}];
      }
      assert values[..i + 1] == values[..i] + [values[i]];
    }
    assert values[..|values|] == values;
  }

  class ThreadSafeMap<T> {
    var items: map<string, Option<T>>
    var indexers: map<string, IndexFunc<T>>
    var indices: map<string, Index>

    ghost function State(): Store<T>
      reads this
    {
      Store(items, indexers, indices)
    }

    constructor (indexers: map<string, IndexFunc<T>>, indices: map<string, Index>)
      ensures State() == Store(map[], indexers, indices)
      ensures (forall name, value :: Hits(indices, name, value) == {}) ==> Agrees(State())
    {
      this.items, this.indexers, this.indices := map[], indexers, indices;
    }

    method Add(key: string, obj: Option<T>) returns (ok: bool)
      modifies this
      ensures ok <==>
                && Accepted(old(indexers), obj)
                && (old(Current(items, key)).Some? ==> Accepted(old(indexers), old(Current(items, key))))
      ensures items == old(items)[key := obj] && indexers == old(indexers)
      ensures ok ==> OpStep(old(State()), Put(key, obj), State())
    {
      var oldObject := if key in items then items[key] else None;
      items := items[key := obj];
      ok := UpdateIndices(oldObject, obj, key);
    }

    method Update(key: string, obj: Option<T>) returns (ok: bool)
      modifies this
      ensures ok <==>
                && Accepted(old(indexers), obj)
                && (old(Current(items, key)).Some? ==> Accepted(old(indexers), old(Current(items, key))))
      ensures items == old(items)[key := obj] && indexers == old(indexers)
      ensures ok ==> OpStep(old(State()), Put(key, obj), State())
    {
      var oldObject := if key in items then items[key] else None;
      items := items[key := obj];
      ok := UpdateIndices(oldObject, obj, key);
    }

    method Delete(key: string) returns (ok: bool)
      modifies this
      ensures ok <==> (key in old(items) ==> Accepted(old(indexers), old(items)[key]))
      ensures items == (if ok then old(items) - {key} else old(items)) && indexers == old(indexers)
      ensures ok ==> OpStep(old(State()), Remove(key), State())
    {
      ok := true;
      if key in items {
        ok := DeleteFromIndices(items[key], key);
        if ok {
          items := items - {key};
        }
      }
    }

    method Get(key: string) returns (item: Option<T>, found: bool)
      ensures found <==> key in items
      ensures item == Current(items, key)
    {
      found := key in items;
      item := if found then items[key] else None;
    }

    method Replace(items: map<string, Option<T>>) returns (ok: bool)
      modifies this
      ensures ok <==> forall k :: k in items ==> Accepted(old(indexers), items[k])
      ensures this.items == items && indexers == old(indexers)
      ensures ok ==> OpStep(old(State()), ReplaceAll(items), State())
    {
      this.items, indices := items, map[];
      var todo := items.Keys;
      while todo != {}
        invariant todo <= items.Keys
        invariant this.items == items && indexers == old(indexers)
        invariant forall k :: k in items && k !in todo ==> Accepted(indexers, items[k])
        invariant AgreesBut(State(), todo)
      {
        var key :| key in todo;
        ghost var before := State();
        ok := UpdateIndices(None, items[key], key);
        if !ok {
          return;
        }
        OneMoreAgrees(before, State(), todo, key);
        todo := todo - {key};
      }
      ok := true;
    }

    method UpdateIndices(oldObj: Option<T>, newObj: Option<T>, key: string) returns (ok: bool)
      modifies this`indices
      ensures ok <==> forall name :: name in indexers ==>
                        indexers[name](newObj).Some? && (oldObj.Some? ==> indexers[name](oldObj).Some?)
      ensures ok ==> Reindexed(indexers, old(indices), indices, oldObj, newObj, key)
    {
      if oldObj.Some? {
        ok := DeleteFromIndices(oldObj, key);
        if !ok {
          return;
        }
      }
      ghost var start := indices;
      var todo := indexers.Keys;
      while todo != {}
        invariant todo <= indexers.Keys
        invariant forall name :: name in indexers && name !in todo ==> indexers[name](newObj).Some?
        invariant Indexed(Done(indexers, todo), start, indices, newObj, key)
      {
        var name :| name in todo;
        var indexValues := indexers[name](newObj);
        if indexValues.None? {
          return false;
        }
        var index := InsertAll(if name in indices then indices[name] else map[], indexValues.value, key);
        IndexedOneMore(indexers, todo, name, start, indices, index, newObj, key);
        indices := indices[name := index];
        todo := todo - {name};
      }
      ok := true;
    }

    method DeleteFromIndices(obj: Option<T>, key: string) returns (ok: bool)
      modifies this`indices
      ensures ok <==> forall name :: name in indexers ==> indexers[name](obj).Some?
      ensures ok ==> Unindexed(indexers, old(indices), indices, obj, key)
    {
      var todo := indexers.Keys;
      while todo != {}
        invariant todo <= indexers.Keys
        invariant forall name :: name in indexers && name !in todo ==> indexers[name](obj).Some?
        invariant Unindexed(Done(indexers, todo), old(indices), indices, obj, key)
      {
        var name :| name in todo;
        var indexValues := indexers[name](obj);
        if indexValues.None? {
          return false;
        }
        if name in indices {
          var index := DeleteAll(indices[name], indexValues.value, key);
          UnindexedOneMore(indexers, todo, name, old(indices), indices, index, obj, key);
          indices := indices[name := index];
        } else {
          UnindexedMissing(indexers, todo, name, old(indices), indices, obj, key);
        }
        todo := todo - {name};
      }
      ok := true;
    }

    method AddIndexers(newIndexers: map<string, IndexFunc<T>>) returns (ok: bool)
      modifies this`indexers
      ensures ok <==> items == map[] && old(indexers).Keys !! newIndexers.Keys
      ensures items == old(items) && indices == old(indices)
      ensures indexers == if ok then old(indexers) + newIndexers else old(indexers)
      ensures OpStep(old(State()), Extend(newIndexers), State())
    {
      if |items| > 0 {
        return false;
      }
      if indexers.Keys * newIndexers.Keys != {} {
        return false;
      }
      indexers := indexers + newIndexers;
      ok := true;
    }

    /** The items with the values that the index yields for an object; None on an unknown index or a failure. */
    method Index(indexName: string, obj: Option<T>) returns (list: Option<seq<Option<T>>>)
      ensures list.None? <==> indexName !in indexers || indexers[indexName](obj).None?
      ensures list.Some? ==>
                exists order ::
                  ListsItems(items, AnyHit(indices, indexName, indexers[indexName](obj).value), order, list.value)
    {
      if indexName !in indexers {
        return None;
      }
      var indexKeys := indexers[indexName](obj);
      if indexKeys.None? {
        return None;
      }
      var index: Index := if indexName in indices then indices[indexName] else map[];
      var keys: set<string> := {};
      if |indexKeys.value| == 1 {
        keys := if indexKeys.value[0] in index then index[indexKeys.value[0]] else {};
      } else {
        for i := 0 to |indexKeys.value|
          invariant forall k :: k in keys <==> exists j :: 0 <= j < i && k in InSet(index, indexKeys.value[j])
        {
          keys := keys + if indexKeys.value[i] in index then index[indexKeys.value[i]] else {};
        }
      }
      assert keys == AnyHit(indices, indexName, indexKeys.value);
      var found := ListOf(keys);
      list := Some(found);
    }

    /** The items under one value of an index; None when there is no such index. */
    method ByIndex(indexName: string, indexKey: string) returns (list: Option<seq<Option<T>>>)
      ensures list.None? <==> indexName !in indexers
      ensures list.Some? ==> exists order :: ListsItems(items, Hits(indices, indexName, indexKey), order, list.value)
    {
      if indexName !in indexers {
        return None;
      }
      var index: Index := if indexName in indices then indices[indexName] else map[];
      var keys := if indexKey in index then index[indexKey] else {};
      assert keys == Hits(indices, indexName, indexKey);
      var found := ListOf(keys);
      list := Some(found);
    }

    /** The keys under one value of an index, sorted; None when there is no such index. */
    method IndexKeys(indexName: string, indexKey: string) returns (keys: Option<seq<string>>)
      ensures keys.None? <==> indexName !in indexers
      ensures keys.Some? ==> Increasing(keys.value) && forall k ::
                                                         k in keys.value <==> k in Hits(indices, indexName, indexKey)
    {
      if indexName !in indexers {
        return None;
      }
      var index: Index := if indexName in indices then indices[indexName] else map[];
      var sorted := SortedKeys(if indexKey in index then index[indexKey] else {});
      keys := Some(sorted);
    }

    method ListOf(keys: set<string>) returns (list: seq<Option<T>>)
      ensures exists order :: ListsItems(items, keys, order, list)
    {
      list := [];
      ghost var order: seq<string> := [];
      var todo := keys;
      while todo != {}
        invariant todo <= keys
        invariant ListsItems(items, keys - todo, order, list)
      {
        var key :| key in todo;
        ListsOneMore(items, keys - todo, order, list, key);
        assert keys - todo + {key} == keys - (todo - {key});
        list, order := list + [if key in items then items[key] else None], order + [key];
        todo := todo - {key};
      }
      assert keys - todo == keys;
    }
  }
}
