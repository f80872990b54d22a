/**
 * The fields of one map row: what a patch writes, what a bump carries over
 * (packages/core/src/db.ts).
 */
module GraphFields {
  import opened Common
  import opened GraphModel
  import opened GraphGrowth
  import opened GraphRewrites

  /** What an entry says about keys: a value, or null. */
  type Data = map<Key, Option<Tree>>

  ghost predicate Buildable(g: Graph, named: set<TypeId>, data: Data, k: Key) {
    k in data && data[k].Some? && RefsNamed(g, named, data[k].value)
  }

  lemma {:induction false} BuildableSame(g: Graph, g': Graph, named: set<TypeId>, data: Data)
    requires forall x :: IsNamed(g', named, x) == IsNamed(g, named, x)
    ensures forall k :: Buildable(g', named, data, k) <==> Buildable(g, named, data, k)
  {
    forall k | k in data && data[k].Some? ensures Buildable(g', named, data, k) <==> Buildable(g, named, data, k) {
      RefsNamedSame(g, g', named, data[k].value);
    }
  }

  /** The references of the data that are not checked lead to rows. */
  ghost predicate DataLinked(g: Graph, floor: Id, data: Data) {
    forall k :: k in data && data[k].Some? ==> Linked(g, floor, data[k].value)
  }

  lemma {:induction false} DataLinkedLater(g: Graph, g': Graph, floor: Id, floor': Id, data: Data)
    requires DataLinked(g, floor, data) && floor <= floor' && forall x :: x in g ==> x in g'
    ensures DataLinked(g', floor', data)
  {
    forall k | k in data && data[k].Some? ensures Linked(g', floor', data[k].value) {
      LinkedLater(g, g', floor, floor', data[k].value);
    }
  }

  // ---- Insert and patch ---------------------------------------------------------------------

  /** A patch skips keys that the row has, unless it overwrites. */
  function WrittenKeys(data: Data, fields: set<Key>, overwrite: bool, present: set<Key>): set<Key> {
    set k | k in data && data[k].Some? && k in fields && (overwrite || k !in present)
  }

  /** The values that a write of the keys drops. */
  function OldValues(before: map<Key, Id>, keys: set<Key>): set<Id> { set k | k in keys && k in before :: before[k] }

  /** Of the written keys those with a value that can be built have it; the others are gone. The rest is untouched. */
  ghost predicate Wrote(g: Graph, named: set<TypeId>, before: map<Key, Id>, after: map<Key, Id>, keys: set<Key>,
                        data: Data, from: Id, live: bool) {
    && (forall k :: k in after <==> (k in before && k !in keys) || (k in keys && Buildable(g, named, data, k)))
    && (forall k :: k in after && k !in keys ==> after[k] == before[k])
    && (forall k :: k in after && k in keys ==> Made(g, named, after[k], data[k].value, from, live))
  }

  /** What one key's write does to the entries. */
  ghost predicate WroteKey(g: Graph, named: set<TypeId>, e: map<Key, Id>, e': map<Key, Id>, key: Key, v: Tree,
                           from: Id) {
    && e'.Keys == (if RefsNamed(g, named, v) then e.Keys + {key} else e.Keys - {key})
    && (forall k :: k in e' && k != key ==> e'[k] == e[k])
    && (key in e' ==> Made(g, named, e'[key], v, from, true))
  }

  lemma {:induction false} WroteRewritten(g: Graph, g': Graph, named: set<TypeId>, n: Id, n': Id, targets: set<Id>,
                                          before: map<Key, Id>, after: map<Key, Id>, keys: set<Key>, data: Data,
                                          from: Id, live: bool, live': bool)
    requires Wrote(g, named, before, after, keys, data, from, live) && Rewrites(g, g', named, n, n', targets)
    requires (forall x :: x in targets ==> x < from) && (live' ==> live)
    requires live' ==> forall x :: x in g && from <= x && g'[x].tombstone ==> g[x].tombstone
    ensures Wrote(g', named, before, after, keys, data, from, live')
  {
    RewritesNamed(g, g', named, n, n', targets);
    BuildableSame(g, g', named, data);
    forall k | k in after && k in keys ensures Made(g', named, after[k], data[k].value, from, live') {
      MadeLess(g, named, after[k], data[k].value, from, live, from, live');
      MadeRewritten(g, g', named, n, n', targets, after[k], data[k].value, from, live');
    }
  }

  lemma {:induction false} WroteStep(g: Graph, named: set<TypeId>, before: map<Key, Id>, e: map<Key, Id>,
                                     e': map<Key, Id>, keys: set<Key>, key: Key, data: Data, from: Id, from': Id,
                                     live: bool)
    requires Wrote(g, named, before, e, keys, data, from, live) && from <= from' && key !in keys
    requires key in data && data[key].Some? && WroteKey(g, named, e, e', key, data[key].value, from')
    ensures Wrote(g, named, before, e', keys + {key}, data, from, live)
  {
    if key in e' { MadeLess(g, named, e'[key], data[key].value, from', true, from, live); }
  }

  lemma {:induction false} WroteFrom(g: Graph, named: set<TypeId>, before: map<Key, Id>, after: map<Key, Id>,
                                     keys: set<Key>, data: Data, from: Id, live: bool, from': Id, live': bool)
    requires Wrote(g, named, before, after, keys, data, from, live) && from' <= from && (live' ==> live)
    ensures Wrote(g, named, before, after, keys, data, from', live')
  {
    forall k | k in after && k in keys ensures Made(g, named, after[k], data[k].value, from', live') {
      MadeLess(g, named, after[k], data[k].value, from, live, from', live');
    }
  }

  /** What is flagged when values are dropped: exactly what they reach, unless one of them is the row itself. */
  ghost predicate FlagsOfDrop(g: Graph, g': Graph, named: set<TypeId>, rows: set<Id>, dropped: set<Id>) {
    && (rows !! dropped ==> FlagsExactly(g, g', Cleared(g, named, dropped)))
    && FlagsWithin(g, g', named, dropped)
  }

  /** Some of the keys are written. */
  ghost predicate WriteUnderway(g: Graph, g': Graph, named: set<TypeId>, n: Id, n': Id, p: Id, before: map<Key, Id>,
                                done: set<Key>, data: Data, failed: set<Key>) {
    && Sound(g, named, n) && IsNamed(g, named, p) && before == EntriesOf(g, p)
    && Sound(g', named, n') && Rewrites(g, g', named, n, n', {p}) && DataLinked(g, n, data)
    && FlagsOfDrop(g, g', named, {p}, OldValues(before, done))
    && Wrote(g', named, before, EntriesOf(g', p), done, data, n, p !in OldValues(before, done))
    && failed == set k | k in done && !Buildable(g', named, data, k)
  }

  lemma {:induction false} WriteStart(g: Graph, named: set<TypeId>, n: Id, p: Id, data: Data)
    requires Sound(g, named, n) && IsNamed(g, named, p) && DataLinked(g, n, data)
    ensures WriteUnderway(g, g, named, n, n, p, EntriesOf(g, p), {}, data, {})
  {
    assert OldValues(EntriesOf(g, p), {}) == {};
  }

  /** The flags that the write of one key sets. */
  ghost function DroppedRows(g: Graph, named: set<TypeId>, e: map<Key, Id>, key: Key): set<Id> {
    if key in e then ReachSet(g, named, e[key]) else {}
  }

  /** A drop and the write after it, as one. */
  lemma {:induction false} FieldWritten(g: Graph, g1: Graph, g2: Graph, named: set<TypeId>, n: Id, n2: Id, p: Id,
                                        key: Key, v: Tree)
    requires Below(g, n) && Rewrites(g, g1, named, n, n, {p}) && Rewrites(g1, g2, named, n, n2, {p})
    requires NoneFlagged(g1, g2)
    requires FlagsExactly(g, g1, DroppedRows(g, named, EntriesOf(g, p), key))
    requires EntriesOf(g1, p) == EntriesOf(g, p) - {key}
    requires WroteKey(g2, named, EntriesOf(g1, p), EntriesOf(g2, p), key, v, n)
    ensures Rewrites(g, g2, named, n, n2, {p}) && FlagsExactly(g, g2, DroppedRows(g, named, EntriesOf(g, p), key))
    ensures WroteKey(g2, named, EntriesOf(g, p), EntriesOf(g2, p), key, v, n)
  {
    RewritesTransitive(g, g1, g2, named, n, n, n2, {p}, {p});
    NoMoreFlags(g, g1, g2, named, n, n2, {p}, DroppedRows(g, named, EntriesOf(g, p), key));
  }

  lemma {:induction false} OldValuesNext(before: map<Key, Id>, e: map<Key, Id>, done: set<Key>, key: Key)
    requires key !in done && (key in e <==> key in before) && (key in e ==> e[key] == before[key])
    ensures OldValues(before, done + {key}) == OldValues(before, done) + OldValues(e, {key})
  {
  }

  lemma {:induction false} DroppedIsCleared(g: Graph, named: set<TypeId>, e: map<Key, Id>, key: Key)
    ensures DroppedRows(g, named, e, key) == Cleared(g, named, OldValues(e, {key}))
  {
    if key in e {
      assert OldValues(e, {key}) == {e[key]};
      ClearedOne(g, named, e[key]);
    } else {
      assert OldValues(e, {key}) == {};
    }
  }

  lemma {:induction false} OldValuesThere(g: Graph, p: Id, keys: set<Key>)
    requires Closed(g)
    ensures forall c :: c in OldValues(EntriesOf(g, p), keys) ==> c in g && c in Children(g, p)
  {
    forall c | c in OldValues(EntriesOf(g, p), keys) ensures c in g && c in Children(g, p) {
      var k :| k in keys && k in EntriesOf(g, p) && EntriesOf(g, p)[k] == c;
      EntryThere(g, p, k);
    }
  }

  lemma {:induction false} FlagsAsWithin(g: Graph, g': Graph, named: set<TypeId>, roots: set<Id>)
    requires FlagsExactly(g, g', Cleared(g, named, roots))
    ensures FlagsWithin(g, g', named, roots)
  {
  }

  /** The flags of the keys before and of this key, if no dropped value is the row itself. */
  lemma {:induction false} ExactNext(g: Graph, g1: Graph, g2: Graph, named: set<TypeId>, n: Id, n1: Id,
                                     targets: set<Id>, a: set<Id>, b: set<Id>)
    requires Closed(g) && Below(g, n) && Rewrites(g, g1, named, n, n1, targets) && forall x :: x in g1 ==> x in g2
    requires forall x :: x in targets && x in g ==> IsNamed(g, named, x)
    requires forall c :: c in b ==> c in g && c !in targets
    requires FlagsExactly(g, g1, Cleared(g, named, a)) && FlagsExactly(g1, g2, Cleared(g1, named, b))
    ensures FlagsExactly(g, g2, Cleared(g, named, a + b))
    ensures forall x :: x in g1 && n <= x && g2[x].tombstone ==> g1[x].tombstone
  {
    ClearedRewritten(g, g1, named, n, n1, targets, b);
    ClearedUnion(g, named, a, b);
  }

  lemma {:induction false} WithinNext(g: Graph, g1: Graph, g2: Graph, named: set<TypeId>, n: Id, n1: Id, n2: Id,
                                      targets: set<Id>, p: Id, a: set<Id>, b: set<Id>)
    requires Closed(g) && Closed(g1) && Rewrites(g, g1, named, n, n1, targets) && Rewrites(g1, g2, named, n1, n2, {p})
    requires (forall x :: x in targets && x in g ==> IsNamed(g, named, x)) && IsNamed(g1, named, p)
    requires forall c :: c in a + b ==> c in g
    requires forall d :: d in Children(g1, p) ==> d in Children(g, p) || d in Children(g2, p)
    requires FlagsWithin(g, g1, named, a) && FlagsWithin(g1, g2, named, b)
    ensures FlagsWithin(g, g2, named, a + b)
  {
    ClearedMoves(g, g1, g2, named, n, n1, n2, targets, p, a + b);
    WithinCompose(g, g1, g2, named, a, b, a + b);
  }

  /** A child of the row before the write of one key is an old value or stays. */
  lemma {:induction false} ChildrenMove(g: Graph, g1: Graph, g2: Graph, named: set<TypeId>, p: Id, key: Key, v: Tree,
                                        from: Id)
    requires IsNamed(g, named, p) && IsNamed(g1, named, p) && IsNamed(g2, named, p)
    requires WroteKey(g2, named, EntriesOf(g1, p), EntriesOf(g2, p), key, v, from)
    requires key in EntriesOf(g1, p) ==> key in EntriesOf(g, p) && EntriesOf(g1, p)[key] == EntriesOf(g, p)[key]
    ensures forall d :: d in Children(g1, p) ==> d in Children(g, p) || d in Children(g2, p)
  {
    forall d | d in Children(g1, p) ensures d in Children(g, p) || d in Children(g2, p) {
      var k :| k in EntriesOf(g1, p) && EntriesOf(g1, p)[k] == d;
      assert k != key ==> k in EntriesOf(g2, p) && EntriesOf(g2, p)[k] == d;
    }
  }

  lemma {:induction false} WriteFlags(g: Graph, g1: Graph, g2: Graph, named: set<TypeId>, n: Id, n1: Id, n2: Id, p: Id,
                                      e: map<Key, Id>, done: set<Key>, key: Key, v: Tree)
    requires Sound(g, named, n) && Sound(g1, named, n1) && IsNamed(g, named, p) && e == EntriesOf(g1, p)
    requires Rewrites(g, g1, named, n, n1, {p}) && Rewrites(g1, g2, named, n1, n2, {p})
    requires FlagsOfDrop(g, g1, named, {p}, OldValues(EntriesOf(g, p), done)) && key !in done
    requires key in e <==> key in EntriesOf(g, p)
    requires key in e ==> e[key] == EntriesOf(g, p)[key]
    requires FlagsExactly(g1, g2, DroppedRows(g1, named, e, key))
    requires WroteKey(g2, named, e, EntriesOf(g2, p), key, v, n1)
    ensures FlagsOfDrop(g, g2, named, {p}, OldValues(EntriesOf(g, p), done + {key}))
    ensures p !in OldValues(EntriesOf(g, p), done + {key}) ==>
              forall x :: x in g1 && n <= x && g2[x].tombstone ==> g1[x].tombstone
  {
    var a, b := OldValues(EntriesOf(g, p), done), OldValues(e, {key});
    OldValuesNext(EntriesOf(g, p), e, done, key);
    DroppedIsCleared(g1, named, e, key);
    OldValuesThere(g, p, done + {key});
    RewritesNamed(g, g1, named, n, n1, {p});
    RewritesNamed(g1, g2, named, n1, n2, {p});
    ChildrenMove(g, g1, g2, named, p, key, v, n1);
    FlagsAsWithin(g1, g2, named, b);
    WithinNext(g, g1, g2, named, n, n1, n2, {p}, p, a, b);
    if p !in a + b {
      ExactNext(g, g1, g2, named, n, n1, {p}, a, b);
    }
  }

  /** The entries after the write of one more key. */
  lemma {:induction false} WroteNext(g1: Graph, g2: Graph, named: set<TypeId>, n: Id, n1: Id, n2: Id, p: Id,
                                     before: map<Key, Id>, done: set<Key>, key: Key, data: Data, failed: set<Key>,
                                     live: bool, live': bool)
    requires Wrote(g1, named, before, EntriesOf(g1, p), done, data, n, live) && p < n <= n1 && (live' ==> live)
    requires failed == set k | k in done && !Buildable(g1, named, data, k)
    requires key !in done && key in data && data[key].Some? && Rewrites(g1, g2, named, n1, n2, {p})
    requires WroteKey(g2, named, EntriesOf(g1, p), EntriesOf(g2, p), key, data[key].value, n1)
    requires live' ==> forall x :: x in g1 && n <= x && g2[x].tombstone ==> g1[x].tombstone
    ensures Wrote(g2, named, before, EntriesOf(g2, p), done + {key}, data, n, live')
    ensures (set k | k in done + {key} && !Buildable(g2, named, data, k))
         == if RefsNamed(g2, named, data[key].value) then failed else failed + {key}
  {
    WroteRewritten(g1, g2, named, n1, n2, {p}, before, EntriesOf(g1, p), done, data, n, live, live');
    WroteStep(g2, named, before, EntriesOf(g1, p), EntriesOf(g2, p), done, key, data, n, n1, live');
    RewritesNamed(g1, g2, named, n1, n2, {p});
    BuildableSame(g1, g2, named, data);
  }

  lemma {:induction false} WriteStep(g: Graph, g1: Graph, g2: Graph, named: set<TypeId>, n: Id, n1: Id, n2: Id, p: Id,
                                     before: map<Key, Id>, done: set<Key>, key: Key, data: Data, failed: set<Key>)
    requires WriteUnderway(g, g1, named, n, n1, p, before, done, data, failed)
    requires key !in done && key in data && data[key].Some? && Sound(g2, named, n2)
    requires Rewrites(g1, g2, named, n1, n2, {p}) && FlagsExactly(g1, g2, DroppedRows(g1, named, EntriesOf(g1, p), key))
    requires WroteKey(g2, named, EntriesOf(g1, p), EntriesOf(g2, p), key, data[key].value, n1)
    ensures WriteUnderway(g, g2, named, n, n2, p, before, done + {key}, data,
                          if RefsNamed(g2, named, data[key].value) then failed else failed + {key})
  {
    WriteFlags(g, g1, g2, named, n, n1, n2, p, EntriesOf(g1, p), done, key, data[key].value);
    OldValuesNext(before, EntriesOf(g1, p), done, key);
    WroteNext(g1, g2, named, n, n1, n2, p, before, done, key, data, failed, p !in OldValues(before, done),
              p !in OldValues(before, done + {key}));
    RewritesTransitive(g, g1, g2, named, n, n1, n2, {p}, {p});
  }

  // ---- Bump ------------------------------------------------------------------------------------

  /** The keys of the patch that get a value in the new version. */
  ghost function BuiltKeys(g: Graph, named: set<TypeId>, data: Data, fields: set<Key>): set<Key> {
    set k | k in data && k in fields && Buildable(g, named, data, k)
  }

  /** The keys a bump reports as errors. A key that neither the type nor the old version has is ignored. */
  ghost function RefusedKeys(g: Graph, named: set<TypeId>, data: Data, fields: set<Key>, present: set<Key>): set<Key> {
    set k | k in data && data[k].Some? && (k in fields || k in present)
        && !(k in fields && Buildable(g, named, data, k))
  }

  /** The shallow patch: null clears, a value replaces or adds, what is not mentioned stays. */
  ghost function Patched(fs: map<Key, Tree>, data: Data, built: set<Key>): map<Key, Tree> {
    map k | k in (fs.Keys - data.Keys) + (set k | k in built && k in data && data[k].Some?) ::
      if k in data then data[k].GetOr(RefT(0)) else fs[k]
  }

  /** The entries of the keys done so far unfold to what is wanted, in live rows of their own. */
  ghost predicate MadeAll(g: Graph, named: set<TypeId>, entries: map<Key, Id>, want: map<Key, Tree>, done: set<Key>,
                          from: Id) {
    && (forall k :: k in entries <==> k in want && k in done)
    && (forall k :: k in entries ==> Made(g, named, entries[k], want[k], from, true))
  }

  lemma {:induction false} MadeAllRewritten(g: Graph, g': Graph, named: set<TypeId>, n: Id, n': Id, targets: set<Id>,
                                            e: map<Key, Id>, want: map<Key, Tree>, done: set<Key>, from: Id)
    requires MadeAll(g, named, e, want, done, from) && Rewrites(g, g', named, n, n', targets)
    requires forall x :: x in targets ==> x < from
    requires forall x :: x in g && from <= x && g'[x].tombstone ==> g[x].tombstone
    ensures MadeAll(g', named, e, want, done, from)
  {
    forall k | k in e ensures Made(g', named, e[k], want[k], from, true) {
      MadeRewritten(g, g', named, n, n', targets, e[k], want[k], from, true);
    }
  }

  lemma {:induction false} MadeAllLess(g: Graph, named: set<TypeId>, e: map<Key, Id>, want: map<Key, Tree>,
                                       done: set<Key>, from: Id, from': Id)
    requires MadeAll(g, named, e, want, done, from) && from' <= from
    ensures MadeAll(g, named, e, want, done, from')
  {
    forall k | k in e ensures Made(g, named, e[k], want[k], from', true) {
      MadeLess(g, named, e[k], want[k], from, true, from', true);
    }
  }

  /** One more key is done: it was added to the entries if it is wanted. */
  lemma {:induction false} MadeStep(g: Graph, g': Graph, named: set<TypeId>, n: Id, n': Id, p: Id, e: map<Key, Id>,
                                    e': map<Key, Id>, want: map<Key, Tree>, done: set<Key>, key: Key, from: Id)
    requires MadeAll(g, named, e, want, done, from) && key !in done
    requires Rewrites(g, g', named, n, n', {p}) && NoneFlagged(g, g') && p < from <= n
    requires e'.Keys == if key in want then e.Keys + {key} else e.Keys
    requires forall k :: k in e ==> k in e' && e'[k] == e[k]
    requires key in want ==> Made(g', named, e'[key], want[key], n, true)
    ensures MadeAll(g', named, e', want, done + {key}, from)
  {
    MadeAllRewritten(g, g', named, n, n', {p}, e, want, done, from);
    if key in want { MadeLess(g', named, e'[key], want[key], n, true, from, true); }
  }

  /** The new version with some of its keys done, compared with the graph before. */
  ghost predicate BumpUnderway(g: Graph, g': Graph, named: set<TypeId>, n: Id, n': Id, v2: Id, want: map<Key, Tree>,
                               data: Data, fields: set<Key>, present: set<Key>, done: set<Key>, failed: set<Key>) {
    && Below(g, n) && v2 < n && IsNamed(g, named, v2)
    && Sound(g', named, n') && Rewrites(g, g', named, n, n', {v2}) && NoneFlagged(g, g') && DataLinked(g, n, data)
    && MadeAll(g', named, EntriesOf(g', v2), want, done, n)
    && failed == RefusedKeys(g, named, data, fields, present) * done
  }

  lemma {:induction false} BumpGrows(g: Graph, g1: Graph, g2: Graph, named: set<TypeId>, n: Id, n1: Id, n2: Id, v2: Id)
    requires Below(g, n) && Rewrites(g, g1, named, n, n1, {v2}) && Rewrites(g1, g2, named, n1, n2, {v2})
    requires NoneFlagged(g, g1) && NoneFlagged(g1, g2)
    ensures Rewrites(g, g2, named, n, n2, {v2}) && NoneFlagged(g, g2)
  {
    RewritesTransitive(g, g1, g2, named, n, n1, n2, {v2}, {v2});
  }

  /** A key that is not wanted and whose value was not looked at. */
  lemma {:induction false} SkipStep(g: Graph, g1: Graph, named: set<TypeId>, n: Id, n1: Id, v2: Id,
                                    want: map<Key, Tree>, data: Data, fields: set<Key>, present: set<Key>,
                                    done: set<Key>, key: Key, failed: set<Key>)
    requires BumpUnderway(g, g1, named, n, n1, v2, want, data, fields, present, done, failed) && key !in want
    ensures BumpUnderway(g, g1, named, n, n1, v2, want, data, fields, present, done + {key},
                         failed + (if key in RefusedKeys(g, named, data, fields, present) then {key} else {}))
  {
  }

  lemma {:induction false} BuiltStep(g: Graph, g1: Graph, g2: Graph, named: set<TypeId>, n: Id, n1: Id, n2: Id, v2: Id,
                                     e: map<Key, Id>, want: map<Key, Tree>, data: Data, fields: set<Key>,
                                     present: set<Key>, done: set<Key>, key: Key, failed: set<Key>)
    requires BumpUnderway(g, g1, named, n, n1, v2, want, data, fields, present, done, failed) && e == EntriesOf(g1, v2)
    requires Sound(g2, named, n2) && Rewrites(g1, g2, named, n1, n2, {v2}) && NoneFlagged(g1, g2)
    requires key !in done && key in fields && key in data && data[key].Some? && Below(g1, n1)
    requires WroteKey(g2, named, e, EntriesOf(g2, v2), key, data[key].value, n1)
    requires key in want <==> Buildable(g, named, data, key)
    requires key in want ==> want[key] == data[key].value
    ensures BumpUnderway(g, g2, named, n, n2, v2, want, data, fields, present, done + {key},
                         if RefsNamed(g2, named, data[key].value) then failed else failed + {key})
  {
    BumpGrows(g, g1, g2, named, n, n1, n2, v2);
    RefusedNext(g, g2, named, n, n2, v2, data, fields, present, done, key);
    MadeStep(g1, g2, named, n1, n2, v2, e, EntriesOf(g2, v2), want, done, key, n);
  }

  lemma {:induction false} RefusedNext(g: Graph, g': Graph, named: set<TypeId>, n: Id, n': Id, v2: Id, data: Data,
                                       fields: set<Key>, present: set<Key>, done: set<Key>, key: Key)
    requires Rewrites(g, g', named, n, n', {v2}) && key in data && data[key].Some? && key in fields
    ensures RefsNamed(g', named, data[key].value) <==> Buildable(g, named, data, key)
    ensures RefusedKeys(g, named, data, fields, present) * (done + {key})
         == RefusedKeys(g, named, data, fields, present) * done + if Buildable(g, named, data, key) then {} else {key}
  {
    RewritesNamed(g, g', named, n, n', {v2});
    RefsNamedSame(g, g', named, data[key].value);
  }

  lemma {:induction false} MadeWhole(g: Graph, g': Graph, named: set<TypeId>, n: Id, n': Id, v2: Id, fs: map<Key, Tree>,
                                     want: map<Key, Tree>, data: Data, fields: set<Key>, failed: set<Key>)
    requires BumpUnderway(g, g', named, n, n', v2, want, data, fields, fs.Keys, fs.Keys + fields, failed)
    requires want == Patched(fs, data, BuiltKeys(g, named, data, fields))
    ensures MadeAll(g', named, EntriesOf(g', v2), want, want.Keys, n)
    ensures failed == RefusedKeys(g, named, data, fields, fs.Keys)
  {
    assert forall k :: k in want ==> k in fs.Keys + fields;
    assert forall k :: k in RefusedKeys(g, named, data, fields, fs.Keys) ==> k in fs.Keys + fields;
  }

  /** Flagging the old version after its fields were carried over: only old rows are hit. */
  lemma {:induction false} RetireSettles(g: Graph, mid: Graph, named: set<TypeId>, n: Id, n': Id, prev: Id, v2: Id,
                                         s: set<Id>)
    requires Sound(g, named, n) && Sound(mid, named, n') && Rewrites(g, mid, named, n, n', {v2}) && NoneFlagged(g, mid)
    requires prev in g && prev != v2 && IsNamed(g, named, v2) && s == ReachSet(mid, named, prev) + {prev}
    ensures s == ReachSet(g, named, prev) + {prev} && forall x :: x in s ==> x in g && x < n
    ensures Sound(Flagged(mid, s), named, n') && Rewrites(g, Flagged(mid, s), named, n, n', {v2})
    ensures FlagsExactly(g, Flagged(mid, s), s)
  {
    ReachRewritten(g, mid, named, n, n', {v2}, prev);
    FlaggedRewrites(mid, s, named, n', {v2});
    RewritesTransitive(g, mid, Flagged(mid, s), named, n, n', n', {v2}, {v2});
    FlagsAdded(g, mid, named, n, n', {v2}, s);
  }

  /** The new version keeps its fields when the old one is retired. */
  lemma {:induction false} MadeAllRetired(mid: Graph, named: set<TypeId>, n: Id, n': Id, s: set<Id>, v2: Id,
                                          want: map<Key, Tree>, done: set<Key>)
    requires MadeAll(mid, named, EntriesOf(mid, v2), want, done, n) && forall x :: x in s ==> x < n
    ensures MadeAll(Flagged(mid, s), named, EntriesOf(Flagged(mid, s), v2), want, done, n)
  {
    FlaggedRewrites(mid, s, named, n', {});
    MadeAllRewritten(mid, Flagged(mid, s), named, n', n', {}, EntriesOf(mid, v2), want, done, n);
  }

  lemma {:induction false} FlagsAdded(g: Graph, mid: Graph, named: set<TypeId>, n: Id, n': Id, targets: set<Id>,
                                      s: set<Id>)
    requires Rewrites(g, mid, named, n, n', targets) && NoneFlagged(g, mid)
    ensures FlagsExactly(g, Flagged(mid, s), s)
  {
    assert forall x :: x in g ==> SameRow(g[x], mid[x]);
  }
}
