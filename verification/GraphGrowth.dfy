/**
 * How the node store grows: rows that are added, and values that are built from
 * them (packages/core/src/db.ts).
 *
 * Ids are handed out in increasing order. The program's ids are random; the order
 * stands for the order of insertion, which SQLite keeps as the row id.
 */
module GraphGrowth {
  import opened Common
  import opened GraphModel

  ghost predicate Unfolds(g: Graph, named: set<TypeId>, id: Id) { exists t :: Denotes(g, named, id, t) }

  /** Every node unfolds. So anonymous nodes form no cycle. */
  ghost predicate AllUnfold(g: Graph, named: set<TypeId>) { forall id :: id in g ==> Unfolds(g, named, id) }

  ghost predicate Whole(g: Graph, named: set<TypeId>) { Closed(g) && AllUnfold(g, named) }

  /** All ids are below the next one to be handed out. */
  ghost predicate Below(g: Graph, next: Id) { forall id :: id in g ==> id < next }

  ghost predicate TimelinesBelow(g: Graph, next: Id) { forall id :: id in g ==> g[id].timeline < next }

  ghost predicate Sound(g: Graph, named: set<TypeId>, next: Id) {
    Whole(g, named) && Below(g, next) && TimelinesBelow(g, next)
  }

  ghost function Unfolding(g: Graph, named: set<TypeId>, id: Id): (t: Tree)
    requires Unfolds(g, named, id)
    ensures Denotes(g, named, id, t)
  {
    var t :| Denotes(g, named, id, t);
    t
  }

  /** The unfoldings of the entries of a map row. */
  ghost function FieldTrees(g: Graph, named: set<TypeId>, id: Id): (fs: map<Key, Tree>)
    requires Whole(g, named) && id in g && g[id].body.MapBody?
    ensures fs.Keys == g[id].body.entries.Keys
    ensures forall k :: k in fs ==> Denotes(g, named, g[id].body.entries[k], fs[k])
  {
    var entries := g[id].body.entries;
    assert forall k :: k in entries ==> entries[k] in Children(g, id);
    map k | k in entries :: Unfolding(g, named, entries[k])
  }

  lemma {:induction false} ReferenceUnfolds(g: Graph, named: set<TypeId>, id: Id)
    requires IsNamed(g, named, id)
    ensures Unfolds(g, named, id)
  {
    assert Denotes(g, named, id, RefT(id));
  }

  lemma {:induction false} ListUnfolds(g: Graph, named: set<TypeId>, id: Id)
    requires id in g && g[id].body.ListBody?
    requires forall c :: c in Children(g, id) ==> Unfolds(g, named, c)
    ensures Unfolds(g, named, id)
  {
    var items := g[id].body.items;
    assert forall i :: 0 <= i < |items| ==> items[i] in Children(g, id);
    var ts := seq(|items|, i requires 0 <= i < |items| => Unfolding(g, named, items[i]));
    assert Denotes(g, named, id, ListT(ts));
  }

  lemma {:induction false} MapUnfolds(g: Graph, named: set<TypeId>, id: Id)
    requires id in g && g[id].body.MapBody? && !IsNamed(g, named, id)
    requires forall c :: c in Children(g, id) ==> Unfolds(g, named, c)
    ensures Unfolds(g, named, id)
  {
    var entries := g[id].body.entries;
    assert forall k :: k in entries ==> entries[k] in Children(g, id);
    var ts := map k | k in entries :: Unfolding(g, named, entries[k]);
    assert Denotes(g, named, id, MapT(g[id].body.typeId, ts));
  }

  /** A row whose children unfold unfolds. */
  lemma {:induction false} RowUnfolds(g: Graph, named: set<TypeId>, id: Id)
    requires id in g && forall c :: c in Children(g, id) ==> Unfolds(g, named, c)
    ensures Unfolds(g, named, id)
  {
    match g[id].body
    case SymbolBody(v) => assert Denotes(g, named, id, SymbolT(v));
    case MeaningBody(v) => assert Denotes(g, named, id, MeaningT(v));
    case ListBody(_) => ListUnfolds(g, named, id);
    case MapBody(_, _) =>
      if IsNamed(g, named, id) { ReferenceUnfolds(g, named, id); } else { MapUnfolds(g, named, id); }
  }

  // ---- Values that can be built --------------------------------------------------------

  /** Every reference in a place that takes references leads to a named map. */
  ghost predicate RefsNamed(g: Graph, named: set<TypeId>, t: Tree)
    decreases t
  {
    match t
    case RefT(x) => IsNamed(g, named, x)
    case EntryT(_) => false
    case ListT(ts) => forall i :: 0 <= i < |ts| ==> RefsNamed(g, named, ts[i])
    case MapT(ty, es) => ty !in named && forall k :: k in es ==> RefsNamed(g, named, es[k])
    case _ => true
  }

  lemma {:induction false} RefsNamedSame(g: Graph, g': Graph, named: set<TypeId>, t: Tree)
    requires forall x :: IsNamed(g', named, x) == IsNamed(g, named, x)
    ensures RefsNamed(g', named, t) <==> RefsNamed(g, named, t)
    decreases t
  {
    if t.ListT? {
      forall i | 0 <= i < |t.items| ensures RefsNamed(g', named, t.items[i]) <==> RefsNamed(g, named, t.items[i]) {
        RefsNamedSame(g, g', named, t.items[i]);
      }
    } else if t.MapT? {
      forall k | k in t.entries ensures RefsNamed(g', named, t.entries[k]) <==> RefsNamed(g, named, t.entries[k]) {
        RefsNamedSame(g, g', named, t.entries[k]);
      }
    }
  }

  /** Every other reference leads to a row that was there before `floor` was handed out. */
  ghost predicate Linked(g: Graph, floor: Id, t: Tree)
    decreases t
  {
    match t
    case AliasT(x) => x in g && x < floor
    case ListT(ts) => forall i :: 0 <= i < |ts| ==> Linked(g, floor, ts[i])
    case MapT(_, es) => forall k :: k in es ==> Linked(g, floor, es[k])
    case _ => true
  }

  lemma {:induction false} LinkedLater(g: Graph, g': Graph, floor: Id, floor': Id, t: Tree)
    requires Linked(g, floor, t) && floor <= floor' && forall x :: x in g ==> x in g'
    ensures Linked(g', floor', t)
    decreases t
  {
    if t.ListT? {
      forall i | 0 <= i < |t.items| ensures Linked(g', floor', t.items[i]) {
        LinkedLater(g, g', floor, floor', t.items[i]);
      }
    } else if t.MapT? {
      forall k | k in t.entries ensures Linked(g', floor', t.entries[k]) {
        LinkedLater(g, g', floor, floor', t.entries[k]);
      }
    }
  }

  // ---- Adding rows -----------------------------------------------------------------------

  /** A reference of a new row leads to a named map, to a row inserted later, or to a row below the floor. */
  ghost predicate ChildOk(g: Graph, named: set<TypeId>, floor: Id, id: Id, c: Id) {
    c in g && (IsNamed(g, named, c) || id < c || c < floor)
  }

  /** A live, unversioned, anonymous row whose children are there. */
  ghost predicate IsFreshRow(g: Graph, named: set<TypeId>, floor: Id, id: Id) {
    && id in g && !g[id].tombstone && g[id].timeline == id && g[id].version == 1 && !IsNamed(g, named, id)
    && forall c :: c in Children(g, id) ==> ChildOk(g, named, floor, id, c)
  }

  /** The graph with more rows, all of them fresh. */
  ghost predicate Adds(g: Graph, g': Graph, named: set<TypeId>, next: Id, next': Id, floor: Id) {
    && next <= next'
    && Grows(g, g')
    && forall x :: x in g' && x !in g ==> next <= x < next' && IsFreshRow(g', named, floor, x)
  }

  lemma {:induction false} AddsNamed(g: Graph, g': Graph, named: set<TypeId>, next: Id, next': Id, floor: Id)
    requires Adds(g, g', named, next, next', floor)
    ensures forall x :: IsNamed(g', named, x) == IsNamed(g, named, x)
  {
    assert forall x :: x in g' && x !in g ==> IsFreshRow(g', named, floor, x);
  }

  /** New rows refer to rows that unfold, or to newer ones. */
  lemma {:induction false} AddedUnfolds(g: Graph, g': Graph, named: set<TypeId>, next: Id, next': Id, floor: Id, id: Id)
    requires AllUnfold(g, named) && Below(g, next) && Adds(g, g', named, next, next', floor) && floor <= next
    requires id in g'
    ensures Unfolds(g', named, id)
    decreases if id in g then 0 else next' - id
  {
    if id in g {
      DenotesGrows(g, g', named, id, Unfolding(g, named, id));
    } else {
      assert IsFreshRow(g', named, floor, id);
      forall c | c in Children(g', id) ensures Unfolds(g', named, c) {
        assert ChildOk(g', named, floor, id, c);
        if IsNamed(g', named, c) {
          ReferenceUnfolds(g', named, c);
        } else {
          AddedUnfolds(g, g', named, next, next', floor, c);
        }
      }
      RowUnfolds(g', named, id);
    }
  }

  lemma {:induction false} AddsSound(g: Graph, g': Graph, named: set<TypeId>, next: Id, next': Id, floor: Id)
    requires Sound(g, named, next) && Adds(g, g', named, next, next', floor) && floor <= next
    ensures Sound(g', named, next')
  {
    forall x | x in g' ensures x < next' && g'[x].timeline < next' && forall c :: c in Children(g', x) ==> c in g' {
      if x !in g {
        assert IsFreshRow(g', named, floor, x);
      }
    }
    forall x | x in g' ensures Unfolds(g', named, x) {
      AddedUnfolds(g, g', named, next, next', floor, x);
    }
  }

  lemma {:induction false} AddRow(g: Graph, next: Id, named: set<TypeId>, body: Body, floor: Id)
    requires Below(g, next) && (body.MapBody? ==> body.typeId !in named) && ChildrenOf(body) == {}
    ensures Adds(g, g[next := Row(body, next, 1, false)], named, next, next + 1, floor)
  {
  }

  /** Filling in the body of a row that was added. */
  lemma {:induction false} SetBody(g: Graph, g': Graph, named: set<TypeId>, next: Id, next': Id, floor: Id, id: Id,
                                   body: Body)
    requires Adds(g, g', named, next, next', floor) && id in g' && id !in g
    requires body.MapBody? ==> body.typeId !in named
    requires forall c :: c in ChildrenOf(body) ==> ChildOk(g', named, floor, id, c)
    ensures Adds(g, g'[id := g'[id].(body := body)], named, next, next', floor)
  {
    var g2 := g'[id := g'[id].(body := body)];
    assert IsFreshRow(g', named, floor, id);
    assert forall x :: IsNamed(g2, named, x) == IsNamed(g', named, x);
    assert forall x, c :: ChildOk(g', named, floor, x, c) ==> ChildOk(g2, named, floor, x, c);
    forall x | x in g2 && x !in g ensures next <= x < next' && IsFreshRow(g2, named, floor, x) {
      assert IsFreshRow(g', named, floor, x);
    }
  }

  lemma {:induction false} AddsTransitive(g: Graph, g1: Graph, g2: Graph, named: set<TypeId>, n: Id, n1: Id, n2: Id,
                                          floor: Id)
    requires Adds(g, g1, named, n, n1, floor) && Adds(g1, g2, named, n1, n2, floor)
    ensures Adds(g, g2, named, n, n2, floor)
  {
    AddsNamed(g1, g2, named, n1, n2, floor);
    assert forall x, c :: ChildOk(g1, named, floor, x, c) ==> ChildOk(g2, named, floor, x, c);
    forall x | x in g2 && x !in g ensures n <= x < n2 && IsFreshRow(g2, named, floor, x) {
      if x in g1 {
        assert IsFreshRow(g1, named, floor, x) && g2[x] == g1[x];
      } else {
        assert IsFreshRow(g2, named, floor, x);
      }
    }
  }

  // ---- Values that were built --------------------------------------------------------------

  predicate IsOwn(g: Graph, id: Id, from: Id, live: bool) { id in g && from <= id && (live ==> !g[id].tombstone) }

  /**
   * The node holds the value: in rows created since `from`, live ones if so said, down to the
   * references. A reference in a place that takes none shares the row it leads to.
   */
  ghost predicate Made(g: Graph, named: set<TypeId>, id: Id, t: Tree, from: Id, live: bool)
    decreases t
  {
    match t
    case RefT(x) => id == x && IsNamed(g, named, id)
    case AliasT(x) => id == x && x in g
    case EntryT(_) => false
    case SymbolT(v) => IsOwn(g, id, from, live) && g[id].body == SymbolBody(v)
    case MeaningT(v) => IsOwn(g, id, from, live) && g[id].body == MeaningBody(v)
    case ListT(ts) =>
      && IsOwn(g, id, from, live) && g[id].body.ListBody? && |g[id].body.items| == |ts|
      && forall i :: 0 <= i < |ts| ==> Made(g, named, g[id].body.items[i], ts[i], from, live)
    case MapT(ty, es) =>
      && IsOwn(g, id, from, live) && g[id].body.MapBody? && g[id].body.typeId == ty && ty !in named
      && g[id].body.entries.Keys == es.Keys
      && forall k :: k in es ==> Made(g, named, g[id].body.entries[k], es[k], from, live)
  }

  /** Rows since `from` keep their bodies, and if so said the live ones stay live. */
  ghost predicate KeptSince(g: Graph, g': Graph, named: set<TypeId>, from: Id, live: bool) {
    && (forall x :: x in g ==> x in g' && (IsNamed(g, named, x) ==> IsNamed(g', named, x)))
    && (forall x :: x in g && from <= x && !IsNamed(g, named, x) ==> g'[x].body == g[x].body)
    && (live ==> forall x :: x in g && from <= x && g'[x].tombstone ==> g[x].tombstone)
  }

  /** A value that was made stays made while its own rows are kept. */
  lemma {:induction false} MadeKept(g: Graph, g': Graph, named: set<TypeId>, id: Id, t: Tree, from: Id, live: bool)
    requires Made(g, named, id, t, from, live) && KeptSince(g, g', named, from, live)
    ensures Made(g', named, id, t, from, live)
    decreases t
  {
    if t.ListT? {
      forall i | 0 <= i < |t.items| ensures Made(g', named, g[id].body.items[i], t.items[i], from, live) {
        MadeKept(g, g', named, g[id].body.items[i], t.items[i], from, live);
      }
    } else if t.MapT? {
      forall k | k in t.entries ensures Made(g', named, g[id].body.entries[k], t.entries[k], from, live) {
        MadeKept(g, g', named, g[id].body.entries[k], t.entries[k], from, live);
      }
    }
  }

  lemma {:induction false} MadeLess(g: Graph, named: set<TypeId>, id: Id, t: Tree, from: Id, live: bool, from': Id,
                                    live': bool)
    requires Made(g, named, id, t, from, live) && from' <= from && (live' ==> live)
    ensures Made(g, named, id, t, from', live')
    decreases t
  {
    if t.ListT? {
      forall i | 0 <= i < |t.items| ensures Made(g, named, g[id].body.items[i], t.items[i], from', live') {
        MadeLess(g, named, g[id].body.items[i], t.items[i], from, live, from', live');
      }
    } else if t.MapT? {
      forall k | k in t.entries ensures Made(g, named, g[id].body.entries[k], t.entries[k], from', live') {
        MadeLess(g, named, g[id].body.entries[k], t.entries[k], from, live, from', live');
      }
    }
  }

  predicate RootBelow(t: Tree, floor: Id) { t.AliasT? ==> t.row < floor }

  lemma {:induction false} MadeIsChild(g: Graph, named: set<TypeId>, id: Id, t: Tree, from: Id, live: bool, floor: Id,
                                       parent: Id)
    requires Made(g, named, id, t, from, live) && RootBelow(t, floor) && parent < from
    ensures ChildOk(g, named, floor, parent, id)
  {
  }

  lemma {:induction false} MadeGrows(g: Graph, g': Graph, named: set<TypeId>, id: Id, t: Tree, from: Id, live: bool)
    requires Made(g, named, id, t, from, live) && Grows(g, g')
    ensures Made(g', named, id, t, from, live)
  {
    MadeKept(g, g', named, id, t, from, live);
  }

  /** Replacing a row that the value does not own. */
  lemma {:induction false} MadeElsewhere(g: Graph, n: Id, row: Row, named: set<TypeId>, id: Id, t: Tree, from: Id,
                                         live: bool)
    requires Made(g, named, id, t, from, live) && n < from
    requires n in g && (IsNamed(g, named, n) ==> row.body.MapBody? && row.body.typeId in named)
    ensures Made(g[n := row], named, id, t, from, live)
  {
    MadeKept(g, g[n := row], named, id, t, from, live);
  }

  // ---- Values underway ------------------------------------------------------------------------

  /** A list row with its first items in place. */
  ghost predicate ListUnderway(g0: Graph, g: Graph, named: set<TypeId>, id: Id, next: Id, floor: Id, items: seq<Id>,
                               ts: seq<Tree>) {
    && id < next && Adds(g0, g, named, id, next, floor)
    && id in g && id !in g0 && g[id].body == ListBody(items)
    && |items| <= |ts| && (forall j :: 0 <= j < |ts| ==> RootBelow(ts[j], floor))
    && forall j :: 0 <= j < |items| ==> Made(g, named, items[j], ts[j], id + 1, true)
  }

  /** An anonymous map row with some of its entries in place. */
  ghost predicate MapUnderway(g0: Graph, g: Graph, named: set<TypeId>, id: Id, next: Id, floor: Id, typeId: TypeId,
                              entries: map<Key, Id>, ts: map<Key, Tree>) {
    && id < next && Adds(g0, g, named, id, next, floor)
    && id in g && id !in g0 && g[id].body == MapBody(typeId, entries) && typeId !in named
    && entries.Keys <= ts.Keys && (forall k :: k in ts ==> RootBelow(ts[k], floor))
    && forall k :: k in entries ==> Made(g, named, entries[k], ts[k], id + 1, true)
  }

  /** A child was made and is stored as the next item. */
  lemma {:induction false} ItemAdded(g0: Graph, g1: Graph, g2: Graph, named: set<TypeId>, id: Id, n1: Id, n2: Id,
                                     floor: Id, items: seq<Id>, child: Id, ts: seq<Tree>)
    requires ListUnderway(g0, g1, named, id, n1, floor, items, ts) && |items| < |ts|
    requires Adds(g1, g2, named, n1, n2, floor) && Made(g2, named, child, ts[|items|], n1, true)
    ensures ListUnderway(g0, g2[id := g2[id].(body := ListBody(items + [child]))], named, id, n2, floor,
                         items + [child], ts)
  {
    AddsTransitive(g0, g1, g2, named, id, n1, n2, floor);
    MadeTogether(g1, g2, named, items, child, ts, id + 1, n1);
    var items', g3 := items + [child], g2[id := g2[id].(body := ListBody(items + [child]))];
    forall j | 0 <= j < |items'|
      ensures ChildOk(g2, named, floor, id, items'[j]) && Made(g3, named, items'[j], ts[j], id + 1, true)
    {
      assert Made(g2, named, items'[j], ts[j], id + 1, true);
      MadeIsChild(g2, named, items'[j], ts[j], id + 1, true, floor, id);
      MadeElsewhere(g2, id, g3[id], named, items'[j], ts[j], id + 1, true);
    }
    SetBody(g0, g2, named, id, n2, floor, id, ListBody(items'));
  }

  lemma {:induction false} EntryAdded(g0: Graph, g1: Graph, g2: Graph, named: set<TypeId>, id: Id, n1: Id, n2: Id,
                                      floor: Id, typeId: TypeId, entries: map<Key, Id>, key: Key, child: Id,
                                      ts: map<Key, Tree>)
    requires MapUnderway(g0, g1, named, id, n1, floor, typeId, entries, ts) && key in ts
    requires Adds(g1, g2, named, n1, n2, floor) && Made(g2, named, child, ts[key], n1, true)
    ensures MapUnderway(g0, g2[id := g2[id].(body := MapBody(typeId, entries[key := child]))], named, id, n2, floor,
                        typeId, entries[key := child], ts)
  {
    AddsTransitive(g0, g1, g2, named, id, n1, n2, floor);
    var entries', g3 := entries[key := child], g2[id := g2[id].(body := MapBody(typeId, entries[key := child]))];
    forall k | k in entries'
      ensures ChildOk(g2, named, floor, id, entries'[k]) && Made(g3, named, entries'[k], ts[k], id + 1, true)
    {
      if k != key {
        MadeGrows(g1, g2, named, entries[k], ts[k], id + 1, true);
      } else {
        MadeLess(g2, named, child, ts[key], n1, true, id + 1, true);
      }
      MadeIsChild(g2, named, entries'[k], ts[k], id + 1, true, floor, id);
      MadeElsewhere(g2, id, g3[id], named, entries'[k], ts[k], id + 1, true);
    }
    SetBody(g0, g2, named, id, n2, floor, id, MapBody(typeId, entries'));
  }

  lemma {:induction false} MadeTogether(g: Graph, g': Graph, named: set<TypeId>, ids: seq<Id>, child: Id, ts: seq<Tree>,
                                        from: Id, from': Id)
    requires Grows(g, g') && |ids| < |ts| && from <= from'
    requires forall j :: 0 <= j < |ids| ==> Made(g, named, ids[j], ts[j], from, true)
    requires Made(g', named, child, ts[|ids|], from', true)
    ensures forall j :: 0 <= j < |ids| + 1 ==> Made(g', named, (ids + [child])[j], ts[j], from, true)
  {
    forall j | 0 <= j < |ids| ensures Made(g', named, ids[j], ts[j], from, true) {
      MadeGrows(g, g', named, ids[j], ts[j], from, true);
    }
    MadeLess(g', named, child, ts[|ids|], from', true, from, true);
  }

  lemma {:induction false} ListMade(g: Graph, named: set<TypeId>, id: Id, items: seq<Id>, t: Tree, from: Id)
    requires t.ListT? && |items| == |t.items| && id in g && g[id].body == ListBody(items) && from <= id
    requires !g[id].tombstone
    requires forall j :: 0 <= j < |items| ==> Made(g, named, items[j], t.items[j], id + 1, true)
    ensures Made(g, named, id, t, from, true)
  {
    forall j | 0 <= j < |items| ensures Made(g, named, items[j], t.items[j], from, true) {
      MadeLess(g, named, items[j], t.items[j], id + 1, true, from, true);
    }
  }

  lemma {:induction false} MapMade(g: Graph, named: set<TypeId>, id: Id, entries: map<Key, Id>, t: Tree, from: Id)
    requires t.MapT? && t.typeId !in named && entries.Keys == t.entries.Keys
    requires id in g && g[id].body == MapBody(t.typeId, entries) && from <= id && !g[id].tombstone
    requires forall k :: k in entries ==> Made(g, named, entries[k], t.entries[k], id + 1, true)
    ensures Made(g, named, id, t, from, true)
  {
    forall k | k in entries ensures Made(g, named, entries[k], t.entries[k], from, true) {
      MadeLess(g, named, entries[k], t.entries[k], id + 1, true, from, true);
    }
  }
}
