/**
 * A run of the node store in which a field of one map is hidden by a bump of another
 * (packages/core/src/db.ts).
 */
module GraphExamples {
  import opened Common
  import opened GraphModel
  import opened GraphGrowth
  import opened GraphRewrites
  import opened GraphFields
  import opened GraphBatch
  import opened GraphOutcome
  import opened GraphStore

  const TYPE := "Note"
  const FIELD := "text"

  /** One versioned type with one symbol field. */
  const SCHEMAS: Schemas := map[TYPE := Schema({FIELD}, {}, true)]

  function OneField(v: Tree): Data { map[FIELD := Some(v)] }

  lemma {:induction false} InsertedFieldHolds(g0: Graph, n0: Id, g: Graph, e: Entry, id: Id, ids: seq<Option<Id>>,
                                              failed: set<Key>, live: bool, v: Tree)
    requires Whole(g, SCHEMAS.Keys) && e == Insert(TYPE, OneField(v)) && (v.SymbolT? || v.AliasT?)
    requires Accepted(g0, SCHEMAS, e) && Outcome(g0, n0, g, SCHEMAS, e, id, ids, failed, live)
    ensures id !in g0 && id in g && g[id].timeline == id && g[id].version == 1 && IsNamed(g, SCHEMAS.Keys, id)
    ensures EntriesOf(g, id).Keys == {FIELD} && Made(g, SCHEMAS.Keys, EntriesOf(g, id)[FIELD], v, n0, live)
  {
    var data := ResolveData(e.data, ids);
    assert data[FIELD] == Some(v);
    assert KeysWritten(e, {FIELD}, {}) == {FIELD};
    assert Buildable(g, SCHEMAS.Keys, data, FIELD);
  }

  lemma {:induction false} LookUpField(e: Entry, rows: set<Id>, v: Tree)
    requires e == Insert(TYPE, OneField(v)) && (v.SymbolT? || (v.AliasT? && v.row in rows))
    ensures LookedUp([e], rows) == [e]
  {
    assert LookUpData(OneField(v), rows, 1) == OneField(v);
  }

  /** A batch of one insert of a symbol, or of a reference to a row in the place of a symbol. */
  method InsertOne(store: GraphStore, v: Tree) returns (id: Id)
    requires store.Valid() && store.schemas == SCHEMAS && (v.SymbolT? || (v.AliasT? && v.row in store.nodes))
    modifies store
    ensures store.Valid() && id !in old(store.nodes) && id in store.nodes && store.nodes[id].timeline == id
    ensures store.nodes[id].version == 1 && IsNamed(store.nodes, SCHEMAS.Keys, id)
    ensures EntriesOf(store.nodes, id).Keys == {FIELD}
    ensures Made(store.nodes, SCHEMAS.Keys, EntriesOf(store.nodes, id)[FIELD], v, old(store.next), true)
    ensures OldRowsKept(old(store.nodes), store.nodes, {}) && FlagsExactly(old(store.nodes), store.nodes, {})
  {
    ghost var g0, n0 := store.nodes, store.next;
    var e := Insert(TYPE, OneField(v));
    LookUpField(e, g0.Keys, v);
    var ids, failed := store.InsertEntries([e]);
    assert Accepted(g0, SCHEMAS, [e][0]);
    id := ids[0].value;
    OnlyInserted(g0, store.nodes, e, ids);
    assert OutcomeAt(g0, n0, store.nodes, SCHEMAS, [e][0], ids[0], ids, failed[0], true);
    InsertedFieldHolds(g0, n0, store.nodes, e, id, ids, failed[0], true, v);
    assert WriteIds([e], ids) == {id};
  }

  /** A batch of one insert flags nothing. */
  lemma {:induction false} OnlyInserted(g0: Graph, g: Graph, e: Entry, ids: seq<Option<Id>>)
    requires e.Insert? && |ids| == 1 && ids[0].Some? && ids[0].value !in g0
    requires BatchFlagged(g0, g, SCHEMAS, [e], ids)
    ensures KeepsLive(g0, SCHEMAS, [e], ids) && FlagsExactly(g0, g, {})
  {
    assert Overwritten(g0, SCHEMAS, [e], ids, 0) == {};
    assert OverwrittenBy(g0, SCHEMAS, e, ids[0]) == {};
    assert Overwritten(g0, SCHEMAS, [e], ids, 1) == {};
    assert RemovalRows([e], ids) + Retired(g, SCHEMAS.Keys, [e], ids, 1) + Cleared(g0, SCHEMAS.Keys, {}) == {};
  }

  /** A batch of one bump that changes no field: what it flags when the map holds one symbol. */
  lemma {:induction false} BumpFlags(g0: Graph, g: Graph, p: Id, ids: seq<Option<Id>>, c: Id)
    requires |ids| == 1 && ids[0].Some? && BatchFlagged(g0, g, SCHEMAS, [Bump(p, map[])], ids)
    requires p in g && Children(g, p) == {c} && c in g && Children(g, c) == {} && c != p
    ensures FlagsExactly(g0, g, {p, c})
  {
    var batch := [Bump(p, map[])];
    assert Overwritten(g0, SCHEMAS, batch, ids, 0) == {};
    assert Overwritten(g0, SCHEMAS, batch, ids, 1) == {};
    OnlyChild(g, p, c);
    assert batch[0].IsBump() && batch[0].id == p;
    assert Retired(g, SCHEMAS.Keys, batch, ids, 1) == {p, c};
    assert RemovalRows(batch, ids) + {p, c} + Cleared(g0, SCHEMAS.Keys, {}) == {p, c};
  }

  lemma {:induction false} OnlyChild(g: Graph, p: Id, c: Id)
    requires Children(g, p) == {c} && c in g && Children(g, c) == {} && c != p
    ensures ReachSet(g, SCHEMAS.Keys, p) == {c}
  {
    ReachesChild(g, SCHEMAS.Keys, p, c);
    forall x | x in ReachSet(g, SCHEMAS.Keys, p) ensures x == c {
      var w :| IsWalk(g, SCHEMAS.Keys, p, w) && w[|w| - 1] == x;
      ReachedInClosure(g, SCHEMAS.Keys, p, {c}, w);
    }
  }

  lemma {:induction false} LookUpBump(p: Id, rows: set<Id>)
    ensures LookedUp([Bump(p, map[])], rows) == [Bump(p, map[])]
  {
    assert LookUpData(map[], rows, 1) == map[];
  }

  lemma {:induction false} OneChild(g0: Graph, g: Graph, p: Id, c: Id)
    requires OldRowsKept(g0, g, {}) && p in g0 && c in g0 && EntriesOf(g0, p) == map[FIELD := c]
    requires g0[c].body.SymbolBody?
    ensures p in g && Children(g, p) == {c} && c in g && Children(g, c) == {} && c != p
  {
    assert FIELD in EntriesOf(g0, p);
    assert SameRow(g0[p], g[p]) && SameRow(g0[c], g[c]);
    assert Children(g, p) == {c};
  }

  method BumpUnchanged(store: GraphStore, p: Id, c: Id)
    requires store.Valid() && store.schemas == SCHEMAS && IsNamed(store.nodes, SCHEMAS.Keys, p)
    requires IsHead(store.nodes, p)
    requires EntriesOf(store.nodes, p) == map[FIELD := c] && c in store.nodes && store.nodes[c].body.SymbolBody?
    modifies store
    ensures store.Valid() && OldRowsKept(old(store.nodes), store.nodes, {})
    ensures FlagsExactly(old(store.nodes), store.nodes, {p, c})
  {
    ghost var g0 := store.nodes;
    LookUpBump(p, g0.Keys);
    var ids, failed := store.InsertEntries([Bump(p, map[])]);
    assert Accepted(g0, SCHEMAS, [Bump(p, map[])][0]);
    assert WriteIds([Bump(p, map[])], ids) == {};
    OneChild(g0, store.nodes, p, c);
    BumpFlags(g0, store.nodes, p, ids, c);
  }

  lemma {:induction false} BodiesKept(g0: Graph, g: Graph)
    requires OldRowsKept(g0, g, {})
    ensures forall x :: x in g0 ==> x in g && g[x].body == g0[x].body
  {
  }

  lemma {:induction false} LiveIsHead(g: Graph, x: Id)
    requires OldVersionsHidden(g) && x in g && !g[x].tombstone
    ensures IsHead(g, x)
  {
  }

  /**
   * One map owns a symbol. Another is given a reference to that symbol in the place of a symbol, which
   * the program accepts. A bump of the first then hides the field of the second, which stays live itself.
   */
  method SharedFieldLost(value: string) returns (store: GraphStore, q: Id, c: Id)
    ensures store.Valid() && IsHead(store.nodes, q) && !store.nodes[q].tombstone
    ensures EntriesOf(store.nodes, q) == map[FIELD := c]
    ensures c in store.nodes && store.nodes[c].body == SymbolBody(value) && store.nodes[c].tombstone
  {
    store := new GraphStore(SCHEMAS);
    var p := InsertOne(store, SymbolT(value));
    c := store.nodes[p].body.entries[FIELD];
    ghost var g1 := store.nodes;
    q := InsertOne(store, AliasT(c));
    ghost var g2 := store.nodes;
    BodiesKept(g1, g2);
    LiveIsHead(g2, p);
    BumpUnchanged(store, p, c);
    BodiesKept(g2, store.nodes);
    LiveIsHead(store.nodes, q);
  }
}
