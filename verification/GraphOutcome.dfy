/**
 * What a whole batch comes to: the three phases put together, said of the graph
 * before and the graph after (packages/core/src/db.ts).
 */
module GraphOutcome {
  import opened Common
  import opened GraphModel
  import opened GraphGrowth
  import opened GraphRewrites
  import opened GraphFields
  import opened GraphReach
  import opened GraphBatch

  /** What an accepted entry comes to. `id` is the row that the caller is given. */
  ghost predicate Outcome(g0: Graph, n0: Id, g: Graph, schemas: Schemas, e: Entry, id: Id, ids: seq<Option<Id>>,
                          failed: set<Key>, live: bool)
    requires Accepted(g0, schemas, e) && Whole(g, schemas.Keys)
  {
    match e
    case Insert(ty, _) =>
      && id !in g0 && id in g && g[id].timeline == id && g[id].version == 1
      && g[id].body == MapBody(ty, EntriesOf(g, id))
      && WriteDone(map[], schemas[ty].fields, g, schemas.Keys, n0, e, id, ids, failed, live)
    case Patch(target, _, _) =>
      && id == target
      && WriteDone(EntriesOf(g0, id), FieldsOf(g0, schemas, id), g, schemas.Keys, n0, e, id, ids, failed, live)
    case Bump(prev, _) =>
      NextVersion(g0, g, prev, id) && Targets(g, schemas, prev) && BumpDone(g, g, schemas, n0, e, id, ids, failed)
    case Remove(prev) => NextVersion(g0, g, prev, id) && g[id].tombstone && EntriesOf(g, id) == map[] && failed == {}
  }

  /** A new row is the next version on the timeline, and the old version is flagged. */
  ghost predicate NextVersion(g0: Graph, g: Graph, prev: Id, id: Id)
    requires prev in g0 && g0[prev].body.MapBody?
  {
    && id !in g0 && id in g && prev in g && g[prev].tombstone
    && g[id].timeline == g0[prev].timeline && g[id].version == g0[prev].version + 1
    && g[id].body == MapBody(g0[prev].body.typeId, EntriesOf(g, id))
  }

  ghost predicate Complete(g0: Graph, g1: Graph, schemas: Schemas, n0: Id, n1: Id, batch: seq<Entry>,
                           ids: seq<Option<Id>>) {
    && WellTargeted(g0, schemas, batch) && Sound(g0, schemas.Keys, n0) && |ids| == |batch| && BatchLinked(g0, n0, batch)
    && ShellsUnderway(g0, g1, schemas, n0, n1, batch, ids)
  }

  lemma {:induction false} WritesTargeted(g0: Graph, g1: Graph, schemas: Schemas, n0: Id, n1: Id, batch: seq<Entry>,
                                          ids: seq<Option<Id>>)
    requires Complete(g0, g1, schemas, n0, n1, batch, ids)
    ensures WritesReady(g1, schemas, n1, batch, ids)
    ensures forall x :: x in WriteIds(batch, ids) ==> IsNamed(g1, schemas.Keys, x)
  {
    forall j | 0 <= j < |batch| && batch[j].IsWrite() && ids[j].Some?
      ensures Targets(g1, schemas, ids[j].value) && DataLinked(g1, n1, ResolveData(batch[j].data, ids))
    {
      assert HasShell(g0, g1, n0, batch[j], ids[j].value) && Accepted(g0, schemas, batch[j]);
      assert EntryLinked(g0, n0, batch[j]);
      ResolvedLinked(g0, n0, g1, n1, batch[j], ids);
    }
    WriteIdsNamed(g1, schemas, n1, batch, ids);
  }

  lemma {:induction false} BumpsTargeted(g0: Graph, g1: Graph, schemas: Schemas, n0: Id, n1: Id, batch: seq<Entry>,
                                         ids: seq<Option<Id>>)
    requires Complete(g0, g1, schemas, n0, n1, batch, ids)
    ensures BumpsReady(g1, schemas, n1, batch, ids) && NewVersionsUnwritten(batch, ids)
    ensures forall j :: 0 <= j < |batch| && batch[j].IsBump() && ids[j].Some? ==> batch[j].id in g0
  {
    forall x | x in BumpIds(batch, ids) ensures n0 <= x {
      var k :| 0 <= k < |ids| && batch[k].IsBump() && ids[k].Some? && ids[k].value == x;
      assert HasShell(g0, g1, n0, batch[k], x);
    }
    forall j | 0 <= j < |batch| && batch[j].IsBump() && ids[j].Some?
      ensures batch[j].id in g0 && Targets(g1, schemas, batch[j].id)
      ensures IsNamed(g1, schemas.Keys, ids[j].value) && EntriesOf(g1, ids[j].value) == map[]
      ensures BumpLinked(g1, n1, batch[j], ids)
    {
      assert HasShell(g0, g1, n0, batch[j], ids[j].value) && Accepted(g0, schemas, batch[j]);
      assert EntryLinked(g0, n0, batch[j]);
      if batch[j].Bump? { ResolvedLinked(g0, n0, g1, n1, batch[j], ids); }
    }
    forall j | 0 <= j < |batch| && batch[j].IsBump() && ids[j].Some? ensures ids[j].value !in WriteIds(batch, ids) {
      BumpNotWritten(batch, ids, j);
    }
  }

  /** No new version is a row that the batch inserts or patches. */
  ghost predicate NewVersionsUnwritten(batch: seq<Entry>, ids: seq<Option<Id>>)
    requires |batch| == |ids|
  {
    forall j :: 0 <= j < |batch| && batch[j].IsBump() && ids[j].Some? ==> ids[j].value !in WriteIds(batch, ids)
  }

  lemma {:induction false} BumpNotWritten(batch: seq<Entry>, ids: seq<Option<Id>>, j: nat)
    requires |batch| == |ids| && Distinct(ids) && j < |batch| && batch[j].IsBump() && ids[j].Some?
    ensures ids[j].value !in WriteIds(batch, ids)
  {
    forall x | x in WriteIds(batch, ids) ensures x != ids[j].value {
      var k :| 0 <= k < |ids| && batch[k].IsWrite() && ids[k].Some? && ids[k].value == x;
      assert j < k || k < j;
    }
  }

  lemma {:induction false} BumpsStayReady(g1: Graph, g2: Graph, schemas: Schemas, n1: Id, n2: Id, batch: seq<Entry>,
                                          ids: seq<Option<Id>>)
    requires BumpsReady(g1, schemas, n1, batch, ids) && Sound(g2, schemas.Keys, n2)
    requires Rewrites(g1, g2, schemas.Keys, n1, n2, WriteIds(batch, ids)) && NewVersionsUnwritten(batch, ids)
    ensures BumpsReady(g2, schemas, n2, batch, ids)
  {
    RewritesNamed(g1, g2, schemas.Keys, n1, n2, WriteIds(batch, ids));
    forall j | 0 <= j < |batch| && batch[j].IsBump() && ids[j].Some?
      ensures Targets(g2, schemas, batch[j].id) && EntriesOf(g2, ids[j].value) == map[]
      ensures BumpLinked(g2, n2, batch[j], ids)
    {
      assert SameRow(g1[batch[j].id], g2[batch[j].id]);
      if batch[j].Bump? { DataLinkedLater(g1, g2, n1, n2, ResolveData(batch[j].data, ids)); }
    }
  }

  // ---- Timelines -----------------------------------------------------------------------------

  lemma {:induction false} TimelinesRestored(g0: Graph, g1: Graph, g2: Graph, g3: Graph, schemas: Schemas, n0: Id,
                                             n1: Id, n2: Id, n3: Id, batch: seq<Entry>, ids: seq<Option<Id>>,
                                             failed: seq<set<Key>>)
    requires Complete(g0, g1, schemas, n0, n1, batch, ids)
    requires Rewrites(g1, g2, schemas.Keys, n1, n2, WriteIds(batch, ids)) && BumpsReady(g2, schemas, n2, batch, ids)
    requires BumpsUnderway(g2, g3, schemas, n2, n3, batch, ids, failed, |batch|)
    ensures Numbered(g3) && OldVersionsHidden(g3)
    ensures forall j :: 0 <= j < |batch| && batch[j].IsBump() && ids[j].Some? ==>
              batch[j].id in g3 && g3[batch[j].id].tombstone
  {
    var pending := BumpTargets(g0, schemas, batch, |batch|);
    RewritesTimelines(g1, g2, schemas.Keys, n1, n2, WriteIds(batch, ids), pending);
    RewritesTimelines(g2, g3, schemas.Keys, n2, n3, BumpIds(batch, ids), pending);
    forall j | 0 <= j < |batch| && batch[j].IsBump() && ids[j].Some?
      ensures batch[j].id in g3 && g3[batch[j].id].tombstone
    {
      assert Targets(g2, schemas, batch[j].id);
      assert batch[j].id in Retired(g2, schemas.Keys, batch, ids, |batch|);
    }
    forall x | x in pending && x in g3 ensures g3[x].tombstone {
      var j :| 0 <= j < |batch| && batch[j].IsBump() && Accepted(g0, schemas, batch[j]) && batch[j].id == x;
      assert ids[j].Some?;
    }
  }

  // ---- Old rows ------------------------------------------------------------------------------

  /** Rows that were there: the same, but for flags and for the entries of patched rows. */
  ghost predicate OldRowsKept(g0: Graph, g: Graph, patched: set<Id>) {
    forall x :: x in g0 ==> x in g && SameRow(g0[x], g[x]) && (x !in patched ==> g[x].body == g0[x].body)
  }

  /** Every node that unfolded to a tree still does, superseded versions included. */
  ghost predicate UnfoldingsKept(g0: Graph, g: Graph, named: set<TypeId>) {
    forall id, t :: Denotes(g0, named, id, t) ==> Denotes(g, named, id, t)
  }

  lemma {:induction false} OldRows(g0: Graph, g1: Graph, g2: Graph, g3: Graph, schemas: Schemas, n0: Id, n1: Id, n2: Id,
                                   n3: Id, batch: seq<Entry>, ids: seq<Option<Id>>)
    requires Complete(g0, g1, schemas, n0, n1, batch, ids)
    requires Rewrites(g1, g2, schemas.Keys, n1, n2, WriteIds(batch, ids))
    requires Rewrites(g2, g3, schemas.Keys, n2, n3, BumpIds(batch, ids))
    ensures OldRowsKept(g0, g3, WriteIds(batch, ids))
  {
    forall x | x in BumpIds(batch, ids) ensures n0 <= x {
      var k :| 0 <= k < |ids| && batch[k].IsBump() && ids[k].Some? && ids[k].value == x;
      assert HasShell(g0, g1, n0, batch[k], x);
    }
    forall x | x in g0
      ensures x in g3 && SameRow(g0[x], g3[x]) && (x !in WriteIds(batch, ids) ==> g3[x].body == g0[x].body)
    {
      assert g1[x] == g0[x] && SameRow(g1[x], g2[x]) && SameRow(g2[x], g3[x]);
    }
  }

  lemma {:induction false} UnfoldingKept(g0: Graph, g: Graph, named: set<TypeId>, patched: set<Id>, id: Id, t: Tree)
    requires OldRowsKept(g0, g, patched) && Denotes(g0, named, id, t)
    requires forall x :: x in patched && x in g0 ==> IsNamed(g0, named, x)
    ensures Denotes(g, named, id, t) && Anonymous(g, named, id, t) == Anonymous(g0, named, id, t)
  {
    AnonymousInGraph(g0, named, id, t);
    assert forall x :: x in g0 ==> SameRow(g0[x], g[x]);
    DenotesFrame(g0, g, named, id, t);
  }

  lemma {:induction false} AllUnfoldingsKept(g0: Graph, g1: Graph, g: Graph, schemas: Schemas, n0: Id, n1: Id,
                                             batch: seq<Entry>, ids: seq<Option<Id>>)
    requires Complete(g0, g1, schemas, n0, n1, batch, ids) && OldRowsKept(g0, g, WriteIds(batch, ids))
    ensures UnfoldingsKept(g0, g, schemas.Keys)
  {
    WritesTargeted(g0, g1, schemas, n0, n1, batch, ids);
    forall id, t | Denotes(g0, schemas.Keys, id, t) ensures Denotes(g, schemas.Keys, id, t) {
      UnfoldingKept(g0, g, schemas.Keys, WriteIds(batch, ids), id, t);
    }
  }

  /** An old version has the same fields at the end of the batch as when its bump was made. */
  lemma {:induction false} SameFieldTrees(g2: Graph, n2: Id, g3: Graph, n3: Id, named: set<TypeId>, targets: set<Id>,
                                          id: Id)
    requires Sound(g2, named, n2) && Sound(g3, named, n3) && Rewrites(g2, g3, named, n2, n3, targets)
    requires forall x :: x in targets && x in g2 ==> IsNamed(g2, named, x)
    requires id in g2 && id !in targets && g2[id].body.MapBody?
    ensures id in g3 && g3[id].body == g2[id].body && FieldTrees(g3, named, id) == FieldTrees(g2, named, id)
  {
    var entries, fs, fs3 := g2[id].body.entries, FieldTrees(g2, named, id), FieldTrees(g3, named, id);
    forall k | k in fs ensures fs3[k] == fs[k] {
      DenotesNamedRewritten(g2, g3, named, n2, n3, targets, entries[k], fs[k]);
      DenotesUnique(g3, named, entries[k], fs[k], fs3[k]);
    }
    assert fs == fs3;
  }

  // ---- Outcomes ------------------------------------------------------------------------------

  /** The entries of a row that the bumps do not touch, said of the graph before the batch. */
  lemma {:induction false} WriteOutcome(g0: Graph, g1: Graph, g2: Graph, g3: Graph, schemas: Schemas, n0: Id, n1: Id,
                                        n2: Id, n3: Id, written: set<Id>, bumped: set<Id>, e: Entry, id: Id,
                                        ids: seq<Option<Id>>, failed: set<Key>, live: bool, live': bool)
    requires Accepted(g0, schemas, e) && e.IsWrite() && HasShell(g0, g1, n0, e, id) && Whole(g3, schemas.Keys)
    requires Grows(g0, g1) && id in g1 && n0 <= n1 && Below(g0, n0)
    requires Rewrites(g1, g2, schemas.Keys, n1, n2, written) && Rewrites(g2, g3, schemas.Keys, n2, n3, bumped)
    requires id !in bumped && forall x :: x in bumped ==> x < n1
    requires (live' ==> live) && (live' ==> forall x :: x in g2 && n1 <= x && g3[x].tombstone ==> g2[x].tombstone)
    requires WriteDone(EntriesOf(g1, id), FieldsOf(g1, schemas, id), g2, schemas.Keys, n1, e, id, ids, failed, live)
    ensures Outcome(g0, n0, g3, schemas, e, id, ids, failed, live')
  {
    assert SameRow(g1[id], g2[id]) && SameRow(g2[id], g3[id]);
    var before, fields := EntriesOf(g1, id), FieldsOf(g1, schemas, id);
    WriteKept(before, fields, g2, g3, schemas.Keys, n1, n2, n3, bumped, e, id, ids, failed, live, live');
    WriteFrom(before, fields, g3, schemas.Keys, n1, n0, e, id, ids, failed, live');
  }

  lemma {:induction false} WriteFrom(before: map<Key, Id>, fields: set<Key>, g: Graph, named: set<TypeId>, from: Id,
                                     from': Id, e: Entry, id: Id, ids: seq<Option<Id>>, failed: set<Key>, live: bool)
    requires e.IsWrite() && WriteDone(before, fields, g, named, from, e, id, ids, failed, live) && from' <= from
    ensures WriteDone(before, fields, g, named, from', e, id, ids, failed, live)
  {
    WroteFrom(g, named, before, EntriesOf(g, id), KeysWritten(e, fields, before.Keys), ResolveData(e.data, ids), from,
              live, from', live);
  }

  /** What a bump gave, said of the graph after the batch. */
  lemma {:induction false} BumpFrom(g2: Graph, n2: Id, g: Graph, n: Id, schemas: Schemas, targets: set<Id>, n0: Id,
                                    e: Entry, v2: Id, ids: seq<Option<Id>>, failed: set<Key>)
    requires e.Bump? && Sound(g2, schemas.Keys, n2) && Sound(g, schemas.Keys, n) && n0 <= n2
    requires Rewrites(g2, g, schemas.Keys, n2, n, targets) && e.id !in targets
    requires forall x :: x in targets && x in g2 ==> IsNamed(g2, schemas.Keys, x)
    requires Targets(g2, schemas, e.id) && BumpDone(g2, g, schemas, n2, e, v2, ids, failed)
    ensures Targets(g, schemas, e.id) && BumpDone(g, g, schemas, n0, e, v2, ids, failed)
  {
    SameFieldTrees(g2, n2, g, n, schemas.Keys, targets, e.id);
    var data := ResolveData(e.data, ids);
    var fs := FieldTrees(g2, schemas.Keys, e.id);
    var want := Patched(fs, data, BuiltKeys(g, schemas.Keys, data, FieldsOf(g2, schemas, e.id)));
    MadeAllLess(g, schemas.Keys, EntriesOf(g, v2), want, want.Keys, n2, n0);
  }

  lemma {:induction false} BumpOutcome(g0: Graph, g1: Graph, g2: Graph, g3: Graph, schemas: Schemas, n0: Id, n1: Id,
                                       n2: Id, n3: Id, written: set<Id>, bumped: set<Id>, e: Entry, v2: Id,
                                       ids: seq<Option<Id>>, failed: set<Key>, live: bool)
    requires Accepted(g0, schemas, e) && e.IsBump() && HasShell(g0, g1, n0, e, v2) && Below(g0, n0)
    requires Rewrites(g1, g2, schemas.Keys, n1, n2, written) && Rewrites(g2, g3, schemas.Keys, n2, n3, bumped)
    requires Sound(g2, schemas.Keys, n2) && Sound(g3, schemas.Keys, n3) && n0 <= n1
    requires (forall x :: x in bumped && x in g2 ==> IsNamed(g2, schemas.Keys, x)) && e.id !in bumped
    requires Targets(g2, schemas, e.id) && e.id in g3 && g3[e.id].tombstone
    requires BumpDone(g2, g3, schemas, n2, e, v2, ids, failed)
    ensures Outcome(g0, n0, g3, schemas, e, v2, ids, failed, live)
  {
    assert SameRow(g1[v2], g2[v2]) && SameRow(g2[v2], g3[v2]);
    if e.Bump? {
      BumpFrom(g2, n2, g3, n3, schemas, bumped, n0, e, v2, ids, failed);
    }
  }

  // ---- Flags -----------------------------------------------------------------------------------

  ghost function RemovalRows(batch: seq<Entry>, ids: seq<Option<Id>>): set<Id> {
    set j | 0 <= j < |ids| && j < |batch| && batch[j].Remove? && ids[j].Some? :: ids[j].value
  }

  lemma {:induction false} ShellFlags(g0: Graph, g1: Graph, schemas: Schemas, n0: Id, n1: Id, batch: seq<Entry>,
                                      ids: seq<Option<Id>>)
    requires Complete(g0, g1, schemas, n0, n1, batch, ids)
    ensures FlagsExactly(g0, g1, RemovalRows(batch, ids))
    ensures forall x :: x in RemovalRows(batch, ids) ==> x in g1 && x !in g0
  {
    forall x | x in RemovalRows(batch, ids) ensures x in g1 && x !in g0 && g1[x].tombstone {
      var j :| 0 <= j < |ids| && batch[j].Remove? && ids[j].Some? && ids[j].value == x;
      assert HasShell(g0, g1, n0, batch[j], x);
    }
    forall x | x in g1 && x !in g0 && x !in RemovalRows(batch, ids) ensures !g1[x].tombstone {
      assert IsShellOf(batch, ids, x);
      var j :| 0 <= j < |ids| && j < |batch| && !batch[j].Patch? && ids[j] == Some(x);
      assert HasShell(g0, g1, n0, batch[j], x);
    }
  }

  /** The bumps change nothing of what a walk from an old version goes through. */
  lemma {:induction false} SameRetired(g2: Graph, g3: Graph, schemas: Schemas, n2: Id, n3: Id, batch: seq<Entry>,
                                       ids: seq<Option<Id>>)
    requires BumpsReady(g2, schemas, n2, batch, ids) && Rewrites(g2, g3, schemas.Keys, n2, n3, BumpIds(batch, ids))
    ensures Retired(g3, schemas.Keys, batch, ids, |batch|) == Retired(g2, schemas.Keys, batch, ids, |batch|)
  {
    BumpIdsNamed(g2, schemas, n2, batch, ids);
    forall j | 0 <= j < |batch| && batch[j].IsBump() && ids[j].Some?
      ensures batch[j].id in g2 && ReachSet(g3, schemas.Keys, batch[j].id) == ReachSet(g2, schemas.Keys, batch[j].id)
    {
      ReachRewritten(g2, g3, schemas.Keys, n2, n3, BumpIds(batch, ids), batch[j].id);
    }
    forall x
      ensures x in Retired(g3, schemas.Keys, batch, ids, |batch|)
         <==> x in Retired(g2, schemas.Keys, batch, ids, |batch|)
    {
    }
  }

  lemma {:induction false} GrowsCleared(g: Graph, g': Graph, named: set<TypeId>, roots: set<Id>)
    requires Closed(g) && Grows(g, g') && forall c :: c in roots ==> c in g
    ensures Cleared(g', named, roots) == Cleared(g, named, roots)
  {
    forall c | c in roots ensures ReachSet(g', named, c) == ReachSet(g, named, c) {
      ReachSetStays(g, g', named, c);
    }
    forall x ensures x in Cleared(g', named, roots) <==> x in Cleared(g, named, roots) {
    }
  }

  /** The new rows have no values yet to overwrite. */
  lemma {:induction false} SameOverwrittenBy(g0: Graph, g1: Graph, schemas: Schemas, n0: Id, e: Entry, id: Id)
    requires HasShell(g0, g1, n0, e, id) && Accepted(g0, schemas, e) && Grows(g0, g1) && Below(g0, n0)
    ensures OverwrittenBy(g1, schemas, e, Some(id)) == OverwrittenBy(g0, schemas, e, Some(id))
  {
    if e.Insert? { assert EntriesOf(g0, id) == map[] == EntriesOf(g1, id); }
  }

  lemma {:induction false} SameOverwritten(g0: Graph, g1: Graph, schemas: Schemas, n0: Id, n1: Id, batch: seq<Entry>,
                                           ids: seq<Option<Id>>, count: nat)
    requires Below(g0, n0) && Grows(g0, g1) && Shells(g0, g1, schemas, n0, batch, ids) && count <= |batch| == |ids|
    ensures Overwritten(g1, schemas, batch, ids, count) == Overwritten(g0, schemas, batch, ids, count)
    decreases count
  {
    if count > 0 {
      SameOverwritten(g0, g1, schemas, n0, n1, batch, ids, count - 1);
      if ids[count - 1].Some? {
        SameOverwrittenBy(g0, g1, schemas, n0, batch[count - 1], ids[count - 1].value);
      }
    }
  }

  /**
   * The flags of a batch: the rows of its removals, what its bumps retire, and what its overwritten
   * values reach. This is exact unless an overwritten value is a reference to a row that the batch
   * itself writes; then what that value reaches before or after the batch is the bound.
   */
  ghost predicate BatchFlagged(g0: Graph, g: Graph, schemas: Schemas, batch: seq<Entry>, ids: seq<Option<Id>>)
    requires |batch| == |ids|
  {
    var over := Overwritten(g0, schemas, batch, ids, |batch|);
    var bumped := RemovalRows(batch, ids) + Retired(g, schemas.Keys, batch, ids, |batch|);
    && (Apart(g0, schemas, batch, ids, |batch|) ==> FlagsExactly(g0, g, bumped + Cleared(g0, schemas.Keys, over)))
    && (forall x :: x in g && g[x].tombstone ==>
          (x in g0 && g0[x].tombstone)
          || x in bumped + Cleared(g0, schemas.Keys, over) + Cleared(g, schemas.Keys, over))
    && (forall x :: x in bumped && x in g ==> g[x].tombstone)
  }

  /** The three phases, one after the other: each flags its own rows. */
  lemma {:induction false} FlagsAdd(g0: Graph, g1: Graph, g2: Graph, g3: Graph, a: set<Id>, b: set<Id>, c: set<Id>)
    requires FlagsExactly(g0, g1, a) && FlagsExactly(g1, g2, b) && FlagsExactly(g2, g3, c)
    requires (forall x :: x in g0 || x in a ==> x in g1) && (forall x :: x in g1 ==> x in g2)
    requires (forall x :: x in b ==> x in g1) && (forall x :: x in g2 ==> x in g3)
    ensures FlagsExactly(g0, g3, a + c + b)
  {
  }

  lemma {:induction false} BatchFlags(g0: Graph, g1: Graph, g2: Graph, g3: Graph, schemas: Schemas, n0: Id, n1: Id,
                                      n2: Id, n3: Id, batch: seq<Entry>, ids: seq<Option<Id>>, over: set<Id>)
    requires Complete(g0, g1, schemas, n0, n1, batch, ids) && Closed(g1) && Closed(g2)
    requires Rewrites(g1, g2, schemas.Keys, n1, n2, WriteIds(batch, ids))
    requires over == Overwritten(g1, schemas, batch, ids, |batch|)
    requires FlagsOfDrop(g1, g2, schemas.Keys, WriteIds(batch, ids), over)
    requires BumpsReady(g2, schemas, n2, batch, ids) && Rewrites(g2, g3, schemas.Keys, n2, n3, BumpIds(batch, ids))
    requires FlagsExactly(g2, g3, Retired(g2, schemas.Keys, batch, ids, |batch|))
    ensures BatchFlagged(g0, g3, schemas, batch, ids)
  {
    var named := schemas.Keys;
    SameOverwritten(g0, g1, schemas, n0, n1, batch, ids, |batch|);
    OverwrittenThere(g0, schemas, batch, ids, |batch|);
    ShellFlags(g0, g1, schemas, n0, n1, batch, ids);
    GrowsCleared(g0, g1, named, over);
    OldNotNew(g0, g1, n0, schemas, n1, batch, ids, over);
    BumpIdsNamed(g2, schemas, n2, batch, ids);
    ClearedRewritten(g2, g3, named, n2, n3, BumpIds(batch, ids), over);
    SameRetired(g2, g3, schemas, n2, n3, batch, ids);
    FlagsTogether(g0, g1, g2, g3, named, RemovalRows(batch, ids), over, Retired(g2, named, batch, ids, |batch|),
                  WriteIds(batch, ids));
  }

  lemma {:induction false} OldNotNew(g0: Graph, g1: Graph, n0: Id, schemas: Schemas, n1: Id, batch: seq<Entry>,
                                     ids: seq<Option<Id>>, s: set<Id>)
    requires Complete(g0, g1, schemas, n0, n1, batch, ids) && forall c :: c in s ==> c in g0
    ensures s !! BumpIds(batch, ids)
  {
    forall x | x in BumpIds(batch, ids) ensures x !in g0 {
      var k :| 0 <= k < |ids| && batch[k].IsBump() && ids[k].Some? && ids[k].value == x;
      assert HasShell(g0, g1, n0, batch[k], x);
    }
  }

  lemma {:induction false} FlagsTogether(g0: Graph, g1: Graph, g2: Graph, g3: Graph, named: set<TypeId>,
                                         removed: set<Id>, over: set<Id>, retired: set<Id>, rows: set<Id>)
    requires (forall x :: x in g0 || x in removed ==> x in g1)
    requires (forall x :: x in g1 ==> x in g2 && (g1[x].tombstone ==> g2[x].tombstone))
    requires (forall x :: x in g2 ==> x in g3) && forall x :: x in retired ==> x in g2
    requires FlagsExactly(g0, g1, removed) && FlagsOfDrop(g1, g2, named, rows, over) && FlagsExactly(g2, g3, retired)
    requires Cleared(g1, named, over) == Cleared(g0, named, over)
    requires Cleared(g2, named, over) == Cleared(g3, named, over)
    ensures rows !! over ==> FlagsExactly(g0, g3, removed + retired + Cleared(g0, named, over))
    ensures forall x :: x in g3 && g3[x].tombstone ==>
              (x in g0 && g0[x].tombstone)
              || x in removed + retired + Cleared(g0, named, over) + Cleared(g3, named, over)
    ensures forall x :: x in removed + retired && x in g3 ==> g3[x].tombstone
  {
    if rows !! over {
      FlagsAdd(g0, g1, g2, g3, removed, Cleared(g0, named, over), retired);
    }
  }

  /** What the two phases that write fields leave, before it is said of the graph before the batch. */
  ghost predicate Phases(g0: Graph, g1: Graph, g2: Graph, g3: Graph, schemas: Schemas, n0: Id, n1: Id, n2: Id, n3: Id,
                         batch: seq<Entry>, ids: seq<Option<Id>>, written: seq<set<Key>>, bumped: seq<set<Key>>) {
    && Complete(g0, g1, schemas, n0, n1, batch, ids) && BumpsReady(g1, schemas, n1, batch, ids)
    && WritesUnderway(g1, g2, schemas, n1, n2, batch, ids, written, |batch|) && NewVersionsUnwritten(batch, ids)
    && BumpsReady(g2, schemas, n2, batch, ids) && BumpsUnderway(g2, g3, schemas, n2, n3, batch, ids, bumped, |batch|)
  }

  /** No row is both bumped and patched. */
  ghost predicate BumpedUnwritten(batch: seq<Entry>, ids: seq<Option<Id>>)
    requires |batch| == |ids|
  {
    forall j :: 0 <= j < |batch| && batch[j].IsBump() && ids[j].Some? ==> batch[j].id !in WriteIds(batch, ids)
  }

  /** Nothing that the batch writes is hidden by the batch. */
  ghost predicate KeepsLive(g0: Graph, schemas: Schemas, batch: seq<Entry>, ids: seq<Option<Id>>)
    requires |batch| == |ids|
  {
    Apart(g0, schemas, batch, ids, |batch|) && BumpedUnwritten(batch, ids)
  }

  /** Then the bumps flag only rows from before the writes. */
  lemma {:induction false} RetiredIsOld(g1: Graph, g2: Graph, g3: Graph, schemas: Schemas, n1: Id, n2: Id,
                                        batch: seq<Entry>, ids: seq<Option<Id>>)
    requires BumpsReady(g1, schemas, n1, batch, ids) && BumpsReady(g2, schemas, n2, batch, ids)
    requires Rewrites(g1, g2, schemas.Keys, n1, n2, WriteIds(batch, ids)) && BumpedUnwritten(batch, ids)
    requires forall x :: x in WriteIds(batch, ids) ==> IsNamed(g1, schemas.Keys, x)
    requires FlagsExactly(g2, g3, Retired(g2, schemas.Keys, batch, ids, |batch|)) && forall x :: x in g2 ==> x in g3
    ensures forall x :: x in g2 && n1 <= x && g3[x].tombstone ==> g2[x].tombstone
  {
    forall x | x in Retired(g2, schemas.Keys, batch, ids, |batch|) ensures x < n1 {
      var j :| 0 <= j < |batch| && batch[j].IsBump() && ids[j].Some?
          && (x == batch[j].id || x in ReachSet(g2, schemas.Keys, batch[j].id));
      ReachRewritten(g1, g2, schemas.Keys, n1, n2, WriteIds(batch, ids), batch[j].id);
    }
  }

  ghost predicate OutcomeAt(g0: Graph, n0: Id, g: Graph, schemas: Schemas, e: Entry, id: Option<Id>,
                            ids: seq<Option<Id>>, failed: set<Key>, live: bool)
    requires Whole(g, schemas.Keys)
  {
    id.Some? ==> Accepted(g0, schemas, e) && Outcome(g0, n0, g, schemas, e, id.value, ids, failed, live)
  }

  /** What the outcome of each entry needs of the phases. */
  ghost predicate Frames(g0: Graph, g1: Graph, g2: Graph, g3: Graph, named: set<TypeId>, n0: Id, n1: Id, n2: Id, n3: Id,
                         written: set<Id>, bumped: set<Id>) {
    && Below(g0, n0) && n0 <= n1 && Grows(g0, g1) && Sound(g2, named, n2) && Sound(g3, named, n3)
    && Rewrites(g1, g2, named, n1, n2, written) && Rewrites(g2, g3, named, n2, n3, bumped)
    && forall x :: x in bumped ==> x < n1 && IsNamed(g2, named, x)
  }

  lemma {:induction false} PhaseFrames(g0: Graph, g1: Graph, g2: Graph, g3: Graph, schemas: Schemas, n0: Id, n1: Id,
                                       n2: Id, n3: Id, batch: seq<Entry>, ids: seq<Option<Id>>, written: seq<set<Key>>,
                                       bumped: seq<set<Key>>)
    requires Phases(g0, g1, g2, g3, schemas, n0, n1, n2, n3, batch, ids, written, bumped)
    ensures Frames(g0, g1, g2, g3, schemas.Keys, n0, n1, n2, n3, WriteIds(batch, ids), BumpIds(batch, ids))
  {
    BumpIdsNamed(g1, schemas, n1, batch, ids);
    BumpIdsNamed(g2, schemas, n2, batch, ids);
  }

  lemma {:induction false} WriteSettles(g0: Graph, g1: Graph, g2: Graph, g3: Graph, schemas: Schemas, n0: Id, n1: Id,
                                        n2: Id, n3: Id, written: set<Id>, bumped: set<Id>, e: Entry, id: Id,
                                        ids: seq<Option<Id>>, failed: set<Key>, live: bool, live': bool)
    requires Frames(g0, g1, g2, g3, schemas.Keys, n0, n1, n2, n3, written, bumped) && e.IsWrite() && id !in bumped
    requires HasShell(g0, g1, n0, e, id) && Accepted(g0, schemas, e) && id in g1
    requires (live' ==> live) && (live' ==> forall x :: x in g2 && n1 <= x && g3[x].tombstone ==> g2[x].tombstone)
    requires WriteAt(g1, g2, schemas, n1, e, Some(id), ids, failed, live)
    ensures OutcomeAt(g0, n0, g3, schemas, e, Some(id), ids, failed + {}, live')
  {
    assert failed + {} == failed;
    WriteOutcome(g0, g1, g2, g3, schemas, n0, n1, n2, n3, written, bumped, e, id, ids, failed, live, live');
  }

  lemma {:induction false} BumpSettles(g0: Graph, g1: Graph, g2: Graph, g3: Graph, schemas: Schemas, n0: Id, n1: Id,
                                       n2: Id, n3: Id, written: set<Id>, bumped: set<Id>, e: Entry, id: Id,
                                       ids: seq<Option<Id>>, failed: set<Key>, live: bool)
    requires Frames(g0, g1, g2, g3, schemas.Keys, n0, n1, n2, n3, written, bumped) && e.IsBump() && e.id !in bumped
    requires HasShell(g0, g1, n0, e, id) && Accepted(g0, schemas, e)
    requires Targets(g2, schemas, e.id) && e.id in g3 && g3[e.id].tombstone
    requires BumpAt(g2, g3, schemas, n2, e, Some(id), ids, failed)
    ensures OutcomeAt(g0, n0, g3, schemas, e, Some(id), ids, {} + failed, live)
  {
    assert {} + failed == failed;
    BumpOutcome(g0, g1, g2, g3, schemas, n0, n1, n2, n3, written, bumped, e, id, ids, failed, live);
  }

  /** What the phases have for the `j`-th entry. */
  lemma {:induction false} EntryPieces(g0: Graph, g1: Graph, g2: Graph, g3: Graph, schemas: Schemas, n0: Id, n1: Id,
                                       n2: Id, n3: Id, batch: seq<Entry>, ids: seq<Option<Id>>, written: seq<set<Key>>,
                                       bumped: seq<set<Key>>, j: nat)
    requires Phases(g0, g1, g2, g3, schemas, n0, n1, n2, n3, batch, ids, written, bumped) && j < |batch| && ids[j].Some?
    ensures Accepted(g0, schemas, batch[j]) && HasShell(g0, g1, n0, batch[j], ids[j].value)
    ensures WriteAt(g1, g2, schemas, n1, batch[j], ids[j], ids, written[j], Apart(g1, schemas, batch, ids, |batch|))
    ensures BumpAt(g2, g3, schemas, n2, batch[j], ids[j], ids, bumped[j])
    ensures if batch[j].IsWrite() then ids[j].value in g1 && ids[j].value !in BumpIds(batch, ids)
            else Targets(g2, schemas, batch[j].id) && batch[j].id !in BumpIds(batch, ids)
  {
    if batch[j].IsWrite() {
      forall k | 0 <= k < |batch| && batch[k].IsBump() && ids[k].Some? ensures ids[k].value != ids[j].value {
        assert ids[j].value in WriteIds(batch, ids);
      }
    }
  }

  lemma {:induction false} EntrySettles(g0: Graph, g1: Graph, g2: Graph, g3: Graph, schemas: Schemas, n0: Id, n1: Id,
                                        n2: Id, n3: Id, batch: seq<Entry>, ids: seq<Option<Id>>, written: seq<set<Key>>,
                                        bumped: seq<set<Key>>, j: nat, live: bool)
    requires Phases(g0, g1, g2, g3, schemas, n0, n1, n2, n3, batch, ids, written, bumped) && j < |batch| && ids[j].Some?
    requires live ==> Apart(g1, schemas, batch, ids, |batch|)
    requires live ==> forall x :: x in g2 && n1 <= x && g3[x].tombstone ==> g2[x].tombstone
    requires batch[j].IsBump() ==> batch[j].id in g3 && g3[batch[j].id].tombstone
    ensures OutcomeAt(g0, n0, g3, schemas, batch[j], ids[j], ids, written[j] + bumped[j], live)
  {
    EntryPieces(g0, g1, g2, g3, schemas, n0, n1, n2, n3, batch, ids, written, bumped, j);
    PhaseFrames(g0, g1, g2, g3, schemas, n0, n1, n2, n3, batch, ids, written, bumped);
    if batch[j].IsWrite() {
      WriteSettles(g0, g1, g2, g3, schemas, n0, n1, n2, n3, WriteIds(batch, ids), BumpIds(batch, ids), batch[j],
                   ids[j].value, ids, written[j], Apart(g1, schemas, batch, ids, |batch|), live);
    } else {
      BumpSettles(g0, g1, g2, g3, schemas, n0, n1, n2, n3, WriteIds(batch, ids), BumpIds(batch, ids), batch[j],
                  ids[j].value, ids, bumped[j], live);
    }
  }

  lemma {:induction false} AllSettle(g0: Graph, g1: Graph, g2: Graph, g3: Graph, schemas: Schemas, n0: Id, n1: Id,
                                     n2: Id, n3: Id, batch: seq<Entry>, ids: seq<Option<Id>>, written: seq<set<Key>>,
                                     bumped: seq<set<Key>>, live: bool)
    requires Phases(g0, g1, g2, g3, schemas, n0, n1, n2, n3, batch, ids, written, bumped)
    requires live ==> Apart(g1, schemas, batch, ids, |batch|) && BumpedUnwritten(batch, ids)
    requires forall j :: 0 <= j < |batch| && batch[j].IsBump() && ids[j].Some? ==>
               batch[j].id in g3 && g3[batch[j].id].tombstone
    ensures forall j :: 0 <= j < |batch| ==>
              OutcomeAt(g0, n0, g3, schemas, batch[j], ids[j], ids, written[j] + bumped[j], live)
  {
    if live {
      WritesTargeted(g0, g1, schemas, n0, n1, batch, ids);
      RetiredIsOld(g1, g2, g3, schemas, n1, n2, batch, ids);
    }
    forall j | 0 <= j < |batch| && ids[j].Some?
      ensures OutcomeAt(g0, n0, g3, schemas, batch[j], ids[j], ids, written[j] + bumped[j], live)
    {
      EntrySettles(g0, g1, g2, g3, schemas, n0, n1, n2, n3, batch, ids, written, bumped, j, live);
    }
  }

  /** The three phases put together. */
  lemma {:induction false} BatchSettles(g0: Graph, g1: Graph, g2: Graph, g3: Graph, schemas: Schemas, n0: Id, n1: Id,
                                        n2: Id, n3: Id, batch: seq<Entry>, ids: seq<Option<Id>>, written: seq<set<Key>>,
                                        bumped: seq<set<Key>>)
    requires Phases(g0, g1, g2, g3, schemas, n0, n1, n2, n3, batch, ids, written, bumped)
    ensures Numbered(g3) && OldVersionsHidden(g3) && BatchFlagged(g0, g3, schemas, batch, ids)
    ensures forall j :: 0 <= j < |batch| ==>
              OutcomeAt(g0, n0, g3, schemas, batch[j], ids[j], ids, written[j] + bumped[j],
                        KeepsLive(g0, schemas, batch, ids))
    ensures OldRowsKept(g0, g3, WriteIds(batch, ids)) && UnfoldingsKept(g0, g3, schemas.Keys)
  {
    TimelinesRestored(g0, g1, g2, g3, schemas, n0, n1, n2, n3, batch, ids, bumped);
    SameOverwritten(g0, g1, schemas, n0, n1, batch, ids, |batch|);
    AllSettle(g0, g1, g2, g3, schemas, n0, n1, n2, n3, batch, ids, written, bumped, KeepsLive(g0, schemas, batch, ids));
    BatchFlags(g0, g1, g2, g3, schemas, n0, n1, n2, n3, batch, ids, Overwritten(g1, schemas, batch, ids, |batch|));
    OldRows(g0, g1, g2, g3, schemas, n0, n1, n2, n3, batch, ids);
    AllUnfoldingsKept(g0, g1, g3, schemas, n0, n1, batch, ids);
  }

  // ---- Other timelines ---------------------------------------------------------------------------

  /** A bump of the batch whose old version refers to `x` somewhere in its fields. */
  ghost predicate BumpRefers(g: Graph, named: set<TypeId>, e: Entry, id: Option<Id>, x: Id)
    requires Whole(g, named)
  {
    e.IsBump() && id.Some? && e.id in g && x in RefsBelow(g, named, e.id)
  }

  ghost predicate SomeBumpRefers(g: Graph, named: set<TypeId>, batch: seq<Entry>, ids: seq<Option<Id>>, x: Id)
    requires Whole(g, named) && |batch| == |ids|
  {
    exists j :: 0 <= j < |batch| && BumpRefers(g, named, batch[j], ids[j], x)
  }

  /** One of the values refers to `x`. */
  ghost predicate SomeRefers(g: Graph, named: set<TypeId>, values: set<Id>, x: Id)
    requires Whole(g, named)
  {
    exists c :: c in values && c in g && c != x && x in RefsBelow(g, named, c)
  }

  lemma {:induction false} RetiredRefers(g: Graph, named: set<TypeId>, batch: seq<Entry>, ids: seq<Option<Id>>, x: Id)
    requires Whole(g, named) && IsNamed(g, named, x) && |batch| == |ids|
    requires forall j :: 0 <= j < |batch| && batch[j].IsBump() && ids[j].Some? ==> batch[j].id in g && batch[j].id != x
    ensures x in Retired(g, named, batch, ids, |batch|) <==> SomeBumpRefers(g, named, batch, ids, x)
  {
    forall j | 0 <= j < |batch| && batch[j].IsBump() && ids[j].Some?
      ensures x in ReachSet(g, named, batch[j].id) <==> BumpRefers(g, named, batch[j], ids[j], x)
    {
      NamedReached(g, named, batch[j].id, x);
    }
  }

  lemma {:induction false} ClearedRefers(g: Graph, named: set<TypeId>, over: set<Id>, x: Id)
    requires Whole(g, named) && IsNamed(g, named, x) && forall c :: c in over ==> c in g
    ensures x in Cleared(g, named, over) <==> SomeRefers(g, named, over, x)
  {
    forall c | c in over ensures x in ReachSet(g, named, c) <==> c != x && x in RefsBelow(g, named, c) {
      NamedReached(g, named, c, x);
    }
  }

  /**
   * When a batch hides the live version of another timeline, which it does not name: exactly when a
   * version that it supersedes refers to it, at any depth, or a value that it overwrites does.
   */
  lemma {:induction false} OtherHeadHidden(g0: Graph, g: Graph, schemas: Schemas, batch: seq<Entry>,
                                           ids: seq<Option<Id>>, x: Id)
    requires Whole(g0, schemas.Keys) && Whole(g, schemas.Keys) && |batch| == |ids|
    requires BatchFlagged(g0, g, schemas, batch, ids) && Apart(g0, schemas, batch, ids, |batch|)
    requires x in g && IsNamed(g0, schemas.Keys, x) && IsNamed(g, schemas.Keys, x) && !g0[x].tombstone
    requires x !in RemovalRows(batch, ids)
    requires forall j :: 0 <= j < |batch| && batch[j].IsBump() && ids[j].Some? ==> batch[j].id in g && batch[j].id != x
    ensures g[x].tombstone == (SomeBumpRefers(g, schemas.Keys, batch, ids, x)
                               || SomeRefers(g0, schemas.Keys, Overwritten(g0, schemas, batch, ids, |batch|), x))
  {
    OverwrittenThere(g0, schemas, batch, ids, |batch|);
    RetiredRefers(g, schemas.Keys, batch, ids, x);
    ClearedRefers(g0, schemas.Keys, Overwritten(g0, schemas, batch, ids, |batch|), x);
  }
}
