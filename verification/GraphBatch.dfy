/**
 * A batch of entries: which are accepted, which rows they allocate, and what each
 * phase of the batch has done so far (packages/core/src/db.ts).
 */
module GraphBatch {
  import opened Common
  import opened GraphModel
  import opened GraphGrowth
  import opened GraphRewrites
  import opened GraphFields

  type Schemas = map<TypeId, Schema>

  datatype Entry =
    | Insert(typeId: TypeId, data: Data)
    | Patch(id: Id, data: Data, overwrite: bool)
    | Bump(id: Id, data: Data)
    | Remove(id: Id)
  {
    predicate IsBump() { Bump? || Remove? }
    predicate IsWrite() { Insert? || Patch? }
  }

  predicate Targets(g: Graph, schemas: Schemas, id: Id) {
    id in g && g[id].body.MapBody? && g[id].body.typeId in schemas
  }

  /** The checks before anything is written. */
  predicate Accepted(g: Graph, schemas: Schemas, e: Entry) {
    match e
    case Insert(ty, data) => ty in schemas && forall k :: k in schemas[ty].required ==> k in data && data[k].Some?
    case Patch(id, data, _) => Targets(g, schemas, id) && data != map[]
    case _ => Targets(g, schemas, e.id) && schemas[g[e.id].body.typeId].history
  }

  /** The caller's part: a batch patches each row at most once, bumps each row at most once, and bumps only heads. */
  ghost predicate WellTargeted(g: Graph, schemas: Schemas, batch: seq<Entry>) {
    && (forall i, j :: 0 <= i < j < |batch| && batch[i].Patch? && batch[j].Patch? ==> batch[i].id != batch[j].id)
    && (forall i, j :: 0 <= i < j < |batch| && batch[i].IsBump() && batch[j].IsBump() ==> batch[i].id != batch[j].id)
    && (forall i :: 0 <= i < |batch| && batch[i].IsBump() && Accepted(g, schemas, batch[i]) ==> IsHead(g, batch[i].id))
  }

  /** `$ref`: the row of another entry of the batch. */
  function Resolve(t: Tree, ids: seq<Option<Id>>): Tree {
    match t
    case EntryT(i) => if i < |ids| && ids[i].Some? then RefT(ids[i].value) else t
    case ListT(ts) => ListT(seq(|ts|, i requires 0 <= i < |ts| => Resolve(ts[i], ids)))
    case MapT(ty, es) => MapT(ty, map k | k in es :: Resolve(es[k], ids))
    case _ => t
  }

  function ResolveData(data: Data, ids: seq<Option<Id>>): Data {
    map k | k in data :: if data[k].Some? then Some(Resolve(data[k].value, ids)) else None
  }

  /** `$id` in a place that takes no reference: the row must be there. A reference that leads nowhere names no entry. */
  function LookUp(t: Tree, rows: set<Id>, none: nat): Tree {
    match t
    case AliasT(x) => if x in rows then t else EntryT(none)
    case ListT(ts) => ListT(seq(|ts|, i requires 0 <= i < |ts| => LookUp(ts[i], rows, none)))
    case MapT(ty, es) => MapT(ty, map k | k in es :: LookUp(es[k], rows, none))
    case _ => t
  }

  function LookUpData(data: Data, rows: set<Id>, none: nat): Data {
    map k | k in data :: if data[k].Some? then Some(LookUp(data[k].value, rows, none)) else None
  }

  function LookUpEntry(e: Entry, rows: set<Id>, none: nat): Entry {
    match e
    case Insert(ty, data) => Insert(ty, LookUpData(data, rows, none))
    case Patch(id, data, overwrite) => Patch(id, LookUpData(data, rows, none), overwrite)
    case Bump(id, data) => Bump(id, LookUpData(data, rows, none))
    case Remove(_) => e
  }

  /** The batch with the unchecked references looked up in the rows. */
  function LookedUp(batch: seq<Entry>, rows: set<Id>): seq<Entry> {
    seq(|batch|, i requires 0 <= i < |batch| => LookUpEntry(batch[i], rows, |batch|))
  }

  lemma {:induction false} LookUpLinked(g: Graph, n: Id, t: Tree, none: nat)
    requires Below(g, n)
    ensures Linked(g, n, LookUp(t, g.Keys, none))
    decreases t
  {
    if t.ListT? {
      forall i | 0 <= i < |t.items| ensures Linked(g, n, LookUp(t.items[i], g.Keys, none)) {
        LookUpLinked(g, n, t.items[i], none);
      }
    } else if t.MapT? {
      forall k | k in t.entries ensures Linked(g, n, LookUp(t.entries[k], g.Keys, none)) {
        LookUpLinked(g, n, t.entries[k], none);
      }
    }
  }

  ghost predicate EntryLinked(g: Graph, n: Id, e: Entry) { !e.Remove? ==> DataLinked(g, n, e.data) }

  /** The unchecked references of the batch lead to rows. */
  ghost predicate BatchLinked(g: Graph, n: Id, batch: seq<Entry>) {
    forall i :: 0 <= i < |batch| ==> EntryLinked(g, n, batch[i])
  }

  /** Looking up changes neither what is accepted nor whom it targets. */
  lemma {:induction false} LookedUpLike(g: Graph, n: Id, schemas: Schemas, batch: seq<Entry>)
    requires Below(g, n)
    ensures var found := LookedUp(batch, g.Keys);
            && BatchLinked(g, n, found)
            && (WellTargeted(g, schemas, batch) ==> WellTargeted(g, schemas, found))
            && forall i :: 0 <= i < |batch| ==> (Accepted(g, schemas, found[i]) <==> Accepted(g, schemas, batch[i]))
  {
    var found := LookedUp(batch, g.Keys);
    forall i | 0 <= i < |batch|
      ensures EntryLinked(g, n, found[i]) && (Accepted(g, schemas, found[i]) <==> Accepted(g, schemas, batch[i]))
    {
      EntryLookedUp(g, n, schemas, batch[i], |batch|);
    }
  }

  lemma {:induction false} EntryLookedUp(g: Graph, n: Id, schemas: Schemas, e: Entry, none: nat)
    requires Below(g, n)
    ensures EntryLinked(g, n, LookUpEntry(e, g.Keys, none))
    ensures Accepted(g, schemas, LookUpEntry(e, g.Keys, none)) <==> Accepted(g, schemas, e)
  {
    if !e.Remove? {
      var data := LookUpData(e.data, g.Keys, none);
      assert data.Keys == e.data.Keys;
      forall k | k in data && data[k].Some? ensures Linked(g, n, data[k].value) {
        LookUpLinked(g, n, e.data[k].value, none);
      }
    }
  }

  lemma {:induction false} ResolveLinked(g: Graph, n: Id, t: Tree, ids: seq<Option<Id>>)
    requires Linked(g, n, t)
    ensures Linked(g, n, Resolve(t, ids))
    decreases t
  {
    if t.ListT? {
      forall i | 0 <= i < |t.items| ensures Linked(g, n, Resolve(t.items[i], ids)) {
        ResolveLinked(g, n, t.items[i], ids);
      }
    } else if t.MapT? {
      forall k | k in t.entries ensures Linked(g, n, Resolve(t.entries[k], ids)) {
        ResolveLinked(g, n, t.entries[k], ids);
      }
    }
  }

  /** What the batch gives as data is still linked when it comes to be written. */
  lemma {:induction false} ResolvedLinked(g0: Graph, n0: Id, g: Graph, n: Id, e: Entry, ids: seq<Option<Id>>)
    requires EntryLinked(g0, n0, e) && !e.Remove? && n0 <= n && forall x :: x in g0 ==> x in g
    ensures DataLinked(g, n, ResolveData(e.data, ids))
  {
    forall k | k in e.data && e.data[k].Some? ensures Linked(g, n, Resolve(e.data[k].value, ids)) {
      LinkedLater(g0, g, n0, n, e.data[k].value);
      ResolveLinked(g, n, e.data[k].value, ids);
    }
  }

  // ---- Phase 1: rows without fields ---------------------------------------------------------

  /** The row that an entry allocates. */
  function ShellRow(g: Graph, e: Entry, id: Id): Row
    requires e.Insert? || (e.IsBump() && e.id in g && g[e.id].body.MapBody?)
  {
    if e.Insert? then Row(MapBody(e.typeId, map[]), id, 1, false)
    else BumpRow(g, e.id, MapBody(g[e.id].body.typeId, map[]), e.Remove?)
  }

  lemma {:induction false} BareRowSound(g: Graph, named: set<TypeId>, n: Id, row: Row)
    requires Sound(g, named, n) && ChildrenOf(row.body) == {} && row.timeline <= n
    ensures Sound(g[n := row], named, n + 1) && Grows(g, g[n := row])
  {
    var g' := g[n := row];
    forall x | x in g' ensures Unfolds(g', named, x) {
      if x == n {
        RowUnfolds(g', named, n);
      } else {
        DenotesGrows(g, g', named, x, Unfolding(g, named, x));
      }
    }
  }

  lemma {:induction false} InsertShell(g: Graph, named: set<TypeId>, n: Id, body: Body, pending: set<Id>)
    requires Sound(g, named, n) && ChildrenOf(body) == {} && Numbered(g) && HiddenBut(g, pending)
    ensures Sound(g[n := Row(body, n, 1, false)], named, n + 1)
    ensures Numbered(g[n := Row(body, n, 1, false)]) && HiddenBut(g[n := Row(body, n, 1, false)], pending)
    ensures forall x :: IsHead(g, x) ==> IsHead(g[n := Row(body, n, 1, false)], x)
  {
    var g' := g[n := Row(body, n, 1, false)];
    BareRowSound(g, named, n, g'[n]);
    FreshTimeline(g, n, body);
    assert forall x, y :: SameTimeline(g', x, y) && x != n ==> SameTimeline(g, x, y);
  }

  lemma {:induction false} BumpShell(g: Graph, named: set<TypeId>, n: Id, prev: Id, body: Body, tombstone: bool,
                                     pending: set<Id>)
    requires Sound(g, named, n) && ChildrenOf(body) == {} && Numbered(g) && HiddenBut(g, pending) && IsHead(g, prev)
    ensures Sound(g[n := BumpRow(g, prev, body, tombstone)], named, n + 1)
    ensures Numbered(g[n := BumpRow(g, prev, body, tombstone)])
    ensures HiddenBut(g[n := BumpRow(g, prev, body, tombstone)], pending + {prev})
    ensures forall x :: IsHead(g, x) && x != prev ==> IsHead(g[n := BumpRow(g, prev, body, tombstone)], x)
  {
    var g' := g[n := BumpRow(g, prev, body, tombstone)];
    BareRowSound(g, named, n, g'[n]);
    HeadBumpNumbered(g, prev, n, body, tombstone);
    forall x: Id | IsHead(g, x) && x != prev ensures IsHead(g', x) {
      HeadStays(g, x, prev, n, g'[n]);
    }
    forall x: Id, y: Id | SameTimeline(g', x, y) && g'[x].version < g'[y].version
      ensures g'[x].tombstone || x in pending + {prev}
    {
      if y == n {
        assert SameTimeline(g, prev, x) && SameTimeline(g, x, prev);
        assert g[x].version == g[prev].version ==> x == prev;
      } else if x == n {
        assert SameTimeline(g, prev, y);
      } else {
        assert SameTimeline(g, x, y);
      }
    }
  }

  /** The rows that bumps of the first entries leave behind, to be flagged later. */
  ghost function BumpTargets(g: Graph, schemas: Schemas, batch: seq<Entry>, count: nat): set<Id> {
    set i | 0 <= i < count && i < |batch| && batch[i].IsBump() && Accepted(g, schemas, batch[i]) :: batch[i].id
  }

  /** What an entry's id is: the target of a patch, else a new row without fields. */
  ghost predicate HasShell(g0: Graph, g: Graph, n0: Id, e: Entry, id: Id) {
    if e.Patch? then id == e.id
    else n0 <= id && id in g && (e.Insert? || (e.id in g0 && g0[e.id].body.MapBody?)) && g[id] == ShellRow(g0, e, id)
  }

  ghost predicate Shells(g0: Graph, g: Graph, schemas: Schemas, n0: Id, batch: seq<Entry>, ids: seq<Option<Id>>) {
    && |ids| <= |batch|
    && (forall j :: 0 <= j < |ids| ==> (ids[j].Some? <==> Accepted(g0, schemas, batch[j])))
    && (forall j :: 0 <= j < |ids| && ids[j].Some? ==> HasShell(g0, g, n0, batch[j], ids[j].value))
    && Distinct(ids)
    && (forall x :: x in g && x !in g0 ==> IsShellOf(batch, ids, x))
  }

  ghost predicate Distinct(ids: seq<Option<Id>>) {
    forall j, k :: 0 <= j < k < |ids| && ids[j].Some? && ids[k].Some? ==> ids[j].value != ids[k].value
  }

  ghost predicate IsShellOf(batch: seq<Entry>, ids: seq<Option<Id>>, x: Id) {
    exists j :: 0 <= j < |ids| && j < |batch| && !batch[j].Patch? && ids[j] == Some(x)
  }

  ghost predicate HeadsFrom(g0: Graph, g: Graph, schemas: Schemas, batch: seq<Entry>, i: nat) {
    forall j :: i <= j < |batch| && batch[j].IsBump() && Accepted(g0, schemas, batch[j]) ==> IsHead(g, batch[j].id)
  }

  ghost predicate ShellsUnderway(g0: Graph, g: Graph, schemas: Schemas, n0: Id, n: Id, batch: seq<Entry>,
                                 ids: seq<Option<Id>>) {
    && Below(g0, n0) && n0 <= n && Grows(g0, g) && Sound(g, schemas.Keys, n)
    && Shells(g0, g, schemas, n0, batch, ids)
    && Numbered(g) && HiddenBut(g, BumpTargets(g0, schemas, batch, |ids|)) && HeadsFrom(g0, g, schemas, batch, |ids|)
  }

  lemma {:induction false} ShellStays(g0: Graph, g: Graph, g': Graph, n0: Id, e: Entry, id: Id)
    requires Grows(g, g') && HasShell(g0, g, n0, e, id)
    ensures HasShell(g0, g', n0, e, id)
  {
  }

  /** One more entry, with a row or without one. */
  lemma {:induction false} ShellsSnoc(g0: Graph, g: Graph, g': Graph, schemas: Schemas, n0: Id, batch: seq<Entry>,
                                      ids: seq<Option<Id>>, x: Option<Id>)
    requires Shells(g0, g, schemas, n0, batch, ids) && |ids| < |batch| && Grows(g, g')
    requires x.Some? <==> Accepted(g0, schemas, batch[|ids|])
    requires x.Some? ==> HasShell(g0, g', n0, batch[|ids|], x.value) && x !in ids
    requires forall y :: y in g' && y !in g ==> x == Some(y) && !batch[|ids|].Patch?
    ensures Shells(g0, g', schemas, n0, batch, ids + [x])
  {
    var ids' := ids + [x];
    forall j | 0 <= j < |ids'| && ids'[j].Some? ensures HasShell(g0, g', n0, batch[j], ids'[j].value) {
      if j < |ids| { ShellStays(g0, g, g', n0, batch[j], ids[j].value); }
    }
    forall y | y in g' && y !in g0 ensures IsShellOf(batch, ids', y) {
      if y in g {
        var j :| 0 <= j < |ids| && j < |batch| && !batch[j].Patch? && ids[j] == Some(y);
        assert ids'[j] == Some(y);
      } else {
        assert ids'[|ids|] == Some(y);
      }
    }
  }

  /** The target of the next entry was not given out before. */
  lemma {:induction false} TargetUnused(g0: Graph, g: Graph, schemas: Schemas, n0: Id, batch: seq<Entry>,
                                        ids: seq<Option<Id>>)
    requires Shells(g0, g, schemas, n0, batch, ids) && |ids| < |batch| && Below(g0, n0)
    requires WellTargeted(g0, schemas, batch)
    requires batch[|ids|].Patch? && batch[|ids|].id in g0
    ensures Some(batch[|ids|].id) !in ids
  {
    forall j | 0 <= j < |ids| && ids[j].Some? ensures ids[j].value != batch[|ids|].id {
      assert HasShell(g0, g, n0, batch[j], ids[j].value);
    }
  }

  lemma {:induction false} NextUnused(g0: Graph, g: Graph, schemas: Schemas, n0: Id, n: Id, batch: seq<Entry>,
                                      ids: seq<Option<Id>>)
    requires Shells(g0, g, schemas, n0, batch, ids) && Below(g, n) && Below(g0, n0) && n0 <= n
    ensures Some(n) !in ids
  {
    forall j | 0 <= j < |ids| && ids[j].Some? ensures ids[j].value != n {
      assert HasShell(g0, g, n0, batch[j], ids[j].value) && Accepted(g0, schemas, batch[j]);
    }
  }

  lemma {:induction false} BumpTargetsNext(g: Graph, schemas: Schemas, batch: seq<Entry>, i: nat)
    requires i < |batch|
    ensures BumpTargets(g, schemas, batch, i + 1)
         == BumpTargets(g, schemas, batch, i)
          + (if batch[i].IsBump() && Accepted(g, schemas, batch[i]) then {batch[i].id} else {})
  {
  }

  /** The next entry is refused, patches a row, or gets a row of its own. */
  lemma {:induction false} ShellSkipped(g0: Graph, g: Graph, schemas: Schemas, n0: Id, n: Id, batch: seq<Entry>,
                                        ids: seq<Option<Id>>, x: Option<Id>)
    requires ShellsUnderway(g0, g, schemas, n0, n, batch, ids) && |ids| < |batch| && WellTargeted(g0, schemas, batch)
    requires !Accepted(g0, schemas, batch[|ids|]) || batch[|ids|].Patch?
    requires x == if Accepted(g0, schemas, batch[|ids|]) then Some(batch[|ids|].id) else None
    ensures ShellsUnderway(g0, g, schemas, n0, n, batch, ids + [x])
  {
    BumpTargetsNext(g0, schemas, batch, |ids|);
    if x.Some? { TargetUnused(g0, g, schemas, n0, batch, ids); }
    ShellsSnoc(g0, g, g, schemas, n0, batch, ids, x);
  }

  lemma {:induction false} ShellInserted(g0: Graph, g: Graph, schemas: Schemas, n0: Id, n: Id, batch: seq<Entry>,
                                         ids: seq<Option<Id>>, row: Row)
    requires ShellsUnderway(g0, g, schemas, n0, n, batch, ids) && |ids| < |batch|
    requires batch[|ids|].Insert? && Accepted(g0, schemas, batch[|ids|]) && row == ShellRow(g0, batch[|ids|], n)
    ensures ShellsUnderway(g0, g[n := row], schemas, n0, n + 1, batch, ids + [Some(n)])
  {
    InsertShell(g, schemas.Keys, n, row.body, BumpTargets(g0, schemas, batch, |ids|));
    BumpTargetsNext(g0, schemas, batch, |ids|);
    NextUnused(g0, g, schemas, n0, n, batch, ids);
    ShellsSnoc(g0, g, g[n := row], schemas, n0, batch, ids, Some(n));
  }

  lemma {:induction false} ShellBumped(g0: Graph, g: Graph, schemas: Schemas, n0: Id, n: Id, batch: seq<Entry>,
                                       ids: seq<Option<Id>>, row: Row)
    requires ShellsUnderway(g0, g, schemas, n0, n, batch, ids) && |ids| < |batch| && WellTargeted(g0, schemas, batch)
    requires batch[|ids|].IsBump() && Accepted(g0, schemas, batch[|ids|]) && row == ShellRow(g0, batch[|ids|], n)
    ensures ShellsUnderway(g0, g[n := row], schemas, n0, n + 1, batch, ids + [Some(n)])
  {
    BumpedTimelines(g0, g, schemas, n, batch, |ids|, row);
    NextUnused(g0, g, schemas, n0, n, batch, ids);
    ShellsSnoc(g0, g, g[n := row], schemas, n0, batch, ids, Some(n));
  }

  lemma {:induction false} BumpedTimelines(g0: Graph, g: Graph, schemas: Schemas, n: Id, batch: seq<Entry>, i: nat,
                                           row: Row)
    requires Grows(g0, g) && Sound(g, schemas.Keys, n) && Numbered(g)
    requires HiddenBut(g, BumpTargets(g0, schemas, batch, i))
    requires HeadsFrom(g0, g, schemas, batch, i) && i < |batch| && WellTargeted(g0, schemas, batch)
    requires batch[i].IsBump() && Accepted(g0, schemas, batch[i]) && row == ShellRow(g0, batch[i], n)
    ensures Sound(g[n := row], schemas.Keys, n + 1) && Numbered(g[n := row])
    ensures HiddenBut(g[n := row], BumpTargets(g0, schemas, batch, i + 1))
    ensures HeadsFrom(g0, g[n := row], schemas, batch, i + 1)
  {
    var e := batch[i];
    assert g[e.id] == g0[e.id];
    BumpShell(g, schemas.Keys, n, e.id, row.body, e.Remove?, BumpTargets(g0, schemas, batch, i));
    BumpTargetsNext(g0, schemas, batch, i);
    HeadsNext(g0, g, g[n := row], schemas, batch, i);
  }

  lemma {:induction false} HeadsNext(g0: Graph, g: Graph, g': Graph, schemas: Schemas, batch: seq<Entry>, i: nat)
    requires HeadsFrom(g0, g, schemas, batch, i) && WellTargeted(g0, schemas, batch) && i < |batch| && batch[i].IsBump()
    requires forall x :: IsHead(g, x) && x != batch[i].id ==> IsHead(g', x)
    ensures HeadsFrom(g0, g', schemas, batch, i + 1)
  {
  }

  // ---- Phase 2: the fields of inserts and patches ---------------------------------------------

  ghost function WriteIds(batch: seq<Entry>, ids: seq<Option<Id>>): set<Id> {
    set j | 0 <= j < |ids| && j < |batch| && batch[j].IsWrite() && ids[j].Some? :: ids[j].value
  }

  function FieldsOf(g: Graph, schemas: Schemas, id: Id): set<Key> {
    if Targets(g, schemas, id) then schemas[g[id].body.typeId].fields else {}
  }

  /** The keys that an entry writes to its row. */
  function KeysWritten(e: Entry, fields: set<Key>, present: set<Key>): set<Key>
    requires e.IsWrite()
  {
    WrittenKeys(e.data, fields, e.Patch? && e.overwrite, present)
  }

  /** The old values that an entry overwrites. */
  function OverwrittenBy(g: Graph, schemas: Schemas, e: Entry, id: Option<Id>): set<Id> {
    if e.IsWrite() && id.Some?
    then OldValues(EntriesOf(g, id.value), KeysWritten(e, FieldsOf(g, schemas, id.value), EntriesOf(g, id.value).Keys))
    else {}
  }

  function Overwritten(g: Graph, schemas: Schemas, batch: seq<Entry>, ids: seq<Option<Id>>, count: nat): set<Id>
    requires count <= |batch| == |ids|
  {
    if count == 0 then {}
    else Overwritten(g, schemas, batch, ids, count - 1) + OverwrittenBy(g, schemas, batch[count - 1], ids[count - 1])
  }

  lemma {:induction false} OverwrittenThere(g: Graph, schemas: Schemas, batch: seq<Entry>, ids: seq<Option<Id>>,
                                            count: nat)
    requires count <= |batch| == |ids| && Closed(g)
    ensures forall c :: c in Overwritten(g, schemas, batch, ids, count) ==> c in g
    decreases count
  {
    if count > 0 {
      OverwrittenThere(g, schemas, batch, ids, count - 1);
      var e, id := batch[count - 1], ids[count - 1];
      if e.IsWrite() && id.Some? {
        OldValuesThere(g, id.value, KeysWritten(e, FieldsOf(g, schemas, id.value), EntriesOf(g, id.value).Keys));
      }
    }
  }

  /** Resolving the values changes none of the keys. */
  lemma {:induction false} WrittenResolved(data: Data, ids: seq<Option<Id>>, fields: set<Key>, overwrite: bool,
                                           present: set<Key>)
    ensures WrittenKeys(ResolveData(data, ids), fields, overwrite, present)
              == WrittenKeys(data, fields, overwrite, present)
  {
  }

  /** The entries of an inserted or patched row, compared with those it had before. */
  ghost predicate WriteDone(before: map<Key, Id>, fields: set<Key>, g: Graph, named: set<TypeId>, from: Id, e: Entry,
                            id: Id, ids: seq<Option<Id>>, failed: set<Key>, live: bool)
    requires e.IsWrite()
  {
    var data := ResolveData(e.data, ids);
    var keys := KeysWritten(e, fields, before.Keys);
    && Wrote(g, named, before, EntriesOf(g, id), keys, data, from, live)
    && failed == set k | k in keys && !Buildable(g, named, data, k)
  }

  ghost predicate WriteAt(g1: Graph, g: Graph, schemas: Schemas, n1: Id, e: Entry, id: Option<Id>, ids: seq<Option<Id>>,
                          failed: set<Key>, live: bool) {
    if e.IsWrite() && id.Some?
    then WriteDone(EntriesOf(g1, id.value), FieldsOf(g1, schemas, id.value), g, schemas.Keys, n1, e, id.value, ids,
                   failed, live)
    else failed == {}
  }

  predicate UnwrittenAt(g1: Graph, g: Graph, e: Entry, id: Option<Id>) {
    e.IsWrite() && id.Some? ==> EntriesOf(g, id.value) == EntriesOf(g1, id.value)
  }

  /** No overwritten value is a reference to a row that the batch writes. */
  ghost predicate Apart(g: Graph, schemas: Schemas, batch: seq<Entry>, ids: seq<Option<Id>>, count: nat)
    requires count <= |batch| == |ids|
  {
    WriteIds(batch, ids) !! Overwritten(g, schemas, batch, ids, count)
  }

  ghost predicate WritesMade(g1: Graph, g: Graph, schemas: Schemas, n1: Id, batch: seq<Entry>, ids: seq<Option<Id>>,
                             failed: seq<set<Key>>, live: bool)
    requires |failed| <= |batch| == |ids|
  {
    && (forall j :: 0 <= j < |failed| ==> WriteAt(g1, g, schemas, n1, batch[j], ids[j], ids, failed[j], live))
    && (forall j :: |failed| <= j < |batch| ==> UnwrittenAt(g1, g, batch[j], ids[j]))
  }

  ghost predicate WritesUnderway(g1: Graph, g: Graph, schemas: Schemas, n1: Id, n: Id, batch: seq<Entry>,
                                 ids: seq<Option<Id>>, failed: seq<set<Key>>, count: nat) {
    && |failed| == count <= |batch| == |ids|
    && Sound(g1, schemas.Keys, n1) && Sound(g, schemas.Keys, n)
    && Rewrites(g1, g, schemas.Keys, n1, n, WriteIds(batch, ids))
    && FlagsOfDrop(g1, g, schemas.Keys, WriteIds(batch, ids), Overwritten(g1, schemas, batch, ids, count))
    && WritesMade(g1, g, schemas, n1, batch, ids, failed, Apart(g1, schemas, batch, ids, count))
  }

  /** What the writes start from. */
  ghost predicate WritesReady(g1: Graph, schemas: Schemas, n1: Id, batch: seq<Entry>, ids: seq<Option<Id>>) {
    && |batch| == |ids| && Sound(g1, schemas.Keys, n1) && Distinct(ids)
    && forall j :: 0 <= j < |batch| && batch[j].IsWrite() && ids[j].Some? ==>
         Targets(g1, schemas, ids[j].value) && DataLinked(g1, n1, ResolveData(batch[j].data, ids))
  }

  lemma {:induction false} WritesStart(g1: Graph, schemas: Schemas, n1: Id, batch: seq<Entry>, ids: seq<Option<Id>>)
    requires WritesReady(g1, schemas, n1, batch, ids)
    ensures WritesUnderway(g1, g1, schemas, n1, n1, batch, ids, [], 0)
  {
  }

  lemma {:induction false} WriteKept(before: map<Key, Id>, fields: set<Key>, g: Graph, g': Graph, named: set<TypeId>,
                                     from: Id, n: Id, n': Id, targets: set<Id>, e: Entry, id: Id, ids: seq<Option<Id>>,
                                     failed: set<Key>, live: bool, live': bool)
    requires e.IsWrite() && WriteDone(before, fields, g, named, from, e, id, ids, failed, live)
    requires Rewrites(g, g', named, n, n', targets) && (live' ==> live)
    requires id !in targets && id in g && forall x :: x in targets ==> x < from
    requires live' ==> forall x :: x in g && from <= x && g'[x].tombstone ==> g[x].tombstone
    ensures WriteDone(before, fields, g', named, from, e, id, ids, failed, live')
  {
    var data := ResolveData(e.data, ids);
    WroteRewritten(g, g', named, n, n', targets, before, EntriesOf(g, id), KeysWritten(e, fields, before.Keys), data,
                   from, live, live');
    RewritesNamed(g, g', named, n, n', targets);
    BuildableSame(g, g', named, data);
  }

  /** The next entry writes no fields. */
  lemma {:induction false} NoWrite(g1: Graph, g: Graph, schemas: Schemas, n1: Id, n: Id, batch: seq<Entry>,
                                   ids: seq<Option<Id>>, failed: seq<set<Key>>)
    requires WritesUnderway(g1, g, schemas, n1, n, batch, ids, failed, |failed|)
    requires |failed| < |batch| && !(batch[|failed|].IsWrite() && ids[|failed|].Some?)
    ensures WritesUnderway(g1, g, schemas, n1, n, batch, ids, failed + [{}], |failed| + 1)
  {
    assert Overwritten(g1, schemas, batch, ids, |failed| + 1) == Overwritten(g1, schemas, batch, ids, |failed|);
    WritesSnoc(g1, g, schemas, n1, batch, ids, failed, {}, Apart(g1, schemas, batch, ids, |failed|));
  }

  lemma {:induction false} WritesSnoc(g1: Graph, g: Graph, schemas: Schemas, n1: Id, batch: seq<Entry>,
                                      ids: seq<Option<Id>>, failed: seq<set<Key>>, f: set<Key>, live: bool)
    requires |failed| < |batch| == |ids|
    requires forall j :: 0 <= j < |failed| ==> WriteAt(g1, g, schemas, n1, batch[j], ids[j], ids, failed[j], live)
    requires WriteAt(g1, g, schemas, n1, batch[|failed|], ids[|failed|], ids, f, live)
    requires forall j :: |failed| < j < |batch| ==> UnwrittenAt(g1, g, batch[j], ids[j])
    ensures WritesMade(g1, g, schemas, n1, batch, ids, failed + [f], live)
  {
    var failed' := failed + [f];
    forall j | 0 <= j < |failed'| ensures WriteAt(g1, g, schemas, n1, batch[j], ids[j], ids, failed'[j], live) {
      assert failed'[j] == if j < |failed| then failed[j] else f;
    }
  }

  /** The flags of the next write, on top of those before. */
  lemma {:induction false} DropNext(g1: Graph, g: Graph, g': Graph, named: set<TypeId>, n1: Id, n: Id, n': Id,
                                    rows: set<Id>, p: Id, a: set<Id>, b: set<Id>, all: set<Id>)
    requires all == a + b && Sound(g1, named, n1) && Closed(g) && Rewrites(g1, g, named, n1, n, rows)
    requires Rewrites(g, g', named, n, n', {p})
    requires (forall x :: x in rows ==> IsNamed(g1, named, x)) && p in rows && EntriesOf(g, p) == EntriesOf(g1, p)
    requires forall c :: c in all ==> c in g1
    requires FlagsOfDrop(g1, g, named, rows, a) && FlagsOfDrop(g, g', named, {p}, b)
    ensures FlagsOfDrop(g1, g', named, rows, all) && Rewrites(g1, g', named, n1, n', rows)
    ensures rows !! all ==> forall x :: x in g && n1 <= x && g'[x].tombstone ==> g[x].tombstone
  {
    RewritesNamed(g1, g, named, n1, n, rows);
    assert Children(g, p) == Children(g1, p);
    RewritesTransitive(g1, g, g', named, n1, n, n', rows, {p});
    WithinNext(g1, g, g', named, n1, n, n', rows, p, a, b);
    if rows !! all {
      ExactNext(g1, g, g', named, n1, n, rows, a, b);
    }
  }

  /** The other rows of the batch have what they had when one row is written. */
  lemma {:induction false} OtherWritesKept(g1: Graph, g: Graph, g': Graph, schemas: Schemas, n1: Id, n: Id, n': Id,
                                           batch: seq<Entry>, ids: seq<Option<Id>>, failed: seq<set<Key>>, id: Id,
                                           live: bool, live': bool)
    requires |failed| < |batch| == |ids| && Distinct(ids) && ids[|failed|] == Some(id) && id < n1 && (live' ==> live)
    requires forall x :: x in WriteIds(batch, ids) ==> x in g
    requires WritesMade(g1, g, schemas, n1, batch, ids, failed, live) && Rewrites(g, g', schemas.Keys, n, n', {id})
    requires live' ==> forall x :: x in g && n1 <= x && g'[x].tombstone ==> g[x].tombstone
    ensures forall j :: 0 <= j < |failed| ==> WriteAt(g1, g', schemas, n1, batch[j], ids[j], ids, failed[j], live')
    ensures forall j :: |failed| < j < |batch| ==> UnwrittenAt(g1, g', batch[j], ids[j])
  {
    var i := |failed|;
    forall j | 0 <= j < |batch| && j != i && batch[j].IsWrite() && ids[j].Some?
      ensures ids[j].value in g && ids[j].value != id
    {
      assert ids[j].value in WriteIds(batch, ids);
    }
    forall j | 0 <= j < i ensures WriteAt(g1, g', schemas, n1, batch[j], ids[j], ids, failed[j], live') {
      assert WriteAt(g1, g, schemas, n1, batch[j], ids[j], ids, failed[j], live);
      if batch[j].IsWrite() && ids[j].Some? {
        WriteKept(EntriesOf(g1, ids[j].value), FieldsOf(g1, schemas, ids[j].value), g, g', schemas.Keys, n1, n, n',
                  {id}, batch[j], ids[j].value, ids, failed[j], live, live');
      }
    }
    forall j | i < j < |batch| ensures UnwrittenAt(g1, g', batch[j], ids[j]) {
      assert UnwrittenAt(g1, g, batch[j], ids[j]);
    }
  }

  lemma {:induction false} WriteIdsNamed(g1: Graph, schemas: Schemas, n1: Id, batch: seq<Entry>, ids: seq<Option<Id>>)
    requires WritesReady(g1, schemas, n1, batch, ids)
    ensures forall x :: x in WriteIds(batch, ids) ==> IsNamed(g1, schemas.Keys, x)
  {
  }

  lemma {:induction false} OverwrittenNext(g: Graph, schemas: Schemas, batch: seq<Entry>, ids: seq<Option<Id>>, i: nat)
    requires i < |batch| == |ids| && Closed(g)
    ensures Overwritten(g, schemas, batch, ids, i + 1)
         == Overwritten(g, schemas, batch, ids, i) + OverwrittenBy(g, schemas, batch[i], ids[i])
    ensures forall c :: c in Overwritten(g, schemas, batch, ids, i + 1) ==> c in g
  {
    OverwrittenThere(g, schemas, batch, ids, i + 1);
  }

  lemma {:induction false} ApartLess(g: Graph, schemas: Schemas, batch: seq<Entry>, ids: seq<Option<Id>>, i: nat,
                                     id: Id)
    requires i < |batch| == |ids| && batch[i].IsWrite() && ids[i] == Some(id) && Apart(g, schemas, batch, ids, i + 1)
    ensures Apart(g, schemas, batch, ids, i) && id !in OverwrittenBy(g, schemas, batch[i], Some(id))
  {
    assert id in WriteIds(batch, ids);
  }

  lemma {:induction false} WriteNext(g1: Graph, g: Graph, g': Graph, schemas: Schemas, n1: Id, n: Id, n': Id,
                                     batch: seq<Entry>, ids: seq<Option<Id>>, failed: seq<set<Key>>, id: Id,
                                     f: set<Key>, own: bool)
    requires WritesReady(g1, schemas, n1, batch, ids)
    requires WritesUnderway(g1, g, schemas, n1, n, batch, ids, failed, |failed|) && |failed| < |batch|
    requires batch[|failed|].IsWrite() && ids[|failed|] == Some(id)
    requires Sound(g', schemas.Keys, n') && Rewrites(g, g', schemas.Keys, n, n', {id})
    requires FlagsOfDrop(g, g', schemas.Keys, {id}, OverwrittenBy(g1, schemas, batch[|failed|], Some(id)))
    requires own == (id !in OverwrittenBy(g1, schemas, batch[|failed|], Some(id)))
    requires WriteAt(g1, g', schemas, n1, batch[|failed|], Some(id), ids, f, own)
    ensures WritesUnderway(g1, g', schemas, n1, n', batch, ids, failed + [f], |failed| + 1)
  {
    WriteIdsThere(g1, g, schemas, n1, n, batch, ids);
    assert UnwrittenAt(g1, g, batch[|failed|], ids[|failed|]);
    WriteFlagsNext(g1, g, g', schemas, n1, n, n', batch, ids, |failed|, id);
    WriteMadeNext(g1, g, g', schemas, n1, n, n', batch, ids, failed, id, f, own);
  }

  /** The flags of the first writes and of the next one. */
  lemma {:induction false} WriteFlagsNext(g1: Graph, g: Graph, g': Graph, schemas: Schemas, n1: Id, n: Id, n': Id,
                                          batch: seq<Entry>, ids: seq<Option<Id>>, i: nat, id: Id)
    requires Sound(g1, schemas.Keys, n1) && Closed(g) && EntriesOf(g, id) == EntriesOf(g1, id)
    requires i < |batch| == |ids| && batch[i].IsWrite() && ids[i] == Some(id)
    requires forall x :: x in WriteIds(batch, ids) ==> IsNamed(g1, schemas.Keys, x)
    requires Rewrites(g1, g, schemas.Keys, n1, n, WriteIds(batch, ids)) && Rewrites(g, g', schemas.Keys, n, n', {id})
    requires FlagsOfDrop(g1, g, schemas.Keys, WriteIds(batch, ids), Overwritten(g1, schemas, batch, ids, i))
    requires FlagsOfDrop(g, g', schemas.Keys, {id}, OverwrittenBy(g1, schemas, batch[i], Some(id)))
    ensures FlagsOfDrop(g1, g', schemas.Keys, WriteIds(batch, ids), Overwritten(g1, schemas, batch, ids, i + 1))
    ensures Rewrites(g1, g', schemas.Keys, n1, n', WriteIds(batch, ids))
    ensures Apart(g1, schemas, batch, ids, i + 1) ==>
              forall x :: x in g && n1 <= x && g'[x].tombstone ==> g[x].tombstone
  {
    assert id in WriteIds(batch, ids);
    OverwrittenNext(g1, schemas, batch, ids, i);
    DropNext(g1, g, g', schemas.Keys, n1, n, n', WriteIds(batch, ids), id, Overwritten(g1, schemas, batch, ids, i),
             OverwrittenBy(g1, schemas, batch[i], Some(id)), Overwritten(g1, schemas, batch, ids, i + 1));
  }

  /** The entries of the first writes and of the next one. */
  lemma {:induction false} WriteMadeNext(g1: Graph, g: Graph, g': Graph, schemas: Schemas, n1: Id, n: Id, n': Id,
                                         batch: seq<Entry>, ids: seq<Option<Id>>, failed: seq<set<Key>>, id: Id,
                                         f: set<Key>, own: bool)
    requires |failed| < |batch| == |ids| && Distinct(ids) && batch[|failed|].IsWrite() && ids[|failed|] == Some(id)
    requires forall x :: x in WriteIds(batch, ids) ==> x in g && x < n1
    requires WritesMade(g1, g, schemas, n1, batch, ids, failed, Apart(g1, schemas, batch, ids, |failed|))
    requires Rewrites(g, g', schemas.Keys, n, n', {id})
    requires own == (id !in OverwrittenBy(g1, schemas, batch[|failed|], Some(id)))
    requires WriteAt(g1, g', schemas, n1, batch[|failed|], Some(id), ids, f, own)
    requires Apart(g1, schemas, batch, ids, |failed| + 1) ==>
               forall x :: x in g && n1 <= x && g'[x].tombstone ==> g[x].tombstone
    ensures WritesMade(g1, g', schemas, n1, batch, ids, failed + [f], Apart(g1, schemas, batch, ids, |failed| + 1))
  {
    var live, live' := Apart(g1, schemas, batch, ids, |failed|), Apart(g1, schemas, batch, ids, |failed| + 1);
    assert id in WriteIds(batch, ids);
    if live' { ApartLess(g1, schemas, batch, ids, |failed|, id); }
    WritesMadeNext(g1, g, g', schemas, n1, n, n', batch, ids, failed, id, f, live, own, live');
  }

  lemma {:induction false} WriteIdsThere(g1: Graph, g: Graph, schemas: Schemas, n1: Id, n: Id, batch: seq<Entry>,
                                         ids: seq<Option<Id>>)
    requires WritesReady(g1, schemas, n1, batch, ids) && Rewrites(g1, g, schemas.Keys, n1, n, WriteIds(batch, ids))
    ensures forall x :: x in WriteIds(batch, ids) ==> IsNamed(g1, schemas.Keys, x) && x in g && x < n1
  {
    WriteIdsNamed(g1, schemas, n1, batch, ids);
  }

  lemma {:induction false} WritesMadeNext(g1: Graph, g: Graph, g': Graph, schemas: Schemas, n1: Id, n: Id, n': Id,
                                          batch: seq<Entry>, ids: seq<Option<Id>>, failed: seq<set<Key>>, id: Id,
                                          f: set<Key>, live: bool, own: bool, live': bool)
    requires |failed| < |batch| == |ids| && Distinct(ids) && ids[|failed|] == Some(id) && id < n1
    requires (live' ==> live && own) && forall x :: x in WriteIds(batch, ids) ==> x in g
    requires WritesMade(g1, g, schemas, n1, batch, ids, failed, live) && Rewrites(g, g', schemas.Keys, n, n', {id})
    requires live' ==> forall x :: x in g && n1 <= x && g'[x].tombstone ==> g[x].tombstone
    requires WriteAt(g1, g', schemas, n1, batch[|failed|], Some(id), ids, f, own)
    ensures WritesMade(g1, g', schemas, n1, batch, ids, failed + [f], live')
  {
    OtherWritesKept(g1, g, g', schemas, n1, n, n', batch, ids, failed, id, live, live');
    WriteAtLess(g1, g', schemas, n1, batch[|failed|], Some(id), ids, f, own, live');
    WritesSnoc(g1, g', schemas, n1, batch, ids, failed, f, live');
  }

  lemma {:induction false} WriteAtLess(g1: Graph, g: Graph, schemas: Schemas, n1: Id, e: Entry, id: Option<Id>,
                                       ids: seq<Option<Id>>, failed: set<Key>, live: bool, live': bool)
    requires WriteAt(g1, g, schemas, n1, e, id, ids, failed, live) && (live' ==> live)
    ensures WriteAt(g1, g, schemas, n1, e, id, ids, failed, live')
  {
    if e.IsWrite() && id.Some? {
      var before := EntriesOf(g1, id.value);
      WroteFrom(g, schemas.Keys, before, EntriesOf(g, id.value),
                KeysWritten(e, FieldsOf(g1, schemas, id.value), before.Keys), ResolveData(e.data, ids), n1, live, n1,
                live');
    }
  }

  /** What the next write finds: its row as it was when the writes started. */
  lemma {:induction false} WriteContext(g1: Graph, g: Graph, schemas: Schemas, n1: Id, n: Id, batch: seq<Entry>,
                                        ids: seq<Option<Id>>, failed: seq<set<Key>>)
    requires WritesReady(g1, schemas, n1, batch, ids)
    requires WritesUnderway(g1, g, schemas, n1, n, batch, ids, failed, |failed|)
    requires |failed| < |batch| && batch[|failed|].IsWrite() && ids[|failed|].Some?
    ensures var id := ids[|failed|].value;
            && IsNamed(g, schemas.Keys, id) && EntriesOf(g, id) == EntriesOf(g1, id)
            && FieldsOf(g, schemas, id) == FieldsOf(g1, schemas, id)
            && DataLinked(g, n, ResolveData(batch[|failed|].data, ids))
  {
    var id := ids[|failed|].value;
    assert Targets(g1, schemas, id) && SameRow(g1[id], g[id]) && UnwrittenAt(g1, g, batch[|failed|], ids[|failed|]);
    DataLinkedLater(g1, g, n1, n, ResolveData(batch[|failed|].data, ids));
  }

  lemma {:induction false} WriteEntryDone(g1: Graph, g: Graph, g': Graph, schemas: Schemas, n1: Id, n: Id, e: Entry,
                                          id: Id, ids: seq<Option<Id>>, f: set<Key>)
    requires e.IsWrite() && EntriesOf(g, id) == EntriesOf(g1, id)
    requires FieldsOf(g, schemas, id) == FieldsOf(g1, schemas, id)
    requires n1 <= n
    requires var before, data := EntriesOf(g, id), ResolveData(e.data, ids);
             var keys := WrittenKeys(data, FieldsOf(g, schemas, id), e.Patch? && e.overwrite, before.Keys);
             && FlagsOfDrop(g, g', schemas.Keys, {id}, OldValues(before, keys))
             && Wrote(g', schemas.Keys, before, EntriesOf(g', id), keys, data, n, id !in OldValues(before, keys))
             && f == set k | k in keys && !Buildable(g', schemas.Keys, data, k)
    ensures FlagsOfDrop(g, g', schemas.Keys, {id}, OverwrittenBy(g1, schemas, e, Some(id)))
    ensures WriteAt(g1, g', schemas, n1, e, Some(id), ids, f, id !in OverwrittenBy(g1, schemas, e, Some(id)))
  {
    var before, fields := EntriesOf(g, id), FieldsOf(g, schemas, id);
    WrittenResolved(e.data, ids, fields, e.Patch? && e.overwrite, before.Keys);
    var live := id !in OverwrittenBy(g1, schemas, e, Some(id));
    WroteFrom(g', schemas.Keys, before, EntriesOf(g', id), KeysWritten(e, fields, before.Keys),
              ResolveData(e.data, ids), n, live, n1, live);
  }

  // ---- Phase 3: bumps ---------------------------------------------------------------------------

  ghost function BumpIds(batch: seq<Entry>, ids: seq<Option<Id>>): set<Id> {
    set j | 0 <= j < |ids| && j < |batch| && batch[j].IsBump() && ids[j].Some? :: ids[j].value
  }

  /** The rows that the first bumps flag: the old versions and what the walk from them reaches. */
  ghost function Retired(g: Graph, named: set<TypeId>, batch: seq<Entry>, ids: seq<Option<Id>>, count: nat): set<Id> {
    set x | x in g && exists j :: 0 <= j < count && j < |batch| && j < |ids| && batch[j].IsBump() && ids[j].Some? &&
                                  (x == batch[j].id || x in ReachSet(g, named, batch[j].id))
  }

  /** The new version unfolds to the shallow patch of what the old one unfolded to in `g2`, in live rows of its own. */
  ghost predicate BumpDone(g2: Graph, g: Graph, schemas: Schemas, from: Id, e: Entry, v2: Id, ids: seq<Option<Id>>,
                           failed: set<Key>)
    requires e.IsBump() && Whole(g2, schemas.Keys) && Targets(g2, schemas, e.id)
  {
    if e.Remove? then EntriesOf(g, v2) == map[] && failed == {}
    else
      var data := ResolveData(e.data, ids);
      var fields := FieldsOf(g2, schemas, e.id);
      var fs := FieldTrees(g2, schemas.Keys, e.id);
      var want := Patched(fs, data, BuiltKeys(g, schemas.Keys, data, fields));
      && MadeAll(g, schemas.Keys, EntriesOf(g, v2), want, want.Keys, from)
      && failed == RefusedKeys(g, schemas.Keys, data, fields, fs.Keys)
  }

  ghost predicate BumpLinked(g: Graph, n: Id, e: Entry, ids: seq<Option<Id>>) {
    e.Bump? ==> DataLinked(g, n, ResolveData(e.data, ids))
  }

  /** What a graph must be when the bumps start. */
  ghost predicate BumpsReady(g2: Graph, schemas: Schemas, n2: Id, batch: seq<Entry>, ids: seq<Option<Id>>) {
    && |batch| == |ids| && Sound(g2, schemas.Keys, n2) && Distinct(ids)
    && (forall j :: 0 <= j < |batch| && batch[j].IsBump() && ids[j].Some? ==>
          && Targets(g2, schemas, batch[j].id) && IsNamed(g2, schemas.Keys, ids[j].value)
          && EntriesOf(g2, ids[j].value) == map[]
          && batch[j].id !in BumpIds(batch, ids) && BumpLinked(g2, n2, batch[j], ids))
  }

  ghost predicate BumpAt(g2: Graph, g: Graph, schemas: Schemas, n2: Id, e: Entry, id: Option<Id>, ids: seq<Option<Id>>,
                         failed: set<Key>)
    requires Whole(g2, schemas.Keys) && (e.IsBump() && id.Some? ==> Targets(g2, schemas, e.id))
  {
    if e.IsBump() && id.Some? then BumpDone(g2, g, schemas, n2, e, id.value, ids, failed) else failed == {}
  }

  predicate BlankAt(g: Graph, e: Entry, id: Option<Id>) { e.IsBump() && id.Some? ==> EntriesOf(g, id.value) == map[] }

  /** New versions whose bump was made have their outcome; the others have no fields yet. */
  ghost predicate BumpsMade(g2: Graph, g: Graph, schemas: Schemas, n2: Id, batch: seq<Entry>, ids: seq<Option<Id>>,
                            failed: seq<set<Key>>)
    requires BumpsReady(g2, schemas, n2, batch, ids) && |failed| <= |batch|
  {
    && (forall j :: 0 <= j < |failed| ==> BumpAt(g2, g, schemas, n2, batch[j], ids[j], ids, failed[j]))
    && (forall j :: |failed| <= j < |batch| ==> BlankAt(g, batch[j], ids[j]))
  }

  ghost predicate BumpsUnderway(g2: Graph, g: Graph, schemas: Schemas, n2: Id, n: Id, batch: seq<Entry>,
                                ids: seq<Option<Id>>, failed: seq<set<Key>>, count: nat)
    requires BumpsReady(g2, schemas, n2, batch, ids)
  {
    && |failed| == count <= |batch|
    && Sound(g, schemas.Keys, n) && Rewrites(g2, g, schemas.Keys, n2, n, BumpIds(batch, ids))
    && FlagsExactly(g2, g, Retired(g2, schemas.Keys, batch, ids, count))
    && BumpsMade(g2, g, schemas, n2, batch, ids, failed)
  }

  /** What the next bump finds: the old version as it was when the bumps started, and an empty new row. */
  lemma {:induction false} BumpContext(g2: Graph, g: Graph, schemas: Schemas, n2: Id, n: Id, batch: seq<Entry>,
                                       ids: seq<Option<Id>>, i: nat)
    requires BumpsReady(g2, schemas, n2, batch, ids) && i < |batch| && batch[i].IsBump() && ids[i].Some?
    requires Rewrites(g2, g, schemas.Keys, n2, n, BumpIds(batch, ids))
    ensures batch[i].id in g && g[batch[i].id].body == g2[batch[i].id].body && batch[i].id != ids[i].value
    ensures IsNamed(g, schemas.Keys, ids[i].value) && ids[i].value in BumpIds(batch, ids)
    ensures forall k :: k in EntriesOf(g, batch[i].id) ==>
              Denotes(g, schemas.Keys, EntriesOf(g, batch[i].id)[k], FieldTrees(g2, schemas.Keys, batch[i].id)[k])
    ensures FieldsOf(g, schemas, batch[i].id) == FieldsOf(g2, schemas, batch[i].id)
  {
    var e, v2 := batch[i], ids[i].value;
    RewritesNamed(g2, g, schemas.Keys, n2, n, BumpIds(batch, ids));
    assert v2 in BumpIds(batch, ids);
    var fs := FieldTrees(g2, schemas.Keys, e.id);
    forall x | x in BumpIds(batch, ids) ensures IsNamed(g2, schemas.Keys, x) {
      var j :| 0 <= j < |ids| && j < |batch| && batch[j].IsBump() && ids[j].Some? && ids[j].value == x;
    }
    forall k | k in EntriesOf(g, e.id) ensures Denotes(g, schemas.Keys, EntriesOf(g, e.id)[k], fs[k]) {
      DenotesNamedRewritten(g2, g, schemas.Keys, n2, n, BumpIds(batch, ids), EntriesOf(g2, e.id)[k], fs[k]);
    }
  }

  lemma {:induction false} NoBump(g2: Graph, g: Graph, schemas: Schemas, n2: Id, n: Id, batch: seq<Entry>,
                                  ids: seq<Option<Id>>, failed: seq<set<Key>>)
    requires BumpsReady(g2, schemas, n2, batch, ids)
    requires |failed| < |batch| && !(batch[|failed|].IsBump() && ids[|failed|].Some?)
    requires BumpsUnderway(g2, g, schemas, n2, n, batch, ids, failed, |failed|)
    ensures BumpsUnderway(g2, g, schemas, n2, n, batch, ids, failed + [{}], |failed| + 1)
  {
    RetiredStays(g2, schemas.Keys, batch, ids, |failed|);
    MadeNext(g2, g, schemas, n2, batch, ids, failed, {});
  }

  lemma {:induction false} RetiredStays(g: Graph, named: set<TypeId>, batch: seq<Entry>, ids: seq<Option<Id>>, i: nat)
    requires i < |batch| && i < |ids| && !(batch[i].IsBump() && ids[i].Some?)
    ensures Retired(g, named, batch, ids, i + 1) == Retired(g, named, batch, ids, i)
  {
  }

  lemma {:induction false} BumpIdsNamed(g2: Graph, schemas: Schemas, n2: Id, batch: seq<Entry>, ids: seq<Option<Id>>)
    requires BumpsReady(g2, schemas, n2, batch, ids)
    ensures forall x :: x in BumpIds(batch, ids) ==> IsNamed(g2, schemas.Keys, x)
  {
    forall x | x in BumpIds(batch, ids) ensures IsNamed(g2, schemas.Keys, x) {
      var j :| 0 <= j < |ids| && j < |batch| && batch[j].IsBump() && ids[j].Some? && ids[j].value == x;
    }
  }

  lemma {:induction false} RetiredGrows(g: Graph, named: set<TypeId>, batch: seq<Entry>, ids: seq<Option<Id>>, i: nat)
    requires i < |batch| && i < |ids| && batch[i].IsBump() && ids[i].Some? && batch[i].id in g
    ensures Retired(g, named, batch, ids, i + 1)
              == Retired(g, named, batch, ids, i) + (ReachSet(g, named, batch[i].id) + {batch[i].id})
  {
  }

  lemma {:induction false} FlagsCompose(g2: Graph, g: Graph, g': Graph, s: set<Id>, t: set<Id>)
    requires FlagsExactly(g2, g, s) && FlagsExactly(g, g', t)
    requires forall x :: x in g2 || x in s ==> x in g
    ensures FlagsExactly(g2, g', s + t)
  {
  }

  lemma {:induction false} KeysSame(g: Graph, g': Graph, named: set<TypeId>, n: Id, n': Id, targets: set<Id>,
                                    data: Data, fields: set<Key>, present: set<Key>)
    requires Rewrites(g, g', named, n, n', targets)
    ensures BuiltKeys(g', named, data, fields) == BuiltKeys(g, named, data, fields)
    ensures RefusedKeys(g', named, data, fields, present) == RefusedKeys(g, named, data, fields, present)
  {
    RewritesNamed(g, g', named, n, n', targets);
    BuildableSame(g, g', named, data);
  }

  /** An entry that has its new version keeps it while later bumps are made. */
  lemma {:induction false} BumpKept(g2: Graph, n2: Id, g: Graph, g': Graph, schemas: Schemas, n: Id, n': Id,
                                    targets: set<Id>, e: Entry, v2: Id, ids: seq<Option<Id>>, failed: set<Key>)
    requires e.IsBump() && Sound(g2, schemas.Keys, n2) && Targets(g2, schemas, e.id)
    requires BumpDone(g2, g, schemas, n2, e, v2, ids, failed)
    requires Rewrites(g, g', schemas.Keys, n, n', targets) && v2 !in targets && v2 in g
    requires forall x :: x in targets ==> x < n2
    requires forall x :: x in g && n2 <= x && g'[x].tombstone ==> g[x].tombstone
    ensures BumpDone(g2, g', schemas, n2, e, v2, ids, failed)
  {
    if e.Bump? {
      var data := ResolveData(e.data, ids);
      var fields := FieldsOf(g2, schemas, e.id);
      var fs := FieldTrees(g2, schemas.Keys, e.id);
      var want := Patched(fs, data, BuiltKeys(g, schemas.Keys, data, fields));
      KeysSame(g, g', schemas.Keys, n, n', targets, data, fields, fs.Keys);
      MadeAllRewritten(g, g', schemas.Keys, n, n', targets, EntriesOf(g, v2), want, want.Keys, n2);
    }
  }

  /** What one bump gives, said of the graph that the bumps started from. */
  lemma {:induction false} BumpMade(g2: Graph, n2: Id, g: Graph, g': Graph, schemas: Schemas, n: Id, n': Id, e: Entry,
                                    v2: Id, ids: seq<Option<Id>>, failed: set<Key>, data: Data, fields: set<Key>,
                                    fs: map<Key, Tree>, want: map<Key, Tree>)
    requires e.IsBump() && Sound(g2, schemas.Keys, n2) && Targets(g2, schemas, e.id) && n2 <= n
    requires data == (if e.Bump? then ResolveData(e.data, ids) else map[]) && fields == FieldsOf(g2, schemas, e.id)
    requires fs == FieldTrees(g2, schemas.Keys, e.id)
    requires want == Patched(fs, data, BuiltKeys(g, schemas.Keys, data, fields))
    requires Rewrites(g, g', schemas.Keys, n, n', {v2})
    requires e.Remove? ==> EntriesOf(g', v2) == map[] && failed == {}
    requires e.Bump? ==> MadeAll(g', schemas.Keys, EntriesOf(g', v2), want, want.Keys, n)
                         && failed == RefusedKeys(g, schemas.Keys, data, fields, fs.Keys)
    ensures BumpDone(g2, g', schemas, n2, e, v2, ids, failed)
  {
    if e.Bump? {
      KeysSame(g, g', schemas.Keys, n, n', {v2}, data, fields, fs.Keys);
      MadeAllLess(g', schemas.Keys, EntriesOf(g', v2), want, want.Keys, n, n2);
    }
  }

  lemma {:induction false} BumpNext(g2: Graph, g: Graph, g': Graph, schemas: Schemas, n2: Id, n: Id, n': Id,
                                    batch: seq<Entry>, ids: seq<Option<Id>>, failed: seq<set<Key>>, f: set<Key>)
    requires BumpsReady(g2, schemas, n2, batch, ids) && |failed| < |batch| && batch[|failed|].IsBump()
    requires ids[|failed|].Some?
    requires BumpsUnderway(g2, g, schemas, n2, n, batch, ids, failed, |failed|)
    requires Sound(g', schemas.Keys, n') && Rewrites(g, g', schemas.Keys, n, n', {ids[|failed|].value})
    requires FlagsExactly(g, g', ReachSet(g, schemas.Keys, batch[|failed|].id) + {batch[|failed|].id})
    requires BumpAt(g2, g', schemas, n2, batch[|failed|], ids[|failed|], ids, f)
    ensures BumpsUnderway(g2, g', schemas, n2, n', batch, ids, failed + [f], |failed| + 1)
  {
    var i := |failed|;
    BumpIdsNamed(g2, schemas, n2, batch, ids);
    assert ids[i].value in BumpIds(batch, ids);
    FlagsNext(g2, g, g', schemas, n2, n, n', batch, ids, i);
    BumpsMadeNext(g2, g, g', schemas, n2, n, n', batch, ids, failed, f, ids[i].value, batch[i].id);
  }

  lemma {:induction false} BumpsMadeNext(g2: Graph, g: Graph, g': Graph, schemas: Schemas, n2: Id, n: Id, n': Id,
                                         batch: seq<Entry>, ids: seq<Option<Id>>, failed: seq<set<Key>>, f: set<Key>,
                                         v2: Id, prev: Id)
    requires BumpsReady(g2, schemas, n2, batch, ids) && |failed| < |batch| && ids[|failed|] == Some(v2) && v2 < n2
    requires (forall x :: x in BumpIds(batch, ids) ==> x in g) && prev in g2
    requires BumpsMade(g2, g, schemas, n2, batch, ids, failed) && Rewrites(g, g', schemas.Keys, n, n', {v2})
    requires FlagsExactly(g, g', ReachSet(g2, schemas.Keys, prev) + {prev})
    requires BumpAt(g2, g', schemas, n2, batch[|failed|], ids[|failed|], ids, f)
    ensures BumpsMade(g2, g', schemas, n2, batch, ids, failed + [f])
  {
    OnlyOldFlagged(g2, g, g', schemas.Keys, n2, prev);
    OthersKept(g2, g, g', schemas, n2, n, n', batch, ids, failed, v2);
    MadeNext(g2, g', schemas, n2, batch, ids, failed, f);
  }

  lemma {:induction false} FlagsNext(g2: Graph, g: Graph, g': Graph, schemas: Schemas, n2: Id, n: Id, n': Id,
                                     batch: seq<Entry>, ids: seq<Option<Id>>, i: nat)
    requires BumpsReady(g2, schemas, n2, batch, ids) && i < |batch| && batch[i].IsBump() && ids[i].Some?
    requires Rewrites(g2, g, schemas.Keys, n2, n, BumpIds(batch, ids))
    requires Rewrites(g, g', schemas.Keys, n, n', {ids[i].value})
    requires FlagsExactly(g2, g, Retired(g2, schemas.Keys, batch, ids, i))
    requires FlagsExactly(g, g', ReachSet(g, schemas.Keys, batch[i].id) + {batch[i].id})
    ensures Rewrites(g2, g', schemas.Keys, n2, n', BumpIds(batch, ids))
    ensures FlagsExactly(g2, g', Retired(g2, schemas.Keys, batch, ids, i + 1))
    ensures FlagsExactly(g, g', ReachSet(g2, schemas.Keys, batch[i].id) + {batch[i].id})
  {
    var named, v2, prev, all := schemas.Keys, ids[i].value, batch[i].id, BumpIds(batch, ids);
    BumpIdsNamed(g2, schemas, n2, batch, ids);
    assert v2 in all;
    ReachRewritten(g2, g, named, n2, n, all, prev);
    RetiredGrows(g2, named, batch, ids, i);
    FlagsCompose(g2, g, g', Retired(g2, named, batch, ids, i), ReachSet(g, named, prev) + {prev});
    RewritesTransitive(g2, g, g', named, n2, n, n', all, {v2});
  }

  ghost predicate OthersMade(g2: Graph, g: Graph, schemas: Schemas, n2: Id, batch: seq<Entry>, ids: seq<Option<Id>>,
                             failed: seq<set<Key>>)
    requires BumpsReady(g2, schemas, n2, batch, ids) && |failed| < |batch|
  {
    && (forall j :: 0 <= j < |failed| ==> BumpAt(g2, g, schemas, n2, batch[j], ids[j], ids, failed[j]))
    && (forall j :: |failed| < j < |batch| ==> BlankAt(g, batch[j], ids[j]))
  }

  lemma {:induction false} MadeNext(g2: Graph, g: Graph, schemas: Schemas, n2: Id, batch: seq<Entry>,
                                    ids: seq<Option<Id>>, failed: seq<set<Key>>, f: set<Key>)
    requires BumpsReady(g2, schemas, n2, batch, ids) && |failed| < |batch|
    requires OthersMade(g2, g, schemas, n2, batch, ids, failed)
    requires BumpAt(g2, g, schemas, n2, batch[|failed|], ids[|failed|], ids, f)
    ensures BumpsMade(g2, g, schemas, n2, batch, ids, failed + [f])
  {
    var failed' := failed + [f];
    forall j | 0 <= j < |failed'| ensures BumpAt(g2, g, schemas, n2, batch[j], ids[j], ids, failed'[j]) {
      assert failed'[j] == if j < |failed| then failed[j] else f;
    }
  }

  /** A bump flags nothing that was made since the bumps started. */
  lemma {:induction false} OnlyOldFlagged(g2: Graph, g: Graph, g': Graph, named: set<TypeId>, n2: Id, prev: Id)
    requires Below(g2, n2) && prev in g2 && FlagsExactly(g, g', ReachSet(g2, named, prev) + {prev})
    requires forall x :: x in g ==> x in g'
    ensures forall x :: x in g && n2 <= x && g'[x].tombstone ==> g[x].tombstone
  {
  }

  lemma {:induction false} OthersKept(g2: Graph, g: Graph, g': Graph, schemas: Schemas, n2: Id, n: Id, n': Id,
                                      batch: seq<Entry>, ids: seq<Option<Id>>, failed: seq<set<Key>>, v2: Id)
    requires BumpsReady(g2, schemas, n2, batch, ids) && |failed| < |batch| && ids[|failed|] == Some(v2) && v2 < n2
    requires forall x :: x in BumpIds(batch, ids) ==> x in g
    requires BumpsMade(g2, g, schemas, n2, batch, ids, failed) && Rewrites(g, g', schemas.Keys, n, n', {v2})
    requires forall x :: x in g && n2 <= x && g'[x].tombstone ==> g[x].tombstone
    ensures OthersMade(g2, g', schemas, n2, batch, ids, failed)
  {
    var i := |failed|;
    forall j | 0 <= j < |batch| && j != i && batch[j].IsBump() && ids[j].Some?
      ensures ids[j].value in g && ids[j].value != v2
    {
      assert ids[j].value in BumpIds(batch, ids);
    }
    forall j | 0 <= j < i ensures BumpAt(g2, g', schemas, n2, batch[j], ids[j], ids, failed[j]) {
      assert BumpAt(g2, g, schemas, n2, batch[j], ids[j], ids, failed[j]);
      if batch[j].IsBump() && ids[j].Some? {
        BumpKept(g2, n2, g, g', schemas, n, n', {v2}, batch[j], ids[j].value, ids, failed[j]);
      }
    }
    forall j | i < j < |batch| ensures BlankAt(g', batch[j], ids[j]) {
      assert BlankAt(g, batch[j], ids[j]);
    }
  }
}
