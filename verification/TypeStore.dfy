/**
 * The type store: upsert, named types with field drift, and garbage collection
 * (packages/core/src/db.ts, packages/core/src/schema.ts).
 */
module TypeStore {
  import opened Common
  import opened TypeModel
  import opened TypeGarbage

  class TypeStore {
    var rows: Rows
    var next: Id
    var named: map<string, Id>

    ghost predicate Valid()
      reads this
    {
      Kept(rows, next) && NamesLoad(rows, named)
    }

    constructor ()
      ensures Valid() && rows == map[] && named == map[]
    {
      rows, next, named := map[], 0, map[];
    }

    /** `SELECT id FROM types WHERE content_key = ?`. */
    method FindByKey(key: ContentKey) returns (r: Option<Id>)
      ensures r.Some? ==> r.value in rows && KeyOf(rows[r.value]) == key
      ensures r.None? ==> forall x :: x in rows ==> KeyOf(rows[x]) != key
    {
      var left := rows.Keys;
      while left != {}
        invariant left <= rows.Keys && forall x :: x in rows && x !in left ==> KeyOf(rows[x]) != key
        decreases left
      {
        var x :| x in left;
        if KeyOf(rows[x]) == key { return Some(x); }
        left := left - {x};
      }
      return None;
    }

    /** Find the row with the key of the given row, or insert it. */
    method Place(row: Row) returns (id: Id)
      requires Kept(rows, next) && !row.NamedMapRow? && forall c :: c in ChildIds(row) ==> Loadable(rows, c)
      modifies this`rows, this`next
      ensures Kept(rows, next) && Extends(old(rows), rows)
      ensures Loadable(rows, id) && KeyOf(rows[id]) == KeyOf(row)
      ensures HasKey(old(rows), KeyOf(row)) ==> rows == old(rows)
    {
      var found := FindByKey(KeyOf(row));
      if found.Some? {
        FoundLoads(rows, next, found.value, row);
        return found.value;
      }
      PlacedLoads(rows, next, row);
      id := next;
      rows := rows[id := row];
      next := next + 1;
    }

    /** upsertType without a name. */
    method Upsert(t: Type) returns (id: Id)
      requires Kept(rows, next)
      modifies this`rows, this`next
      ensures Kept(rows, next) && Upserted(old(rows), rows, t, id)
      decreases t, 1
    {
      ghost var rows0 := rows;
      match t
      case SymbolType =>
        id := Place(SymbolRow);
        LeafPlaced(rows0, rows, t, id, SymbolRow);
      case MeaningType =>
        id := Place(MeaningRow);
        LeafPlaced(rows0, rows, t, id, MeaningRow);
      case RefType(name) =>
        id := Place(RefRow(name));
        LeafPlaced(rows0, rows, t, id, RefRow(name));
      case ListType(item) => id := UpsertPart(item, t);
      case OptionalType(inner) => id := UpsertPart(inner, t);
      case OrType(variants) =>
        var ids := UpsertVariants(variants, t);
        ghost var rows1 := rows;
        id := Place(OrRow(ids));
        OrPlaced(rows0, rows1, rows, variants, ids, id);
      case MapType(entries) =>
        var ids := UpsertFields(entries, t);
        ghost var rows1 := rows;
        id := Place(MapRow(ids));
        MapPlaced(rows0, rows1, rows, entries, ids, id);
    }

    /** A list or an optional type: the part first, then the row over it. */
    method UpsertPart(part: Type, t: Type) returns (id: Id)
      requires Kept(rows, next) && (t == ListType(part) || t == OptionalType(part))
      modifies this`rows, this`next
      ensures Kept(rows, next) && Upserted(old(rows), rows, t, id)
      decreases t, 0
    {
      ghost var rows0 := rows;
      var partId := Upsert(part);
      ghost var rows1 := rows;
      var row := if t.ListType? then ListRow(partId) else OptionalRow(partId);
      id := Place(row);
      PartPlaced(rows0, rows1, rows, t, part, partId, id, row);
    }

    method UpsertVariants(variants: seq<Type>, ghost t: Type) returns (ids: seq<Id>)
      requires Kept(rows, next) && t == OrType(variants)
      modifies this`rows, this`next
      ensures Kept(rows, next) && Extends(old(rows), rows) && |ids| == |variants|
      ensures forall i :: 0 <= i < |variants| ==> Stores(rows, ids[i], variants[i])
      ensures Known(old(rows), t) ==> rows == old(rows)
      decreases t, 0
    {
      ghost var rows0 := rows;
      ids := [];
      for i := 0 to |variants|
        invariant Kept(rows, next) && Extends(rows0, rows) && |ids| == i
        invariant forall j :: 0 <= j < i ==> Stores(rows, ids[j], variants[j])
        invariant Known(rows0, t) ==> rows == rows0
      {
        if Known(rows0, t) { KnownVariant(rows0, t, i); }
        ghost var rows1 := rows;
        var id := Upsert(variants[i]);
        forall j | 0 <= j < i ensures Stores(rows, ids[j], variants[j]) {
          StoresKept(rows1, rows, ids[j], variants[j]);
        }
        ids := ids + [id];
      }
    }

    method UpsertFields(entries: map<string, Type>, ghost t: Type) returns (ids: map<string, Id>)
      requires Kept(rows, next) && t == MapType(entries)
      modifies this`rows, this`next
      ensures Kept(rows, next) && Extends(old(rows), rows) && FieldsStored(rows, entries, ids)
      ensures Known(old(rows), t) ==> rows == old(rows)
      ensures (forall k :: k in entries ==> Known(old(rows), entries[k])) ==> rows == old(rows)
      decreases t, 0
    {
      ghost var rows0 := rows;
      ghost var all := forall k :: k in entries ==> Known(rows0, entries[k]);
      if Known(rows0, t) {
        forall k | k in entries ensures Known(rows0, entries[k]) { KnownField(rows0, t, k); }
      }
      ids := map[];
      var left := entries.Keys;
      while left != {}
        invariant left <= entries.Keys && ids.Keys == entries.Keys - left
        invariant Kept(rows, next) && Extends(rows0, rows)
        invariant forall k :: k in ids ==> Stores(rows, ids[k], entries[k])
        invariant all ==> rows == rows0
        decreases left
      {
        var key :| key in left;
        left := left - {key};
        ghost var rows1 := rows;
        var id := Upsert(entries[key]);
        forall k | k in ids ensures Stores(rows, ids[k], entries[k]) {
          StoresKept(rows1, rows, ids[k], entries[k]);
        }
        ids := ids[key := id];
      }
    }

    /**
     * upsertType of a map with a name: the row is found by the name, and its fields are replaced
     * when they differ.
     */
    method UpsertNamedMap(name: string, entries: map<string, Type>) returns (id: Id)
      requires Kept(rows, next)
      modifies this`rows, this`next
      ensures Kept(rows, next) && KeepsUnnamed(old(rows), rows) && KeepsOtherNames(old(rows), rows, name)
      ensures HasFields(rows, id, name, entries)
      ensures forall x :: x in old(rows) && KeyOf(old(rows)[x]) == KNamed(name) ==> id == x
      ensures (exists x :: HasFields(old(rows), x, name, entries)) ==> rows == old(rows)
    {
      ghost var rows0 := rows;
      var ids := UpsertFields(entries, MapType(entries));
      ghost var rows1, next1 := rows, next;
      var found := FindByKey(KNamed(name));
      if found.None? {
        id := next;
        rows := rows[id := NamedMapRow(name, ids)];
        next := next + 1;
      } else {
        id := found.value;
        if rows[id].entries != ids {
          rows := rows[id := NamedMapRow(name, ids)];
        }
      }
      NamedPlaced(rows0, rows1, rows, next1, next, id, name, entries, ids);
    }

    /** upsertType with a name, and the row of the name. */
    method Register(name: string, t: Type) returns (id: Id)
      requires Valid()
      modifies this
      ensures Valid() && named == old(named)[name := id]
      ensures LoadsTo(rows, id, t)
      ensures forall n :: n in old(named) && n != name ==> LoadsSame(old(rows), rows, named[n])
      ensures name in old(named) && LoadsTo(old(rows), old(named)[name], t) ==> rows == old(rows) && named == old(named)
    {
      ghost var rows0, named0 := rows, named;
      if t.MapType? {
        id := UpsertNamedMap(name, t.entries);
        MapRegistered(rows0, rows, named0, name, t, id);
      } else {
        id := Upsert(t);
        TypeRegistered(rows0, rows, named0, name, t, id);
      }
      named := named[name := id];
    }

    /** gcOrphanedTypes. `used` is the types of all nodes. */
    method CollectGarbage(used: set<Id>) returns (deleted: int)
      requires Valid()
      modifies this`rows
      ensures Valid() && rows == Restrict(old(rows), Reached(old(rows), named) + used)
      ensures forall n :: n in named ==> LoadsSame(old(rows), rows, named[n])
      ensures deleted == |old(rows)| - |rows|
    {
      var reachable := WalkFromNames(rows, named);
      var before := rows;
      NamesSurvive(rows, named, reachable + used);
      RestrictKept(rows, next, reachable + used);
      rows := map id | id in before && id in reachable + used :: before[id];
      deleted := |before| - |rows|;
    }
  }

  /** The recursive part of the garbage query: all rows that the names are made of. */
  method WalkFromNames(rows: Rows, named: map<string, Id>) returns (reachable: set<Id>)
    requires NamesLoad(rows, named)
    ensures reachable == Reached(rows, named)
  {
    ghost var all := Reached(rows, named);
    WalkStarts(rows, named);
    reachable := {};
    var queue := named.Values;
    while queue != {}
      invariant WalkUnderway(all, rows, named, reachable, queue)
      decreases all - reachable, queue
    {
      var x :| x in queue;
      WalkStep(all, rows, named, reachable, queue, x);
      queue := queue - {x};
      if x !in reachable {
        reachable := reachable + {x};
        queue := queue + ChildIds(rows[x]);
      }
    }
    WalkEnds(all, rows, named, reachable, queue);
    ReachedInClosed(rows, named, reachable);
  }
}
