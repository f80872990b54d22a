/**
 * What an upsert adds to the type store, what names load to, and which rows garbage
 * collection leaves (packages/core/src/db.ts).
 */
module TypeGarbage {
  import opened Common
  import opened TypeModel

  /** Rows are only added, and none of them is a named map. */
  ghost predicate Extends(rows: Rows, rows': Rows) {
    Grows(rows, rows') && forall x :: x in rows' && x !in rows ==> !rows'[x].NamedMapRow?
  }

  ghost predicate HasKey(rows: Rows, key: ContentKey) { exists x :: x in rows && KeyOf(rows[x]) == key }

  /** What an upsert promises. A type that is known leaves the store as it was. */
  ghost predicate Upserted(rows: Rows, rows': Rows, t: Type, id: Id) {
    Extends(rows, rows') && Stores(rows', id, t) && (Known(rows, t) ==> rows' == rows)
  }

  ghost predicate FieldsStored(rows: Rows, entries: map<string, Type>, ids: map<string, Id>) {
    ids.Keys == entries.Keys && forall k :: k in ids ==> Stores(rows, ids[k], entries[k])
  }

  /** Named maps of other names stay as they were. */
  ghost predicate KeepsOtherNames(rows: Rows, rows': Rows, name: string) {
    forall x :: x in rows && rows[x].NamedMapRow? && rows[x].name != name ==> x in rows' && rows'[x] == rows[x]
  }

  /** The name loads. A map is registered as the named map of the name. */
  ghost predicate NameLoads(rows: Rows, named: map<string, Id>, n: string)
    requires n in named
  {
    LoadableAt(rows, named[n]) && !rows[named[n]].MapRow? && (rows[named[n]].NamedMapRow? ==> rows[named[n]].name == n)
  }

  ghost predicate NamesLoad(rows: Rows, named: map<string, Id>) { forall n :: n in named ==> NameLoads(rows, named, n) }

  // ---- Placing a row -------------------------------------------------------------------

  lemma {:induction false} SameKeySameChildren(r: Row, r': Row)
    requires KeyOf(r) == KeyOf(r') && !r.NamedMapRow?
    ensures ChildIds(r) == ChildIds(r') && !r'.NamedMapRow?
  {
    if r.OrRow? {
      assert forall c :: c in r.variants <==> c in multiset(r.variants);
      assert forall c :: c in r'.variants <==> c in multiset(r'.variants);
    }
  }

  lemma {:induction false} FoundLoads(rows: Rows, next: Id, x: Id, row: Row)
    requires Kept(rows, next) && x in rows && KeyOf(rows[x]) == KeyOf(row) && !row.NamedMapRow?
    requires forall c :: c in ChildIds(row) ==> Loadable(rows, c)
    ensures Loadable(rows, x)
  {
    SameKeySameChildren(row, rows[x]);
    assert forall c :: c in ChildIds(rows[x]) ==> ChildFits(rows, next, x, c);
  }

  lemma {:induction false} PlacedLoads(rows: Rows, next: Id, row: Row)
    requires Kept(rows, next) && !row.NamedMapRow? && forall c :: c in ChildIds(row) ==> Loadable(rows, c)
    requires forall x :: x in rows ==> KeyOf(rows[x]) != KeyOf(row)
    ensures Kept(rows[next := row], next + 1) && Extends(rows, rows[next := row]) && Loadable(rows[next := row], next)
  {
    var rows' := rows[next := row];
    forall id, c | id in rows' && c in ChildIds(rows'[id]) ensures ChildFits(rows', next + 1, id, c) {
      assert id != next ==> ChildFits(rows, next, id, c);
    }
    forall c | c in ChildIds(row) ensures Loadable(rows', c) {
      LoadKept(rows, rows', c);
    }
  }

  lemma {:induction false} LeafPlaced(rows: Rows, rows': Rows, t: Type, id: Id, row: Row)
    requires (t == SymbolType && row == SymbolRow) || (t == MeaningType && row == MeaningRow)
               || (t.RefType? && row == RefRow(t.name))
    requires Extends(rows, rows') && Loadable(rows', id) && KeyOf(rows'[id]) == KeyOf(row)
    requires HasKey(rows, KeyOf(row)) ==> rows' == rows
    ensures Upserted(rows, rows', t, id)
  {
    if Known(rows, t) {
      var x :| Stores(rows, x, t);
      assert KeyOf(rows[x]) == KeyOf(row);
    }
  }

  lemma {:induction false} PartPlaced(rows0: Rows, rows1: Rows, rows: Rows, t: Type, part: Type, partId: Id, id: Id,
                                      row: Row)
    requires t == ListType(part) || t == OptionalType(part)
    requires row == if t.ListType? then ListRow(partId) else OptionalRow(partId)
    requires UniqueKeys(rows1) && Upserted(rows0, rows1, part, partId) && Extends(rows1, rows)
    requires Loadable(rows, id) && KeyOf(rows[id]) == KeyOf(row) && (HasKey(rows1, KeyOf(row)) ==> rows == rows1)
    ensures Upserted(rows0, rows, t, id)
  {
    StoresKept(rows1, rows, partId, part);
    PartStores(rows, t, part, partId, id, row);
    if Known(rows0, t) {
      KnownItem(rows0, t, part);
      var x :| Stores(rows0, x, t);
      KnownPartKey(rows1, t, part, partId, row, x);
    }
  }

  lemma {:induction false} PartStores(rows: Rows, t: Type, part: Type, partId: Id, id: Id, row: Row)
    requires t == ListType(part) || t == OptionalType(part)
    requires row == if t.ListType? then ListRow(partId) else OptionalRow(partId)
    requires Stores(rows, partId, part) && Loadable(rows, id) && KeyOf(rows[id]) == KeyOf(row)
    ensures Stores(rows, id, t)
  {
    assert rows[id] == row;
  }

  lemma {:induction false} KnownPartKey(rows: Rows, t: Type, part: Type, partId: Id, row: Row, x: Id)
    requires t == ListType(part) || t == OptionalType(part)
    requires row == if t.ListType? then ListRow(partId) else OptionalRow(partId)
    requires UniqueKeys(rows) && Stores(rows, partId, part) && Stores(rows, x, t)
    ensures HasKey(rows, KeyOf(row))
  {
    MeaningUnique(rows, if t.ListType? then rows[x].item else rows[x].inner, partId);
    assert KeyOf(rows[x]) == KeyOf(row);
  }

  lemma {:induction false} VariantMeanings(rows: Rows, variants: seq<Type>, ids: seq<Id>)
    requires |ids| == |variants| && forall i :: 0 <= i < |ids| ==> Stores(rows, ids[i], variants[i])
    ensures COr(multiset(Images(ids, MeaningOf(rows)))) == Canonical(OrType(variants))
  {
    var cs := seq(|variants|, i requires 0 <= i < |variants| => Canonical(variants[i]));
    forall i | 0 <= i < |ids| ensures Images(ids, MeaningOf(rows))[i] == cs[i] {
      assert Stores(rows, ids[i], variants[i]);
    }
    assert Images(ids, MeaningOf(rows)) == cs;
  }

  lemma {:induction false} OrPlaced(rows0: Rows, rows1: Rows, rows: Rows, variants: seq<Type>, ids: seq<Id>, id: Id)
    requires UniqueKeys(rows1) && Extends(rows0, rows1) && Extends(rows1, rows) && |ids| == |variants|
    requires forall i :: 0 <= i < |ids| ==> Stores(rows1, ids[i], variants[i])
    requires Known(rows0, OrType(variants)) ==> rows1 == rows0
    requires Loadable(rows, id) && KeyOf(rows[id]) == KOr(multiset(ids))
    requires (HasKey(rows1, KOr(multiset(ids))) ==> rows == rows1)
    ensures Upserted(rows0, rows, OrType(variants), id)
  {
    forall i | 0 <= i < |ids| ensures Stores(rows, ids[i], variants[i]) {
      StoresKept(rows1, rows, ids[i], variants[i]);
    }
    VariantMeanings(rows, variants, ids);
    OrMeaning(rows, id);
    ImagesFollow(ids, rows[id].variants, MeaningOf(rows));
    if Known(rows0, OrType(variants)) {
      var x :| Stores(rows0, x, OrType(variants));
      KnownOrKey(rows1, variants, ids, x);
    }
  }

  lemma {:induction false} KnownOrKey(rows: Rows, variants: seq<Type>, ids: seq<Id>, x: Id)
    requires UniqueKeys(rows) && |ids| == |variants| && Stores(rows, x, OrType(variants))
    requires forall i :: 0 <= i < |ids| ==> Stores(rows, ids[i], variants[i])
    ensures KeyOf(rows[x]) == KOr(multiset(ids))
  {
    var f, known := MeaningOf(rows), rows[x].variants;
    VariantMeanings(rows, variants, ids);
    OrMeaning(rows, x);
    forall i, j | 0 <= i < |ids| && 0 <= j < |known| && f(ids[i]) == f(known[j]) ensures ids[i] == known[j] {
      assert Stores(rows, ids[i], variants[i]) && known[j] in ChildIds(rows[x]);
      MeaningUnique(rows, ids[i], known[j]);
    }
    ImagesDetermine(ids, known, f);
  }

  lemma {:induction false} MapPlaced(rows0: Rows, rows1: Rows, rows: Rows, entries: map<string, Type>,
                                     ids: map<string, Id>, id: Id)
    requires UniqueKeys(rows1) && Extends(rows0, rows1) && Extends(rows1, rows) && FieldsStored(rows1, entries, ids)
    requires Known(rows0, MapType(entries)) ==> rows1 == rows0
    requires Loadable(rows, id) && KeyOf(rows[id]) == KMap(ids) && (HasKey(rows1, KMap(ids)) ==> rows == rows1)
    ensures Upserted(rows0, rows, MapType(entries), id)
  {
    FieldsKept(rows1, rows, entries, ids);
    FieldMeanings(rows, entries, ids, id);
    if Known(rows0, MapType(entries)) {
      var x :| Stores(rows0, x, MapType(entries));
      KnownMapKey(rows1, entries, ids, x);
    }
  }

  lemma {:induction false} FieldsKept(rows: Rows, rows': Rows, entries: map<string, Type>, ids: map<string, Id>)
    requires KeepsUnnamed(rows, rows') && FieldsStored(rows, entries, ids)
    ensures FieldsStored(rows', entries, ids)
  {
    forall k | k in ids ensures Stores(rows', ids[k], entries[k]) {
      StoresKept(rows, rows', ids[k], entries[k]);
    }
  }

  lemma {:induction false} FieldMeanings(rows: Rows, entries: map<string, Type>, ids: map<string, Id>, id: Id)
    requires Loadable(rows, id) && rows[id] == MapRow(ids) && FieldsStored(rows, entries, ids)
    ensures Stores(rows, id, MapType(entries))
  {
    MapMeaning(rows, id);
    var cs := Canonical(MapType(entries)).entries;
    forall k | k in cs ensures Meaning(rows, id).entries[k] == cs[k] {
      assert Stores(rows, ids[k], entries[k]);
    }
    assert Meaning(rows, id).entries == cs;
  }

  lemma {:induction false} KnownEntry(rows: Rows, entries: map<string, Type>, ids: map<string, Id>, x: Id, k: string)
    requires UniqueKeys(rows) && FieldsStored(rows, entries, ids) && Stores(rows, x, MapType(entries))
    requires rows[x].MapRow? && k in ids
    ensures k in rows[x].entries && rows[x].entries[k] == ids[k]
  {
    MapMeaning(rows, x);
    assert Stores(rows, ids[k], entries[k]);
    assert Meaning(rows, x).entries[k] == Canonical(entries[k]);
    MeaningUnique(rows, rows[x].entries[k], ids[k]);
  }

  lemma {:induction false} KnownKeys(rows: Rows, entries: map<string, Type>, x: Id)
    requires Stores(rows, x, MapType(entries))
    ensures rows[x].MapRow? && rows[x].entries.Keys == entries.Keys
  {
    assert rows[x].MapRow?;
    MapMeaning(rows, x);
  }

  lemma {:induction false} KnownMapKey(rows: Rows, entries: map<string, Type>, ids: map<string, Id>, x: Id)
    requires UniqueKeys(rows) && FieldsStored(rows, entries, ids) && Stores(rows, x, MapType(entries))
    ensures KeyOf(rows[x]) == KMap(ids)
  {
    KnownKeys(rows, entries, x);
    forall k | k in ids ensures rows[x].entries[k] == ids[k] {
      KnownEntry(rows, entries, ids, x, k);
    }
    assert rows[x].entries == ids;
  }

  /** Equal field types are stored under equal ids. */
  lemma {:induction false} SameFieldIds(rows: Rows, entries: map<string, Type>, ids: map<string, Id>,
                                        ids': map<string, Id>)
    requires UniqueKeys(rows) && FieldsStored(rows, entries, ids) && FieldsStored(rows, entries, ids')
    ensures ids == ids'
  {
    forall k | k in ids ensures ids'[k] == ids[k] {
      assert Stores(rows, ids[k], entries[k]) && Stores(rows, ids'[k], entries[k]);
      MeaningUnique(rows, ids[k], ids'[k]);
    }
  }

  lemma {:induction false} NamedFieldsFit(rows: Rows, next: Id, entries: map<string, Type>, ids: map<string, Id>)
    requires Kept(rows, next) && FieldsStored(rows, entries, ids)
    ensures forall c :: c in ids.Values ==> c < next && c in rows && !rows[c].NamedMapRow?
  {
    forall c | c in ids.Values ensures c < next && c in rows && !rows[c].NamedMapRow? {
      var k :| k in ids && ids[k] == c;
      assert Stores(rows, ids[k], entries[k]);
    }
  }

  /** The row of the name, new or with its fields replaced. */
  ghost predicate NamedWritten(rows1: Rows, rows: Rows, next1: Id, next: Id, id: Id, name: string,
                               ids: map<string, Id>) {
    && rows == rows1[id := NamedMapRow(name, ids)]
    && (if id in rows1 then KeyOf(rows1[id]) == KNamed(name) && next == next1
        else id == next1 && next == next1 + 1 && !HasKey(rows1, KNamed(name)))
  }

  lemma {:induction false} NamedKept(rows1: Rows, rows: Rows, next1: Id, next: Id, id: Id, name: string,
                                     ids: map<string, Id>)
    requires Kept(rows1, next1) && NamedWritten(rows1, rows, next1, next, id, name, ids)
    requires forall c :: c in ids.Values ==> c < next1 && c in rows1 && !rows1[c].NamedMapRow?
    ensures Kept(rows, next) && KeepsUnnamed(rows1, rows) && KeepsOtherNames(rows1, rows, name)
  {
    forall x, c | x in rows && c in ChildIds(rows[x]) ensures ChildFits(rows, next, x, c) {
      assert x != id ==> ChildFits(rows1, next1, x, c);
      assert id !in rows1 ==> c != id;
    }
    forall a, b | a in rows && b in rows && KeyOf(rows[a]) == KeyOf(rows[b]) ensures a == b {
      assert a in rows1 ==> KeyOf(rows1[a]) == KeyOf(rows[a]);
      assert b in rows1 ==> KeyOf(rows1[b]) == KeyOf(rows[b]);
    }
  }

  /** Registering the fields that a name already has changes nothing. */
  lemma {:induction false} NamedUnchanged(rows0: Rows, rows: Rows, next1: Id, next: Id, id: Id, name: string,
                                          entries: map<string, Type>, ids: map<string, Id>, x: Id)
    requires UniqueKeys(rows0) && NamedWritten(rows0, rows, next1, next, id, name, ids)
    requires FieldsStored(rows0, entries, ids)
    requires x in rows0 && rows0[x].NamedMapRow? && rows0[x].name == name
    requires FieldsStored(rows0, entries, rows0[x].entries)
    ensures rows == rows0
  {
    assert HasKey(rows0, KNamed(name)) by { assert KeyOf(rows0[x]) == KNamed(name); }
    assert id == x;
    SameFieldIds(rows0, entries, ids, rows0[x].entries);
  }

  ghost predicate HasFields(rows: Rows, x: Id, name: string, entries: map<string, Type>) {
    x in rows && rows[x].NamedMapRow? && rows[x].name == name && FieldsStored(rows, entries, rows[x].entries)
  }

  lemma {:induction false} NamedPlaced(rows0: Rows, rows1: Rows, rows: Rows, next1: Id, next: Id, id: Id, name: string,
                                       entries: map<string, Type>, ids: map<string, Id>)
    requires UniqueKeys(rows0) && Kept(rows1, next1) && Extends(rows0, rows1) && FieldsStored(rows1, entries, ids)
    requires (forall k :: k in entries ==> Known(rows0, entries[k])) ==> rows1 == rows0
    requires NamedWritten(rows1, rows, next1, next, id, name, ids)
    ensures Kept(rows, next) && KeepsUnnamed(rows0, rows) && KeepsOtherNames(rows0, rows, name)
    ensures HasFields(rows, id, name, entries)
    ensures forall x :: x in rows0 && KeyOf(rows0[x]) == KNamed(name) ==> id == x
    ensures (exists x :: HasFields(rows0, x, name, entries)) ==> rows == rows0
  {
    NamedFieldsFit(rows1, next1, entries, ids);
    NamedKept(rows1, rows, next1, next, id, name, ids);
    FieldsKept(rows1, rows, entries, ids);
    forall x | x in rows0 && KeyOf(rows0[x]) == KNamed(name) ensures id == x {
      assert x in rows1 && KeyOf(rows1[x]) == KNamed(name);
      assert HasKey(rows1, KNamed(name));
    }
    if x :| HasFields(rows0, x, name, entries) {
      forall k | k in entries ensures Known(rows0, entries[k]) {
        assert Stores(rows0, rows0[x].entries[k], entries[k]);
      }
      NamedUnchanged(rows0, rows, next1, next, id, name, entries, ids, x);
    }
  }

  // ---- Names -------------------------------------------------------------------------------

  ghost predicate LoadsTo(rows: Rows, id: Id,
                          t: Type) { LoadableAt(rows, id) && Canonical(LoadAt(rows, id)) == Canonical(t) }

  ghost predicate LoadsSame(rows: Rows, rows': Rows, id: Id) {
    LoadableAt(rows, id) && LoadableAt(rows', id) && LoadAt(rows', id) == LoadAt(rows, id)
  }

  lemma {:induction false} NamedEntries(rows: Rows, id: Id)
    requires LoadableAt(rows, id) && rows[id].NamedMapRow?
    ensures Canonical(LoadAt(rows, id)).CMap? && Canonical(LoadAt(rows, id)).entries.Keys == rows[id].entries.Keys
    ensures forall k :: k in rows[id].entries ==>
              Loadable(rows, rows[id].entries[k])
              && Canonical(LoadAt(rows, id)).entries[k] == Meaning(rows, rows[id].entries[k])
  {
    assert forall k :: k in rows[id].entries ==> rows[id].entries[k] in ChildIds(rows[id]);
  }

  lemma {:induction false} FieldsLoad(rows: Rows, id: Id, name: string, entries: map<string, Type>)
    requires HasFields(rows, id, name, entries)
    ensures LoadsTo(rows, id, MapType(entries))
  {
    var ids := rows[id].entries;
    forall c | c in ids.Values ensures Loadable(rows, c) {
      var k :| k in ids && ids[k] == c;
      assert Stores(rows, ids[k], entries[k]);
    }
    NamedEntries(rows, id);
    var cs, want := Canonical(LoadAt(rows, id)).entries, Canonical(MapType(entries)).entries;
    forall k | k in ids ensures cs[k] == want[k] {
      assert Stores(rows, ids[k], entries[k]);
    }
    assert cs == want;
  }

  lemma {:induction false} LoadedFields(rows: Rows, id: Id, name: string, entries: map<string, Type>)
    requires LoadsTo(rows, id, MapType(entries)) && rows[id].NamedMapRow? && rows[id].name == name
    ensures HasFields(rows, id, name, entries)
  {
    NamedEntries(rows, id);
    var ids, want := rows[id].entries, Canonical(MapType(entries)).entries;
    assert want.Keys == ids.Keys && want.Keys == entries.Keys;
    forall k | k in ids ensures Stores(rows, ids[k], entries[k]) {
      assert want[k] == Meaning(rows, ids[k]);
    }
  }

  lemma {:induction false} UnnamedLoads(rows: Rows, id: Id, t: Type)
    requires Stores(rows, id, t) && !t.MapType?
    ensures LoadsTo(rows, id, t) && !rows[id].MapRow? && !rows[id].NamedMapRow?
  {
  }

  /** A name loads to what it loaded to, as long as its named map was not rewritten. */
  lemma {:induction false} NameKept(rows: Rows, rows': Rows, named: map<string, Id>, n: string)
    requires n in named && NameLoads(rows, named, n) && KeepsUnnamed(rows, rows')
    requires rows[named[n]].NamedMapRow? ==> named[n] in rows' && rows'[named[n]] == rows[named[n]]
    ensures NameLoads(rows', named, n) && LoadsSame(rows, rows', named[n])
  {
    var id := named[n];
    if rows[id].NamedMapRow? {
      var ids := rows[id].entries;
      forall c | c in ids.Values ensures Loadable(rows', c) && Load(rows', c) == Load(rows, c) {
        LoadKept(rows, rows', c);
      }
      assert forall k :: k in ids ==> ids[k] in ids.Values;
      assert LoadAt(rows', id).entries == LoadAt(rows, id).entries;
    } else {
      LoadKept(rows, rows', id);
    }
  }

  // ---- Garbage ------------------------------------------------------------------------------

  /** The rows that an unnamed row is made of, itself included. */
  ghost function Parts(rows: Rows, id: Id): set<Id>
    requires Loadable(rows, id)
    decreases id
  {
    {id} + set c, x | c in ChildIds(rows[id]) && x in Parts(rows, c) :: x
  }

  ghost function PartsAt(rows: Rows, id: Id): set<Id>
    requires LoadableAt(rows, id)
  {
    {id} + set c, x | c in ChildIds(rows[id]) && x in Parts(rows, c) :: x
  }

  /** The rows that the registered names are made of. */
  ghost function Reached(rows: Rows, named: map<string, Id>): set<Id>
    requires NamesLoad(rows, named)
  {
    set n, x | n in named && x in PartsAt(rows, named[n]) :: x
  }

  function Restrict(rows: Rows, keep: set<Id>): Rows { map id | id in rows && id in keep :: rows[id] }

  /** A row loads from what is left exactly when all rows that it is made of are left. */
  lemma {:induction false} RestrictedLoads(rows: Rows, keep: set<Id>, id: Id)
    requires Loadable(rows, id)
    ensures Loadable(Restrict(rows, keep), id) <==> Parts(rows, id) <= keep
    ensures Parts(rows, id) <= keep ==> Load(Restrict(rows, keep), id) == Load(rows, id)
    decreases id
  {
    var rows' := Restrict(rows, keep);
    forall c | c in ChildIds(rows[id])
      ensures Loadable(rows', c) <==> Parts(rows, c) <= keep
      ensures Parts(rows, c) <= keep ==> Load(rows', c) == Load(rows, c)
    {
      RestrictedLoads(rows, keep, c);
    }
    if Parts(rows, id) <= keep {
      forall c | c in ChildIds(rows[id]) ensures Parts(rows, c) <= keep {
        assert forall x :: x in Parts(rows, c) ==> x in Parts(rows, id);
      }
      assert id in Parts(rows, id);
      SameChildrenLoad(rows, rows', id);
    }
    if Loadable(rows', id) {
      assert forall c :: c in ChildIds(rows[id]) ==> c in ChildIds(rows'[id]);
      assert forall c :: c in ChildIds(rows[id]) ==> Parts(rows, c) <= keep;
    }
  }

  lemma {:induction false} SameChildrenLoad(rows: Rows, rows': Rows, id: Id)
    requires Loadable(rows, id) && id in rows' && rows'[id] == rows[id]
    requires forall c :: c in ChildIds(rows[id]) ==> Loadable(rows', c) && Load(rows', c) == Load(rows, c)
    ensures Loadable(rows', id) && Load(rows', id) == Load(rows, id)
  {
    match rows[id]
    case OrRow(variants) =>
      assert forall i :: 0 <= i < |variants| ==> variants[i] in ChildIds(rows[id]);
      assert Load(rows', id).variants == Load(rows, id).variants;
    case MapRow(entries) =>
      assert forall k :: k in entries ==> entries[k] in ChildIds(rows[id]);
      assert Load(rows', id).entries == Load(rows, id).entries;
    case _ =>
  }

  /** Every registered name loads to what it loaded to. */
  lemma {:induction false} NamesSurvive(rows: Rows, named: map<string, Id>, keep: set<Id>)
    requires NamesLoad(rows, named) && Reached(rows, named) <= keep
    ensures NamesLoad(Restrict(rows, keep), named)
    ensures forall n :: n in named ==> LoadsSame(rows, Restrict(rows, keep), named[n])
  {
    forall n | n in named
      ensures NameLoads(Restrict(rows, keep), named, n) && LoadsSame(rows, Restrict(rows, keep), named[n])
    {
      NameSurvives(rows, named, keep, n);
    }
  }

  lemma {:induction false} NameSurvives(rows: Rows, named: map<string, Id>, keep: set<Id>, n: string)
    requires NamesLoad(rows, named) && Reached(rows, named) <= keep && n in named
    ensures NameLoads(Restrict(rows, keep), named, n) && LoadsSame(rows, Restrict(rows, keep), named[n])
  {
    var id, rows' := named[n], Restrict(rows, keep);
    assert NameLoads(rows, named, n);
    assert id in PartsAt(rows, id);
    forall c | c in ChildIds(rows[id])
      ensures Loadable(rows, c) && Loadable(rows', c) && Load(rows', c) == Load(rows, c)
    {
      assert forall x :: x in Parts(rows, c) ==> x in PartsAt(rows, id);
      RestrictedLoads(rows, keep, c);
    }
    if rows[id].NamedMapRow? {
      var ids := rows[id].entries;
      assert forall k :: k in ids ==> ids[k] in ChildIds(rows[id]);
      assert LoadAt(rows', id).entries == LoadAt(rows, id).entries;
    } else {
      SameChildrenLoad(rows, rows', id);
    }
  }

  lemma {:induction false} RestrictKept(rows: Rows, next: Id, keep: set<Id>)
    requires Kept(rows, next)
    ensures Kept(Restrict(rows, keep), next)
  {
    var rows' := Restrict(rows, keep);
    forall id, c | id in rows' && c in ChildIds(rows'[id]) ensures ChildFits(rows', next, id, c) {
      assert ChildFits(rows, next, id, c);
    }
  }

  /**
   * Collection keeps the row of a node's type and not the rows it is made of. So a type that only
   * nodes use still loads afterwards exactly when all of its parts are named or used as well. The
   * comment in the program says that what is left is always consistent.
   */
  lemma {:induction false} UsedTypeSurvives(rows: Rows, named: map<string, Id>, used: set<Id>, id: Id)
    requires NamesLoad(rows, named) && Loadable(rows, id) && id in used
    ensures Loadable(Restrict(rows, Reached(rows, named) + used), id)
       <==> Parts(rows, id) <= Reached(rows, named) + used
  {
    RestrictedLoads(rows, Reached(rows, named) + used, id);
  }

  /** A list of symbols that only a node uses: its row is left and its item type is gone. */
  lemma {:induction false} UsedListBreaks(rows: Rows)
    requires rows == map[0 := SymbolRow, 1 := ListRow(0)]
    ensures Kept(rows, 2) && NamesLoad(rows, map[]) && Loadable(rows, 1)
    ensures 1 in Restrict(rows, Reached(rows, map[]) + {1}) && !Loadable(Restrict(rows, Reached(rows, map[]) + {1}), 1)
  {
    assert Loadable(rows, 0);
    assert 0 in Parts(rows, 0);
    assert 0 in Parts(rows, 1);
    assert Reached(rows, map[]) == {};
    UsedTypeSurvives(rows, map[], {1}, 1);
  }

  // ---- The walk from the names ------------------------------------------------------------------

  lemma {:induction false} PartsInClosed(rows: Rows, s: set<Id>, id: Id)
    requires Loadable(rows, id) && id in s && forall x, c :: x in s && x in rows && c in ChildIds(rows[x]) ==> c in s
    ensures Parts(rows, id) <= s
    decreases id
  {
    forall c | c in ChildIds(rows[id]) ensures Parts(rows, c) <= s {
      PartsInClosed(rows, s, c);
    }
  }

  lemma {:induction false} PartsOfPart(rows: Rows, id: Id, x: Id, c: Id)
    requires Loadable(rows, id) && x in Parts(rows, id)
    ensures Loadable(rows, x) && (c in ChildIds(rows[x]) ==> c in Parts(rows, id))
    decreases id
  {
    if x == id {
      if c in ChildIds(rows[id]) { assert c in Parts(rows, c); }
    } else {
      var d :| d in ChildIds(rows[id]) && x in Parts(rows, d);
      PartsOfPart(rows, d, x, c);
    }
  }

  /** What is reached is in the store, and so are its children. */
  lemma {:induction false} ReachedChild(rows: Rows, named: map<string, Id>, x: Id, c: Id)
    requires NamesLoad(rows, named) && x in Reached(rows, named)
    ensures x in rows && (c in ChildIds(rows[x]) ==> c in Reached(rows, named))
  {
    var n :| n in named && x in PartsAt(rows, named[n]);
    var id := named[n];
    assert NameLoads(rows, named, n);
    if x == id {
      if c in ChildIds(rows[id]) { assert c in Parts(rows, c) && c in PartsAt(rows, id); }
    } else {
      var d :| d in ChildIds(rows[id]) && x in Parts(rows, d);
      PartsOfPart(rows, d, x, c);
      assert c in Parts(rows, d) ==> c in PartsAt(rows, id);
    }
  }

  lemma {:induction false} ReachedInClosed(rows: Rows, named: map<string, Id>, s: set<Id>)
    requires NamesLoad(rows, named) && (forall n :: n in named ==> named[n] in s)
    requires forall x, c :: x in s && x in rows && c in ChildIds(rows[x]) ==> c in s
    ensures Reached(rows, named) <= s
  {
    forall n | n in named ensures PartsAt(rows, named[n]) <= s {
      assert NameLoads(rows, named, n);
      forall c | c in ChildIds(rows[named[n]]) ensures Parts(rows, c) <= s {
        PartsInClosed(rows, s, c);
      }
    }
  }

  /** Some rows were reached, and what is reached from them is among them or in the queue. */
  ghost predicate WalkUnderway(all: set<Id>, rows: Rows, named: map<string, Id>, reachable: set<Id>, queue: set<Id>) {
    && reachable <= all && queue <= all
    && (forall n :: n in named ==> named[n] in reachable || named[n] in queue)
    && (forall x, c :: x in reachable && x in rows && c in ChildIds(rows[x]) ==> c in reachable || c in queue)
  }

  lemma {:induction false} WalkStep(all: set<Id>, rows: Rows, named: map<string, Id>, reachable: set<Id>,
                                    queue: set<Id>, x: Id)
    requires NamesLoad(rows, named) && all == Reached(rows, named)
    requires WalkUnderway(all, rows, named, reachable, queue) && x in queue
    ensures x in rows && x in all && WalkUnderway(all, rows, named, reachable + {x}, queue - {x} + ChildIds(rows[x]))
    ensures x in reachable ==> WalkUnderway(all, rows, named, reachable, queue - {x})
  {
    ReachedChild(rows, named, x, x);
    forall c | c in ChildIds(rows[x]) ensures c in all {
      ReachedChild(rows, named, x, c);
    }
  }

  lemma {:induction false} WalkStarts(rows: Rows, named: map<string, Id>)
    requires NamesLoad(rows, named)
    ensures WalkUnderway(Reached(rows, named), rows, named, {}, named.Values)
  {
    forall x | x in named.Values ensures x in Reached(rows, named) {
      NameReached(rows, named, x);
    }
  }

  lemma {:induction false} WalkEnds(all: set<Id>, rows: Rows, named: map<string, Id>, reachable: set<Id>,
                                    queue: set<Id>)
    requires WalkUnderway(all, rows, named, reachable, queue) && queue == {}
    ensures forall n :: n in named ==> named[n] in reachable
    ensures forall x, c :: x in reachable && x in rows && c in ChildIds(rows[x]) ==> c in reachable
  {
  }

  lemma {:induction false} NameReached(rows: Rows, named: map<string, Id>, x: Id)
    requires NamesLoad(rows, named) && x in named.Values
    ensures x in Reached(rows, named)
  {
    var n :| n in named && named[n] == x;
    assert NameLoads(rows, named, n);
    assert x in PartsAt(rows, x);
  }

  // ---- Registering -------------------------------------------------------------------------------

  ghost predicate Registered(rows0: Rows, rows: Rows, named: map<string, Id>, name: string, t: Type, id: Id) {
    && NamesLoad(rows, named[name := id])
    && LoadsTo(rows, id, t)
    && (forall n :: n in named && n != name ==> LoadsSame(rows0, rows, named[n]))
    && (name in named && LoadsTo(rows0, named[name], t) ==> rows == rows0 && id == named[name])
  }

  lemma {:induction false} OthersRegistered(rows0: Rows, rows: Rows, named: map<string, Id>, name: string, id: Id)
    requires NamesLoad(rows0, named) && KeepsUnnamed(rows0, rows) && KeepsOtherNames(rows0, rows, name)
    requires LoadableAt(rows, id) && !rows[id].MapRow? && (rows[id].NamedMapRow? ==> rows[id].name == name)
    ensures NamesLoad(rows, named[name := id])
    ensures forall n :: n in named && n != name ==> LoadsSame(rows0, rows, named[n])
  {
    var named' := named[name := id];
    forall n | n in named && n != name ensures NameLoads(rows, named, n) && LoadsSame(rows0, rows, named[n]) {
      assert NameLoads(rows0, named, n);
      NameKept(rows0, rows, named, n);
    }
    forall n | n in named' ensures NameLoads(rows, named', n) {
      assert n != name ==> NameLoads(rows, named, n);
    }
  }

  lemma {:induction false} OneRowAName(rows: Rows, a: Id, b: Id, name: string)
    requires UniqueKeys(rows) && a in rows && b in rows
    requires rows[a].NamedMapRow? && rows[a].name == name && rows[b].NamedMapRow? && rows[b].name == name
    ensures a == b
  {
    assert KeyOf(rows[a]) == KeyOf(rows[b]);
  }

  lemma {:induction false} MapRegistered(rows0: Rows, rows: Rows, named: map<string, Id>, name: string, t: Type, id: Id)
    requires NamesLoad(rows0, named) && t.MapType? && UniqueKeys(rows)
    requires KeepsUnnamed(rows0, rows) && KeepsOtherNames(rows0, rows, name) && HasFields(rows, id, name, t.entries)
    requires (exists x :: HasFields(rows0, x, name, t.entries)) ==> rows == rows0
    ensures Registered(rows0, rows, named, name, t, id)
  {
    FieldsLoad(rows, id, name, t.entries);
    OthersRegistered(rows0, rows, named, name, id);
    if name in named && LoadsTo(rows0, named[name], t) {
      MapAgain(rows0, named, name, t);
      OneRowAName(rows, id, named[name], name);
    }
  }

  lemma {:induction false} MapAgain(rows: Rows, named: map<string, Id>, name: string, t: Type)
    requires NamesLoad(rows, named) && t.MapType? && name in named && LoadsTo(rows, named[name], t)
    ensures HasFields(rows, named[name], name, t.entries)
  {
    assert NameLoads(rows, named, name);
    assert Canonical(LoadAt(rows, named[name])).CMap?;
    LoadedFields(rows, named[name], name, t.entries);
  }

  lemma {:induction false} TypeRegistered(rows0: Rows, rows: Rows, named: map<string, Id>, name: string, t: Type,
                                          id: Id)
    requires NamesLoad(rows0, named) && !t.MapType? && UniqueKeys(rows) && Upserted(rows0, rows, t, id)
    ensures Registered(rows0, rows, named, name, t, id)
  {
    UnnamedLoads(rows, id, t);
    OthersRegistered(rows0, rows, named, name, id);
    if name in named && LoadsTo(rows0, named[name], t) {
      assert NameLoads(rows0, named, name);
      assert !Canonical(LoadAt(rows0, named[name])).CMap?;
      assert Stores(rows0, named[name], t);
      MeaningUnique(rows, id, named[name]);
    }
  }

  // ---- Ids and types -----------------------------------------------------------------------------

  /**
   * Two upserts, with other upserts between them, give the same id exactly when the types are
   * equal up to the order of variants.
   */
  lemma {:induction false} SameIdSameType(rows1: Rows, rows: Rows, t: Type, id: Id, t': Type, id': Id)
    requires UniqueKeys(rows) && KeepsUnnamed(rows1, rows) && Stores(rows1, id, t) && Stores(rows, id', t')
    ensures id == id' <==> Canonical(t) == Canonical(t')
  {
    StoresKept(rows1, rows, id, t);
    MeaningUnique(rows, id, id');
  }
}
