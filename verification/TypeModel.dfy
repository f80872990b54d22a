/**
 * Type rows, their content keys, and what a row loads to
 * (packages/core/src/db.ts, packages/core/src/schema.ts).
 *
 * A content key is a structured value here; the program prints it to a string. The key of a
 * row is a function of the row: the children of a row change only for named maps, whose key
 * is the name.
 */
module TypeModel {
  import opened Common

  type Id = nat

  datatype Type =
    | SymbolType
    | MeaningType
    | RefType(name: string)
    | ListType(item: Type)
    | OptionalType(inner: Type)
    | OrType(variants: seq<Type>)
    | MapType(entries: map<string, Type>)

  datatype Row =
    | SymbolRow
    | MeaningRow
    | RefRow(name: string)
    | ListRow(item: Id)
    | OptionalRow(inner: Id)
    | OrRow(variants: seq<Id>)
    | MapRow(entries: map<string, Id>)
    | NamedMapRow(name: string, entries: map<string, Id>)

  datatype ContentKey =
    | KSymbol
    | KMeaning
    | KRef(name: string)
    | KList(item: Id)
    | KOptional(inner: Id)
    | KOr(variants: multiset<Id>)
    | KMap(entries: map<string, Id>)
    | KNamed(name: string)

  type Rows = map<Id, Row>

  function KeyOf(r: Row): ContentKey {
    match r
    case SymbolRow => KSymbol
    case MeaningRow => KMeaning
    case RefRow(name) => KRef(name)
    case ListRow(item) => KList(item)
    case OptionalRow(inner) => KOptional(inner)
    case OrRow(variants) => KOr(multiset(variants))
    case MapRow(entries) => KMap(entries)
    case NamedMapRow(name, _) => KNamed(name)
  }

  function ChildIds(r: Row): set<Id> {
    match r
    case ListRow(item) => {item}
    case OptionalRow(inner) => {inner}
    case OrRow(variants) => set c | c in variants
    case MapRow(entries) => entries.Values
    case NamedMapRow(_, entries) => entries.Values
    case _ => {}
  }

  // ---- Types up to the order of variants ---------------------------------------------------

  datatype Canon =
    | CSymbol
    | CMeaning
    | CRef(name: string)
    | CList(item: Canon)
    | COptional(inner: Canon)
    | COr(variants: multiset<Canon>)
    | CMap(entries: map<string, Canon>)

  function Canonical(t: Type): Canon
    decreases t
  {
    match t
    case SymbolType => CSymbol
    case MeaningType => CMeaning
    case RefType(name) => CRef(name)
    case ListType(item) => CList(Canonical(item))
    case OptionalType(inner) => COptional(Canonical(inner))
    case OrType(variants) => COr(multiset(seq(|variants|, i requires 0 <= i < |variants| => Canonical(variants[i]))))
    case MapType(entries) => CMap(map k | k in entries :: Canonical(entries[k]))
  }

  // ---- Loading ---------------------------------------------------------------------------------

  /** An unnamed row all of whose children are there, down to the leaves. */
  ghost predicate Loadable(rows: Rows, id: Id)
    decreases id
  {
    id in rows && !rows[id].NamedMapRow? && forall c :: c in ChildIds(rows[id]) ==> c < id && Loadable(rows, c)
  }

  /** loadTypeShallow of an unnamed row. */
  ghost function Load(rows: Rows, id: Id): Type
    requires Loadable(rows, id)
    decreases id
  {
    match rows[id]
    case SymbolRow => SymbolType
    case MeaningRow => MeaningType
    case RefRow(name) => RefType(name)
    case ListRow(item) => ListType(Load(rows, item))
    case OptionalRow(inner) => OptionalType(Load(rows, inner))
    case OrRow(variants) => OrType(seq(|variants|, i requires 0 <= i < |variants| => Load(rows, variants[i])))
    case MapRow(entries) => MapType(map k | k in entries :: Load(rows, entries[k]))
  }

  /** The canonical form of what an unnamed row loads to. */
  ghost function Meaning(rows: Rows, id: Id): (c: Canon)
    requires Loadable(rows, id)
    ensures c == Canonical(Load(rows, id))
    decreases id
  {
    match rows[id]
    case SymbolRow => CSymbol
    case MeaningRow => CMeaning
    case RefRow(name) => CRef(name)
    case ListRow(item) => CList(Meaning(rows, item))
    case OptionalRow(inner) => COptional(Meaning(rows, inner))
    case OrRow(variants) =>
      var cs := seq(|variants|, i requires 0 <= i < |variants| => Meaning(rows, variants[i]));
      var ts := seq(|variants|, i requires 0 <= i < |variants| => Load(rows, variants[i]));
      assert cs == seq(|ts|, i requires 0 <= i < |ts| => Canonical(ts[i]));
      COr(multiset(cs))
    case MapRow(entries) =>
      var cs := map k | k in entries :: Meaning(rows, entries[k]);
      var ts := map k | k in entries :: Load(rows, entries[k]);
      assert cs == map k | k in ts :: Canonical(ts[k]);
      CMap(cs)
  }

  /** A row as it is loaded by name: a named map over loadable fields, or an unnamed row. */
  ghost predicate LoadableAt(rows: Rows, id: Id) {
    if id in rows && rows[id].NamedMapRow?
    then forall c :: c in ChildIds(rows[id]) ==> Loadable(rows, c)
    else Loadable(rows, id)
  }

  ghost function LoadAt(rows: Rows, id: Id): Type
    requires LoadableAt(rows, id)
  {
    if rows[id].NamedMapRow?
    then MapType(map k | k in rows[id].entries :: Load(rows, rows[id].entries[k]))
    else Load(rows, id)
  }

  // ---- What the store keeps ----------------------------------------------------------------------

  /** One row a content key: the unique index. */
  ghost predicate UniqueKeys(rows: Rows) {
    forall a, b :: a in rows && b in rows && KeyOf(rows[a]) == KeyOf(rows[b]) ==> a == b
  }

  ghost predicate ChildFits(rows: Rows, next: Id, id: Id, c: Id)
    requires id in rows
  {
    c < next && (c in rows ==> !rows[c].NamedMapRow?) && (rows[id].NamedMapRow? || c < id)
  }

  /** Children are older than their parents, and nothing refers to a named map but by name. */
  ghost predicate Layered(rows: Rows, next: Id) {
    && (forall id :: id in rows ==> id < next)
    && (forall id, c :: id in rows && c in ChildIds(rows[id]) ==> ChildFits(rows, next, id, c))
  }

  ghost predicate Kept(rows: Rows, next: Id) { UniqueKeys(rows) && Layered(rows, next) }

  predicate Grows(rows: Rows, rows': Rows) { forall id :: id in rows ==> id in rows' && rows'[id] == rows[id] }

  /** Unnamed rows that are there stay as they were. */
  predicate KeepsUnnamed(rows: Rows, rows': Rows) {
    forall id :: id in rows && !rows[id].NamedMapRow? ==> id in rows' && rows'[id] == rows[id]
  }

  lemma {:induction false} LoadKept(rows: Rows, rows': Rows, id: Id)
    requires KeepsUnnamed(rows, rows') && Loadable(rows, id)
    ensures Loadable(rows', id) && Load(rows', id) == Load(rows, id)
    decreases id
  {
    forall c | c in ChildIds(rows[id]) ensures Loadable(rows', c) && Load(rows', c) == Load(rows, c) {
      LoadKept(rows, rows', c);
    }
    match rows[id]
    case OrRow(variants) =>
      assert forall i :: 0 <= i < |variants| ==> variants[i] in ChildIds(rows[id]);
      assert Load(rows', id).variants == Load(rows, id).variants;
    case MapRow(entries) =>
      assert forall k :: k in entries ==> entries[k] in ChildIds(rows[id]);
      assert Load(rows', id).entries == Load(rows, id).entries;
    case _ =>
  }

  // ---- Hash-consing ---------------------------------------------------------------------------------

  lemma {:induction false} MultisetSplit<T>(s: seq<T>, i: nat)
    requires i < |s|
    ensures multiset(s) == multiset{s[i]} + multiset(s[..i] + s[i + 1..])
  {
    assert s == s[..i] + [s[i]] + s[i + 1..];
  }

  lemma {:induction false} CancelOne<T>(x: T, a: multiset<T>, b: multiset<T>)
    requires multiset{x} + a == multiset{x} + b
    ensures a == b
  {
    assert a == (multiset{x} + a) - multiset{x};
    assert b == (multiset{x} + b) - multiset{x};
  }

  /** The images of the elements. */
  function Images<T, U>(s: seq<T>, f: T -> U): seq<U> { seq(|s|, i requires 0 <= i < |s| => f(s[i])) }

  lemma {:induction false} ImagesWithout<T, U>(s: seq<T>, f: T -> U, i: nat)
    requires i < |s|
    ensures multiset(Images(s, f)) == multiset{f(s[i])} + multiset(Images(s[..i] + s[i + 1..], f))
  {
    var fs := Images(s, f);
    MultisetSplit(fs, i);
    assert fs[..i] + fs[i + 1..] == Images(s[..i] + s[i + 1..], f);
  }

  /** Equal multisets of images come from equal multisets, where the function is one-to-one. */
  lemma {:induction false} ImagesDetermine<T, U>(s: seq<T>, s': seq<T>, f: T -> U)
    requires multiset(Images(s, f)) == multiset(Images(s', f))
    requires forall i, j :: 0 <= i < |s| && 0 <= j < |s'| && f(s[i]) == f(s'[j]) ==> s[i] == s'[j]
    ensures multiset(s) == multiset(s')
    decreases |s|
  {
    if s == [] {
      assert |multiset(Images(s', f))| == 0;
    } else {
      assert Images(s, f)[0] == f(s[0]);
      assert f(s[0]) in multiset(Images(s', f));
      var j :| 0 <= j < |s'| && Images(s', f)[j] == f(s[0]);
      var rest, rest' := s[..0] + s[1..], s'[..j] + s'[j + 1..];
      ImagesWithout(s, f, 0);
      ImagesWithout(s', f, j);
      assert forall k :: 0 <= k < |rest| ==> rest[k] == s[k + 1];
      assert forall k :: 0 <= k < |rest'| ==> rest'[k] == if k < j then s'[k] else s'[k + 1];
      CancelOne(f(s[0]), multiset(Images(rest, f)), multiset(Images(rest', f)));
      ImagesDetermine(rest, rest', f);
      MultisetSplit(s, 0);
      MultisetSplit(s', j);
    }
  }

  /** Equal multisets have equal multisets of images. */
  lemma {:induction false} ImagesFollow<T, U>(s: seq<T>, s': seq<T>, f: T -> U)
    requires multiset(s) == multiset(s')
    ensures multiset(Images(s, f)) == multiset(Images(s', f))
    decreases |s|
  {
    if s == [] {
      assert |multiset(s')| == 0;
    } else {
      assert s[0] in multiset(s');
      var j :| 0 <= j < |s'| && s'[j] == s[0];
      MultisetSplit(s, 0);
      MultisetSplit(s', j);
      ImagesWithout(s, f, 0);
      ImagesWithout(s', f, j);
      CancelOne(s[0], multiset(s[..0] + s[1..]), multiset(s'[..j] + s'[j + 1..]));
      ImagesFollow(s[..0] + s[1..], s'[..j] + s'[j + 1..], f);
    }
  }

  ghost function MeaningOf(rows: Rows): Id -> Canon {
    (id: Id) => if Loadable(rows, id) then Meaning(rows, id) else CSymbol
  }

  lemma {:induction false} OrMeaning(rows: Rows, id: Id)
    requires Loadable(rows, id) && rows[id].OrRow?
    ensures Meaning(rows, id) == COr(multiset(Images(rows[id].variants, MeaningOf(rows))))
  {
    var variants := rows[id].variants;
    assert forall i :: 0 <= i < |variants| ==> variants[i] in ChildIds(rows[id]);
    assert Images(variants, MeaningOf(rows))
             == seq(|variants|, i requires 0 <= i < |variants| => Meaning(rows, variants[i]));
  }

  lemma {:induction false} MapMeaning(rows: Rows, id: Id)
    requires Loadable(rows, id) && rows[id].MapRow?
    ensures Meaning(rows, id).CMap? && Meaning(rows, id).entries.Keys == rows[id].entries.Keys
    ensures forall k :: k in rows[id].entries ==>
              Loadable(rows, rows[id].entries[k]) && Meaning(rows, id).entries[k] == Meaning(rows, rows[id].entries[k])
  {
    assert forall k :: k in rows[id].entries ==> rows[id].entries[k] in ChildIds(rows[id]);
  }

  lemma {:induction false} SameVariants(rows: Rows, a: Id, b: Id)
    requires Loadable(rows, a) && Loadable(rows, b) && rows[a].OrRow? && rows[b].OrRow?
    requires Meaning(rows, a) == Meaning(rows, b)
    requires forall x, y :: x in ChildIds(rows[a]) && y in ChildIds(rows[b]) && Meaning(rows, x) == Meaning(rows, y) ==>
               x == y
    ensures multiset(rows[a].variants) == multiset(rows[b].variants)
  {
    var f, variants, variants' := MeaningOf(rows), rows[a].variants, rows[b].variants;
    OrMeaning(rows, a);
    OrMeaning(rows, b);
    forall i, j | 0 <= i < |variants| && 0 <= j < |variants'| && f(variants[i]) == f(variants'[j])
      ensures variants[i] == variants'[j]
    {
      assert variants[i] in ChildIds(rows[a]) && variants'[j] in ChildIds(rows[b]);
    }
    ImagesDetermine(variants, variants', f);
  }

  lemma {:induction false} EntriesDetermine(m: map<string, Id>, m': map<string, Id>, f: Id -> Canon)
    requires m.Keys == m'.Keys && forall k :: k in m ==> f(m[k]) == f(m'[k])
    requires forall k :: k in m && f(m[k]) == f(m'[k]) ==> m[k] == m'[k]
    ensures m == m'
  {
    assert forall k :: k in m ==> k in m' && m'[k] == m[k];
  }

  lemma {:induction false} SameEntries(rows: Rows, a: Id, b: Id)
    requires Loadable(rows, a) && Loadable(rows, b) && rows[a].MapRow? && rows[b].MapRow?
    requires Meaning(rows, a) == Meaning(rows, b)
    requires forall x, y :: x in ChildIds(rows[a]) && y in ChildIds(rows[b]) && Meaning(rows, x) == Meaning(rows, y) ==>
               x == y
    ensures rows[a].entries == rows[b].entries
  {
    var f, m, m' := MeaningOf(rows), rows[a].entries, rows[b].entries;
    MapMeaning(rows, a);
    MapMeaning(rows, b);
    assert m.Keys == m'.Keys;
    forall k | k in m ensures f(m[k]) == f(m'[k]) && m[k] == m'[k] {
      SameEntry(rows, a, b, k);
    }
    EntriesDetermine(m, m', f);
  }

  lemma {:induction false} SameEntry(rows: Rows, a: Id, b: Id, k: string)
    requires Loadable(rows, a) && Loadable(rows, b) && rows[a].MapRow? && rows[b].MapRow?
    requires Meaning(rows, a) == Meaning(rows, b)
    requires forall x, y :: x in ChildIds(rows[a]) && y in ChildIds(rows[b]) && Meaning(rows, x) == Meaning(rows, y) ==>
               x == y
    requires k in rows[a].entries && k in rows[b].entries
    ensures rows[a].entries[k] == rows[b].entries[k] && Loadable(rows, rows[a].entries[k])
  {
    var x, y := rows[a].entries[k], rows[b].entries[k];
    assert x in ChildIds(rows[a]) && y in ChildIds(rows[b]);
    MapMeaning(rows, a);
    MapMeaning(rows, b);
    assert Meaning(rows, x) == Meaning(rows, a).entries[k];
    assert Meaning(rows, y) == Meaning(rows, b).entries[k];
  }

  /** Hash-consing: two unnamed rows that load to the same type, up to the order of variants, are one row. */
  lemma {:induction false} MeaningUnique(rows: Rows, a: Id, b: Id)
    requires UniqueKeys(rows) && Loadable(rows, a) && Loadable(rows, b)
    ensures Meaning(rows, a) == Meaning(rows, b) <==> a == b
    decreases a
  {
    if Meaning(rows, a) == Meaning(rows, b) {
      forall x, y | x in ChildIds(rows[a]) && y in ChildIds(rows[b]) && Meaning(rows, x) == Meaning(rows, y)
        ensures x == y
      {
        MeaningUnique(rows, x, y);
      }
      if rows[a].OrRow? {
        SameVariants(rows, a, b);
      } else if rows[a].MapRow? {
        SameEntries(rows, a, b);
      }
    }
  }

  /** The type is in the store, up to the order of variants. */
  ghost predicate Known(rows: Rows, t: Type) { exists x :: Stores(rows, x, t) }

  ghost predicate Stores(rows: Rows, x: Id, t: Type) { Loadable(rows, x) && Meaning(rows, x) == Canonical(t) }

  lemma {:induction false} StoresKept(rows: Rows, rows': Rows, x: Id, t: Type)
    requires KeepsUnnamed(rows, rows') && Stores(rows, x, t)
    ensures Stores(rows', x, t)
  {
    LoadKept(rows, rows', x);
  }

  /** The parts of a known type are known, and a row over the parts has the key of the known row. */
  lemma {:induction false} KnownItem(rows: Rows, t: Type, part: Type)
    requires Known(rows, t) && (t == ListType(part) || t == OptionalType(part))
    ensures Known(rows, part)
  {
    var x :| Stores(rows, x, t);
    assert Stores(rows, if t.ListType? then rows[x].item else rows[x].inner, part);
  }

  lemma {:induction false} KnownVariant(rows: Rows, t: Type, i: nat)
    requires Known(rows, t) && t.OrType? && i < |t.variants|
    ensures Known(rows, t.variants[i])
  {
    var x :| Stores(rows, x, t);
    OrMeaning(rows, x);
    var cs := seq(|t.variants|, j requires 0 <= j < |t.variants| => Canonical(t.variants[j]));
    assert cs[i] in multiset(cs);
    var fs := Images(rows[x].variants, MeaningOf(rows));
    assert Canonical(t.variants[i]) in multiset(fs);
    var j :| 0 <= j < |fs| && fs[j] == Canonical(t.variants[i]);
    assert rows[x].variants[j] in ChildIds(rows[x]);
    assert Stores(rows, rows[x].variants[j], t.variants[i]);
  }

  lemma {:induction false} KnownField(rows: Rows, t: Type, k: string)
    requires Known(rows, t) && t.MapType? && k in t.entries
    ensures Known(rows, t.entries[k])
  {
    var x :| Stores(rows, x, t);
    MapMeaning(rows, x);
    assert Meaning(rows, x).entries[k] == Canonical(t.entries[k]);
    assert Stores(rows, rows[x].entries[k], t.entries[k]);
  }
}
