/**
 * The query executor: early exits and in-place deletion against the meaning of a
 * query (packages/core/src/query.ts, packages/core/src/db.ts).
 */
module QueryExecutor {
  import opened Common
  import opened QuerySyntax

  type Id = string

  /**
   * The lookups of the database. A regular expression that does not compile and an embedding
   * that fails are errors. `entries` and `items` hold (map, key, value) and (list, item).
   */
  datatype Db = Db(
    symbol: string -> seq<Id>,
    regex: string -> Option<seq<Id>>,
    meaning: string -> Option<seq<Id>>,
    byId: string -> seq<Id>,
    byTime: (TimeField, TimeOp, int) -> seq<Id>,
    named: seq<(Id, string)>,
    entries: seq<(Id, string, Id)>,
    items: seq<(Id, Id)>,
    live: set<Id>)

  function ByNamedType(rows: seq<(Id, string)>, live: set<Id>, names: seq<string>): (r: seq<Id>)
    ensures forall x :: x in r <==> x in live && exists n :: n in names && (x, n) in rows
  {
    if rows == [] then []
    else
      var more := ByNamedType(rows[1..], live, names);
      assert forall row :: row in rows <==> row == rows[0] || row in rows[1..];
      if rows[0].1 in names && rows[0].0 in live then [rows[0].0] + more else more
  }

  function MapsByField(rows: seq<(Id, string, Id)>, live: set<Id>, key: string, values: seq<Id>): (r: seq<Id>)
    ensures forall x :: x in r <==> x in live && exists v :: v in values && (x, key, v) in rows
  {
    if rows == [] then []
    else
      var more := MapsByField(rows[1..], live, key, values);
      assert forall row :: row in rows <==> row == rows[0] || row in rows[1..];
      if rows[0].1 == key && rows[0].2 in values && rows[0].0 in live then [rows[0].0] + more else more
  }

  function ListsByItem(rows: seq<(Id, Id)>, live: set<Id>, values: seq<Id>): (r: seq<Id>)
    ensures forall x :: x in r <==> x in live && exists v :: v in values && (x, v) in rows
  {
    if rows == [] then []
    else
      var more := ListsByItem(rows[1..], live, values);
      assert forall row :: row in rows <==> row == rows[0] || row in rows[1..];
      if rows[0].1 in values && rows[0].0 in live then [rows[0].0] + more else more
  }

  // ---- What a query means ----------------------------------------------------------------

  ghost predicate Matches(db: Db, c: Clause, x: Id)
    decreases c
  {
    match c
    case Symbol(v) => x in db.symbol(v)
    case Regex(p) => db.regex(p).Some? && x in db.regex(p).value
    case Meaning(t) => db.meaning(t).Some? && x in db.meaning(t).value
    case IdQuery(id) => x in db.byId(id)
    case TypeQuery(types) => x in db.live && exists n :: n in types && (x, n) in db.named
    case MapQuery(fields) => fields != [] && forall f :: f in fields ==> HasField(db, f, x)
    case ListQuery(item) => x in db.live && exists v :: MatchesAll(db, item, v) && (x, v) in db.items
    case TimeQuery(f, op, ms) => x in db.byTime(f, op, ms)
    case Group(inner) => Matches(db, inner, x)
  }

  ghost predicate HasField(db: Db, f: Field, x: Id)
    decreases f
  {
    x in db.live && exists v :: MatchesAll(db, f.query, v) && (x, f.key, v) in db.entries
  }

  ghost predicate MatchesAll(db: Db, q: Query, x: Id)
    decreases q, 0
  {
    q != [] && forall c :: c in q ==> Matches(db, c, x)
  }

  /** No lookup of the clause fails. */
  ghost predicate Defined(db: Db, c: Clause)
    decreases c
  {
    match c
    case Regex(p) => db.regex(p).Some?
    case Meaning(t) => db.meaning(t).Some?
    case MapQuery(fields) => forall f :: f in fields ==> AllDefined(db, f.query)
    case ListQuery(item) => AllDefined(db, item)
    case Group(inner) => Defined(db, inner)
    case _ => true
  }

  ghost predicate AllDefined(db: Db, q: Query)
    decreases q, 0
  {
    forall c :: c in q ==> Defined(db, c)
  }

  // ---- The executor --------------------------------------------------------------------------

  predicate NoRepeats(s: seq<Id>) { forall i, j :: 0 <= i < j < |s| ==> s[i] != s[j] }

  /** `new Set(ids)`, in insertion order. */
  method NewSet(ids: seq<Id>) returns (s: seq<Id>)
    ensures NoRepeats(s) && forall x :: x in s <==> x in ids
  {
    s := [];
    for i := 0 to |ids|
      invariant NoRepeats(s) && forall x :: x in s <==> x in ids[..i]
    {
      if ids[i] !in s { s := s + [ids[i]]; }
    }
    assert ids[..|ids|] == ids;
  }

  /** Delete from the set, while looping over it, what is not in the other set. */
  method DeleteMissing(s: seq<Id>, keep: seq<Id>) returns (r: seq<Id>)
    requires NoRepeats(s)
    ensures NoRepeats(r) && forall x :: x in r <==> x in s && x in keep
  {
    r := s;
    var i := 0;
    ghost var seen := 0;
    while i < |r|
      invariant i <= |r| && i <= seen && seen - i == |s| - |r| && r[i..] == s[seen..]
      invariant NoRepeats(r) && forall x :: x in r[..i] <==> x in s[..seen] && x in keep
      decreases |r| - i
    {
      assert r[i] == s[seen] && s[seen..][1..] == s[seen + 1..] && r[i..][1..] == r[i + 1..];
      if r[i] !in keep {
        ghost var r0 := r;
        r := r[..i] + r[i + 1..];
        assert r[i..] == r0[i + 1..] && r[..i] == r0[..i];
      } else {
        assert r[..i + 1] == r[..i] + [r[i]];
        i := i + 1;
      }
      assert s[..seen + 1] == s[..seen] + [s[seen]];
      seen := seen + 1;
    }
    assert r[..i] == r && s[..seen] == s;
  }

  method ExecuteQuery(q: Query, db: Db) returns (r: Result<seq<Id>>)
    ensures r.Ok? ==> NoRepeats(r.value) && forall x :: x in r.value <==> MatchesAll(db, q, x)
    ensures r.Err? ==> !AllDefined(db, q)
    decreases q, 0
  {
    if |q| == 0 { return Ok([]); }
    var result: Option<seq<Id>> := None;
    for i := 0 to |q|
      invariant i == 0 <==> result.None?
      invariant result.Some? ==> NoRepeats(result.value)
      invariant result.Some? ==>
                  forall x :: x in result.value <==> forall j :: 0 <= j < i ==> Matches(db, q[j], x)
    {
      var ids :- ExecuteClause(q[i], db);
      var found := NewSet(ids);
      if result.None? {
        result := Some(found);
      } else {
        var both := DeleteMissing(result.value, found);
        result := Some(both);
      }
      if |result.value| == 0 { return Ok([]); }
    }
    return Ok(result.value);
  }

  method ExecuteClause(c: Clause, db: Db) returns (r: Result<seq<Id>>)
    ensures r.Ok? ==> forall x :: x in r.value <==> Matches(db, c, x)
    ensures r.Err? ==> !Defined(db, c)
    decreases c
  {
    match c
    case Symbol(v) => return Ok(db.symbol(v));
    case Regex(p) => return if db.regex(p).Some? then Ok(db.regex(p).value) else Err("Invalid regular expression");
    case Meaning(t) => return if db.meaning(t).Some? then Ok(db.meaning(t).value) else Err("Embedding failed");
    case IdQuery(id) => return Ok(db.byId(id));
    case TypeQuery(types) => return Ok(ByNamedType(db.named, db.live, types));
    case MapQuery(fields) => r := ExecuteMapQuery(fields, db);
    case ListQuery(item) =>
      var ids :- ExecuteQuery(item, db);
      return Ok(ListsByItem(db.items, db.live, ids));
    case TimeQuery(f, op, ms) => return Ok(db.byTime(f, op, ms));
    case Group(inner) => r := ExecuteClause(inner, db);
  }

  method ExecuteMapQuery(fields: seq<Field>, db: Db) returns (r: Result<seq<Id>>)
    ensures r.Ok? ==> forall x :: x in r.value <==> Matches(db, MapQuery(fields), x)
    ensures r.Err? ==> !Defined(db, MapQuery(fields))
    decreases fields, 0
  {
    var candidates: Option<seq<Id>> := None;
    for i := 0 to |fields|
      invariant i == 0 <==> candidates.None?
      invariant candidates.Some? ==>
                  NoRepeats(candidates.value) && forall x :: x in candidates.value <==> forall j :: 0 <= j < i ==>
                      HasField(db, fields[j], x)
    {
      var valueIds :- ExecuteQuery(fields[i].query, db);
      var maps := NewSet(MapsByField(db.entries, db.live, fields[i].key, valueIds));
      assert forall x :: x in maps <==> HasField(db, fields[i], x);
      if candidates.None? {
        candidates := Some(maps);
      } else {
        var both := DeleteMissing(candidates.value, maps);
        candidates := Some(both);
      }
      if |candidates.value| == 0 { return Ok([]); }
    }
    return if candidates.Some? then Ok(candidates.value) else Ok([]);
  }

  // ---- What does not change the meaning -----------------------------------------------------------

  /** A query up to the order and repetition of clauses, fields and types, and without groups. */
  datatype Plain =
    | PlainLeaf(c: Clause)
    | PlainTypes(types: set<string>)
    | PlainMap(fields: set<PlainField>)
    | PlainList(item: set<Plain>)

  datatype PlainField = PlainField(key: string, query: set<Plain>)

  function Simplify(c: Clause): Plain
    decreases c
  {
    match c
    case TypeQuery(types) => PlainTypes(set n | n in types)
    case MapQuery(fields) => PlainMap(set f | f in fields :: SimplifyField(f))
    case ListQuery(item) => PlainList(SimplifyAll(item))
    case Group(inner) => Simplify(inner)
    case _ => PlainLeaf(c)
  }

  function SimplifyField(f: Field): PlainField
    decreases f
  {
    PlainField(f.key, SimplifyAll(f.query))
  }

  function SimplifyAll(q: Query): set<Plain>
    decreases q, 0
  {
    set c | c in q :: Simplify(c)
  }

  ghost predicate MatchesPlain(db: Db, p: Plain, x: Id)
    decreases p
  {
    match p
    case PlainLeaf(c) => Matches(db, c, x)
    case PlainTypes(types) => x in db.live && exists n :: n in types && (x, n) in db.named
    case PlainMap(fields) => fields != {} && forall f :: f in fields ==> HasPlainField(db, f, x)
    case PlainList(item) =>
      x in db.live && exists v :: item != {} && (forall c :: c in item ==> MatchesPlain(db, c, v)) && (x, v) in db.items
  }

  ghost predicate HasPlainField(db: Db, f: PlainField, x: Id)
    decreases f
  {
    && x in db.live
    && exists v ::
         f.query != {} && (forall c :: c in f.query ==> MatchesPlain(db, c, v)) && (x, f.key, v) in db.entries
  }

  ghost predicate MatchesPlainAll(db: Db, q: set<Plain>,
                                  x: Id) { q != {} && forall p :: p in q ==> MatchesPlain(db, p, x) }

  lemma {:induction false} PlainMeansSame(db: Db, c: Clause, x: Id)
    ensures MatchesPlain(db, Simplify(c), x) <==> Matches(db, c, x)
    decreases c
  {
    match c
    case MapQuery(fields) =>
      forall f | f in fields ensures HasPlainField(db, SimplifyField(f), x) <==> HasField(db, f, x) {
        PlainFieldMeansSame(db, f, x);
      }
      PlainMapMeansSame(db, fields, x);
    case ListQuery(item) =>
      forall v ensures MatchesPlainAll(db, SimplifyAll(item), v) <==> MatchesAll(db, item, v) {
        PlainAllMeansSame(db, item, v);
      }
      PlainListMeansSame(db, item, x);
    case Group(inner) => PlainMeansSame(db, inner, x);
    case _ =>
  }

  lemma {:induction false} PlainMapMeansSame(db: Db, fields: seq<Field>, x: Id)
    requires forall f :: f in fields ==> (HasPlainField(db, SimplifyField(f), x) <==> HasField(db, f, x))
    ensures MatchesPlain(db, Simplify(MapQuery(fields)), x) <==> Matches(db, MapQuery(fields), x)
  {
    var plain := Simplify(MapQuery(fields)).fields;
    forall f | f in fields ensures SimplifyField(f) in plain {
    }
    assert fields != [] ==> SimplifyField(fields[0]) in plain;
    assert plain != {} ==> fields != [];
    if forall f :: f in fields ==> HasField(db, f, x) {
      forall p | p in plain ensures HasPlainField(db, p, x) {
        var f :| f in fields && SimplifyField(f) == p;
      }
    }
  }

  lemma {:induction false} PlainListMeansSame(db: Db, item: Query, x: Id)
    requires forall v :: MatchesPlainAll(db, SimplifyAll(item), v) <==> MatchesAll(db, item, v)
    ensures MatchesPlain(db, Simplify(ListQuery(item)), x) <==> Matches(db, ListQuery(item), x)
  {
    var plain := SimplifyAll(item);
    if Matches(db, ListQuery(item), x) {
      var v :| MatchesAll(db, item, v) && (x, v) in db.items;
      assert MatchesPlainAll(db, plain, v);
    }
    if MatchesPlain(db, PlainList(plain), x) {
      var v :| plain != {} && (forall c :: c in plain ==> MatchesPlain(db, c, v)) && (x, v) in db.items;
      assert MatchesPlainAll(db, plain, v);
    }
  }

  lemma {:induction false} PlainFieldMeansSame(db: Db, f: Field, x: Id)
    ensures HasPlainField(db, SimplifyField(f), x) <==> HasField(db, f, x)
    decreases f
  {
    forall v ensures MatchesPlainAll(db, SimplifyAll(f.query), v) <==> MatchesAll(db, f.query, v) {
      PlainAllMeansSame(db, f.query, v);
    }
    if HasField(db, f, x) {
      var v :| MatchesAll(db, f.query, v) && (x, f.key, v) in db.entries;
      assert MatchesPlainAll(db, SimplifyAll(f.query), v);
    }
  }

  lemma {:induction false} PlainAllMeansSame(db: Db, q: Query, x: Id)
    ensures MatchesPlainAll(db, SimplifyAll(q), x) <==> MatchesAll(db, q, x)
    decreases q, 0
  {
    forall c | c in q ensures MatchesPlain(db, Simplify(c), x) <==> Matches(db, c, x) {
      PlainMeansSame(db, c, x);
    }
    if q != [] { assert Simplify(q[0]) in SimplifyAll(q); }
  }

  /** Queries that are equal up to order, repetition and groups, at every level, match the same nodes. */
  lemma {:induction false} SameMeaning(db: Db, q: Query, q': Query, x: Id)
    requires SimplifyAll(q) == SimplifyAll(q')
    ensures MatchesAll(db, q, x) <==> MatchesAll(db, q', x)
  {
    PlainAllMeansSame(db, q, x);
    PlainAllMeansSame(db, q', x);
  }

  lemma {:induction false} ReorderedIsSame(db: Db, q: Query, q': Query, x: Id)
    requires multiset(q) == multiset(q')
    ensures MatchesAll(db, q, x) <==> MatchesAll(db, q', x)
  {
    assert forall c :: c in q <==> c in multiset(q);
    assert forall c :: c in q' <==> c in multiset(q');
    SameMeaning(db, q, q', x);
  }

  // ---- Groups ---------------------------------------------------------------------------------------

  function Ungroup(c: Clause): Clause
    decreases c
  {
    match c
    case Group(inner) => Ungroup(inner)
    case MapQuery(fields) => MapQuery(seq(|fields|, i requires 0 <= i < |fields| => UngroupField(fields[i])))
    case ListQuery(item) => ListQuery(UngroupAll(item))
    case _ => c
  }

  function UngroupField(f: Field): Field
    decreases f
  {
    Field(f.key, UngroupAll(f.query))
  }

  function UngroupAll(q: Query): Query
    decreases q, 0
  {
    seq(|q|, i requires 0 <= i < |q| => Ungroup(q[i]))
  }

  lemma {:induction false} UngroupSimplifies(c: Clause)
    ensures Simplify(Ungroup(c)) == Simplify(c)
    decreases c
  {
    match c
    case Group(inner) => UngroupSimplifies(inner);
    case MapQuery(fields) =>
      var fields' := Ungroup(c).fields;
      forall i | 0 <= i < |fields| ensures SimplifyField(fields'[i]) == SimplifyField(fields[i]) {
        assert fields'[i] == UngroupField(fields[i]);
        UngroupAllSimplifies(fields[i].query);
      }
      SameImages(fields, fields', SimplifyField);
    case ListQuery(item) => UngroupAllSimplifies(item);
    case _ =>
  }

  lemma {:induction false} SameImages<T, U>(s: seq<T>, s': seq<T>, f: T -> U)
    requires |s| == |s'| && forall i :: 0 <= i < |s| ==> f(s'[i]) == f(s[i])
    ensures (set x | x in s' :: f(x)) == (set x | x in s :: f(x))
  {
    var a, b := set x | x in s :: f(x), set x | x in s' :: f(x);
    forall y | y in b ensures y in a {
      var i :| 0 <= i < |s'| && f(s'[i]) == y;
      assert s[i] in s;
    }
    forall y | y in a ensures y in b {
      var i :| 0 <= i < |s| && f(s[i]) == y;
      assert s'[i] in s';
    }
  }

  lemma {:induction false} UngroupAllSimplifies(q: Query)
    ensures SimplifyAll(UngroupAll(q)) == SimplifyAll(q)
    decreases q, 0
  {
    forall i | 0 <= i < |q| ensures Simplify(UngroupAll(q)[i]) == Simplify(q[i]) {
      UngroupSimplifies(q[i]);
    }
    SameImages(q, UngroupAll(q), Simplify);
  }

  /** Groups change nothing. */
  lemma {:induction false} GroupsChangeNothing(db: Db, q: Query, x: Id)
    ensures MatchesAll(db, UngroupAll(q), x) <==> MatchesAll(db, q, x)
  {
    UngroupAllSimplifies(q);
    SameMeaning(db, UngroupAll(q), q, x);
  }
}
