/**
 * A canonical text for queries, and what the parser makes of it
 * (packages/core/src/query.ts, indexer/src/plans/planExtract.ts).
 *
 * The repository prints only single string literals; the printer here is the
 * specification of what the parser inverts. Sub-queries are parenthesised.
 */
module QueryRoundTrip {
  import opened Common
  import opened QuerySyntax
  import opened QueryGrammar

  function TimeKeyword(f: TimeField, op: TimeOp): Keyword {
    match f
    case CreatedAt => if op.Before? then KCreatedBefore else KCreatedAfter
    case UpdatedAt => if op.Before? then KUpdatedBefore else KUpdatedAfter
  }

  function TypeTokens(types: seq<string>): seq<Token> {
    if types == [] then [] else [Comma, Kw(KIsType), Str(types[0])] + TypeTokens(types[1..])
  }

  function FieldTokens(fields: seq<Field>): seq<Token>
    decreases fields
  {
    if fields == [] then []
    else [Comma, Kw(KField)] + SpecTokens(fields[0]) + FieldTokens(fields[1..])
  }

  function SpecTokens(f: Field): seq<Token>
    decreases f
  {
    [Str(f.key), LParen] + QueryTokens(f.query) + [RParen]
  }

  function ClauseTokens(c: Clause): seq<Token>
    decreases c
  {
    match c
    case Symbol(v) => [Kw(KSymbol), Str(v)]
    case Regex(v) => [Kw(KRegex), Str(v)]
    case Meaning(v) => [Kw(KMeaning), Str(v)]
    case IdQuery(v) => [Kw(KId), Str(v)]
    case TypeQuery(types) => if types == [] then [] else [Kw(KIsType), Str(types[0])] + TypeTokens(types[1..])
    case MapQuery(fields) =>
      if fields == [] then [] else [Kw(KField)] + SpecTokens(fields[0]) + FieldTokens(fields[1..])
    case ListQuery(item) => [Kw(KHasItem), LParen] + QueryTokens(item) + [RParen]
    case TimeQuery(f, op, ms) => [Kw(TimeKeyword(f, op)), Str(if ms >= 0 then Digits(ms) else "")]
    case Group(inner) => [LParen] + ClauseTokens(inner) + [RParen]
  }

  /** Each clause with a comma before it. */
  function MoreTokens(q: Query): seq<Token>
    decreases q
  {
    if q == [] then [] else [Comma] + ClauseTokens(q[0]) + MoreTokens(q[1..])
  }

  function QueryTokens(q: Query): seq<Token>
    decreases q, 0
  {
    if q == [] then [] else ClauseTokens(q[0]) + MoreTokens(q[1..])
  }

  // ---- Which queries the text can say --------------------------------------------------------

  /** Printed next to each other, the two would be read as one. */
  predicate Merges(a: Clause, b: Clause) { (a.TypeQuery? && b.TypeQuery?) || (a.MapQuery? && b.MapQuery?) }

  predicate Separated(q: Query) { forall i, j :: 0 <= i && j == i + 1 < |q| ==> !Merges(q[i], q[j]) }

  predicate ShapedClause(c: Clause)
    decreases c
  {
    match c
    case TypeQuery(types) => types != []
    case MapQuery(fields) => fields != [] && forall f :: f in fields ==> Shaped(f.query)
    case ListQuery(item) => Shaped(item)
    case Group(inner) => ShapedClause(inner)
    case _ => true
  }

  predicate Shaped(q: Query)
    decreases q, 0
  {
    q != [] && Separated(q) && forall c :: c in q ==> ShapedClause(c)
  }

  /** Times that a double holds exactly. */
  predicate TimelyClause(c: Clause)
    decreases c
  {
    match c
    case TimeQuery(_, _, ms) => 0 <= ms < EXACT
    case MapQuery(fields) => forall f :: f in fields ==> Timely(f.query)
    case ListQuery(item) => Timely(item)
    case Group(inner) => TimelyClause(inner)
    case _ => true
  }

  predicate Timely(q: Query)
    decreases q, 0
  {
    forall c :: c in q ==> TimelyClause(c)
  }

  // ---- The parser reads the text back ----------------------------------------------------------

  lemma {:induction false} Regroup(x: seq<Token>, y: seq<Token>, z: seq<Token>)
    ensures (x + y) + z == x + (y + z)
  {
  }

  predicate StartsWithComma(ts: seq<Token>) { ts != [] && ts[0] == Comma }

  /** The clause does not go on into what follows it. */
  predicate Stops(c: Clause, rest: seq<Token>) {
    (c.TypeQuery? ==> !Continues(rest, KIsType)) && (c.MapQuery? ==> !Continues(rest, KField))
  }

  lemma {:induction false} TypesStep(clock: TimeReader, done: seq<string>, name: string, ts: seq<Token>,
                                     more: seq<Token>)
    requires ts == [Comma, Kw(KIsType), Str(name)] + more
    ensures ParseTypes(clock, done, ts) == ParseTypes(clock, done + [name], more)
  {
    assert ts[2..] == [Str(name)] + more;
    assert ([Str(name)] + more)[1..] == more;
  }

  lemma {:induction false} OneMore<T>(done: seq<T>, items: seq<T>)
    requires items != []
    ensures (done + [items[0]]) + items[1..] == done + items
  {
  }

  /** The printed types are read, and then what follows them. */
  lemma {:induction false} TypesOver(clock: TimeReader, done: seq<string>, types: seq<string>, rest: seq<Token>)
    ensures ParseTypes(clock, done, TypeTokens(types) + rest) == ParseTypes(clock, done + types, rest)
    decreases types
  {
    if types == [] {
      assert TypeTokens(types) + rest == rest && done + types == done;
    } else {
      var more := TypeTokens(types[1..]) + rest;
      assert TypeTokens(types) + rest == [Comma, Kw(KIsType), Str(types[0])] + more;
      TypesStep(clock, done, types[0], TypeTokens(types) + rest, more);
      TypesOver(clock, done + [types[0]], types[1..], rest);
      OneMore(done, types);
    }
  }

  lemma {:induction false} SpecBack(clock: TimeReader, f: Field, rest: seq<Token>)
    requires Shaped(f.query) && Timely(f.query)
    ensures ParseFieldSpec(clock, SpecTokens(f) + rest) == Ok((f, rest))
    decreases f
  {
    var ts := SpecTokens(f) + rest;
    var sub := [LParen] + QueryTokens(f.query) + [RParen] + rest;
    assert ts[0] == Str(f.key) && ts[1..] == sub;
    SubBack(clock, f.query, rest);
  }

  lemma {:induction false} FieldsStep(clock: TimeReader, done: seq<Field>, f: Field, ts: seq<Token>, spec: seq<Token>,
                                      more: seq<Token>)
    requires ts == [Comma, Kw(KField)] + spec && ParseFieldSpec(clock, spec) == Ok((f, more))
    ensures ParseFields(clock, done, ts) == ParseFields(clock, done + [f], more)
  {
    assert ts[2..] == spec;
  }

  lemma {:induction false} FieldsSplit(fields: seq<Field>, rest: seq<Token>)
    requires fields != []
    ensures FieldTokens(fields) + rest
              == [Comma, Kw(KField)] + (SpecTokens(fields[0]) + (FieldTokens(fields[1..]) + rest))
  {
    Regroup([Comma, Kw(KField)] + SpecTokens(fields[0]), FieldTokens(fields[1..]), rest);
    Regroup([Comma, Kw(KField)], SpecTokens(fields[0]), FieldTokens(fields[1..]) + rest);
  }

  lemma {:induction false} FieldsOver(clock: TimeReader, done: seq<Field>, fields: seq<Field>, rest: seq<Token>)
    requires forall f :: f in fields ==> Shaped(f.query) && Timely(f.query)
    ensures ParseFields(clock, done, FieldTokens(fields) + rest) == ParseFields(clock, done + fields, rest)
    decreases fields
  {
    if fields == [] {
      assert FieldTokens(fields) + rest == rest && done + fields == done;
    } else {
      var more := FieldTokens(fields[1..]) + rest;
      FieldsSplit(fields, rest);
      SpecBack(clock, fields[0], more);
      FieldsStep(clock, done, fields[0], FieldTokens(fields) + rest, SpecTokens(fields[0]) + more, more);
      FieldsOver(clock, done + [fields[0]], fields[1..], rest);
      OneMore(done, fields);
    }
  }

  lemma {:induction false} SubBack(clock: TimeReader, q: Query, rest: seq<Token>)
    requires Shaped(q) && Timely(q)
    ensures ParseSubQuery(clock, [LParen] + QueryTokens(q) + [RParen] + rest) == Ok((q, rest))
    decreases q, 1
  {
    var ts := [LParen] + QueryTokens(q) + [RParen] + rest;
    var closing := [RParen] + rest;
    assert ts[1..] == QueryTokens(q) + closing;
    QueryBack(clock, q, closing);
    assert closing[1..] == rest;
  }

  lemma {:induction false} QueryBack(clock: TimeReader, q: Query, rest: seq<Token>)
    requires Shaped(q) && Timely(q) && !StartsWithComma(rest)
    ensures ParseQuery(clock, QueryTokens(q) + rest) == Ok((q, rest))
    decreases q, 0
  {
    var more := MoreTokens(q[1..]) + rest;
    assert QueryTokens(q) + rest == ClauseTokens(q[0]) + more;
    NextStops(q, rest);
    SayableRest(q);
    ClauseBack(clock, q[0], more);
    MoreBack(clock, [q[0]], q[1..], rest);
    assert [q[0]] + q[1..] == q;
  }

  lemma {:induction false} MoreStep(clock: TimeReader, done: Query, c: Clause, ts: seq<Token>, spec: seq<Token>,
                                    more: seq<Token>)
    requires ts == [Comma] + spec && ParseClause(clock, spec) == Ok((c, more))
    ensures ParseMore(clock, done, ts) == ParseMore(clock, done + [c], more)
  {
    assert ts[1..] == spec;
  }

  lemma {:induction false} MoreSplit(q: Query, rest: seq<Token>)
    requires q != []
    ensures MoreTokens(q) + rest == [Comma] + (ClauseTokens(q[0]) + (MoreTokens(q[1..]) + rest))
  {
    Regroup([Comma] + ClauseTokens(q[0]), MoreTokens(q[1..]), rest);
    Regroup([Comma], ClauseTokens(q[0]), MoreTokens(q[1..]) + rest);
  }

  predicate Sayable(q: Query) { Separated(q) && (forall c :: c in q ==> ShapedClause(c)) && Timely(q) }

  lemma {:induction false} SayableRest(q: Query)
    requires q != [] && Sayable(q)
    ensures ShapedClause(q[0]) && TimelyClause(q[0]) && Sayable(q[1..])
  {
    assert forall i, j :: 0 <= i && j == i + 1 < |q[1..]| ==>
             q[1..][i] == q[i + 1] && q[1..][j] == q[j + 1] && !Merges(q[i + 1], q[j + 1]);
  }

  lemma {:induction false} MoreBack(clock: TimeReader, done: Query, q: Query, rest: seq<Token>)
    requires Sayable(q) && !StartsWithComma(rest)
    ensures ParseMore(clock, done, MoreTokens(q) + rest) == Ok((done + q, rest))
    decreases q
  {
    if q == [] {
      assert MoreTokens(q) + rest == rest && done + q == done;
    } else {
      SayableRest(q);
      NextStops(q, rest);
      ClauseBack(clock, q[0], MoreTokens(q[1..]) + rest);
      MoreSplit(q, rest);
      MoreStep(clock, done, q[0], MoreTokens(q) + rest, ClauseTokens(q[0]) + (MoreTokens(q[1..]) + rest),
               MoreTokens(q[1..]) + rest);
      MoreBack(clock, done + [q[0]], q[1..], rest);
      OneMore(done, q);
    }
  }

  lemma {:induction false} FirstToken(c: Clause)
    requires ShapedClause(c)
    ensures ClauseTokens(c) != [] && (ClauseTokens(c)[0] == Kw(KIsType) <==> c.TypeQuery?)
    ensures (ClauseTokens(c)[0] == Kw(KField) <==> c.MapQuery?)
  {
  }

  lemma {:induction false} NextStops(q: Query, rest: seq<Token>)
    requires q != [] && Separated(q) && (forall c :: c in q ==> ShapedClause(c)) && !StartsWithComma(rest)
    ensures Stops(q[0], MoreTokens(q[1..]) + rest)
  {
    if |q| > 1 {
      FirstToken(q[1]);
      assert MoreTokens(q[1..])[1] == ClauseTokens(q[1])[0];
      assert !Merges(q[0], q[1]);
    } else {
      assert MoreTokens(q[1..]) + rest == rest;
    }
  }

  lemma {:induction false} ClauseBack(clock: TimeReader, c: Clause, rest: seq<Token>)
    requires ShapedClause(c) && TimelyClause(c) && Stops(c, rest)
    ensures ParseClause(clock, ClauseTokens(c) + rest) == Ok((c, rest))
    decreases c
  {
    match c
    case TypeQuery(types) => TypeBack(clock, types, rest);
    case MapQuery(fields) =>
      var more := FieldTokens(fields[1..]) + rest;
      SpecBack(clock, fields[0], more);
      FieldsOver(clock, [fields[0]], fields[1..], rest);
      MapBack(clock, fields, rest);
    case ListQuery(item) =>
      SubBack(clock, item, rest);
      ListBack(clock, item, rest);
    case Group(inner) =>
      ClauseBack(clock, inner, [RParen] + rest);
      GroupBack(clock, inner, rest);
    case TimeQuery(f, op, ms) => TimeBack(clock, f, op, ms, rest);
    case _ => LeafBack(clock, c, rest);
  }

  /** A keyword and a string: what the parser makes of them before it looks further. */
  lemma {:induction false} ArgumentStep(clock: TimeReader, k: Keyword, v: string, ts: seq<Token>, more: seq<Token>)
    requires ts == [Kw(k), Str(v)] + more && !k.KHasItem? && !k.KField?
    ensures k.KIsType? ==> ParseClause(clock, ts) == ParseTypes(clock, [v], more)
    ensures k.KSymbol? ==> ParseClause(clock, ts) == Ok((Symbol(v), more))
    ensures k.KRegex? ==> ParseClause(clock, ts) == Ok((Regex(v), more))
    ensures k.KMeaning? ==> ParseClause(clock, ts) == Ok((Meaning(v), more))
    ensures k.KId? ==> ParseClause(clock, ts) == Ok((IdQuery(v), more))
    ensures IsTime(k) && ReadTime(clock, v).Ok? ==>
              ParseClause(clock, ts) == Ok((TimeQuery(TimeSpec(k).0, TimeSpec(k).1, ReadTime(clock, v).value), more))
  {
    assert ts[1..] == [Str(v)] + more;
    assert ([Str(v)] + more)[1..] == more;
  }

  lemma {:induction false} TypeBack(clock: TimeReader, types: seq<string>, rest: seq<Token>)
    requires types != [] && !Continues(rest, KIsType)
    ensures ParseClause(clock, ClauseTokens(TypeQuery(types)) + rest) == Ok((TypeQuery(types), rest))
  {
    var more := TypeTokens(types[1..]) + rest;
    assert ClauseTokens(TypeQuery(types)) + rest == [Kw(KIsType), Str(types[0])] + more;
    ArgumentStep(clock, KIsType, types[0], ClauseTokens(TypeQuery(types)) + rest, more);
    TypesOver(clock, [types[0]], types[1..], rest);
    assert [types[0]] + types[1..] == types;
  }

  lemma {:induction false} MapStep(clock: TimeReader, f: Field, ts: seq<Token>, spec: seq<Token>, more: seq<Token>)
    requires ts == [Kw(KField)] + spec && ParseFieldSpec(clock, spec) == Ok((f, more))
    ensures ParseClause(clock, ts) == ParseFields(clock, [f], more)
  {
    assert ts[1..] == spec;
  }

  lemma {:induction false} MapBack(clock: TimeReader, fields: seq<Field>, rest: seq<Token>)
    requires fields != []
    requires ParseFieldSpec(clock, SpecTokens(fields[0]) + (FieldTokens(fields[1..]) + rest))
               == Ok((fields[0], FieldTokens(fields[1..]) + rest))
    requires ParseFields(clock, [fields[0]], FieldTokens(fields[1..]) + rest)
               == ParseFields(clock, [fields[0]] + fields[1..], rest)
    requires !Continues(rest, KField)
    ensures ParseClause(clock, ClauseTokens(MapQuery(fields)) + rest) == Ok((MapQuery(fields), rest))
  {
    var more := FieldTokens(fields[1..]) + rest;
    assert ClauseTokens(MapQuery(fields)) + rest == [Kw(KField)] + (SpecTokens(fields[0]) + more);
    MapStep(clock, fields[0], ClauseTokens(MapQuery(fields)) + rest, SpecTokens(fields[0]) + more, more);
    assert [fields[0]] + fields[1..] == fields;
  }

  lemma {:induction false} ListBack(clock: TimeReader, item: Query, rest: seq<Token>)
    requires ParseSubQuery(clock, [LParen] + QueryTokens(item) + [RParen] + rest) == Ok((item, rest))
    ensures ParseClause(clock, ClauseTokens(ListQuery(item)) + rest) == Ok((ListQuery(item), rest))
  {
    var ts := ClauseTokens(ListQuery(item)) + rest;
    assert ts[0] == Kw(KHasItem) && ts[1..] == [LParen] + QueryTokens(item) + [RParen] + rest;
  }

  lemma {:induction false} GroupBack(clock: TimeReader, inner: Clause, rest: seq<Token>)
    requires ParseClause(clock, ClauseTokens(inner) + ([RParen] + rest)) == Ok((inner, [RParen] + rest))
    ensures ParseClause(clock, ClauseTokens(Group(inner)) + rest) == Ok((Group(inner), rest))
  {
    var ts := ClauseTokens(Group(inner)) + rest;
    assert ts[0] == LParen && ts[1..] == ClauseTokens(inner) + ([RParen] + rest);
    assert ([RParen] + rest)[1..] == rest;
  }

  lemma {:induction false} TimeBack(clock: TimeReader, f: TimeField, op: TimeOp, ms: int, rest: seq<Token>)
    requires 0 <= ms < EXACT
    ensures ParseClause(clock, ClauseTokens(TimeQuery(f, op, ms)) + rest) == Ok((TimeQuery(f, op, ms), rest))
  {
    DigitsReadBack(clock, ms);
    var k := TimeKeyword(f, op);
    ArgumentStep(clock, k, Digits(ms), ClauseTokens(TimeQuery(f, op, ms)) + rest, rest);
    assert TimeSpec(k) == (f, op);
  }

  lemma {:induction false} LeafBack(clock: TimeReader, c: Clause, rest: seq<Token>)
    requires c.Symbol? || c.Regex? || c.Meaning? || c.IdQuery?
    ensures ParseClause(clock, ClauseTokens(c) + rest) == Ok((c, rest))
  {
    var k, v := ClauseTokens(c)[0].kw, ClauseTokens(c)[1].value;
    ArgumentStep(clock, k, v, ClauseTokens(c) + rest, rest);
  }

  // ---- Whatever the parser returns can be said ---------------------------------------------------

  lemma {:induction false} TypesShaped(clock: TimeReader, types: seq<string>, ts: seq<Token>)
    requires ParseTypes(clock, types, ts).Ok? && types != []
    ensures var p := ParseTypes(clock, types, ts).value; ShapedClause(p.0) && p.0.TypeQuery? && Stops(p.0, p.1)
    decreases |ts|
  {
    if Continues(ts, KIsType) {
      var arg := ExpectStr(ts[2..]).value;
      TypesShaped(clock, types + [arg.0], arg.1);
    }
  }

  lemma {:induction false} SpecShaped(clock: TimeReader, ts: seq<Token>)
    requires ParseFieldSpec(clock, ts).Ok?
    ensures Shaped(ParseFieldSpec(clock, ts).value.0.query)
    decreases |ts|, 3
  {
    SubShaped(clock, ExpectStr(ts).value.1);
  }

  lemma {:induction false} FieldsShaped(clock: TimeReader, fields: seq<Field>, ts: seq<Token>)
    requires ParseFields(clock, fields, ts).Ok? && fields != [] && forall f :: f in fields ==> Shaped(f.query)
    ensures var p := ParseFields(clock, fields, ts).value; ShapedClause(p.0) && p.0.MapQuery? && Stops(p.0, p.1)
    decreases |ts|, 0
  {
    if Continues(ts, KField) {
      SpecShaped(clock, ts[2..]);
      var field := ParseFieldSpec(clock, ts[2..]).value;
      FieldsShaped(clock, fields + [field.0], field.1);
    }
  }

  lemma {:induction false} SubShaped(clock: TimeReader, ts: seq<Token>)
    requires ParseSubQuery(clock, ts).Ok?
    ensures Shaped(ParseSubQuery(clock, ts).value.0)
    decreases |ts|, 2
  {
    if ts != [] && ts[0] == LParen {
      ParsedIsShaped(clock, ts[1..]);
    } else {
      ClauseShaped(clock, ts);
    }
  }

  lemma {:induction false} ClauseShaped(clock: TimeReader, ts: seq<Token>)
    requires ParseClause(clock, ts).Ok?
    ensures var p := ParseClause(clock, ts).value; ShapedClause(p.0) && Stops(p.0, p.1)
    ensures ParseClause(clock, ts).value.0.TypeQuery? <==> ts[0] == Kw(KIsType)
    ensures ParseClause(clock, ts).value.0.MapQuery? <==> ts[0] == Kw(KField)
    decreases |ts|, 0
  {
    if ts[0] == LParen {
      ClauseShaped(clock, ts[1..]);
    } else if ts[0].kw.KHasItem? {
      SubShaped(clock, ts[1..]);
    } else if ts[0].kw.KField? {
      SpecShaped(clock, ts[1..]);
      var field := ParseFieldSpec(clock, ts[1..]).value;
      FieldsShaped(clock, [field.0], field.1);
    } else if ts[0].kw.KIsType? {
      var arg := ExpectStr(ts[1..]).value;
      TypesShaped(clock, [arg.0], arg.1);
    }
  }

  lemma {:induction false} MoreShaped(clock: TimeReader, clauses: Query, ts: seq<Token>)
    requires ParseMore(clock, clauses, ts).Ok? && Shaped(clauses) && Stops(clauses[|clauses| - 1], ts)
    ensures Shaped(ParseMore(clock, clauses, ts).value.0)
    decreases |ts|, 0
  {
    if StartsWithComma(ts) {
      var c := ParseClause(clock, ts[1..]).value;
      ClauseShaped(clock, ts[1..]);
      assert ts[1] == ts[1..][0];
      assert !Merges(clauses[|clauses| - 1], c.0);
      MoreShaped(clock, clauses + [c.0], c.1);
    }
  }

  lemma {:induction false} ParsedIsShaped(clock: TimeReader, ts: seq<Token>)
    requires ParseQuery(clock, ts).Ok?
    ensures Shaped(ParseQuery(clock, ts).value.0)
    decreases |ts|, 1
  {
    var c := ParseClause(clock, ts).value;
    ClauseShaped(clock, ts);
    MoreShaped(clock, [c.0], c.1);
  }

  // ---- Round trips -------------------------------------------------------------------------------------

  /**
   * The parser inverts the printer exactly on the queries without two adjacent type queries or
   * map queries at one level. Two adjacent ones are read as one, which turns "and" into "or" for types.
   */
  lemma {:induction false} RoundTrip(clock: TimeReader, q: Query)
    requires Timely(q)
    ensures Parse(clock, Text(QueryTokens(q))) == Ok(q) <==> Shaped(q)
  {
    LexText(QueryTokens(q));
    if Shaped(q) {
      QueryBack(clock, q, []);
      assert QueryTokens(q) + [] == QueryTokens(q);
    }
    if Parse(clock, Text(QueryTokens(q))) == Ok(q) {
      ParsedIsShaped(clock, QueryTokens(q));
    }
  }

  lemma {:induction false} TypeTokensJoin(a: seq<string>, b: seq<string>)
    ensures TypeTokens(a + b) == TypeTokens(a) + TypeTokens(b)
    decreases a
  {
    if a == [] {
      assert a + b == b;
    } else {
      assert (a + b)[1..] == a[1..] + b;
      TypeTokensJoin(a[1..], b);
    }
  }

  lemma {:induction false} PairTokens(c: Clause, d: Clause)
    ensures QueryTokens([c, d]) == ClauseTokens(c) + ([Comma] + ClauseTokens(d))
  {
    assert [c, d][1..] == [d] && [d][1..] == [];
    assert MoreTokens([]) == [];
    assert [Comma] + ClauseTokens(d) + [] == [Comma] + ClauseTokens(d);
  }

  lemma {:induction false} TypePairTokens(a: seq<string>, b: seq<string>)
    requires a != [] && b != []
    ensures ClauseTokens(TypeQuery(a)) + ([Comma] + ClauseTokens(TypeQuery(b))) == ClauseTokens(TypeQuery(a + b))
  {
    var head := [Kw(KIsType), Str(a[0])];
    TypeTokensJoin(a[1..], b);
    assert (a + b)[1..] == a[1..] + b;
    Regroup([Comma], [Kw(KIsType), Str(b[0])], TypeTokens(b[1..]));
    assert [Comma] + [Kw(KIsType), Str(b[0])] == [Comma, Kw(KIsType), Str(b[0])];
    assert [Comma] + ClauseTokens(TypeQuery(b)) == TypeTokens(b);
    Regroup(head, TypeTokens(a[1..]), TypeTokens(b));
  }

  /** "One of `a`, and one of `b`" is read as "one of `a` or `b`". */
  lemma {:induction false} AdjacentTypesMerge(clock: TimeReader, a: seq<string>, b: seq<string>)
    requires a != [] && b != []
    ensures Parse(clock, Text(QueryTokens([TypeQuery(a), TypeQuery(b)]))) == Ok([TypeQuery(a + b)])
  {
    var c := TypeQuery(a + b);
    PairTokens(TypeQuery(a), TypeQuery(b));
    TypePairTokens(a, b);
    assert QueryTokens([c]) == ClauseTokens(c) + [];
    assert ClauseTokens(c) + [] == ClauseTokens(c);
    RoundTrip(clock, [c]);
  }

  // ---- A comma after a query --------------------------------------------------------------------------

  /** The clauses that are there stay, and a comma adds one. */
  lemma {:induction false} MorePrefix(clock: TimeReader, clauses: Query, ts: seq<Token>)
    requires ParseMore(clock, clauses, ts).Ok?
    ensures clauses <= ParseMore(clock, clauses, ts).value.0
    ensures StartsWithComma(ts) ==> |clauses| < |ParseMore(clock, clauses, ts).value.0|
    decreases |ts|
  {
    if StartsWithComma(ts) {
      var c := ParseClause(clock, ts[1..]).value;
      MorePrefix(clock, clauses + [c.0], c.1);
    }
  }

  lemma {:induction false} TypesGrow(clock: TimeReader, types: seq<string>, ts: seq<Token>)
    requires ParseTypes(clock, types, ts).Ok?
    ensures var c := ParseTypes(clock, types, ts).value.0;
            c.TypeQuery? && |types| <= |c.types| && (Continues(ts, KIsType) ==> |types| < |c.types|)
    decreases |ts|
  {
    if Continues(ts, KIsType) {
      var arg := ExpectStr(ts[2..]).value;
      TypesGrow(clock, types + [arg.0], arg.1);
    }
  }

  lemma {:induction false} FieldsGrow(clock: TimeReader, fields: seq<Field>, ts: seq<Token>)
    requires ParseFields(clock, fields, ts).Ok?
    ensures var c := ParseFields(clock, fields, ts).value.0;
            c.MapQuery? && |fields| <= |c.fields| && (Continues(ts, KField) ==> |fields| < |c.fields|)
    decreases |ts|
  {
    if Continues(ts, KField) {
      var field := ParseFieldSpec(clock, ts[2..]).value;
      FieldsGrow(clock, fields + [field.0], field.1);
    }
  }

  lemma {:induction false} TypesGoOn(clock: TimeReader, types: seq<string>, rest: seq<Token>)
    requires types != [] && Continues(rest, KIsType)
    requires ParseClause(clock, ClauseTokens(TypeQuery(types)) + rest).Ok?
    ensures ParseClause(clock, ClauseTokens(TypeQuery(types)) + rest).value.0 != TypeQuery(types)
  {
    var ts, more := ClauseTokens(TypeQuery(types)) + rest, TypeTokens(types[1..]) + rest;
    assert ts == [Kw(KIsType), Str(types[0])] + more;
    ArgumentStep(clock, KIsType, types[0], ts, more);
    TypesOver(clock, [types[0]], types[1..], rest);
    assert [types[0]] + types[1..] == types;
    TypesGrow(clock, types, rest);
  }

  lemma {:induction false} FieldsGoOn(clock: TimeReader, fields: seq<Field>, rest: seq<Token>)
    requires fields != [] && Continues(rest, KField) && forall f :: f in fields ==> Shaped(f.query) && Timely(f.query)
    requires ParseClause(clock, ClauseTokens(MapQuery(fields)) + rest).Ok?
    ensures ParseClause(clock, ClauseTokens(MapQuery(fields)) + rest).value.0 != MapQuery(fields)
  {
    var ts, more := ClauseTokens(MapQuery(fields)) + rest, FieldTokens(fields[1..]) + rest;
    assert ts == [Kw(KField)] + (SpecTokens(fields[0]) + more);
    SpecBack(clock, fields[0], more);
    MapStep(clock, fields[0], ts, SpecTokens(fields[0]) + more, more);
    FieldsOver(clock, [fields[0]], fields[1..], rest);
    assert [fields[0]] + fields[1..] == fields;
    FieldsGrow(clock, fields, rest);
  }

  /** A printed clause is read back as itself, with what follows it left over, or as another clause. */
  lemma {:induction false} ClauseOver(clock: TimeReader, c: Clause, rest: seq<Token>)
    requires ShapedClause(c) && TimelyClause(c) && ParseClause(clock, ClauseTokens(c) + rest).Ok?
    ensures var r := ParseClause(clock, ClauseTokens(c) + rest).value; r.0 == c ==> r.1 == rest
  {
    if Stops(c, rest) {
      ClauseBack(clock, c, rest);
    } else if c.TypeQuery? {
      TypesGoOn(clock, c.types, rest);
    } else {
      FieldsGoOn(clock, c.fields, rest);
    }
  }

  /** With a comma after them the printed clauses are not all that is read. */
  lemma {:induction false} MoreOver(clock: TimeReader, done: Query, q: Query, rest: seq<Token>)
    requires Sayable(q) && StartsWithComma(rest) && ParseMore(clock, done, MoreTokens(q) + rest).Ok?
    ensures ParseMore(clock, done, MoreTokens(q) + rest).value.0 != done + q
    decreases q
  {
    if q == [] {
      assert MoreTokens(q) + rest == rest;
      MorePrefix(clock, done, rest);
    } else {
      var more := MoreTokens(q[1..]) + rest;
      MoreSplit(q, rest);
      SayableRest(q);
      var ts := MoreTokens(q) + rest;
      assert ts[1..] == ClauseTokens(q[0]) + more;
      ReadOver(clock, done, q, rest, more);
    }
  }

  lemma {:induction false} ReadOver(clock: TimeReader, done: Query, q: Query, rest: seq<Token>, more: seq<Token>)
    requires q != [] && Sayable(q) && StartsWithComma(rest) && more == MoreTokens(q[1..]) + rest
    requires ShapedClause(q[0]) && TimelyClause(q[0]) && Sayable(q[1..])
    requires var r := ParseClause(clock, ClauseTokens(q[0]) + more);
             r.Ok? && ParseMore(clock, done + [r.value.0], r.value.1).Ok?
    ensures var r := ParseClause(clock, ClauseTokens(q[0]) + more).value;
            ParseMore(clock, done + [r.0], r.1).value.0 != done + q
    decreases q, 0
  {
    var r := ParseClause(clock, ClauseTokens(q[0]) + more).value;
    ClauseOver(clock, q[0], more);
    MorePrefix(clock, done + [r.0], r.1);
    if r.0 == q[0] {
      MoreOver(clock, done + [q[0]], q[1..], rest);
      OneMore(done, q);
    } else {
      assert ParseMore(clock, done + [r.0], r.1).value.0[|done|] == (done + [r.0])[|done|] == r.0;
      assert (done + q)[|done|] == q[0];
    }
  }

  /** With a comma after it the query is not what is read. */
  lemma {:induction false} CommaGoesOn(clock: TimeReader, q: Query, rest: seq<Token>)
    requires Shaped(q) && Timely(q) && StartsWithComma(rest) && ParseQuery(clock, QueryTokens(q) + rest).Ok?
    ensures ParseQuery(clock, QueryTokens(q) + rest).value.0 != q
  {
    var more := MoreTokens(q[1..]) + rest;
    assert QueryTokens(q) + rest == ClauseTokens(q[0]) + more;
    SayableRest(q);
    var first := ParseClause(clock, ClauseTokens(q[0]) + more).value.0;
    assert [] + [first] == [first];
    ReadOver(clock, [], q, rest, more);
    assert [] + q == q;
  }

  /** Tokens after a query are dropped exactly when the first of them is not a comma. */
  lemma {:induction false} TrailingTokensIgnored(clock: TimeReader, q: Query, extra: seq<Token>)
    requires Shaped(q) && Timely(q)
    ensures Parse(clock, Text(QueryTokens(q) + extra)) == Ok(q) <==> !StartsWithComma(extra)
  {
    LexText(QueryTokens(q) + extra);
    if StartsWithComma(extra) {
      if ParseQuery(clock, QueryTokens(q) + extra).Ok? { CommaGoesOn(clock, q, extra); }
    } else {
      QueryBack(clock, q, extra);
    }
  }

  /** As a clause, parentheses hold exactly one clause, although the grammar comment says a query. */
  lemma {:induction false} GroupTakesOneClause(clock: TimeReader, q: Query)
    requires Shaped(q) && Timely(q)
    ensures Parse(clock, Text([LParen] + QueryTokens(q) + [RParen])).Ok? <==> |q| == 1
    ensures |q| == 1 ==> Parse(clock, Text([LParen] + QueryTokens(q) + [RParen])) == Ok([Group(q[0])])
  {
    LexText([LParen] + QueryTokens(q) + [RParen]);
    NextStops(q, [RParen]);
    ClauseBack(clock, q[0], MoreTokens(q[1..]) + [RParen]);
    GroupAsQuery(clock, q);
  }

  lemma {:induction false} GroupStep(clock: TimeReader, c: Clause, ts: seq<Token>, spec: seq<Token>, more: seq<Token>)
    requires ts == [LParen] + spec && ParseClause(clock, spec) == Ok((c, more)) && more != []
    ensures ParseClause(clock, ts) == if more[0] == RParen then Ok((Group(c), more[1..])) else Err("Expected )")
  {
    assert ts[1..] == spec;
  }

  lemma {:induction false} GroupAsQuery(clock: TimeReader, q: Query)
    requires q != []
    requires ParseClause(clock, ClauseTokens(q[0]) + (MoreTokens(q[1..]) + [RParen]))
               == Ok((q[0], MoreTokens(q[1..]) + [RParen]))
    ensures ParseQuery(clock, [LParen] + QueryTokens(q) + [RParen])
         == if |q| == 1 then Ok(([Group(q[0])], [])) else Err("Expected )")
  {
    var ts, more := [LParen] + QueryTokens(q) + [RParen], MoreTokens(q[1..]) + [RParen];
    assert ts == [LParen] + (ClauseTokens(q[0]) + more);
    GroupStep(clock, q[0], ts, ClauseTokens(q[0]) + more, more);
    assert |q| == 1 ==> more == [RParen] && more[1..] == [];
    assert |q| > 1 ==> more[0] == Comma;
  }

  /** The lookup built with escapeStr asks for exactly the given value, whatever characters it holds. */
  lemma {:induction false} EscapedSymbolIsExact(clock: TimeReader, v: string)
    ensures Parse(clock, "Symbol \"" + EscapeStr(v) + "\"") == Ok([Symbol(v)])
  {
    var q := [Symbol(v)];
    assert QueryTokens(q) == [Kw(KSymbol), Str(v)];
    assert QueryTokens(q)[1..] == [Str(v)];
    assert "Symbol \"" + EscapeStr(v) + "\"" == Text(QueryTokens(q));
    RoundTrip(clock, q);
  }
}
