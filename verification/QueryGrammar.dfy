/**
 * What the parser of the query language computes, as functions on the tokens that
 * are left (packages/core/src/query.ts).
 */
module QueryGrammar {
  import opened Common
  import opened Characters
  import opened QuerySyntax

  // ---- Time arguments ------------------------------------------------------------------

  /** What the program leaves to its language: dates, and numbers that a double does not hold exactly. */
  datatype TimeReader = TimeReader(date: string -> Option<int>, large: string -> Option<nat>)

  const EXACT: nat := 9007199254740992

  function TrimLeft(s: string): string { if s != "" && IsWhiteSpace(s[0]) then TrimLeft(s[1..]) else s }

  function TrimRight(s: string): string { if s != "" && IsWhiteSpace(s[|s| - 1]) then TrimRight(s[..|s| - 1]) else s }

  predicate AllDigits(s: string) { s != "" && forall i :: 0 <= i < |s| ==> IsDigit(s[i]) }

  function ValueOf(s: string): nat
    requires forall i :: 0 <= i < |s| ==> IsDigit(s[i])
  {
    if s == "" then 0
    else
      assert IsDigit(s[|s| - 1]);
      10 * ValueOf(s[..|s| - 1]) + (s[|s| - 1] as int - '0' as int)
  }

  /** parseTimeArg. */
  function ReadTime(clock: TimeReader, raw: string): Result<int> {
    var t := TrimRight(TrimLeft(raw));
    if AllDigits(t) then
      if ValueOf(t) < EXACT then Ok(ValueOf(t))
      else if clock.large(t).Some? then Ok(clock.large(t).value)
      else Err("Time argument must be a non-negative ms value")
    else if clock.date(t).Some? then Ok(clock.date(t).value)
    else Err("Time argument is not a valid ISO-8601 string or ms number")
  }

  function Digits(n: nat): (s: string)
    ensures AllDigits(s)
  {
    var last := ['0' + (n % 10) as char];
    if n < 10 then last else Digits(n / 10) + last
  }

  lemma {:induction false} DigitsValue(n: nat)
    ensures ValueOf(Digits(n)) == n
  {
    var s := Digits(n);
    assert s[|s| - 1] as int - '0' as int == n % 10;
    if n >= 10 {
      DigitsValue(n / 10);
      assert s[..|s| - 1] == Digits(n / 10);
    } else {
      assert s[..|s| - 1] == "";
    }
  }

  lemma {:induction false} DigitIsNoSpace(c: char)
    requires IsDigit(c)
    ensures !IsWhiteSpace(c)
  {
  }

  lemma {:induction false} DigitsReadBack(clock: TimeReader, n: nat)
    requires n < EXACT
    ensures ReadTime(clock, Digits(n)) == Ok(n)
  {
    var s := Digits(n);
    DigitIsNoSpace(s[0]);
    DigitIsNoSpace(s[|s| - 1]);
    DigitsValue(n);
  }

  // ---- What the parser computes, as functions on the tokens that are left -----------------------

  type Parsed<T> = Result<(T, seq<Token>)>

  function ExpectStr(ts: seq<Token>): (r: Parsed<string>)
    ensures r.Ok? ==> |r.value.1| < |ts|
  {
    if ts == [] then Err("Unexpected end of input")
    else if ts[0].Str? then Ok((ts[0].value, ts[1..]))
    else Err("Expected string")
  }

  function ExpectClosing(ts: seq<Token>): (r: Result<seq<Token>>)
    ensures r.Ok? ==> |r.value| < |ts|
  {
    if ts == [] then Err("Unexpected end of input")
    else if ts[0] == RParen then Ok(ts[1..])
    else Err("Expected )")
  }

  predicate IsTime(k: Keyword) { k.KCreatedBefore? || k.KCreatedAfter? || k.KUpdatedBefore? || k.KUpdatedAfter? }

  function TimeSpec(k: Keyword): (TimeField, TimeOp) {
    (if k.KCreatedBefore? || k.KCreatedAfter? then CreatedAt else UpdatedAt,
     if k.KCreatedBefore? || k.KUpdatedBefore? then TimeOp.Before else TimeOp.After)
  }

  function ParseClause(clock: TimeReader, ts: seq<Token>): (r: Parsed<Clause>)
    ensures r.Ok? ==> |r.value.1| < |ts|
    decreases |ts|, 0
  {
    if ts == [] then Err("Expected clause, got end of input")
    else if ts[0] == LParen then
      var inner :- ParseClause(clock, ts[1..]);
      var rest :- ExpectClosing(inner.1);
      Ok((Group(inner.0), rest))
    else if !ts[0].Kw? then Err("Expected keyword or '('")
    else
      var k, more := ts[0].kw, ts[1..];
      if k.KHasItem? then
        var item :- ParseSubQuery(clock, more);
        Ok((ListQuery(item.0), item.1))
      else if k.KField? then
        var field :- ParseFieldSpec(clock, more);
        ParseFields(clock, [field.0], field.1)
      else
        var arg :- ExpectStr(more);
        if k.KSymbol? then Ok((Symbol(arg.0), arg.1))
        else if k.KRegex? then Ok((Regex(arg.0), arg.1))
        else if k.KMeaning? then Ok((Meaning(arg.0), arg.1))
        else if k.KId? then Ok((IdQuery(arg.0), arg.1))
        else if k.KIsType? then ParseTypes(clock, [arg.0], arg.1)
        else
          var ms :- ReadTime(clock, arg.0);
          Ok((TimeQuery(TimeSpec(k).0, TimeSpec(k).1, ms), arg.1))
  }

  /** A comma followed by the keyword: the comma belongs to the clause. */
  predicate Continues(ts: seq<Token>, k: Keyword) { |ts| >= 2 && ts[0] == Comma && ts[1] == Kw(k) }

  function ParseTypes(clock: TimeReader, types: seq<string>, ts: seq<Token>): (r: Parsed<Clause>)
    ensures r.Ok? ==> |r.value.1| <= |ts|
    decreases |ts|, 0
  {
    if Continues(ts, KIsType) then
      var arg :- ExpectStr(ts[2..]);
      ParseTypes(clock, types + [arg.0], arg.1)
    else Ok((TypeQuery(types), ts))
  }

  /** A key and its sub-query. */
  function ParseFieldSpec(clock: TimeReader, ts: seq<Token>): (r: Parsed<Field>)
    ensures r.Ok? ==> |r.value.1| < |ts|
    decreases |ts|, 3
  {
    var key :- ExpectStr(ts);
    var sub :- ParseSubQuery(clock, key.1);
    Ok((Field(key.0, sub.0), sub.1))
  }

  function ParseFields(clock: TimeReader, fields: seq<Field>, ts: seq<Token>): (r: Parsed<Clause>)
    ensures r.Ok? ==> |r.value.1| <= |ts|
    decreases |ts|, 0
  {
    if Continues(ts, KField) then
      var field :- ParseFieldSpec(clock, ts[2..]);
      ParseFields(clock, fields + [field.0], field.1)
    else Ok((MapQuery(fields), ts))
  }

  function ParseSubQuery(clock: TimeReader, ts: seq<Token>): (r: Parsed<Query>)
    ensures r.Ok? ==> |r.value.1| < |ts|
    decreases |ts|, 2
  {
    if ts != [] && ts[0] == LParen then
      var q :- ParseQuery(clock, ts[1..]);
      var rest :- ExpectClosing(q.1);
      Ok((q.0, rest))
    else
      var c :- ParseClause(clock, ts);
      Ok(([c.0], c.1))
  }

  function ParseQuery(clock: TimeReader, ts: seq<Token>): (r: Parsed<Query>)
    ensures r.Ok? ==> |r.value.1| < |ts|
    decreases |ts|, 1
  {
    var c :- ParseClause(clock, ts);
    ParseMore(clock, [c.0], c.1)
  }

  function ParseMore(clock: TimeReader, clauses: Query, ts: seq<Token>): (r: Parsed<Query>)
    ensures r.Ok? ==> |r.value.1| <= |ts|
    decreases |ts|, 0
  {
    if ts != [] && ts[0] == Comma then
      var c :- ParseClause(clock, ts[1..]);
      ParseMore(clock, clauses + [c.0], c.1)
    else Ok((clauses, ts))
  }

  /** The exported parser: tokens after the query are dropped without a word. */
  function Parse(clock: TimeReader, input: string): Result<Query> {
    var ts :- Lex(input);
    var q :- ParseQuery(clock, ts);
    Ok(q.0)
  }
}
