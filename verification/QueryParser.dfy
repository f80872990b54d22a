/**
 * The recursive-descent parser of the query language (packages/core/src/query.ts).
 */
module QueryParser {
  import opened Common
  import opened QuerySyntax
  import opened QueryGrammar

  class Parser {
    const tokens: seq<Token>
    const clock: TimeReader
    var pos: nat

    constructor (tokens: seq<Token>, clock: TimeReader)
      ensures this.tokens == tokens && this.clock == clock && pos == 0
    {
      this.tokens, this.clock, pos := tokens, clock, 0;
    }

    /** The tokens that are left. */
    ghost function Rest(): seq<Token>
      reads this
      requires pos <= |tokens|
    {
      tokens[pos..]
    }

    function Peek(offset: nat): Option<Token>
      reads this
    {
      if pos + offset < |tokens| then Some(tokens[pos + offset]) else None
    }

    method Consume() returns (r: Result<Token>)
      requires pos <= |tokens|
      modifies this
      ensures pos == old(pos) + 1
      ensures r == if old(pos) < |tokens| then Ok(tokens[old(pos)]) else Err("Unexpected end of input")
    {
      r := if pos < |tokens| then Ok(tokens[pos]) else Err("Unexpected end of input");
      pos := pos + 1;
    }

    /** `consume` of a token that was peeked at. */
    method Advance()
      requires pos < |tokens|
      modifies this
      ensures pos == old(pos) + 1
    {
      pos := pos + 1;
    }

    method ExpectStr() returns (r: Result<string>)
      requires pos <= |tokens|
      modifies this
      ensures match QueryGrammar.ExpectStr(old(Rest()))
              case Ok(p) => r == Ok(p.0) && pos <= |tokens| && Rest() == p.1
              case Err(e) => r == Err(e)
    {
      var t :- Consume();
      if !t.Str? { return Err("Expected string"); }
      return Ok(t.value);
    }

    method ExpectClosing() returns (r: Result<()>)
      requires pos <= |tokens|
      modifies this
      ensures match QueryGrammar.ExpectClosing(old(Rest()))
              case Ok(rest) => r == Ok(()) && pos <= |tokens| && Rest() == rest
              case Err(e) => r == Err(e)
    {
      var closing :- Consume();
      if closing != RParen { return Err("Expected )"); }
      return Ok(());
    }

    method ParseQuery() returns (r: Result<Query>)
      requires pos <= |tokens|
      modifies this
      ensures match QueryGrammar.ParseQuery(clock, old(Rest()))
              case Ok(p) => r == Ok(p.0) && pos <= |tokens| && Rest() == p.1
              case Err(e) => r == Err(e)
      decreases |tokens| - pos, 1
    {
      ghost var whole := QueryGrammar.ParseQuery(clock, Rest());
      var first :- ParseClause();
      var clauses := [first];
      while pos < |tokens| && tokens[pos] == Comma
        invariant old(pos) < pos <= |tokens|
        invariant whole == ParseMore(clock, clauses, Rest())
        decreases |tokens| - pos
      {
        assert Rest()[1..] == tokens[pos + 1..];
        Advance();
        var c :- ParseClause();
        clauses := clauses + [c];
      }
      return Ok(clauses);
    }

    method ParseClause() returns (r: Result<Clause>)
      requires pos <= |tokens|
      modifies this
      ensures match QueryGrammar.ParseClause(clock, old(Rest()))
              case Ok(p) => r == Ok(p.0) && pos <= |tokens| && Rest() == p.1
              case Err(e) => r == Err(e)
      decreases |tokens| - pos, 0
    {
      if pos == |tokens| { return Err("Expected clause, got end of input"); }
      var t := tokens[pos];
      assert Rest()[0] == t && Rest()[1..] == tokens[pos + 1..];
      if t == LParen {
        Advance();
        var inner :- ParseClause();
        var _ :- ExpectClosing();
        return Ok(Group(inner));
      }
      if !t.Kw? { return Err("Expected keyword or '('"); }
      Advance();
      match t.kw {
        case KHasItem =>
          var item :- ParseSubQuery();
          return Ok(ListQuery(item));
        case KIsType => r := ParseTypeQuery();
        case KField => r := ParseMapQuery();
        case _ => r := ParseArgument(t.kw);
      }
    }

    /** The clauses whose one argument is a string. */
    method ParseArgument(k: Keyword) returns (r: Result<Clause>)
      requires 0 < pos <= |tokens| && tokens[pos - 1] == Kw(k) && k != KHasItem && k != KIsType && k != KField
      modifies this
      ensures match QueryGrammar.ParseClause(clock, tokens[old(pos) - 1..])
              case Ok(p) => r == Ok(p.0) && pos <= |tokens| && Rest() == p.1
              case Err(e) => r == Err(e)
    {
      assert tokens[pos - 1..][0] == Kw(k) && tokens[pos - 1..][1..] == Rest();
      var arg :- ExpectStr();
      if k.KSymbol? { return Ok(Symbol(arg)); }
      if k.KRegex? { return Ok(Regex(arg)); }
      if k.KMeaning? { return Ok(Meaning(arg)); }
      if k.KId? { return Ok(IdQuery(arg)); }
      var ms :- ReadTime(clock, arg);
      return Ok(TimeQuery(TimeSpec(k).0, TimeSpec(k).1, ms));
    }

    /** After `IsType`: takes every comma that is followed by `IsType`. */
    method ParseTypeQuery() returns (r: Result<Clause>)
      requires 0 < pos <= |tokens| && tokens[pos - 1] == Kw(KIsType)
      modifies this
      ensures match QueryGrammar.ParseClause(clock, tokens[old(pos) - 1..])
              case Ok(p) => r == Ok(p.0) && pos <= |tokens| && Rest() == p.1
              case Err(e) => r == Err(e)
    {
      ghost var ts := tokens[pos - 1..];
      ghost var whole := QueryGrammar.ParseClause(clock, ts);
      assert ts[0] == Kw(KIsType) && ts[1..] == Rest();
      var first :- ExpectStr();
      var types := [first];
      while Peek(0) == Some(Comma) && Peek(1) == Some(Kw(KIsType))
        invariant old(pos) <= pos <= |tokens|
        invariant whole == ParseTypes(clock, types, Rest())
        decreases |tokens| - pos
      {
        assert Continues(Rest(), KIsType) && Rest()[2..] == tokens[pos + 2..];
        Advance();
        Advance();
        var name :- ExpectStr();
        types := types + [name];
      }
      return Ok(TypeQuery(types));
    }

    /** A key and its sub-query, after `Field`. */
    method ParseField() returns (r: Result<Field>)
      requires pos <= |tokens|
      modifies this
      ensures match ParseFieldSpec(clock, old(Rest()))
              case Ok(p) => r == Ok(p.0) && pos <= |tokens| && Rest() == p.1
              case Err(e) => r == Err(e)
      decreases |tokens| - pos, 3
    {
      var key :- ExpectStr();
      var sub :- ParseSubQuery();
      return Ok(Field(key, sub));
    }

    /** After `Field`: takes every comma that is followed by `Field`. */
    method ParseMapQuery() returns (r: Result<Clause>)
      requires 0 < pos <= |tokens| && tokens[pos - 1] == Kw(KField)
      modifies this
      ensures match QueryGrammar.ParseClause(clock, tokens[old(pos) - 1..])
              case Ok(p) => r == Ok(p.0) && pos <= |tokens| && Rest() == p.1
              case Err(e) => r == Err(e)
      decreases |tokens| - pos, 4
    {
      ghost var ts := tokens[pos - 1..];
      ghost var whole := QueryGrammar.ParseClause(clock, ts);
      assert ts[0] == Kw(KField) && ts[1..] == Rest();
      var first :- ParseField();
      var fields := [first];
      while Peek(0) == Some(Comma) && Peek(1) == Some(Kw(KField))
        invariant old(pos) < pos <= |tokens|
        invariant whole == ParseFields(clock, fields, Rest())
        decreases |tokens| - pos
      {
        assert Continues(Rest(), KField) && Rest()[2..] == tokens[pos + 2..];
        Advance();
        Advance();
        var next :- ParseField();
        fields := fields + [next];
      }
      return Ok(MapQuery(fields));
    }

    method ParseSubQuery() returns (r: Result<Query>)
      requires pos <= |tokens|
      modifies this
      ensures match QueryGrammar.ParseSubQuery(clock, old(Rest()))
              case Ok(p) => r == Ok(p.0) && pos <= |tokens| && Rest() == p.1
              case Err(e) => r == Err(e)
      decreases |tokens| - pos, 2
    {
      if Peek(0) == Some(LParen) {
        assert Rest()[0] == LParen && Rest()[1..] == tokens[pos + 1..];
        Advance();
        var q :- ParseQuery();
        var _ :- ExpectClosing();
        return Ok(q);
      }
      var c :- ParseClause();
      return Ok([c]);
    }
  }

  method ParseText(input: string, clock: TimeReader) returns (r: Result<Query>)
    ensures r == Parse(clock, input)
  {
    var tokens :- Tokenize(input);
    var parser := new Parser(tokens, clock);
    assert parser.Rest() == tokens;
    r := parser.ParseQuery();
  }
}
