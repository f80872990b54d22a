/**
 * The query language: clauses, tokens, the tokenizer, and the text of a token list
 * (packages/core/src/query.ts, indexer/src/plans/planExtract.ts).
 */
module QuerySyntax {
  import opened Common
  import opened Characters

  datatype TimeField = CreatedAt | UpdatedAt
  datatype TimeOp = Before | After

  type Query = seq<Clause>

  datatype Field = Field(key: string, query: Query)

  datatype Clause =
    | Symbol(value: string)
    | Regex(pattern: string)
    | Meaning(text: string)
    | IdQuery(id: string)
    | TypeQuery(types: seq<string>)
    | MapQuery(fields: seq<Field>)
    | ListQuery(item: Query)
    | TimeQuery(field: TimeField, op: TimeOp, ms: int)
    | Group(inner: Clause)

  datatype Keyword =
    | KSymbol | KRegex | KMeaning | KId | KIsType | KField | KHasItem
    | KCreatedBefore | KCreatedAfter | KUpdatedBefore | KUpdatedAfter

  datatype Token = Kw(kw: Keyword) | Str(value: string) | LParen | RParen | Comma

  function Spelling(k: Keyword): string {
    match k
    case KSymbol => "Symbol"
    case KRegex => "Regex"
    case KMeaning => "Meaning"
    case KId => "Id"
    case KIsType => "IsType"
    case KField => "Field"
    case KHasItem => "HasItem"
    case KCreatedBefore => "CreatedBefore"
    case KCreatedAfter => "CreatedAfter"
    case KUpdatedBefore => "UpdatedBefore"
    case KUpdatedAfter => "UpdatedAfter"
  }

  function Reading(w: string): Option<Keyword> {
    if w == "Symbol" then Some(KSymbol)
    else if w == "Regex" then Some(KRegex)
    else if w == "Meaning" then Some(KMeaning)
    else if w == "Id" then Some(KId)
    else if w == "IsType" then Some(KIsType)
    else if w == "Field" then Some(KField)
    else if w == "HasItem" then Some(KHasItem)
    else if w == "CreatedBefore" then Some(KCreatedBefore)
    else if w == "CreatedAfter" then Some(KCreatedAfter)
    else if w == "UpdatedBefore" then Some(KUpdatedBefore)
    else if w == "UpdatedAfter" then Some(KUpdatedAfter)
    else None
  }

  // ---- Characters --------------------------------------------------------------------

  predicate IsWordStart(c: char) { 'A' <= c <= 'Z' || 'a' <= c <= 'z' || c == '_' }

  lemma {:induction false} SpellingIsWord(k: Keyword)
    ensures Spelling(k) != "" && IsWordStart(Spelling(k)[0]) && Reading(Spelling(k)) == Some(k)
    ensures forall i :: 0 <= i < |Spelling(k)| ==> IsWordChar(Spelling(k)[i])
  {
  }

  lemma {:induction false} WordStartIsPlain(c: char)
    requires IsWordStart(c)
    ensures !IsWhiteSpace(c) && c != '(' && c != ')' && c != ',' && c != '"' && c != '\''
  {
  }

  // ---- The tokenizer ---------------------------------------------------------------------

  /** What follows the opening quote: the value, and the input after the closing quote. */
  function ScanString(s: string, q: char): (r: Option<(string, string)>)
    ensures r.Some? ==> |r.value.1| < |s|
  {
    if s == "" then None
    else if s[0] == q then Some(("", s[1..]))
    else if s[0] == '\\' then
      if |s| == 1 then None else Prefixed(s[1], ScanString(s[2..], q))
    else Prefixed(s[0], ScanString(s[1..], q))
  }

  function Prefixed(c: char, r: Option<(string, string)>): Option<(string, string)> {
    if r.None? then None else Some(([c] + r.value.0, r.value.1))
  }

  function WordLength(s: string): (n: nat)
    ensures n <= |s|
  {
    if s != "" && IsWordChar(s[0]) then 1 + WordLength(s[1..]) else 0
  }

  function Cons(t: Token, r: Result<seq<Token>>): Result<seq<Token>> { if r.Err? then r else Ok([t] + r.value) }

  function Lex(s: string): Result<seq<Token>>
    decreases |s|
  {
    if s == "" then Ok([])
    else if IsWhiteSpace(s[0]) then Lex(s[1..])
    else if s[0] == '(' then Cons(LParen, Lex(s[1..]))
    else if s[0] == ')' then Cons(RParen, Lex(s[1..]))
    else if s[0] == ',' then Cons(Comma, Lex(s[1..]))
    else if s[0] == '"' || s[0] == '\'' then
      var r := ScanString(s[1..], s[0]);
      if r.None? then Err("Unterminated string literal") else Cons(Str(r.value.0), Lex(r.value.1))
    else if IsWordStart(s[0]) then
      var n := WordLength(s);
      var k := Reading(s[..n]);
      if k.None? then Err("Unquoted string") else Cons(Kw(k.value), Lex(s[n..]))
    else Err("Unexpected character")
  }

  function Joined(ts: seq<Token>, r: Result<seq<Token>>): Result<seq<Token>> { if r.Err? then r else Ok(ts + r.value) }

  lemma {:induction false} JoinedCons(ts: seq<Token>, t: Token, r: Result<seq<Token>>)
    ensures Joined(ts, Cons(t, r)) == Joined(ts + [t], r)
  {
    if r.Ok? { assert ts + ([t] + r.value) == (ts + [t]) + r.value; }
  }

  /** The characters of a string literal after its opening quote. */
  method ScanStringAt(input: string, start: nat, q: char) returns (value: string, i: nat, closed: bool)
    requires start <= |input|
    ensures i <= |input|
    ensures closed <==> ScanString(input[start..], q).Some?
    ensures closed ==> start < i && ScanString(input[start..], q).value == (value, input[i..])
  {
    i := start;
    value := "";
    closed := false;
    WithNoPrefix(ScanString(input[start..], q));
    while i < |input| && input[i] != q
      invariant start <= i <= |input|
      invariant ScanString(input[start..], q) == WithPrefix(value, ScanString(input[i..], q))
      decreases |input| - i
    {
      ScanUnfold(input, i, q);
      if input[i] == '\\' {
        i := i + 1;
        if i == |input| { return; }
        PrefixGrows(value, input[i], ScanString(input[i + 1..], q));
        value := value + [input[i]];
        i := i + 1;
      } else {
        PrefixGrows(value, input[i], ScanString(input[i + 1..], q));
        value := value + [input[i]];
        i := i + 1;
      }
    }
    if i < |input| {
      assert input[i..][0] == q && input[i..][1..] == input[i + 1..];
      closed := true;
      i := i + 1;
      assert value + "" == value;
    }
  }

  /** A scan result with more characters in front of its value. */
  function WithPrefix(v: string, r: Option<(string, string)>): Option<(string, string)> {
    if r.None? then None else Some((v + r.value.0, r.value.1))
  }

  lemma {:induction false} WithNoPrefix(r: Option<(string, string)>)
    ensures WithPrefix("", r) == r
  {
    if r.Some? { assert "" + r.value.0 == r.value.0; }
  }

  lemma {:induction false} PrefixGrows(v: string, c: char, r: Option<(string, string)>)
    ensures WithPrefix(v, Prefixed(c, r)) == WithPrefix(v + [c], r)
  {
    if r.Some? { assert v + ([c] + r.value.0) == (v + [c]) + r.value.0; }
  }

  lemma {:induction false} ScanUnfold(input: string, i: nat, q: char)
    requires i < |input| && input[i] != q
    ensures input[i] != '\\' ==> ScanString(input[i..], q) == Prefixed(input[i], ScanString(input[i + 1..], q))
    ensures input[i] == '\\' && i + 1 == |input| ==> ScanString(input[i..], q) == None
    ensures input[i] == '\\' && i + 1 < |input| ==>
              ScanString(input[i..], q) == Prefixed(input[i + 1], ScanString(input[i + 2..], q))
  {
    assert input[i..][0] == input[i] && input[i..][1..] == input[i + 1..];
    if i + 1 < |input| { assert input[i..][1] == input[i + 1] && input[i..][2..] == input[i + 2..]; }
  }

  method ScanWordAt(input: string, start: nat) returns (word: string, i: nat)
    requires start <= |input|
    ensures start <= i <= |input| && i - start == WordLength(input[start..]) && word == input[start..][..i - start]
  {
    i := start;
    word := "";
    while i < |input| && IsWordChar(input[i])
      invariant start <= i <= |input| && word == input[start..i]
      invariant WordLength(input[start..]) == i - start + WordLength(input[i..])
    {
      assert input[i..][0] == input[i] && input[i..][1..] == input[i + 1..];
      word := word + [input[i]];
      i := i + 1;
    }
    assert i < |input| ==> input[i..][0] == input[i];
  }

  method Tokenize(input: string) returns (r: Result<seq<Token>>)
    ensures r == Lex(input)
  {
    var tokens: seq<Token> := [];
    var i: nat := 0;
    assert input[0..] == input;
    assert Joined([], Lex(input)) == Lex(input) by {
      if Lex(input).Ok? { assert [] + Lex(input).value == Lex(input).value; }
    }
    while i < |input|
      invariant i <= |input| && Joined(tokens, Lex(input[i..])) == Lex(input)
      decreases |input| - i
    {
      var c := input[i];
      assert input[i..][0] == c && input[i..][1..] == input[i + 1..];
      if IsWhiteSpace(c) {
        i := i + 1;
      } else if c == '(' || c == ')' || c == ',' {
        var t := if c == '(' then LParen else if c == ')' then RParen else Comma;
        JoinedCons(tokens, t, Lex(input[i + 1..]));
        tokens, i := tokens + [t], i + 1;
      } else if c == '"' || c == '\'' {
        var value, j, closed := ScanStringAt(input, i + 1, c);
        if !closed { return Err("Unterminated string literal"); }
        JoinedCons(tokens, Str(value), Lex(input[j..]));
        tokens, i := tokens + [Str(value)], j;
      } else if IsWordStart(c) {
        var word, j := ScanWordAt(input, i);
        assert input[i..][j - i..] == input[j..];
        var k := Reading(word);
        if k.None? { return Err("Unquoted string"); }
        JoinedCons(tokens, Kw(k.value), Lex(input[j..]));
        tokens, i := tokens + [Kw(k.value)], j;
      } else {
        return Err("Unexpected character");
      }
    }
    assert input[i..] == "";
    assert tokens + [] == tokens;
    return Ok(tokens);
  }

  // ---- The text of tokens ------------------------------------------------------------------

  /** `s.replace` of every occurrence of one character. */
  function Replace(s: string, c: char, with: string): string {
    if s == "" then "" else (if s[0] == c then with else [s[0]]) + Replace(s[1..], c, with)
  }

  /** escapeStr: backslashes first, then quotes. */
  function EscapeStr(s: string): string { Replace(Replace(s, '\\', "\\\\"), '"', "\\\"") }

  lemma {:induction false} ReplaceJoin(a: string, b: string, c: char, with: string)
    ensures Replace(a + b, c, with) == Replace(a, c, with) + Replace(b, c, with)
  {
    if a == "" {
      assert a + b == b;
    } else {
      assert (a + b)[1..] == a[1..] + b;
      ReplaceJoin(a[1..], b, c, with);
    }
  }

  function EscapedChar(c: char): string { if c == '\\' || c == '"' then ['\\', c] else [c] }

  lemma {:induction false} EscapeStrSteps(s: string)
    requires s != ""
    ensures EscapeStr(s) == EscapedChar(s[0]) + EscapeStr(s[1..])
  {
    var head := if s[0] == '\\' then "\\\\" else [s[0]];
    var tail := Replace(s[1..], '\\', "\\\\");
    ReplaceJoin(head, tail, '"', "\\\"");
    EscapedHead(s[0], head);
  }

  lemma {:induction false} EscapedHead(c: char, head: string)
    requires head == if c == '\\' then "\\\\" else [c]
    ensures Replace(head, '"', "\\\"") == EscapedChar(c)
  {
    if c == '\\' {
      var last := head[1..];
      assert last == "\\" && last[1..] == "";
      assert Replace(last, '"', "\\\"") == "\\" + "";
      assert Replace(head, '"', "\\\"") == "\\" + ("\\" + "");
    } else {
      assert head[1..] == "";
    }
  }

  /** The scanner reads back what escapeStr wrote, for every string. */
  lemma {:induction false} EscapedReadsBack(s: string, rest: string)
    ensures ScanString(EscapeStr(s) + "\"" + rest, '"') == Some((s, rest))
  {
    var text := EscapeStr(s) + "\"" + rest;
    if s == "" {
      assert text == "\"" + rest && text[1..] == rest;
    } else {
      EscapeStrSteps(s);
      var more := EscapeStr(s[1..]) + "\"" + rest;
      assert text == EscapedChar(s[0]) + more;
      assert text[|EscapedChar(s[0])|..] == more;
      EscapedReadsBack(s[1..], rest);
      assert s == [s[0]] + s[1..];
    }
  }

  function Spell(t: Token): string {
    match t
    case Kw(k) => Spelling(k)
    case Str(v) => "\"" + EscapeStr(v) + "\""
    case LParen => "("
    case RParen => ")"
    case Comma => ","
  }

  function Text(ts: seq<Token>): string {
    if ts == [] then "" else if |ts| == 1 then Spell(ts[0]) else Spell(ts[0]) + " " + Text(ts[1..])
  }

  lemma {:induction false} WordLengthOf(w: string, rest: string)
    requires forall i :: 0 <= i < |w| ==> IsWordChar(w[i])
    requires rest == "" || rest[0] == ' '
    ensures WordLength(w + rest) == |w|
  {
    if w == "" {
      assert w + rest == rest;
    } else {
      assert (w + rest)[1..] == w[1..] + rest;
      WordLengthOf(w[1..], rest);
    }
  }

  lemma {:induction false} LexWord(w: string, k: Keyword, rest: string)
    requires w != "" && IsWordStart(w[0]) && Reading(w) == Some(k)
    requires forall i :: 0 <= i < |w| ==> IsWordChar(w[i])
    requires rest == "" || rest[0] == ' '
    ensures Lex(w + rest) == Cons(Kw(k), Lex(rest))
  {
    WordStartIsPlain(w[0]);
    WordLengthOf(w, rest);
    assert (w + rest)[..|w|] == w && (w + rest)[|w|..] == rest;
  }

  lemma {:induction false} LexQuoted(v: string, rest: string)
    ensures Lex("\"" + EscapeStr(v) + "\"" + rest) == Cons(Str(v), Lex(rest))
  {
    var s := "\"" + EscapeStr(v) + "\"" + rest;
    assert s[1..] == EscapeStr(v) + "\"" + rest;
    EscapedReadsBack(v, rest);
  }

  lemma {:induction false} LexMark(c: char, rest: string)
    requires c == '(' || c == ')' || c == ','
    ensures Lex([c] + rest) == Cons(if c == '(' then LParen else if c == ')' then RParen else Comma, Lex(rest))
  {
    assert ([c] + rest)[1..] == rest;
  }

  lemma {:induction false} LexToken(t: Token, rest: string)
    requires rest == "" || rest[0] == ' '
    ensures Lex(Spell(t) + rest) == Cons(t, Lex(rest))
  {
    match t
    case Kw(k) =>
      SpellingIsWord(k);
      LexWord(Spelling(k), k, rest);
    case Str(v) => LexQuoted(v, rest);
    case LParen => LexMark('(', rest);
    case RParen => LexMark(')', rest);
    case Comma => LexMark(',', rest);
  }

  lemma {:induction false} LexSpace(rest: string)
    ensures Lex(" " + rest) == Lex(rest)
  {
    assert (" " + rest)[1..] == rest;
  }

  /** The tokenizer inverts the text of any token list. */
  lemma {:induction false} LexText(ts: seq<Token>)
    ensures Lex(Text(ts)) == Ok(ts)
  {
    if |ts| == 1 {
      LexToken(ts[0], "");
      assert Spell(ts[0]) + "" == Spell(ts[0]);
      assert [ts[0]] + [] == ts;
    } else if ts != [] {
      LexText(ts[1..]);
      LexSeparated(ts[0], ts[1..]);
      assert [ts[0]] + ts[1..] == ts;
    }
  }

  lemma {:induction false} Glue(a: string, b: string, c: string)
    ensures (a + b) + c == a + (b + c)
  {
  }

  lemma {:induction false} LexSeparated(t: Token, ts: seq<Token>)
    requires Lex(Text(ts)) == Ok(ts)
    ensures Lex(Spell(t) + " " + Text(ts)) == Ok([t] + ts)
  {
    var more := " " + Text(ts);
    LexSpace(Text(ts));
    LexToken(t, more);
    Glue(Spell(t), " ", Text(ts));
  }
}
