/**
 * The text search over the nodes table and the full-text index that the
 * triggers keep beside it (packages/core/src/schema.ts, packages/core/src/db.ts).
 *
 * The index is a list of rows without a key, as in SQLite: nothing but the
 * triggers keeps one row a node. A trigram index finds a phrase of three or more
 * characters wherever it occurs up to case, and finds nothing shorter.
 */
module SymbolSearch {
  import opened Common
  import opened Characters
  import opened RegexSyntax
  import opened RegexLiterals

  type Id = string

  datatype Kind = SymbolKind | MeaningKind | ListKind | MapKind

  datatype Row = Row(kind: Kind, symbolValue: Option<string>, meaningText: Option<string>, tombstone: bool) {
    /** The rows that get an index entry. */
    predicate HasText() { kind.SymbolKind? || kind.MeaningKind? }

    /** Every statement that writes a text row fills the column of its kind and leaves the other empty. */
    predicate Wf() {
      && (kind.SymbolKind? ==> symbolValue.Some? && meaningText.None?)
      && (kind.MeaningKind? ==> symbolValue.None? && meaningText.Some?)
    }

    function Text(): string
      requires Wf() && HasText()
    {
      if kind.SymbolKind? then symbolValue.value else meaningText.value
    }

    /** COALESCE over the two text columns. */
    function IndexedText(): string
      requires symbolValue.Some? || meaningText.Some?
    {
      if symbolValue.Some? then symbolValue.value else meaningText.value
    }
  }

  datatype FtsRow = FtsRow(text: string, nodeId: Id)

  // ---- Tables as values ---------------------------------------------------------

  datatype Tables = Tables(nodes: map<Id, Row>, fts: seq<FtsRow>)

  datatype Op = Insert(id: Id, row: Row) | Update(id: Id, row: Row) | Delete(id: Id)

  function WithoutNode(fts: seq<FtsRow>, id: Id): seq<FtsRow> {
    if fts == [] then []
    else (if fts[0].nodeId == id then [] else [fts[0]]) + WithoutNode(fts[1..], id)
  }

  /** One statement on the nodes table together with the trigger it fires. */
  function Apply(t: Tables, op: Op): Tables
    requires !op.Delete? ==> op.row.Wf()
  {
    match op
    case Insert(id, row) =>
      if id in t.nodes then t
      else Tables(t.nodes[id := row], if row.HasText() then t.fts + [FtsRow(row.IndexedText(), id)] else t.fts)
    case Update(id, row) =>
      if id !in t.nodes then t
      else Tables(t.nodes[id := row],
                  if row.HasText() then WithoutNode(t.fts, id) + [FtsRow(row.IndexedText(), id)] else t.fts)
    case Delete(id) =>
      if id !in t.nodes then t else Tables(t.nodes - {id}, WithoutNode(t.fts, id))
  }

  function Run(t: Tables, ops: seq<Op>): Tables
    requires forall op :: op in ops && !op.Delete? ==> op.row.Wf()
    decreases |ops|
  {
    if ops == [] then t else Run(Apply(t, ops[0]), ops[1..])
  }

  const EMPTY := Tables(map[], [])

  // ---- The index invariant --------------------------------------------------------

  function TextsOf(fts: seq<FtsRow>, id: Id): seq<string> {
    if fts == [] then []
    else (if fts[0].nodeId == id then [fts[0].text] else []) + TextsOf(fts[1..], id)
  }

  /**
   * A text node has exactly one index row, with its text, and a missing node has none. A node
   * that was changed from text to another kind may keep stale rows: no trigger removes them.
   */
  ghost predicate Indexed(t: Tables) {
    && (forall id :: id in t.nodes ==> t.nodes[id].Wf())
    && (forall id :: id in t.nodes && t.nodes[id].HasText() ==> TextsOf(t.fts, id) == [t.nodes[id].Text()])
    && (forall id :: id !in t.nodes ==> TextsOf(t.fts, id) == [])
  }

  lemma {:induction false} TextsOfAppend(a: seq<FtsRow>, b: seq<FtsRow>, id: Id)
    ensures TextsOf(a + b, id) == TextsOf(a, id) + TextsOf(b, id)
    decreases |a|
  {
    if a == [] {
      assert a + b == b;
    } else {
      assert (a + b)[1..] == a[1..] + b;
      TextsOfAppend(a[1..], b, id);
    }
  }

  lemma {:induction false} TextsOfWithout(fts: seq<FtsRow>, gone: Id, id: Id)
    ensures TextsOf(WithoutNode(fts, gone), id) == if id == gone then [] else TextsOf(fts, id)
    decreases |fts|
  {
    if fts != [] {
      TextsOfWithout(fts[1..], gone, id);
      TextsOfAppend(if fts[0].nodeId == gone then [] else [fts[0]], WithoutNode(fts[1..], gone), id);
    }
  }

  lemma {:induction false} ApplyKeepsIndex(t: Tables, op: Op)
    requires Indexed(t) && (!op.Delete? ==> op.row.Wf())
    ensures Indexed(Apply(t, op))
  {
    var after := Apply(t, op);
    forall id
      ensures id in after.nodes && after.nodes[id].HasText() ==> TextsOf(after.fts, id) == [after.nodes[id].Text()]
      ensures id !in after.nodes ==> TextsOf(after.fts, id) == []
    {
      TextsOfWithout(t.fts, op.id, id);
      if !op.Delete? && op.row.HasText() {
        var added := [FtsRow(op.row.IndexedText(), op.id)];
        TextsOfAppend(t.fts, added, id);
        TextsOfAppend(WithoutNode(t.fts, op.id), added, id);
      }
    }
  }

  /** After any sequence of statements the index agrees with the table. */
  lemma {:induction false} RunKeepsIndex(t: Tables, ops: seq<Op>)
    requires Indexed(t) && forall op :: op in ops && !op.Delete? ==> op.row.Wf()
    ensures Indexed(Run(t, ops))
    decreases |ops|
  {
    if ops != [] {
      ApplyKeepsIndex(t, ops[0]);
      RunKeepsIndex(Apply(t, ops[0]), ops[1..]);
    }
  }

  // ---- Phrases --------------------------------------------------------------------

  function DoubleQuotes(s: string): string {
    if s == "" then "" else (if s[0] == '\"' then "\"\"" else [s[0]]) + DoubleQuotes(s[1..])
  }

  function FtsPhrase(s: string): string { "\"" + DoubleQuotes(s) + "\"" }

  function MatchExpression(literals: seq<string>): string
    requires literals != []
  {
    if |literals| == 1 then FtsPhrase(literals[0])
    else FtsPhrase(literals[0]) + (" AND " + MatchExpression(literals[1..]))
  }

  /** Reads a quoted FTS5 string behind its opening quote: the text and the rest of the expression. */
  function ReadString(s: string, read: string): (r: Option<(string, string)>)
    ensures r.Some? ==> |r.value.1| < |s|
  {
    if s == "" then None
    else if s[0] != '\"' then ReadString(s[1..], read + [s[0]])
    else if |s| > 1 && s[1] == '\"' then ReadString(s[2..], read + ['\"'])
    else Some((read, s[1..]))
  }

  /** How FTS5 reads an expression of quoted strings joined by AND. */
  function ReadExpression(s: string): Option<seq<string>>
    decreases |s|
  {
    if s == "" || s[0] != '\"' then None
    else
      match ReadString(s[1..], "")
      case None => None
      case Some((phrase, rest)) =>
        if rest == "" then Some([phrase])
        else if |rest| < 5 || rest[..5] != " AND " then None
        else
          match ReadExpression(rest[5..])
          case None => None
          case Some(phrases) => Some([phrase] + phrases)
  }

  lemma {:induction false} ReadPhrase(s: string, rest: string, read: string)
    requires rest == "" || rest[0] != '\"'
    ensures ReadString(DoubleQuotes(s) + "\"" + rest, read) == Some((read + s, rest))
    decreases |s|
  {
    var quoted := DoubleQuotes(s) + "\"" + rest;
    if s == "" {
      assert quoted[1..] == rest && read + s == read;
    } else if s[0] == '\"' {
      assert quoted[2..] == DoubleQuotes(s[1..]) + "\"" + rest;
      ReadPhrase(s[1..], rest, read + ['\"']);
      assert read + ['\"'] + s[1..] == read + s;
    } else {
      assert quoted[1..] == DoubleQuotes(s[1..]) + "\"" + rest;
      ReadPhrase(s[1..], rest, read + [s[0]]);
      assert read + [s[0]] + s[1..] == read + s;
    }
  }

  /** FTS5 reads exactly the literals back, whatever quotes they hold. */
  lemma {:induction false} ExpressionReadsBack(literals: seq<string>)
    requires literals != []
    ensures ReadExpression(MatchExpression(literals)) == Some(literals)
    decreases |literals|
  {
    var first := literals[0];
    if |literals| == 1 {
      FirstPhrase(first, "");
      assert FtsPhrase(first) + "" == FtsPhrase(first);
      assert literals == [first];
    } else {
      var others := MatchExpression(literals[1..]);
      var rest := " AND " + others;
      FirstPhrase(first, rest);
      ExpressionReadsBack(literals[1..]);
      assert rest[5..] == others && rest[..5] == " AND ";
      assert literals == [first] + literals[1..];
    }
  }

  lemma {:induction false} FirstPhrase(phrase: string, rest: string)
    requires rest == "" || rest[0] != '\"'
    ensures var s := FtsPhrase(phrase) + rest;
            s[0] == '\"' && ReadString(s[1..], "") == Some((phrase, rest))
  {
    var s := FtsPhrase(phrase) + rest;
    assert s[1..] == DoubleQuotes(phrase) + "\"" + rest;
    ReadPhrase(phrase, rest, "");
    assert "" + phrase == phrase;
  }

  /** MATCH of one phrase against an indexed text. */
  predicate PhraseMatches(sem: Semantics, text: string, phrase: string) {
    |phrase| >= 3 && Occurs(sem, text, phrase)
  }

  predicate ExpressionMatches(sem: Semantics, text: string, expression: string) {
    match ReadExpression(expression)
    case None => false
    case Some(phrases) => forall p :: p in phrases ==> PhraseMatches(sem, text, p)
  }

  // ---- Queries --------------------------------------------------------------------

  /** What a scan of the whole table finds: the live text nodes whose text passes. */
  function FullScan(nodes: map<Id, Row>, passes: string -> bool): set<Id>
    requires forall id :: id in nodes ==> nodes[id].Wf()
  {
    set id | id in nodes && nodes[id].HasText() && !nodes[id].tombstone && passes(nodes[id].Text())
  }

  function ExactScan(nodes: map<Id, Row>, value: string): set<Id>
  {
    set id | id in nodes && nodes[id].kind.SymbolKind? && nodes[id].symbolValue == Some(value) && !nodes[id].tombstone
  }

  /** `ids` lists the members of `found`, each of them once. */
  ghost predicate Lists(ids: seq<Id>, found: set<Id>) { multiset(ids) == multiset(found) }

  /** `test` is what a case-insensitive RegExp compiled from the pattern computes. */
  ghost predicate Compiles(sem: Semantics, pattern: string, re: Regex, test: string -> bool) {
    WfRegex(re, false) && PrintRegex(re) == pattern && forall text :: test(text) <==> Found(sem, re, text)
  }

  /** An index row joins a live text node that passes. */
  predicate JoinsAt(t: Tables, f: FtsRow, passes: (FtsRow, Row) -> bool) {
    f.nodeId in t.nodes && IsLiveText(t.nodes, f.nodeId) && passes(f, t.nodes[f.nodeId])
  }

  predicate IsLiveText(nodes: map<Id, Row>, id: Id) {
    id in nodes && nodes[id].HasText() && !nodes[id].tombstone
  }

  /** The ids of the index rows from `from` on that join a live text node and pass. */
  function Joined(t: Tables, from: nat, passes: (FtsRow, Row) -> bool): seq<Id>
    decreases |t.fts| - from
  {
    if from >= |t.fts| then []
    else (if JoinsAt(t, t.fts[from], passes) then [t.fts[from].nodeId] else []) + Joined(t, from + 1, passes)
  }

  /** How often the join lists a node: once for each of its index rows that passes. */
  lemma {:induction false} JoinedCount(t: Tables, from: nat, passes: (FtsRow, Row) -> bool, id: Id)
    requires from <= |t.fts|
    ensures multiset(Joined(t, from, passes))[id]
         == if IsLiveText(t.nodes, id) then Passing(TextsOf(t.fts[from..], id), t.nodes[id], id, passes) else 0
    decreases |t.fts| - from
  {
    if from < |t.fts| {
      JoinedCount(t, from + 1, passes, id);
      var f := t.fts[from];
      var texts := TextsOf(t.fts[from + 1..], id);
      assert t.fts[from..][1..] == t.fts[from + 1..];
      if f.nodeId == id {
        assert TextsOf(t.fts[from..], id) == [f.text] + texts && ([f.text] + texts)[1..] == texts;
      } else {
        assert TextsOf(t.fts[from..], id) == texts;
      }
    } else {
      assert t.fts[from..] == [];
    }
  }

  function Passing(texts: seq<string>, row: Row, id: Id, passes: (FtsRow, Row) -> bool): nat {
    if texts == [] then 0
    else (if passes(FtsRow(texts[0], id), row) then 1 else 0) + Passing(texts[1..], row, id, passes)
  }

  /** The live text nodes that pass together with the index row they should have. */
  ghost function Matching(t: Tables, passes: (FtsRow, Row) -> bool): set<Id>
    requires Indexed(t)
  {
    set id | id in t.nodes && IsLiveText(t.nodes, id) && passes(FtsRow(t.nodes[id].Text(), id), t.nodes[id])
  }

  /** With the index in order, the join lists each passing live text node once. */
  lemma {:induction false} JoinedLists(t: Tables, passes: (FtsRow, Row) -> bool)
    requires Indexed(t)
    ensures Lists(Joined(t, 0, passes), Matching(t, passes))
  {
    var ids := Joined(t, 0, passes);
    assert t.fts[0..] == t.fts;
    forall id ensures multiset(ids)[id] == multiset(Matching(t, passes))[id] {
      JoinedCount(t, 0, passes, id);
      if IsLiveText(t.nodes, id) {
        assert TextsOf(t.fts, id) == [t.nodes[id].Text()];
        assert Passing([t.nodes[id].Text()], t.nodes[id], id, passes)
            == (if passes(FtsRow(t.nodes[id].Text(), id), t.nodes[id]) then 1 else 0);
      }
    }
  }

  /** The narrowed search: index rows that hold every literal, then the pattern itself. */
  function NarrowedPass(sem: Semantics, expression: string, test: string -> bool): (FtsRow, Row) -> bool {
    (f: FtsRow, n: Row) =>
      ExpressionMatches(sem, f.text, expression)
      && test(SearchedText(n))
  }

  function SearchedText(n: Row): string {
    if n.kind.SymbolKind? then n.symbolValue.GetOr("") else n.meaningText.GetOr("")
  }

  predicate HoldsAll(sem: Semantics, text: string, literals: seq<string>) {
    forall p :: p in literals ==> PhraseMatches(sem, text, p)
  }

  /** What a search narrowed by literals can find: live text nodes that pass and hold every literal. */
  function NarrowedScan(nodes: map<Id, Row>, sem: Semantics, literals: seq<string>, test: string -> bool): set<Id>
    requires forall id :: id in nodes ==> nodes[id].Wf()
  {
    set id | id in nodes && nodes[id].HasText() && !nodes[id].tombstone && test(nodes[id].Text())
             && HoldsAll(sem, nodes[id].Text(), literals)
  }

  lemma {:induction false} NarrowedPassIff(sem: Semantics, literals: seq<string>, test: string -> bool, row: Row,
                                           id: Id)
    requires row.Wf() && row.HasText() && literals != []
    ensures NarrowedPass(sem, MatchExpression(literals), test)(FtsRow(row.Text(), id), row)
       <==> test(row.Text()) && HoldsAll(sem, row.Text(), literals)
  {
    ExpressionReadsBack(literals);
    assert SearchedText(row) == row.Text();
    assert ExpressionMatches(sem, row.Text(), MatchExpression(literals)) <==> HoldsAll(sem, row.Text(), literals);
  }

  /** Whatever the literals are, the narrowed search lists just those nodes. */
  lemma {:induction false} NarrowedLists(t: Tables, sem: Semantics, literals: seq<string>, test: string -> bool)
    requires Indexed(t) && literals != []
    ensures Lists(Joined(t, 0, NarrowedPass(sem, MatchExpression(literals), test)),
                  NarrowedScan(t.nodes, sem, literals, test))
  {
    var passes := NarrowedPass(sem, MatchExpression(literals), test);
    JoinedLists(t, passes);
    forall id | id in t.nodes && IsLiveText(t.nodes, id)
      ensures passes(FtsRow(t.nodes[id].Text(), id), t.nodes[id])
         <==> test(t.nodes[id].Text()) && HoldsAll(sem, t.nodes[id].Text(), literals)
    {
      NarrowedPassIff(sem, literals, test, t.nodes[id], id);
    }
    assert Matching(t, passes) == NarrowedScan(t.nodes, sem, literals, test);
  }

  /** Every text that the full scan finds holds the literals. */
  ghost predicate LosesNothing(nodes: map<Id, Row>, sem: Semantics, literals: seq<string>, test: string -> bool)
    requires forall id :: id in nodes ==> nodes[id].Wf()
  {
    forall id :: id in FullScan(nodes, test) ==> HoldsAll(sem, nodes[id].Text(), literals)
  }

  lemma {:induction false} NarrowedIsFullWhen(nodes: map<Id, Row>, sem: Semantics, literals: seq<string>,
                                              test: string -> bool)
    requires forall id :: id in nodes ==> nodes[id].Wf()
    ensures NarrowedScan(nodes, sem, literals, test) == FullScan(nodes, test)
       <==> LosesNothing(nodes, sem, literals, test)
  {
    if NarrowedScan(nodes, sem, literals, test) == FullScan(nodes, test) {
      forall id | id in FullScan(nodes, test) ensures HoldsAll(sem, nodes[id].Text(), literals) {
        assert id in NarrowedScan(nodes, sem, literals, test);
      }
    }
  }

  lemma {:induction false} SameListing(ids: seq<Id>, found: set<Id>, full: set<Id>)
    requires Lists(ids, found)
    ensures Lists(ids, full) <==> found == full
  {
    if multiset(found) == multiset(full) {
      assert forall id :: id in found <==> id in multiset(found);
      assert forall id :: id in full <==> id in multiset(full);
    }
  }

  /** A text that a pattern of the fragment matches holds every literal. */
  lemma {:induction false} FragmentLosesNothing(nodes: map<Id, Row>, sem: Semantics, pattern: string, re: Regex,
                                                test: string -> bool)
    requires Compiles(sem, pattern, re, test) && forall id :: id in nodes ==> nodes[id].Wf()
    ensures LosesNothing(nodes, sem, RequiredLiterals(pattern), test)
  {
    var literals := RequiredLiterals(pattern);
    WalkLong(pattern, "", []);
    forall id | id in FullScan(nodes, test) ensures HoldsAll(sem, nodes[id].Text(), literals) {
      LiteralsRequired(sem, re, nodes[id].Text());
    }
  }

  /** For a pattern of the fragment narrowing loses nothing: the search lists what the full scan finds. */
  lemma {:induction false} NarrowedAgreesWithScan(t: Tables, sem: Semantics, pattern: string, re: Regex,
                                                  test: string -> bool)
    requires Indexed(t) && Compiles(sem, pattern, re, test)
    requires RequiredLiterals(pattern) != []
    ensures Lists(Joined(t, 0, NarrowedPass(sem, MatchExpression(RequiredLiterals(pattern)), test)),
                  FullScan(t.nodes, test))
  {
    NarrowedLists(t, sem, RequiredLiterals(pattern), test);
    FragmentLosesNothing(t.nodes, sem, pattern, re, test);
    NarrowedIsFullWhen(t.nodes, sem, RequiredLiterals(pattern), test);
  }

  /** The same after any sequence of statements on an empty database. */
  lemma {:induction false} NarrowedAgreesOnEveryRun(ops: seq<Op>, sem: Semantics, pattern: string, re: Regex,
                                                    test: string -> bool)
    requires forall op :: op in ops && !op.Delete? ==> op.row.Wf()
    requires Compiles(sem, pattern, re, test) && RequiredLiterals(pattern) != []
    ensures var t := Run(EMPTY, ops);
            && Indexed(t)
            && Lists(Joined(t, 0, NarrowedPass(sem, MatchExpression(RequiredLiterals(pattern)), test)),
                     FullScan(t.nodes, test))
  {
    RunKeepsIndex(EMPTY, ops);
    NarrowedAgreesWithScan(Run(EMPTY, ops), sem, pattern, re, test);
  }

  lemma {:induction false} WalkLong(s: string, current: string, runs: seq<string>)
    requires forall w :: w in runs ==> |w| >= 3
    ensures forall w :: w in Walk(s, current, runs) ==> |w| >= 3
    decreases |s|
  {
    if s != "" {
      var round := Step(s, current, runs);
      StepLong(s, current, runs);
      if round.Continue? {
        WalkLong(round.rest, round.current, round.runs);
      }
    }
  }

  lemma {:induction false} StepLong(s: string, current: string, runs: seq<string>)
    requires s != "" && forall w :: w in runs ==> |w| >= 3
    ensures forall w :: w in (match Step(s, current, runs) case Stop(r) => r case Continue(_, _, r) => r) ==> |w| >= 3
  {
  }

  function ExactPass(sem: Semantics, value: string): (FtsRow, Row) -> bool {
    (f: FtsRow, n: Row) =>
      n.kind.SymbolKind? && ExpressionMatches(sem, f.text, FtsPhrase(value)) && n.symbolValue == Some(value)
  }

  lemma {:induction false} ValueHoldsItself(sem: Semantics, value: string)
    requires |value| >= 3
    ensures ExpressionMatches(sem, value, FtsPhrase(value))
  {
    ExpressionReadsBack([value]);
    assert MatchExpression([value]) == FtsPhrase(value);
    assert OccursAt(sem, value, 0, value);
  }

  /** The same for the exact lookup of a value of three or more characters. */
  lemma {:induction false} ExactAgreesWithScan(t: Tables, sem: Semantics, value: string)
    requires Indexed(t) && |value| >= 3
    ensures Lists(Joined(t, 0, ExactPass(sem, value)), ExactScan(t.nodes, value))
  {
    var passes := ExactPass(sem, value);
    JoinedLists(t, passes);
    ValueHoldsItself(sem, value);
    assert Matching(t, passes) == ExactScan(t.nodes, value);
  }

  /** The full scan: the pattern on the column that the kind of the node uses. */
  function TextPass(test: string -> bool): Row -> bool {
    (n: Row) =>
      (n.kind.SymbolKind? && test(n.symbolValue.GetOr("")))
      || (n.kind.MeaningKind? && test(n.meaningText.GetOr("")))
  }

  function LiveAmong(nodes: map<Id, Row>, ids: set<Id>, passes: Row -> bool): set<Id> {
    set id | id in ids && id in nodes && !nodes[id].tombstone && passes(nodes[id])
  }

  /** Without literals the narrowed search is the full scan. */
  lemma {:induction false} NothingToHold(nodes: map<Id, Row>, sem: Semantics, test: string -> bool)
    requires forall id :: id in nodes ==> nodes[id].Wf()
    ensures LiveAmong(nodes, nodes.Keys, TextPass(test)) == NarrowedScan(nodes, sem, [], test)
  {
    forall id | id in nodes
      ensures id in LiveAmong(nodes, nodes.Keys, TextPass(test)) <==> id in NarrowedScan(nodes, sem, [], test)
    {
      TextPassIff(nodes[id], test);
    }
  }

  lemma {:induction false} TextPassIff(row: Row, test: string -> bool)
    requires row.Wf()
    ensures TextPass(test)(row) <==> row.HasText() && test(row.Text())
  {
    if row.kind.SymbolKind? {
      assert row.Text() == row.symbolValue.GetOr("");
    } else if row.kind.MeaningKind? {
      assert row.Text() == row.meaningText.GetOr("");
    }
  }

  lemma {:induction false} LiveAmongAdd(nodes: map<Id, Row>, ids: set<Id>, id: Id, passes: Row -> bool)
    requires id !in ids
    ensures var before, after := LiveAmong(nodes, ids, passes), LiveAmong(nodes, ids + {id}, passes);
            if id in nodes && !nodes[id].tombstone && passes(nodes[id])
            then id !in before && after == before + {id} else after == before
  {
  }

  // ---- The table object -------------------------------------------------------------

  class NodesTable {
    var nodes: map<Id, Row>
    var fts: seq<FtsRow>

    ghost function State(): Tables
      reads this
    {
      Tables(nodes, fts)
    }

    ghost predicate Valid()
      reads this
    {
      Indexed(State())
    }

    constructor ()
      ensures Valid() && State() == EMPTY
    {
      nodes, fts := map[], [];
    }

    /** INSERT with the trigger nodes_ai_fts. An id that exists already violates the primary key. */
    method InsertRow(id: Id, row: Row) returns (ok: bool)
      requires Valid() && row.Wf()
      modifies this
      ensures Valid() && ok == (id !in old(nodes))
      ensures State() == Apply(old(State()), Insert(id, row))
    {
      ApplyKeepsIndex(State(), Insert(id, row));
      ok := id !in nodes;
      if ok {
        nodes := nodes[id := row];
        if row.HasText() {
          fts := fts + [FtsRow(row.IndexedText(), id)];
        }
      }
    }

    /** UPDATE of one row with the trigger nodes_au_fts. */
    method UpdateRow(id: Id, row: Row)
      requires Valid() && row.Wf()
      modifies this
      ensures Valid() && State() == Apply(old(State()), Update(id, row))
    {
      ApplyKeepsIndex(State(), Update(id, row));
      if id in nodes {
        nodes := nodes[id := row];
        if row.HasText() {
          RemoveIndexRows(id);
          fts := fts + [FtsRow(row.IndexedText(), id)];
        }
      }
    }

    /** DELETE of one row with the trigger nodes_ad_fts. */
    method DeleteRow(id: Id)
      requires Valid()
      modifies this
      ensures Valid() && State() == Apply(old(State()), Delete(id))
    {
      ApplyKeepsIndex(State(), Delete(id));
      if id in nodes {
        nodes := nodes - {id};
        RemoveIndexRows(id);
      }
    }

    method RemoveIndexRows(id: Id)
      modifies this`fts
      ensures fts == WithoutNode(old(fts), id)
    {
      var kept: seq<FtsRow> := [];
      var i := 0;
      while i < |fts|
        invariant 0 <= i <= |fts|
        invariant kept + WithoutNode(fts[i..], id) == WithoutNode(fts, id)
      {
        assert fts[i..][1..] == fts[i + 1..];
        if fts[i].nodeId != id { kept := kept + [fts[i]]; }
        i := i + 1;
      }
      fts := kept;
    }

    /** The SELECT that joins the index with the table. */
    method Join(passes: (FtsRow, Row) -> bool) returns (ids: seq<Id>)
      ensures ids == Joined(State(), 0, passes)
    {
      ids := [];
      var i := 0;
      while i < |fts|
        invariant 0 <= i <= |fts|
        invariant ids + Joined(State(), i, passes) == Joined(State(), 0, passes)
      {
        var f := fts[i];
        if f.nodeId in nodes && IsLiveText(nodes, f.nodeId) && passes(f, nodes[f.nodeId]) {
          ids := ids + [f.nodeId];
        }
        i := i + 1;
      }
    }

    /** The SELECT over the table alone. */
    method Scan(passes: Row -> bool) returns (ids: seq<Id>)
      ensures Lists(ids, LiveAmong(nodes, nodes.Keys, passes))
    {
      ids := [];
      var left := nodes.Keys;
      ghost var seen: set<Id> := {};
      while left != {}
        invariant seen !! left && seen + left == nodes.Keys
        invariant Lists(ids, LiveAmong(nodes, seen, passes))
        decreases left
      {
        var id :| id in left;
        left := left - {id};
        LiveAmongAdd(nodes, seen, id, passes);
        seen := seen + {id};
        if !nodes[id].tombstone && passes(nodes[id]) {
          ids := ids + [id];
        }
      }
      assert seen == nodes.Keys;
    }

    method QuerySymbolExact(sem: Semantics, value: string) returns (ids: seq<Id>)
      requires Valid()
      ensures Lists(ids, ExactScan(nodes, value))
    {
      if |value| < 3 {
        ids := Scan((n: Row) => n.kind.SymbolKind? && n.symbolValue == Some(value));
        assert ExactScan(nodes, value)
            == LiveAmong(nodes, nodes.Keys, (n: Row) => n.kind.SymbolKind? && n.symbolValue == Some(value));
      } else {
        ids := Join(ExactPass(sem, value));
        ExactAgreesWithScan(State(), sem, value);
      }
    }

    /**
     * The regex search, for any pattern. It lists what holds the literals, and so what the full scan finds
     * exactly when every text found by the scan holds them.
     */
    method QuerySymbolRegex(sem: Semantics, pattern: string, test: string -> bool) returns (ids: seq<Id>)
      requires Valid()
      ensures Lists(ids, NarrowedScan(nodes, sem, RequiredLiterals(pattern), test))
      ensures Lists(ids, FullScan(nodes, test)) <==> LosesNothing(nodes, sem, RequiredLiterals(pattern), test)
      ensures forall re :: Compiles(sem, pattern, re, test) ==> Lists(ids, FullScan(nodes, test))
    {
      var literals := ExtractRequiredLiterals(pattern);
      if |literals| == 0 {
        ids := Scan(TextPass(test));
        NothingToHold(nodes, sem, test);
      } else {
        ids := Join(NarrowedPass(sem, MatchExpression(literals), test));
        NarrowedLists(State(), sem, literals, test);
      }
      ListedWhen(nodes, sem, pattern, test, ids);
    }
  }

  lemma {:induction false} ListedWhen(nodes: map<Id, Row>, sem: Semantics, pattern: string, test: string -> bool,
                                      ids: seq<Id>)
    requires forall id :: id in nodes ==> nodes[id].Wf()
    requires Lists(ids, NarrowedScan(nodes, sem, RequiredLiterals(pattern), test))
    ensures Lists(ids, FullScan(nodes, test)) <==> LosesNothing(nodes, sem, RequiredLiterals(pattern), test)
    ensures forall re :: Compiles(sem, pattern, re, test) ==> Lists(ids, FullScan(nodes, test))
  {
    NarrowedIsFullWhen(nodes, sem, RequiredLiterals(pattern), test);
    SameListing(ids, NarrowedScan(nodes, sem, RequiredLiterals(pattern), test), FullScan(nodes, test));
    forall re | Compiles(sem, pattern, re, test) ensures Lists(ids, FullScan(nodes, test)) {
      FragmentLosesNothing(nodes, sem, pattern, re, test);
    }
  }
}
