/**
 * The scanner that walks a pattern and collects literals that every match must
 * contain (packages/core/src/regexLiterals.ts).
 *
 * Three levels meet here. `ExtractRequiredLiterals` is the index loop of the
 * program. `RequiredLiterals` is the same walk as a function on the rest of the
 * text. `LiteralRuns` says on the syntax tree which runs the walk collects, and
 * `RunsOccur` shows that these occur in every match.
 */
module RegexLiterals {
  import opened Common
  import opened Characters
  import opened RegexSyntax

  const META: set<char> := {'.', '*', '+', '?', '|', '^', '$', '(', ')', '{', '}', '[', '\\'}

  predicate IsMeta(c: char) { c in META }

  /** The characters a quantifier starts with. */
  predicate IsQuantifierStart(c: char) { c == '?' || c == '*' || c == '+' || c == '{' }

  /** Characters that neither open, close nor escape anything in a skipped group. */
  predicate IsPlainInGroup(c: char) { c != '\\' && c != '(' && c != ')' }

  // ---- The walk on the rest of the pattern ------------------------------------

  /** Index of the first `c` at or after `start`, or -1. */
  function IndexOf(s: string, c: char, start: nat): (k: int)
    ensures -1 <= k < |s|
    ensures k >= 0 ==> start <= k && s[k] == c && forall m :: start <= m < k ==> s[m] != c
    ensures k == -1 ==> forall m :: start <= m < |s| ==> s[m] != c
    decreases |s| - start
  {
    if start >= |s| then -1
    else if s[start] == c then start
    else IndexOf(s, c, start + 1)
  }

  function Drop(s: string, n: nat): (rest: string)
    ensures |rest| == if n <= |s| then |s| - n else 0
  {
    if n <= |s| then s[n..] else ""
  }

  function Push(runs: seq<string>, run: string): seq<string> {
    if |run| >= 3 then runs + [run] else runs
  }

  function DropLast(s: string): string { if s == "" then "" else s[..|s| - 1] }

  /** A brace body of the form m, m, or m,n whose first number is the digit 0 alone. */
  predicate IsZeroBody(body: string) {
    && body != ""
    && body[0] == '0'
    && (|body| == 1 || (body[1] == ',' && AllDigits(body[2..])))
  }

  /** The text starts with a quantifier that allows zero repetitions. */
  predicate IsZeroQuantifier(s: string) {
    && s != ""
    && (s[0] == '?'
        || s[0] == '*'
        || (s[0] == '{' && IndexOf(s, '}', 1) != -1 && IsZeroBody(s[1..IndexOf(s, '}', 1)])))
  }

  function SkipQuantifier(s: string): (rest: string)
    requires IsZeroQuantifier(s)
    ensures |rest| < |s|
  {
    if s[0] == '{' then
      assert s[IndexOf(s, '}', 1)] == '}';
      s[IndexOf(s, '}', 0) + 1..]
    else s[1..]
  }

  function SkipOptional(s: string): (rest: string)
    ensures |rest| <= |s|
  {
    if IsZeroQuantifier(s) then SkipQuantifier(s) else s
  }

  /** The text after the `]` that closes a class; `s` starts inside the class. */
  function SkipClass(s: string): (rest: string)
    ensures |rest| <= |s|
    decreases |s|
  {
    if s == "" then ""
    else if s[0] == ']' then s[1..]
    else if s[0] == '\\' then SkipClass(Drop(s, 2))
    else SkipClass(s[1..])
  }

  /** The text after the `)` that brings the nesting depth to zero. */
  function SkipGroup(s: string, depth: nat): (rest: string)
    ensures |rest| <= |s|
    decreases |s|
  {
    if s == "" || depth == 0 then s
    else if s[0] == '\\' then SkipGroup(Drop(s, 2), depth)
    else if s[0] == '(' then SkipGroup(s[1..], depth + 1)
    else if s[0] == ')' then SkipGroup(s[1..], depth - 1)
    else SkipGroup(s[1..], depth)
  }

  /** What one round of the loop leaves: the rest of the pattern, or an early result. */
  datatype Round = Continue(rest: string, current: string, runs: seq<string>) | Stop(result: seq<string>)

  function Step(s: string, current: string, runs: seq<string>): (round: Round)
    requires s != ""
    ensures round.Continue? ==> |round.rest| < |s|
  {
    if s[0] == '\\' then
      if |s| == 1 then Stop(Push(runs, current))
      else if IsLiteralEscape(s[1]) then AfterLiteral(s[2..], current + [s[1]], runs)
      else if IsCharEscape(s[1]) then AfterLiteral(s[2..], current + [ControlChar(s[1])], runs)
      else Continue(s[2..], "", Push(runs, current))
    else if s[0] == '[' then
      Continue(SkipOptional(SkipClass(s[1..])), "", Push(runs, current))
    else if s[0] == '(' then
      Continue(SkipOptional(SkipGroup(s[1..], 1)), "", Push(runs, current))
    else if s[0] == '|' then
      Stop([])
    else if s[0] == '^' || s[0] == '$' then
      Continue(s[1..], "", Push(runs, current))
    else if IsMeta(s[0]) then
      Continue(AfterMeta(s), "",
               Push(runs, if IsQuantifierStart(s[0]) && s[0] != '+' then DropLast(current) else current))
    else
      AfterLiteral(s[1..], current + [s[0]], runs)
  }

  /** The rest after a metacharacter; an opening brace takes its closing brace along. */
  function AfterMeta(s: string): (rest: string)
    requires s != ""
    ensures |rest| < |s|
  {
    if s[0] != '{' then s[1..]
    else if IndexOf(s, '}', 0) == -1 then ""
    else s[IndexOf(s, '}', 0) + 1..]
  }

  /** A literal was appended: drop it again when the quantifier that follows allows zero of it. */
  function AfterLiteral(s: string, current: string, runs: seq<string>): (round: Round)
    ensures round.Continue? && |round.rest| <= |s|
  {
    if IsZeroQuantifier(s) then Continue(SkipQuantifier(s), "", Push(runs, DropLast(current)))
    else Continue(s, current, runs)
  }

  /** The loop from the point where `current` and `runs` were collected and `s` is left. */
  function Walk(s: string, current: string, runs: seq<string>): seq<string>
    decreases |s|
  {
    if s == "" then Push(runs, current)
    else
      match Step(s, current, runs)
      case Stop(result) => result
      case Continue(rest, current', runs') => Walk(rest, current', runs')
  }

  function RequiredLiterals(pattern: string): seq<string> { Walk(pattern, "", []) }

  // ---- The loop of the program ------------------------------------------------

  /** The same walk by index, as the program does it: the index may run past the end. */
  method ExtractRequiredLiterals(pattern: string) returns (literals: seq<string>)
    ensures literals == RequiredLiterals(pattern)
    ensures forall w :: w in literals ==> |w| >= 3
  {
    var runs: seq<string> := [];
    var current := "";
    var i := 0;
    while i < |pattern|
      invariant 0 <= i
      invariant Walk(Drop(pattern, i), current, runs) == RequiredLiterals(pattern)
      invariant forall w :: w in runs ==> |w| >= 3
    {
      var ch := pattern[i];
      ghost var before := Step(Drop(pattern, i), current, runs);
      if ch == '\\' {
        if i + 1 >= |pattern| {
          runs := Push(runs, current);
          current := "";
          break;
        }
        runs, current, i := FinishEscape(pattern, i, current, runs);
      } else if ch == '[' {
        runs := Push(runs, current);
        current := "";
        i := SkipClassAt(pattern, i + 1);
        i := SkipZeroQuantifier(pattern, i);
      } else if ch == '(' {
        runs := Push(runs, current);
        current := "";
        i := SkipGroupAt(pattern, i + 1);
        i := SkipZeroQuantifier(pattern, i);
      } else if ch == '|' {
        return [];
      } else if ch == '^' || ch == '$' {
        runs := Push(runs, current);
        current := "";
        i := i + 1;
      } else if IsMeta(ch) {
        runs, i := FinishMeta(pattern, i, current, runs);
        current := "";
      } else {
        current := current + [ch];
        runs, current, i := FinishLiteral(pattern, i + 1, current, runs);
      }
      assert before == Continue(Drop(pattern, i), current, runs);
    }
    literals := Push(runs, current);
  }

  method FinishEscape(pattern: string, at: nat, current: string, runs: seq<string>)
    returns (runs': seq<string>, current': string, next: nat)
    requires at + 1 < |pattern| && pattern[at] == '\\'
    ensures Continue(Drop(pattern, next), current', runs') == Step(Drop(pattern, at), current, runs)
    ensures (forall w :: w in runs ==> |w| >= 3) ==> forall w :: w in runs' ==> |w| >= 3
  {
    var escaped := pattern[at + 1];
    assert Drop(pattern, at)[2..] == Drop(pattern, at + 2);
    if IsLiteralEscape(escaped) {
      runs', current', next := FinishLiteral(pattern, at + 2, current + [escaped], runs);
    } else if IsCharEscape(escaped) {
      runs', current', next := FinishLiteral(pattern, at + 2, current + [ControlChar(escaped)], runs);
    } else {
      runs', current', next := Push(runs, current), "", at + 2;
    }
  }

  method FinishMeta(pattern: string, at: nat, current: string, runs: seq<string>)
    returns (runs': seq<string>, next: nat)
    requires at < |pattern| && IsMeta(pattern[at]) && pattern[at] != '\\'
    requires pattern[at] != '[' && pattern[at] != '(' && pattern[at] != '|' && pattern[at] != '^' && pattern[at] != '$'
    ensures Continue(Drop(pattern, next), "", runs') == Step(Drop(pattern, at), current, runs)
    ensures (forall w :: w in runs ==> |w| >= 3) ==> forall w :: w in runs' ==> |w| >= 3
  {
    var ch := pattern[at];
    runs' := Push(runs, if ch == '?' || ch == '*' || ch == '{' then DropLast(current) else current);
    if ch == '{' {
      var close := IndexOf(pattern, '}', at);
      IndexOfSuffix(pattern, '}', at, at);
      next := if close == -1 then |pattern| else close + 1;
    } else {
      next := at + 1;
    }
  }

  /** Searching the rest of a text is searching the text from there on. */
  lemma {:induction false} IndexOfSuffix(s: string, c: char, from: nat, start: nat)
    requires from <= start <= |s|
    ensures IndexOf(s, c, start) == -1 <==> IndexOf(s[from..], c, start - from) == -1
    ensures IndexOf(s, c, start) != -1 ==> IndexOf(s, c, start) == from + IndexOf(s[from..], c, start - from)
    decreases |s| - start
  {
    if start < |s| && s[start] != c {
      IndexOfSuffix(s, c, from, start + 1);
    }
  }

  method IsZeroQuantAt(pattern: string, at: nat) returns (zero: bool)
    ensures zero == IsZeroQuantifier(Drop(pattern, at))
  {
    if at >= |pattern| { return false; }
    var c := pattern[at];
    if c == '?' || c == '*' { return true; }
    if c != '{' { return false; }
    var close := IndexOf(pattern, '}', at + 1);
    IndexOfSuffix(pattern, '}', at, at + 1);
    if close == -1 { return false; }
    assert pattern[at + 1..close] == pattern[at..][1..close - at];
    return IsZeroBody(pattern[at + 1..close]);
  }

  // The two skips by index, and that they agree with the skips on the rest of the text.

  function ClassEnd(s: string, at: nat): nat
    decreases |s| - at
  {
    if at >= |s| || s[at] == ']' then at + 1 else ClassEnd(s, if s[at] == '\\' then at + 2 else at + 1)
  }

  function GroupEnd(s: string, at: nat, depth: nat): nat
    decreases |s| - at
  {
    if at >= |s| || depth == 0 then at
    else if s[at] == '\\' then GroupEnd(s, at + 2, depth)
    else GroupEnd(s, at + 1, if s[at] == '(' then depth + 1 else if s[at] == ')' then depth - 1 else depth)
  }

  lemma {:induction false} ClassEndSkips(s: string, at: nat)
    ensures Drop(s, ClassEnd(s, at)) == SkipClass(Drop(s, at))
    decreases |s| - at
  {
    if at < |s| {
      assert Drop(Drop(s, at), 2) == Drop(s, at + 2);
      assert Drop(s, at)[1..] == Drop(s, at + 1);
      if s[at] != ']' {
        ClassEndSkips(s, if s[at] == '\\' then at + 2 else at + 1);
      }
    }
  }

  lemma {:induction false} GroupEndSkips(s: string, at: nat, depth: nat)
    ensures Drop(s, GroupEnd(s, at, depth)) == SkipGroup(Drop(s, at), depth)
    decreases |s| - at
  {
    if at < |s| && depth > 0 {
      assert Drop(Drop(s, at), 2) == Drop(s, at + 2);
      assert Drop(s, at)[1..] == Drop(s, at + 1);
      if s[at] == '\\' {
        GroupEndSkips(s, at + 2, depth);
      } else {
        GroupEndSkips(s, at + 1, if s[at] == '(' then depth + 1 else if s[at] == ')' then depth - 1 else depth);
      }
    }
  }

  /** Steps past the class whose text starts at `at`. */
  method SkipClassAt(pattern: string, at: nat) returns (next: nat)
    ensures Drop(pattern, next) == SkipClass(Drop(pattern, at))
  {
    ClassEndSkips(pattern, at);
    next := at;
    while next < |pattern| && pattern[next] != ']'
      invariant ClassEnd(pattern, next) == ClassEnd(pattern, at)
    {
      if pattern[next] == '\\' { next := next + 2; } else { next := next + 1; }
    }
    next := next + 1;
  }

  /** Steps past the group whose text starts at `at`. */
  method SkipGroupAt(pattern: string, at: nat) returns (next: nat)
    ensures Drop(pattern, next) == SkipGroup(Drop(pattern, at), 1)
  {
    GroupEndSkips(pattern, at, 1);
    next := at;
    var depth := 1;
    while next < |pattern| && depth > 0
      invariant 0 <= depth
      invariant GroupEnd(pattern, next, depth) == GroupEnd(pattern, at, 1)
    {
      var c := pattern[next];
      if c == '\\' {
        next := next + 2;
      } else {
        if c == '(' {
          depth := depth + 1;
        } else if c == ')' {
          depth := depth - 1;
        }
        next := next + 1;
      }
    }
  }

  method SkipZeroQuantifier(pattern: string, at: nat) returns (next: nat)
    ensures Drop(pattern, next) == SkipOptional(Drop(pattern, at))
  {
    next := at;
    var zero := IsZeroQuantAt(pattern, at);
    if zero {
      if pattern[at] == '{' {
        IndexOfSuffix(pattern, '}', at, at);
        next := IndexOf(pattern, '}', at) + 1;
      } else {
        next := at + 1;
      }
    }
  }

  method FinishLiteral(pattern: string, at: nat, current: string, runs: seq<string>)
    returns (runs': seq<string>, current': string, next: nat)
    ensures Continue(Drop(pattern, next), current', runs') == AfterLiteral(Drop(pattern, at), current, runs)
    ensures (forall w :: w in runs ==> |w| >= 3) ==> forall w :: w in runs' ==> |w| >= 3
  {
    runs', current', next := runs, current, at;
    var zero := IsZeroQuantAt(pattern, at);
    if zero {
      runs', current' := Push(runs, DropLast(current)), "";
      next := SkipZeroQuantifier(pattern, at);
    }
  }

  // ---- What the walk collects, on the syntax tree -----------------------------

  /** The run that is being collected and the runs that are done. */
  datatype Progress = Progress(current: string, runs: seq<string>)

  function Close(p: Progress): Progress { Progress("", Push(p.runs, p.current)) }

  predicate IsLiteralAtom(a: Atom) { a.Literal? || a.EscapedLiteral? || a.EscapedControl? }

  /** The character a literal atom stands for. */
  function LiteralOf(a: Atom): char
    requires IsLiteralAtom(a)
  {
    if a.EscapedControl? then ControlChar(a.c) else a.c
  }

  /**
   * A plain literal extends the run. A literal that repeats at least once ends it, and so
   * does everything else; brace quantifiers are treated as if they allowed zero.
   */
  function TermRuns(t: Term, p: Progress): Progress {
    if t.Quantified? && IsLiteralAtom(t.atom) && t.quantifier == Once then
      Progress(p.current + [LiteralOf(t.atom)], p.runs)
    else if t.Quantified? && IsLiteralAtom(t.atom) && t.quantifier == Plus then
      Close(Progress(p.current + [LiteralOf(t.atom)], p.runs))
    else
      Close(p)
  }

  function AlternativeRuns(a: Alternative, p: Progress): Progress {
    match a
    case Empty => p
    case Seq(t, rest) => AlternativeRuns(rest, TermRuns(t, p))
  }

  function LiteralRuns(r: Regex): seq<string> {
    match r
    case Single(a) => Close(AlternativeRuns(a, Progress("", []))).runs
    case Or(_, _) => []
  }

  // ---- The walk over a printed pattern ----------------------------------------

  /** What follows a term does not continue its quantifier. */
  predicate NoQuantifier(s: string) { s == "" || !IsQuantifierStart(s[0]) }

  lemma {:induction false} PrintedStart(a: Alternative, g: bool, rest: string)
    requires WfAlternative(a, g) && NoQuantifier(rest)
    ensures NoQuantifier(PrintAlternative(a) + rest)
  {
    if a.Seq? {
      assert PrintTerm(a.term) != "" && NoQuantifier(PrintTerm(a.term)) by { TermStart(a.term, g); }
    }
  }

  lemma {:induction false} TermStart(t: Term, g: bool)
    requires WfTerm(t, g)
    ensures PrintTerm(t) != "" && NoQuantifier(PrintTerm(t))
  {
    if t.Quantified? {
      assert PrintAtom(t.atom) != "" && NoQuantifier(PrintAtom(t.atom));
    }
  }

  lemma {:induction false} FirstIndex(s: string, c: char, start: nat, k: nat)
    requires start <= k < |s| && s[k] == c && forall m :: start <= m < k ==> s[m] != c
    ensures IndexOf(s, c, start) == k
    decreases k - start
  {
    if start < k {
      FirstIndex(s, c, start + 1, k);
    }
  }

  /** The loop at a quantifier character that no literal has claimed. */
  lemma {:induction false} WalkBareQuantifier(s: string, current: string, runs: seq<string>)
    requires s != "" && IsQuantifierStart(s[0])
    ensures Walk(s, current, runs)
         == Walk(AfterMeta(s), "", Push(runs, if s[0] == '+' then current else DropLast(current)))
  {
    assert IsMeta(s[0]);
  }

  function LazyMark(q: Quantifier, isLazy: bool): string { if q != Once && isLazy then "?" else "" }

  lemma {:induction false} WalkLazyMark(q: Quantifier, isLazy: bool, rest: string, runs: seq<string>)
    ensures Walk(LazyMark(q, isLazy) + rest, "", runs) == Walk(rest, "", runs)
  {
    var s := LazyMark(q, isLazy) + rest;
    if q != Once && isLazy {
      WalkBareQuantifier(s, "", runs);
      assert s[1..] == rest;
    } else {
      assert s == rest;
    }
  }

  /** After a group, a class or an escape the quantifier is skipped one way or another. */
  lemma {:induction false} WalkIdleQuantifier(q: Quantifier, isLazy: bool, rest: string, runs: seq<string>)
    requires WfQuantifier(q) && NoQuantifier(rest)
    ensures Walk(PrintQuantifier(q, isLazy) + rest, "", runs) == Walk(rest, "", runs)
    ensures Walk(SkipOptional(PrintQuantifier(q, isLazy) + rest), "", runs) == Walk(rest, "", runs)
  {
    var s := PrintQuantifier(q, isLazy) + rest;
    if q == Once {
      assert s == rest;
    } else {
      var tail := LazyMark(q, isLazy) + rest;
      assert s == PrintBounds(q) + tail;
      BoundsPrefix(q, tail);
      WalkBareQuantifier(s, "", runs);
      WalkLazyMark(q, isLazy, rest, runs);
    }
  }

  /** Where a printed quantifier ends, and that it is recognised as allowing zero exactly when it is spelled so. */
  lemma {:induction false} BoundsPrefix(q: Quantifier, rest: string)
    requires WfQuantifier(q) && q != Once
    ensures var s := PrintBounds(q) + rest;
            && s != "" && IsQuantifierStart(s[0])
            && AfterMeta(s) == rest
            && (q in {Star, Optional} ==> IsZeroQuantifier(s))
            && (q == Plus ==> !IsZeroQuantifier(s))
            && (IsZeroQuantifier(s) ==> SkipQuantifier(s) == rest)
            && (s[0] == '+' <==> q == Plus)
  {
    var s := PrintBounds(q) + rest;
    if q.Exactly? || q.AtLeast? || q.Between? {
      var k := |PrintBounds(q)| - 1;
      assert s[k] == '}';
      FirstIndex(s, '}', 0, k);
      FirstIndex(s, '}', 1, k);
    }
    assert s[|PrintBounds(q)|..] == rest;
  }

  /** A literal atom was read; its quantifier and the text behind it remain. */
  lemma {:induction false} WalkLiteralQuantifier(c: char, q: Quantifier, isLazy: bool, rest: string, p: Progress)
    requires WfQuantifier(q) && NoQuantifier(rest)
    ensures var round := AfterLiteral(PrintQuantifier(q, isLazy) + rest, p.current + [c], p.runs);
            var after := if q == Once then Progress(p.current + [c], p.runs)
                         else if q == Plus then Close(Progress(p.current + [c], p.runs)) else Close(p);
            Walk(round.rest, round.current, round.runs) == Walk(rest, after.current, after.runs)
  {
    var s := PrintQuantifier(q, isLazy) + rest;
    if q == Once {
      assert s == rest;
    } else {
      var tail := LazyMark(q, isLazy) + rest;
      assert s == PrintBounds(q) + tail;
      BoundsPrefix(q, tail);
      assert DropLast(p.current + [c]) == p.current;
      var kept := if q == Plus then p.current + [c] else p.current;
      WalkLazyMark(q, isLazy, rest, Push(p.runs, kept));
      if !IsZeroQuantifier(s) {
        WalkBareQuantifier(s, p.current + [c], p.runs);
      }
    }
  }

  /** A well-formed class body holds no bare closing bracket. */
  lemma {:induction false} ClassSkipped(body: string, g: bool, rest: string)
    requires WfClassBody(body, g)
    ensures SkipClass(body + "]" + rest) == rest
    decreases |body|
  {
    var s := body + "]" + rest;
    if body == "" {
      assert s[1..] == rest;
    } else if body[0] == '\\' {
      ClassSkipped(body[2..], g, rest);
      assert Drop(s, 2) == body[2..] + "]" + rest;
    } else {
      ClassSkipped(body[1..], g, rest);
      assert s[1..] == body[1..] + "]" + rest;
    }
  }

  // Printed syntax inside a group is balanced: the skip passes over it at the same depth.

  lemma {:induction false} RegexBalanced(r: Regex, rest: string, depth: nat)
    requires WfRegex(r, true) && depth > 0
    ensures SkipGroup(PrintRegex(r) + rest, depth) == SkipGroup(rest, depth)
    decreases r, 0
  {
    match r
    case Single(a) => AlternativeBalanced(a, rest, depth);
    case Or(a, others) =>
      var tail := PrintRegex(others) + rest;
      assert PrintRegex(r) + rest == PrintAlternative(a) + ("|" + tail);
      AlternativeBalanced(a, "|" + tail, depth);
      PlainSkipped("|", tail, depth);
      RegexBalanced(others, rest, depth);
  }

  lemma {:induction false} AlternativeBalanced(a: Alternative, rest: string, depth: nat)
    requires WfAlternative(a, true) && depth > 0
    ensures SkipGroup(PrintAlternative(a) + rest, depth) == SkipGroup(rest, depth)
    decreases a
  {
    match a
    case Empty => assert PrintAlternative(a) + rest == rest;
    case Seq(t, tail) =>
      assert PrintAlternative(a) + rest == PrintTerm(t) + (PrintAlternative(tail) + rest);
      TermBalanced(t, PrintAlternative(tail) + rest, depth);
      AlternativeBalanced(tail, rest, depth);
  }

  lemma {:induction false} TermBalanced(t: Term, rest: string, depth: nat)
    requires WfTerm(t, true) && depth > 0
    ensures SkipGroup(PrintTerm(t) + rest, depth) == SkipGroup(rest, depth)
    decreases t
  {
    match t
    case Assertion(_) =>
      assert Drop(PrintTerm(t) + rest, |PrintTerm(t)|) == rest;
    case Look(ahead, negated, body) =>
      GroupBalanced(LookPrefix(ahead, negated), body, rest, depth);
    case Quantified(atom, q, isLazy) =>
      var qs := PrintQuantifier(q, isLazy);
      assert PrintTerm(t) + rest == PrintAtom(atom) + (qs + rest);
      AtomBalanced(atom, qs + rest, depth);
      PlainSkipped(qs, rest, depth);
  }

  lemma {:induction false} AtomBalanced(a: Atom, rest: string, depth: nat)
    requires WfAtom(a, true) && depth > 0
    ensures SkipGroup(PrintAtom(a) + rest, depth) == SkipGroup(rest, depth)
    decreases a
  {
    var s := PrintAtom(a) + rest;
    if a.Group? {
      GroupBalanced(GroupPrefix(a.kind), a.inner, rest, depth);
    } else if a.Class? {
      assert s[1..] == a.body + ("]" + rest);
      ClassBalanced(a.body, "]" + rest, depth);
      assert ("]" + rest)[1..] == rest;
    } else if a.UnicodeEscape? {
      assert s[2..] == a.hex + rest;
      PlainSkipped(a.hex, rest, depth);
    } else {
      assert Drop(s, |PrintAtom(a)|) == rest;
    }
  }

  lemma {:induction false} GroupBalanced(prefix: string, inner: Regex, rest: string, depth: nat)
    requires WfRegex(inner, true) && depth > 0
    requires forall i :: 0 <= i < |prefix| ==> IsPlainInGroup(prefix[i])
    ensures SkipGroup("(" + prefix + PrintRegex(inner) + ")" + rest, depth) == SkipGroup(rest, depth)
    decreases inner, 1
  {
    var s := "(" + prefix + PrintRegex(inner) + ")" + rest;
    assert s[1..] == prefix + (PrintRegex(inner) + (")" + rest));
    PlainSkipped(prefix, PrintRegex(inner) + (")" + rest), depth + 1);
    RegexBalanced(inner, ")" + rest, depth + 1);
    assert (")" + rest)[1..] == rest;
  }

  lemma {:induction false} ClassBalanced(body: string, rest: string, depth: nat)
    requires WfClassBody(body, true) && depth > 0
    ensures SkipGroup(body + rest, depth) == SkipGroup(rest, depth)
    decreases |body|
  {
    if body == "" {
      assert body + rest == rest;
    } else if body[0] == '\\' {
      assert Drop(body + rest, 2) == body[2..] + rest;
      ClassBalanced(body[2..], rest, depth);
    } else {
      assert (body + rest)[1..] == body[1..] + rest;
      ClassBalanced(body[1..], rest, depth);
    }
  }

  lemma {:induction false} PlainSkipped(plain: string, rest: string, depth: nat)
    requires depth > 0 && forall i :: 0 <= i < |plain| ==> IsPlainInGroup(plain[i])
    ensures SkipGroup(plain + rest, depth) == SkipGroup(rest, depth)
    decreases |plain|
  {
    if plain == "" {
      assert plain + rest == rest;
    } else {
      assert (plain + rest)[1..] == plain[1..] + rest;
      PlainSkipped(plain[1..], rest, depth);
    }
  }

  /** One printed term moves the walk as `TermRuns` says. */
  lemma {:induction false} WalkTerm(t: Term, rest: string, p: Progress)
    requires WfTerm(t, false) && NoQuantifier(rest)
    ensures var after := TermRuns(t, p);
            Walk(PrintTerm(t) + rest, p.current, p.runs) == Walk(rest, after.current, after.runs)
  {
    match t
    case Assertion(_) =>
      assert (PrintTerm(t) + rest)[|PrintTerm(t)|..] == rest;
    case Look(ahead, negated, body) =>
      WalkGroup(LookPrefix(ahead, negated), body, Once, false, rest, p);
      assert PrintQuantifier(Once, false) + rest == rest;
    case Quantified(atom, q, isLazy) =>
      WalkAtom(atom, q, isLazy, rest, p);
  }

  lemma {:induction false} WalkAtom(atom: Atom, q: Quantifier, isLazy: bool, rest: string, p: Progress)
    requires WfAtom(atom, false) && WfQuantifier(q) && NoQuantifier(rest)
    ensures var t := Quantified(atom, q, isLazy);
            var after := TermRuns(t, p);
            Walk(PrintTerm(t) + rest, p.current, p.runs) == Walk(rest, after.current, after.runs)
  {
    var tail := PrintQuantifier(q, isLazy) + rest;
    var s := PrintTerm(Quantified(atom, q, isLazy)) + rest;
    assert s == PrintAtom(atom) + tail;
    if IsLiteralAtom(atom) {
      WalkLiteralAtom(atom, tail, p);
      WalkLiteralQuantifier(LiteralOf(atom), q, isLazy, rest, p);
    } else if atom.Group? {
      WalkGroup(GroupPrefix(atom.kind), atom.inner, q, isLazy, rest, p);
    } else {
      WalkOtherAtom(atom, tail, p);
      WalkIdleQuantifier(q, isLazy, rest, Push(p.runs, p.current));
    }
  }

  lemma {:induction false} WalkLiteralAtom(atom: Atom, tail: string, p: Progress)
    requires WfAtom(atom, false) && IsLiteralAtom(atom)
    ensures var round := AfterLiteral(tail, p.current + [LiteralOf(atom)], p.runs);
            Walk(PrintAtom(atom) + tail, p.current, p.runs) == Walk(round.rest, round.current, round.runs)
  {
    var s := PrintAtom(atom) + tail;
    if atom.Literal? {
      StepPlain(atom.c, tail, p);
    } else {
      StepEscape(atom.c, tail, p);
      assert atom.EscapedControl? ==> !IsLiteralEscape(atom.c);
    }
    WalkStep(s, p.current, p.runs, AfterLiteral(tail, p.current + [LiteralOf(atom)], p.runs));
  }

  lemma {:induction false} WalkStep(s: string, current: string, runs: seq<string>, round: Round)
    requires s != "" && round.Continue? && Step(s, current, runs) == round
    ensures Walk(s, current, runs) == Walk(round.rest, round.current, round.runs)
  {
  }

  lemma {:induction false} StepPlain(c: char, tail: string, p: Progress)
    requires !IsSyntaxCharacter(c)
    ensures Step([c] + tail, p.current, p.runs) == AfterLiteral(tail, p.current + [c], p.runs)
  {
    assert ([c] + tail)[1..] == tail;
    
  }

  lemma {:induction false} StepEscape(c: char, tail: string, p: Progress)
    requires IsLiteralEscape(c) || IsCharEscape(c)
    ensures Step(['\\', c] + tail, p.current, p.runs)
         == AfterLiteral(tail, p.current + [if IsLiteralEscape(c) then c else ControlChar(c)], p.runs)
  {
    assert (['\\', c] + tail)[2..] == tail;
  }

  lemma {:induction false} WalkOtherAtom(atom: Atom, tail: string, p: Progress)
    requires WfAtom(atom, false) && !IsLiteralAtom(atom) && !atom.Group?
    ensures var s, runs := PrintAtom(atom) + tail, Push(p.runs, p.current);
            Walk(s, p.current, p.runs) == Walk(if atom.Class? then SkipOptional(tail) else tail, "", runs)
  {
    var s := PrintAtom(atom) + tail;
    assert s[|PrintAtom(atom)|..] == tail;
    if atom.Class? {
      ClassSkipped(atom.body, false, tail);
      assert s[1..] == atom.body + "]" + tail;
    } else if atom.Dot? {
      assert AfterMeta(s) == tail;
    } else {
      assert s[0] == '\\' && !IsLiteralEscape(s[1]) && !IsCharEscape(s[1]);
    }
  }

  lemma {:induction false} WalkGroup(prefix: string, inner: Regex, q: Quantifier, isLazy: bool, rest: string,
                                     p: Progress)
    requires WfRegex(inner, true) && WfQuantifier(q) && NoQuantifier(rest)
    requires forall i :: 0 <= i < |prefix| ==> IsPlainInGroup(prefix[i])
    ensures var after := Close(p);
            Walk("(" + prefix + PrintRegex(inner) + ")" + (PrintQuantifier(q, isLazy) + rest), p.current, p.runs)
            == Walk(rest, after.current, after.runs)
  {
    var tail := PrintQuantifier(q, isLazy) + rest;
    var s := "(" + prefix + PrintRegex(inner) + ")" + tail;
    GroupSkipped(prefix, inner, tail);
    WalkStep(s, p.current, p.runs, Continue(SkipOptional(tail), "", Push(p.runs, p.current)));
    WalkIdleQuantifier(q, isLazy, rest, Push(p.runs, p.current));
  }

  lemma {:induction false} GroupSkipped(prefix: string, inner: Regex, tail: string)
    requires WfRegex(inner, true)
    requires forall i :: 0 <= i < |prefix| ==> IsPlainInGroup(prefix[i])
    ensures SkipGroup(("(" + prefix + PrintRegex(inner) + ")" + tail)[1..], 1) == tail
  {
    var s := "(" + prefix + PrintRegex(inner) + ")" + tail;
    assert s[1..] == prefix + (PrintRegex(inner) + (")" + tail));
    PlainSkipped(prefix, PrintRegex(inner) + (")" + tail), 1);
    RegexBalanced(inner, ")" + tail, 1);
    assert (")" + tail)[1..] == tail;
  }

  lemma {:induction false} WalkAlternative(a: Alternative, rest: string, p: Progress)
    requires WfAlternative(a, false) && NoQuantifier(rest)
    ensures var after := AlternativeRuns(a, p);
            Walk(PrintAlternative(a) + rest, p.current, p.runs) == Walk(rest, after.current, after.runs)
    decreases a
  {
    match a
    case Empty => assert PrintAlternative(a) + rest == rest;
    case Seq(t, tail) =>
      assert PrintAlternative(a) + rest == PrintTerm(t) + (PrintAlternative(tail) + rest);
      PrintedStart(tail, false, rest);
      WalkTerm(t, PrintAlternative(tail) + rest, p);
      WalkAlternative(tail, rest, TermRuns(t, p));
  }

  /** The walk over a printed pattern collects exactly the runs of the tree. */
  lemma {:induction false} WalkPrinted(r: Regex)
    requires WfRegex(r, false)
    ensures RequiredLiterals(PrintRegex(r)) == LiteralRuns(r)
  {
    var a := r.alternative;
    var rest := if r.Single? then "" else "|" + PrintRegex(r.others);
    assert PrintRegex(r) == PrintAlternative(a) + rest;
    WalkAlternative(a, rest, Progress("", []));
  }

  // ---- Every collected run occurs in every match --------------------------------

  /** `w` stands at position `at` of the text, up to case. */
  predicate OccursAt(sem: Semantics, t: string, at: int, w: string) {
    0 <= at && at + |w| <= |t| && forall i :: 0 <= i < |w| ==> sem.fold(t[at + i]) == sem.fold(w[i])
  }

  predicate Occurs(sem: Semantics, t: string, w: string) {
    exists at :: 0 <= at <= |t| && OccursAt(sem, t, at, w)
  }

  /** With the text matched up to `i`: the finished runs occur, and the open run ends at `i`. */
  ghost predicate Sound(sem: Semantics, t: string, i: nat, p: Progress) {
    && i <= |t|
    && OccursAt(sem, t, i - |p.current|, p.current)
    && forall w :: w in p.runs ==> Occurs(sem, t, w)
  }

  lemma {:induction false} CloseSound(sem: Semantics, t: string, i: nat, j: nat, p: Progress)
    requires Sound(sem, t, i, p) && j <= |t|
    ensures Sound(sem, t, j, Close(p))
  {
    assert Occurs(sem, t, p.current);
  }

  lemma {:induction false} TimesEnd(sem: Semantics, a: Atom, n: nat, t: string, i: nat, j: nat)
    requires MatchTimes(sem, a, n, t, i, j)
    ensures j <= |t|
    decreases n
  {
    if n > 0 {
      var k: nat :| MatchAtom(sem, a, t, i, k) && MatchTimes(sem, a, n - 1, t, k, j);
      TimesEnd(sem, a, n - 1, t, k, j);
    }
  }

  lemma {:induction false} TermEnd(sem: Semantics, m: Term, t: string, i: nat, j: nat)
    requires MatchTerm(sem, m, t, i, j)
    ensures j <= |t|
  {
    if m.Quantified? {
      var n: nat :|
        && Min(m.quantifier) <= n
        && (Max(m.quantifier).Some? ==> n <= Max(m.quantifier).value)
        && MatchTimes(sem, m.atom, n, t, i, j);
      TimesEnd(sem, m.atom, n, t, i, j);
    }
  }

  /** A literal atom that is repeated at least once finds its character first. */
  lemma {:induction false} LiteralFirst(sem: Semantics, m: Term, t: string, i: nat, j: nat)
    requires m.Quantified? && IsLiteralAtom(m.atom) && m.quantifier in {Once, Plus}
    requires MatchTerm(sem, m, t, i, j)
    ensures i < |t| && sem.fold(LiteralOf(m.atom)) == sem.fold(t[i])
    ensures m.quantifier == Once ==> j == i + 1
  {
    var n: nat :|
      && Min(m.quantifier) <= n
      && (Max(m.quantifier).Some? ==> n <= Max(m.quantifier).value)
      && MatchTimes(sem, m.atom, n, t, i, j);
    var k := FirstOfTimes(sem, m.atom, n, t, i, j);
    assert MatchChar(sem, m.atom, t[i]);
  }

  lemma {:induction false} FirstOfTimes(sem: Semantics, a: Atom, n: nat, t: string, i: nat, j: nat) returns (k: nat)
    requires n > 0 && MatchTimes(sem, a, n, t, i, j)
    ensures MatchAtom(sem, a, t, i, k) && MatchTimes(sem, a, n - 1, t, k, j)
  {
    k :| MatchAtom(sem, a, t, i, k) && MatchTimes(sem, a, n - 1, t, k, j);
  }

  lemma {:induction false} TermSound(sem: Semantics, m: Term, t: string, i: nat, j: nat, p: Progress)
    requires MatchTerm(sem, m, t, i, j) && Sound(sem, t, i, p)
    ensures Sound(sem, t, j, TermRuns(m, p))
  {
    TermEnd(sem, m, t, i, j);
    if m.Quantified? && IsLiteralAtom(m.atom) && m.quantifier in {Once, Plus} {
      LiteralFirst(sem, m, t, i, j);
      var extended := Progress(p.current + [LiteralOf(m.atom)], p.runs);
      assert Sound(sem, t, i + 1, extended);
      CloseSound(sem, t, i + 1, j, extended);
    } else {
      CloseSound(sem, t, i, j, p);
    }
  }

  lemma {:induction false} AlternativeSound(sem: Semantics, a: Alternative, t: string, i: nat, j: nat, p: Progress)
    requires MatchAlternative(sem, a, t, i, j) && Sound(sem, t, i, p)
    ensures Sound(sem, t, j, AlternativeRuns(a, p))
    decreases a
  {
    if a.Seq? {
      var k: nat :| MatchTerm(sem, a.term, t, i, k) && MatchAlternative(sem, a.rest, t, k, j);
      TermSound(sem, a.term, t, i, k, p);
      AlternativeSound(sem, a.rest, t, k, j, TermRuns(a.term, p));
    }
  }

  lemma {:induction false} RunsOccur(sem: Semantics, r: Regex, t: string, w: string)
    requires Found(sem, r, t) && w in LiteralRuns(r)
    ensures Occurs(sem, t, w)
  {
    var i: nat, j: nat :| i <= |t| && MatchRegex(sem, r, t, i, j);
    AlternativeSound(sem, r.alternative, t, i, j, Progress("", []));
    CloseSound(sem, t, j, j, AlternativeRuns(r.alternative, Progress("", [])));
  }

  /** The invariant the search relies on: what the scanner returns occurs in every match. */
  lemma {:induction false} LiteralsRequired(sem: Semantics, r: Regex, t: string)
    requires WfRegex(r, false) && Found(sem, r, t)
    ensures forall w :: w in RequiredLiterals(PrintRegex(r)) ==> Occurs(sem, t, w)
  {
    WalkPrinted(r);
    forall w | w in LiteralRuns(r) ensures Occurs(sem, t, w) {
      RunsOccur(sem, r, t, w);
    }
  }

  // ---- The scanner does find literals -----------------------------------------

  function PlainText(s: string, tail: Alternative): Alternative {
    if s == "" then tail else Seq(Quantified(Literal(s[0]), Once, false), PlainText(s[1..], tail))
  }

  lemma {:induction false} PlainTextRuns(s: string, tail: Alternative, p: Progress)
    ensures AlternativeRuns(PlainText(s, tail), p) == AlternativeRuns(tail, Progress(p.current + s, p.runs))
    decreases |s|
  {
    if s == "" {
      assert p.current + s == p.current;
    } else {
      PlainTextRuns(s[1..], tail, Progress(p.current + [s[0]], p.runs));
      assert p.current + [s[0]] + s[1..] == p.current + s;
    }
  }

  lemma {:induction false} PlainTextPrinted(s: string, tail: Alternative)
    requires forall i :: 0 <= i < |s| ==> !IsSyntaxCharacter(s[i])
    requires WfAlternative(tail, false)
    ensures WfAlternative(PlainText(s, tail), false)
    ensures PrintAlternative(PlainText(s, tail)) == s + PrintAlternative(tail)
    decreases |s|
  {
    if s != "" {
      PlainTextPrinted(s[1..], tail);
      PlainTermPrinted(s[0], PlainText(s[1..], tail));
      assert s == [s[0]] + s[1..];
    }
  }

  lemma {:induction false} PlainTermPrinted(c: char, rest: Alternative)
    requires !IsSyntaxCharacter(c) && WfAlternative(rest, false)
    ensures WfAlternative(Seq(Quantified(Literal(c), Once, false), rest), false)
    ensures PrintAlternative(Seq(Quantified(Literal(c), Once, false), rest)) == [c] + PrintAlternative(rest)
  {
    assert PrintTerm(Quantified(Literal(c), Once, false)) == [c];
  }

  /**
   * Plain text of three characters or more on both sides of any other term (a group, a
   * class, an anchor, a lookaround, whatever its quantifier) is extracted in full.
   */
  lemma {:induction false} PlainTextExtracted(before: string, gap: Term, after: string)
    requires |before| >= 3 && |after| >= 3
    requires forall i :: 0 <= i < |before| ==> !IsSyntaxCharacter(before[i])
    requires forall i :: 0 <= i < |after| ==> !IsSyntaxCharacter(after[i])
    requires WfTerm(gap, false) && (gap.Quantified? ==> !IsLiteralAtom(gap.atom))
    ensures RequiredLiterals(before + PrintTerm(gap) + after) == [before, after]
  {
    var right := Seq(gap, PlainText(after, Empty));
    PlainTextPrinted(after, Empty);
    PrintSeq(gap, PlainText(after, Empty));
    PlainTextPrinted(before, right);
    assert before + (PrintTerm(gap) + (after + "")) == before + PrintTerm(gap) + after;
    WalkPrinted(Single(PlainText(before, right)));
    PlainTextRuns(before, right, Progress("", []));
    PlainTextRuns(after, Empty, Progress("", [before]));
    assert "" + before == before && "" + after == after;
    assert TermRuns(gap, Progress(before, [])) == Progress("", [before]);
  }

  lemma {:induction false} PrintSeq(t: Term, rest: Alternative)
    ensures PrintAlternative(Seq(t, rest)) == PrintTerm(t) + PrintAlternative(rest)
  {
  }

  lemma {:induction false} PrintAlone(t: Term)
    ensures PrintRegex(Single(Seq(t, Empty))) == PrintTerm(t)
  {
    PrintSeq(t, Empty);
    assert PrintTerm(t) + "" == PrintTerm(t);
  }

  lemma {:induction false} PrintOnce(a: Atom)
    ensures PrintTerm(Quantified(a, Once, false)) == PrintAtom(a)
  {
    assert PrintQuantifier(Once, false) == "" + "";
    assert PrintAtom(a) + "" == PrintAtom(a);
  }

  // ---- Outside the fragment -----------------------------------------------------

  /**
   * The four digits of a Unicode escape are read as a literal of four characters, which
   * no text that the escape matches alone can hold. The pattern is outside the fragment.
   */
  lemma {:induction false} UnicodeEscapeMisread(sem: Semantics, hex: string)
    requires IsHexCode(hex)
    ensures var r := Single(Seq(Quantified(UnicodeEscape(hex), Once, false), Empty));
            var t := [CharOf(HexValue(hex))];
            && !WfRegex(r, false)
            && Found(sem, r, t)
            && RequiredLiterals(PrintRegex(r)) == [hex]
            && !Occurs(sem, t, hex)
  {
    var m := Quantified(UnicodeEscape(hex), Once, false);
    var r := Single(Seq(m, Empty));
    FoundAlone(sem, UnicodeEscape(hex), CharOf(HexValue(hex)));
    PrintOnce(m.atom);
    PrintAlone(m);
    EscapeOutsideFragment(m);
    UnicodeEscapeWalk(hex);
  }

  lemma {:induction false} EscapeOutsideFragment(m: Term)
    requires m.Quantified? && m.atom.UnicodeEscape?
    ensures !WfRegex(Single(Seq(m, Empty)), false)
  {
    assert !WfAtom(m.atom, false);
    assert !WfTerm(m, false);
    assert !WfAlternative(Seq(m, Empty), false);
  }

  /** A one-character atom alone matches a text of the one character it accepts. */
  lemma {:induction false} FoundAlone(sem: Semantics, a: Atom, ch: char)
    requires !a.Group? && MatchChar(sem, a, ch)
    ensures Found(sem, Single(Seq(Quantified(a, Once, false), Empty)), [ch])
  {
    var m := Quantified(a, Once, false);
    assert MatchTimes(sem, a, 0, [ch], 1, 1) && MatchAtom(sem, a, [ch], 0, 1);
    assert MatchTimes(sem, a, 1, [ch], 0, 1);
    assert MatchTerm(sem, m, [ch], 0, 1) && MatchAlternative(sem, Empty, [ch], 1, 1);
    assert MatchRegex(sem, Single(Seq(m, Empty)), [ch], 0, 1);
  }

  lemma {:induction false} UnicodeEscapeWalk(hex: string)
    requires IsHexCode(hex)
    ensures RequiredLiterals("\\u" + hex) == [hex]
  {
    var s := "\\u" + hex;
    assert s[2..] == hex;
    WalkStep(s, "", [], Continue(hex, "", []));
    var plain := Single(PlainText(hex, Empty));
    PlainTextPrinted(hex, Empty);
    assert PrintRegex(plain) == hex + "" == hex;
    WalkPrinted(plain);
    PlainTextRuns(hex, Empty, Progress("", []));
    assert "" + hex == hex;
  }

  /**
   * A bare parenthesis in a class inside a group ends the skipped group early: the pattern
   * `([x)]s)?` matches the empty text for all plain texts `x` and `s`, yet `]s` is returned for it.
   */
  lemma {:induction false} ParenthesisInClassMisread(sem: Semantics, x: string, s: string)
    requires |s| >= 2 && forall i :: 0 <= i < |s| ==> !IsSyntaxCharacter(s[i])
    requires forall i :: 0 <= i < |x| ==> IsPlainInGroup(x[i]) && x[i] != ']'
    ensures var inner := Single(Seq(Quantified(Class(x + ")"), Once, false), PlainText(s, Empty)));
            var r := Single(Seq(Quantified(Group(Capturing, inner), Optional, false), Empty));
            && WfRegex(inner, false) && !WfRegex(r, false)
            && Found(sem, r, "")
            && RequiredLiterals(PrintRegex(r)) == ["]" + s]
            && !Occurs(sem, "", "]" + s)
  {
    var body := x + ")";
    var inner := Single(Seq(Quantified(Class(body), Once, false), PlainText(s, Empty)));
    var m := Quantified(Group(Capturing, inner), Optional, false);
    var r := Single(Seq(m, Empty));
    LateParenthesis(x);
    assert WfRegex(inner, false) && !WfRegex(r, false) by {
      ClassThenText(body, s);
      OutsideFragment(m.atom);
    }
    assert Found(sem, r, "") by { FoundEmpty(sem, m.atom); }
    assert PrintRegex(r) == "([" + x + ")]" + s + ")?" by {
      ClassThenText(body, s);
      PrintOptionalGroup(inner);
      PrintAlone(m);
      Regroup("(", "[", x, ")", "]", s, ")?");
      assert "(" + "[" == "([" && ")" + "]" == ")]";
    }
    ParenthesisInClassWalk(x, s);
  }

  lemma {:induction false} Regroup(a: string, b: string, x: string, c: string, d: string, s: string, e: string)
    ensures a + (b + (x + c) + d + s) + e == (a + b) + x + (c + d) + s + e
  {
  }

  lemma {:induction false} LateParenthesis(x: string)
    requires forall i :: 0 <= i < |x| ==> IsPlainInGroup(x[i]) && x[i] != ']'
    ensures WfClassBody(x + ")", false) && !WfClassBody(x + ")", true)
    decreases |x|
  {
    if x != "" {
      assert (x + ")")[1..] == x[1..] + ")";
      LateParenthesis(x[1..]);
    }
  }

  lemma {:induction false} OutsideFragment(a: Atom)
    requires a.Group? && !WfRegex(a.inner, true)
    ensures !WfRegex(Single(Seq(Quantified(a, Optional, false), Empty)), false)
  {
    assert !WfTerm(Quantified(a, Optional, false), false);
  }

  lemma {:induction false} ClassThenText(body: string, s: string)
    requires WfClassBody(body, false) && !WfClassBody(body, true)
    requires forall i :: 0 <= i < |s| ==> !IsSyntaxCharacter(s[i])
    ensures var inner := Single(Seq(Quantified(Class(body), Once, false), PlainText(s, Empty)));
            WfRegex(inner, false) && !WfRegex(inner, true) && PrintRegex(inner) == "[" + body + "]" + s
  {
    var class_ := Quantified(Class(body), Once, false);
    PlainTextPrinted(s, Empty);
    PrintOnce(class_.atom);
    PrintSeq(class_, PlainText(s, Empty));
    assert s + "" == s;
    assert !WfTerm(class_, true) && WfTerm(class_, false);
  }

  lemma {:induction false} PrintOptionalGroup(inner: Regex)
    ensures PrintTerm(Quantified(Group(Capturing, inner), Optional, false)) == "(" + PrintRegex(inner) + ")?"
  {
    var m := Quantified(Group(Capturing, inner), Optional, false);
    var body := PrintRegex(inner);
    assert PrintAtom(m.atom) == "(" + body + ")" by {
      assert "(" + "" == "(";
    }
    assert PrintQuantifier(Optional, false) == "?";
    assert "(" + body + ")" + "?" == "(" + body + ")?";
  }

  lemma {:induction false} FoundEmpty(sem: Semantics, a: Atom)
    ensures Found(sem, Single(Seq(Quantified(a, Optional, false), Empty)), "")
  {
    var m := Quantified(a, Optional, false);
    assert MatchTimes(sem, a, 0, "", 0, 0);
    assert MatchTerm(sem, m, "", 0, 0) && MatchAlternative(sem, Empty, "", 0, 0);
    assert MatchRegex(sem, Single(Seq(m, Empty)), "", 0, 0);
  }

  lemma {:induction false} ParenthesisInClassWalk(x: string, s: string)
    requires |s| >= 2 && forall i :: 0 <= i < |s| ==> !IsSyntaxCharacter(s[i])
    requires forall i :: 0 <= i < |x| ==> IsPlainInGroup(x[i]) && x[i] != ']'
    ensures RequiredLiterals("([" + x + ")]" + s + ")?") == ["]" + s]
  {
    var tail := "]" + s + ")?";
    var p := "([" + x + ")]" + s + ")?";
    assert SkipGroup(p[1..], 1) == tail by {
      assert p[1..] == ("[" + x) + (")" + tail) && (")" + tail)[1..] == tail;
      PlainSkipped("[" + x, ")" + tail, 1);
      assert SkipGroup(tail, 0) == SkipGroup(")" + tail, 1);
    }
    WalkOpenGroup(p, tail);
    assert tail == ("]" + s) + ")?";
    WalkPlain("]" + s, ")?", "", []);
    assert "" + ("]" + s) == "]" + s;
    WalkClosing("]" + s);
  }

  lemma {:induction false} WalkOpenGroup(p: string, tail: string)
    requires p != "" && p[0] == '(' && SkipGroup(p[1..], 1) == tail && NoQuantifier(tail)
    ensures Walk(p, "", []) == Walk(tail, "", [])
  {
    WalkStep(p, "", [], Continue(tail, "", []));
  }

  lemma {:induction false} WalkClosing(current: string)
    requires |current| >= 3
    ensures Walk(")?", current, []) == [current]
  {
    assert ")?"[1..] == "?" && "?"[1..] == "";
    WalkStep(")?", current, [], Continue("?", "", [current]));
    WalkStep("?", "", [current], Continue("", "", [current]));
  }

  lemma {:induction false} WalkPlain(s: string, rest: string, current: string, runs: seq<string>)
    requires NoQuantifier(rest) && forall i :: 0 <= i < |s| ==> !IsMeta(s[i])
    ensures Walk(s + rest, current, runs) == Walk(rest, current + s, runs)
    decreases |s|
  {
    if s == "" {
      assert s + rest == rest && current + s == current;
    } else {
      assert (s + rest)[1..] == s[1..] + rest;
      assert NoQuantifier(s[1..] + rest);
      WalkStep(s + rest, current, runs, Continue(s[1..] + rest, current + [s[0]], runs));
      WalkPlain(s[1..], rest, current + [s[0]], runs);
      assert current + [s[0]] + s[1..] == current + s;
    }
  }
}
