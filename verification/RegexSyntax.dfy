/**
 * The regular-expression patterns that the symbol search accepts: an abstract
 * syntax that follows the grammar of ECMA-262 section 22.2.1, its concrete
 * spelling, and the matching relation of section 22.2.2 for a case-insensitive
 * search.
 *
 * A pattern is used with RegExp.test only, so all that matters is whether some
 * match exists. Greedy and lazy quantifiers try the same matches in different
 * orders, hence the relation does not distinguish them.
 */
module RegexSyntax {
  import opened Common
  import opened Characters

  // ---- Abstract syntax --------------------------------------------------------

  /** Disjunction: one alternative, or an alternative followed by `|`. */
  datatype Regex = Single(alternative: Alternative) | Or(alternative: Alternative, others: Regex)

  datatype Alternative = Empty | Seq(term: Term, rest: Alternative)

  datatype Term =
    | Assertion(position: Position)
    | Look(ahead: bool, negated: bool, body: Regex)
    | Quantified(atom: Atom, quantifier: Quantifier, isLazy: bool)

  datatype Position = TextStart | TextEnd | WordBoundary | NotWordBoundary

  datatype Atom =
    | Literal(c: char)            // a PatternCharacter
    | EscapedLiteral(c: char)     // a backslash and punctuation that stands for itself
    | EscapedControl(c: char)     // \n \t \r \f \v \0
    | EscapedOther(c: char)       // identity escapes the scanner does not know, such as \@
    | UnicodeEscape(hex: string)  // a backslash, u and four hexadecimal digits
    | ClassEscape(c: char)        // \d \D \w \W \s \S
    | Dot
    | Class(body: string)         // the raw text between [ and ]
    | Group(kind: GroupKind, inner: Regex)

  datatype GroupKind = Capturing | NonCapturing | Named(name: string)

  /** Bounds keep the digits as they are spelled, leading zeros included. */
  datatype Quantifier =
    | Once
    | Star
    | Plus
    | Optional
    | Exactly(min: string)
    | AtLeast(min: string)
    | Between(min: string, max: string)

  // ---- Concrete syntax --------------------------------------------------------

  function PrintRegex(r: Regex): string {
    match r
    case Single(a) => PrintAlternative(a)
    case Or(a, others) => PrintAlternative(a) + "|" + PrintRegex(others)
  }

  function PrintAlternative(a: Alternative): string {
    match a
    case Empty => ""
    case Seq(t, rest) => PrintTerm(t) + PrintAlternative(rest)
  }

  function PrintTerm(t: Term): string {
    match t
    case Assertion(TextStart) => "^"
    case Assertion(TextEnd) => "$"
    case Assertion(WordBoundary) => "\\b"
    case Assertion(NotWordBoundary) => "\\B"
    case Look(ahead, negated, body) => "(" + LookPrefix(ahead, negated) + PrintRegex(body) + ")"
    case Quantified(atom, q, isLazy) => PrintAtom(atom) + PrintQuantifier(q, isLazy)
  }

  function PrintAtom(a: Atom): string {
    match a
    case Literal(c) => [c]
    case EscapedLiteral(c) => ['\\', c]
    case EscapedControl(c) => ['\\', c]
    case EscapedOther(c) => ['\\', c]
    case UnicodeEscape(hex) => "\\u" + hex
    case ClassEscape(c) => ['\\', c]
    case Dot => "."
    case Class(body) => "[" + body + "]"
    case Group(kind, inner) => "(" + GroupPrefix(kind) + PrintRegex(inner) + ")"
  }

  function LookPrefix(ahead: bool, negated: bool): string {
    if ahead then (if negated then "?!" else "?=") else (if negated then "?<!" else "?<=")
  }

  function GroupPrefix(kind: GroupKind): string {
    match kind
    case Capturing => ""
    case NonCapturing => "?:"
    case Named(name) => "?<" + name + ">"
  }

  function PrintQuantifier(q: Quantifier, isLazy: bool): string {
    PrintBounds(q) + if q != Once && isLazy then "?" else ""
  }

  function PrintBounds(q: Quantifier): string {
    match q
    case Once => ""
    case Star => "*"
    case Plus => "+"
    case Optional => "?"
    case Exactly(min) => "{" + min + "}"
    case AtLeast(min) => "{" + min + ",}"
    case Between(min, max) => "{" + min + "," + max + "}"
  }

  // ---- The fragment -----------------------------------------------------------

  predicate AllDigits(s: string) { forall i :: 0 <= i < |s| ==> IsDigit(s[i]) }

  const SYNTAX_CHARACTERS: set<char> :=
    {'^', '$', '\\', '.', '*', '+', '?', '(', ')', '[', ']', '{', '}', '|'}

  predicate IsSyntaxCharacter(c: char) { c in SYNTAX_CHARACTERS }

  /** Escapes that stand for the escaped character itself. */
  const LITERAL_ESCAPES: set<char> :=
    {'.', '*', '+', '?', '|', '^', '$', '(', ')', '{', '}', '[', ']', '/', '\\', '\"', '#', '=', '!', ':', '-'}

  predicate IsLiteralEscape(c: char) { c in LITERAL_ESCAPES }

  /** Escapes that stand for a control character. */
  const CHAR_ESCAPES: map<char, char> :=
    map['n' := '\n', 't' := '\t', 'r' := '\r', 'f' := '\U{000C}', 'v' := '\U{000B}', '0' := '\0']

  predicate IsCharEscape(c: char) { c in CHAR_ESCAPES }

  function ControlChar(c: char): char { if c in CHAR_ESCAPES then CHAR_ESCAPES[c] else c }

  /**
   * The patterns that have exactly one reading under the strict grammar and
   * whose escapes outside groups are all one character long. Inside a group or a
   * lookaround, which the scanner skips, a Unicode escape is fine too, but a
   * class may not hold a bare parenthesis: the scanner counts every one of them.
   */
  predicate WfRegex(r: Regex, inGroup: bool) {
    match r
    case Single(a) => WfAlternative(a, inGroup)
    case Or(a, others) => WfAlternative(a, inGroup) && WfRegex(others, inGroup)
  }

  predicate WfAlternative(a: Alternative, inGroup: bool) {
    match a
    case Empty => true
    case Seq(t, rest) =>
      && WfTerm(t, inGroup)
      && WfAlternative(rest, inGroup)
      && (t.Quantified? && t.atom == EscapedControl('0') && t.quantifier == Once ==>
           !StartsWithDigit(PrintAlternative(rest)))
  }

  predicate IsHexDigit(c: char) { IsDigit(c) || 'a' <= c <= 'f' || 'A' <= c <= 'F' }

  predicate IsHexCode(s: string) { |s| == 4 && forall i :: 0 <= i < 4 ==> IsHexDigit(s[i]) }

  predicate StartsWithDigit(s: string) { s != "" && IsDigit(s[0]) }

  predicate WfTerm(t: Term, inGroup: bool) {
    match t
    case Assertion(_) => true
    case Look(_, _, body) => WfRegex(body, true)
    case Quantified(atom, q, _) => WfAtom(atom, inGroup) && WfQuantifier(q)
  }

  predicate WfAtom(a: Atom, inGroup: bool) {
    match a
    case Literal(c) => !IsSyntaxCharacter(c)
    case EscapedLiteral(c) => IsLiteralEscape(c)
    case EscapedControl(c) => IsCharEscape(c)
    case EscapedOther(c) => c < '\U{0080}' && !IsWordChar(c) && !IsLiteralEscape(c)
    case UnicodeEscape(hex) => inGroup && IsHexCode(hex)
    case ClassEscape(c) => c in {'d', 'D', 'w', 'W', 's', 'S'}
    case Dot => true
    case Class(body) => WfClassBody(body, inGroup)
    case Group(kind, inner) => WfGroupKind(kind) && WfRegex(inner, true)
  }

  predicate WfGroupKind(kind: GroupKind) {
    kind.Named? ==> kind.name != "" && forall i :: 0 <= i < |kind.name| ==> IsWordChar(kind.name[i])
  }

  predicate WfClassBody(body: string, inGroup: bool) {
    if body == "" then true
    else if body[0] == '\\' then |body| > 1 && WfClassBody(body[2..], inGroup)
    else body[0] != ']' && (inGroup ==> body[0] != '(' && body[0] != ')') && WfClassBody(body[1..], inGroup)
  }

  predicate WfQuantifier(q: Quantifier) {
    match q
    case Exactly(min) => min != "" && AllDigits(min)
    case AtLeast(min) => min != "" && AllDigits(min)
    case Between(min, max) => min != "" && max != "" && AllDigits(min) && AllDigits(max)
    case _ => true
  }

  // ---- Matching ---------------------------------------------------------------

  /**
   * What the relation depends on besides the pattern. `fold` is the
   * canonical form under which characters are compared. `inClass` decides whether a
   * character belongs to a class, given the class text; every result holds for
   * all such functions.
   */
  datatype Semantics = Semantics(fold: char -> char, inClass: (string, char) -> bool)

  function Min(q: Quantifier): nat
  {
    match q
    case Once => 1
    case Star => 0
    case Plus => 1
    case Optional => 0
    case Exactly(min) => DigitsValue(min)
    case AtLeast(min) => DigitsValue(min)
    case Between(min, _) => DigitsValue(min)
  }

  function Max(q: Quantifier): Option<nat>
  {
    match q
    case Once => Some(1)
    case Star => None
    case Plus => None
    case Optional => Some(1)
    case Exactly(min) => Some(DigitsValue(min))
    case AtLeast(_) => None
    case Between(_, max) => Some(DigitsValue(max))
  }

  function DigitsValue(s: string): nat
  {
    if s == "" then 0
    else 10 * DigitsValue(s[..|s| - 1]) + DigitValue(s[|s| - 1])
  }

  function DigitValue(c: char): nat { if IsDigit(c) then c as int - '0' as int else 0 }

  function HexDigitValue(c: char): nat {
    if 'a' <= c <= 'f' then c as int - 'a' as int + 10
    else if 'A' <= c <= 'F' then c as int - 'A' as int + 10
    else DigitValue(c)
  }

  function HexValue(s: string): nat {
    if s == "" then 0 else 16 * HexValue(s[..|s| - 1]) + HexDigitValue(s[|s| - 1])
  }

  /** The character with the given code; surrogate codes have none here. */
  function CharOf(code: nat): char {
    if code < 0xD800 || 0xE000 <= code < 0x11_0000 then code as char else '\U{FFFD}'
  }

  /** The pattern matches `t` from position `i` up to position `j`. */
  ghost predicate MatchRegex(sem: Semantics, r: Regex, t: string, i: nat, j: nat)
    decreases r, 0
  {
    match r
    case Single(a) => MatchAlternative(sem, a, t, i, j)
    case Or(a, others) => MatchAlternative(sem, a, t, i, j) || MatchRegex(sem, others, t, i, j)
  }

  ghost predicate MatchAlternative(sem: Semantics, a: Alternative, t: string, i: nat, j: nat)
    decreases a, 0
  {
    match a
    case Empty => i == j <= |t|
    case Seq(first, rest) =>
      exists k: nat :: MatchTerm(sem, first, t, i, k) && MatchAlternative(sem, rest, t, k, j)
  }

  ghost predicate MatchTerm(sem: Semantics, m: Term, t: string, i: nat, j: nat)
    decreases m, 0
  {
    match m
    case Assertion(p) => i == j <= |t| && HoldsAt(p, t, i)
    case Look(true, negated, body) =>
      i == j <= |t| && (negated <==> !exists e: nat :: MatchRegex(sem, body, t, i, e))
    case Look(false, negated, body) =>
      i == j <= |t| && (negated <==> !exists b: nat :: MatchRegex(sem, body, t, b, i))
    case Quantified(atom, q, _) =>
      exists n: nat ::
        Min(q) <= n && (Max(q).Some? ==> n <= Max(q).value) && MatchTimes(sem, atom, n, t, i, j)
  }

  /** `n` matches of the atom, one after the other. */
  ghost predicate MatchTimes(sem: Semantics, a: Atom, n: nat, t: string, i: nat, j: nat)
    decreases a, n + 1
  {
    if n == 0 then i == j <= |t|
    else exists k: nat :: MatchAtom(sem, a, t, i, k) && MatchTimes(sem, a, n - 1, t, k, j)
  }

  ghost predicate MatchAtom(sem: Semantics, a: Atom, t: string, i: nat, j: nat)
    decreases a, 0
  {
    match a
    case Group(_, inner) => MatchRegex(sem, inner, t, i, j)
    case _ => i < |t| && j == i + 1 && MatchChar(sem, a, t[i])
  }

  /** A one-character atom accepts `ch`: some member of its set folds to the same character. */
  ghost predicate MatchChar(sem: Semantics, a: Atom, ch: char)
    requires !a.Group?
  {
    match a
    case Literal(c) => sem.fold(c) == sem.fold(ch)
    case EscapedLiteral(c) => sem.fold(c) == sem.fold(ch)
    case EscapedControl(c) => sem.fold(ControlChar(c)) == sem.fold(ch)
    case EscapedOther(c) => sem.fold(c) == sem.fold(ch)
    case UnicodeEscape(hex) => sem.fold(CharOf(HexValue(hex))) == sem.fold(ch)
    case ClassEscape(c) => exists x :: InClassEscape(c, x) && sem.fold(x) == sem.fold(ch)
    case Dot => exists x :: !IsLineTerminator(x) && sem.fold(x) == sem.fold(ch)
    case Class(body) => sem.inClass(body, ch)
  }

  predicate InClassEscape(escape: char, c: char) {
    match escape
    case 'd' => IsDigit(c)
    case 'D' => !IsDigit(c)
    case 'w' => IsWordChar(c)
    case 'W' => !IsWordChar(c)
    case 's' => IsWhiteSpace(c)
    case _ => !IsWhiteSpace(c)
  }

  predicate HoldsAt(p: Position, t: string, i: nat)
    requires i <= |t|
  {
    match p
    case TextStart => i == 0
    case TextEnd => i == |t|
    case WordBoundary => WordAt(t, i - 1) != WordAt(t, i)
    case NotWordBoundary => WordAt(t, i - 1) == WordAt(t, i)
  }

  predicate WordAt(t: string, i: int) { 0 <= i < |t| && IsWordChar(t[i]) }

  /** RegExp.test: the pattern matches somewhere in the text. */
  ghost predicate Found(sem: Semantics, r: Regex, t: string)
  {
    exists i: nat, j: nat :: i <= |t| && MatchRegex(sem, r, t, i, j)
  }
}
