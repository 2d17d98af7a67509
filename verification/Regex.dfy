/** The part of the std::regex default grammar that matters here: its text form and its meaning
    (section 31.13 of ISO/IEC 14882:2017, based on section 15.10 of ECMA-262, 5.1 edition). */
module Regexes {
  import opened Bytes

  /** What one character of the input can be matched against. */
  datatype Atom = Dot | Is(c: char) | IsNot(c: char)

  datatype Term = Begin | End | One(a: Atom) | Many(a: Atom)

  /** The line terminators a `char` string can hold. */
  predicate LineTerminator(c: char) { c == '\n' || c == '\r' }

  predicate NoLineTerminators(s: string) { forall i :: 0 <= i < |s| ==> !LineTerminator(s[i]) }

  predicate In(c: char, a: Atom) {
    match a
    case Dot => !LineTerminator(c)
    case Is(d) => c == d
    case IsNot(d) => c != d
  }

  predicate AllIn(s: string, a: Atom) { forall i :: 0 <= i < |s| ==> In(s[i], a) }

  /** The terms match all of `s` from position `i` on. */
  predicate MatchesFrom(ts: seq<Term>, s: string, i: nat)
    requires i <= |s|
    decreases |ts|
  {
    if |ts| == 0 then i == |s| else
      match ts[0]
      case Begin => i == 0 && MatchesFrom(ts[1..], s, i)
      case End => i == |s| && MatchesFrom(ts[1..], s, i)
      case One(a) => i < |s| && In(s[i], a) && MatchesFrom(ts[1..], s, i + 1)
      case Many(a) => exists j :: i <= j <= |s| && AllIn(s[i..j], a) && MatchesFrom(ts[1..], s, j)
  }

  predicate Alphanumeric(c: char) {
    ('0' <= c <= '9') || ('A' <= c <= 'Z') || ('a' <= c <= 'z')
  }

  predicate SyntaxCharacter(c: char) {
    c == '^' || c == '$' || c == '\\' || c == '.' || c == '*' || c == '+' || c == '?' || c == '('
    || c == ')' || c == '[' || c == ']' || c == '{' || c == '}' || c == '|'
  }

  predicate Quantifier(c: char) { c == '*' || c == '+' || c == '?' || c == '{' }

  /** One atom at the start of the text, and what follows it. An escape is read only when it can stand for nothing
      but the escaped character: before letters and digits it would be a class, a control character, an assertion
      or a back reference. A bracket is read only when it excludes one ordinary character. */
  function ParseAtom(t: string): (r: Option<(Atom, string)>)
    requires |t| > 0
    ensures r.Some? ==> |r.value.1| < |t|
  {
    if t[0] == '.' then Some((Dot, t[1..]))
    else if t[0] == '\\' then
      if |t| < 2 || Alphanumeric(t[1]) then None else Some((Is(t[1]), t[2..]))
    else if t[0] == '[' then
      if |t| >= 4 && t[1] == '^' && !SyntaxCharacter(t[2]) && t[2] != '-' && t[3] == ']'
      then Some((IsNot(t[2]), t[4..])) else None
    else if SyntaxCharacter(t[0]) then None
    else Some((Is(t[0]), t[1..]))
  }

  /** The terms a text stands for; `None` for ill-formed text and for text outside this part of the grammar
      (groups, alternatives, other quantifiers). */
  function ParseRegex(t: string): Option<seq<Term>>
    decreases |t|
  {
    if |t| == 0 then Some([])
    else if t[0] == '^' then Before(Begin, ParseRegex(t[1..]))
    else if t[0] == '$' then Before(End, ParseRegex(t[1..]))
    else
      match ParseAtom(t)
      case None => None
      case Some((a, rest)) =>
        if |rest| > 0 && rest[0] == '*' then
          if |rest| > 1 && rest[1] == '?' then None else Before(Many(a), ParseRegex(rest[1..]))
        else if |rest| > 0 && Quantifier(rest[0]) then None
        else Before(One(a), ParseRegex(rest))
  }

  function Before(t: Term, rest: Option<seq<Term>>): Option<seq<Term>> {
    match rest
    case None => None
    case Some(ts) => Some([t] + ts)
  }

  /** std::regex_match: the whole input matches. Ill-formed text matches nothing. */
  predicate RegexMatch(text: string, s: string) {
    match ParseRegex(text)
    case None => false
    case Some(ts) => MatchesFrom(ts, s, 0)
  }
}
