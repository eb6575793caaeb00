// Go's path.Match by its documented meaning.
module Glob {
  import opened Options

  datatype Token =
    | AnyRun                                              // '*': any sequence of non-/ characters
    | AnyOne                                              // '?': any single non-/ character
    | Class(negated: bool, ranges: seq<(char, char)>)     // '[' [ '^' ] { character-range } ']'
    | Exactly(c: char)

  // The grammar.  None is path.ErrBadPattern.
  function Parse(pattern: string): Option<seq<Token>>
    decreases |pattern|
  {
    if pattern == "" then Some([])
    else if pattern[0] == '*' then Prepend(AnyRun, Parse(pattern[1..]))
    else if pattern[0] == '?' then Prepend(AnyOne, Parse(pattern[1..]))
    else if pattern[0] == '\\' then
      if |pattern| == 1 then None else Prepend(Exactly(pattern[1]), Parse(pattern[2..]))
    else if pattern[0] == '[' then
      var negated := |pattern| > 1 && pattern[1] == '^';
      match ParseRanges(if negated then pattern[2..] else pattern[1..], 0)
      case None => None
      case Some((ranges, rest)) => Prepend(Class(negated, ranges), Parse(rest))
    else Prepend(Exactly(pattern[0]), Parse(pattern[1..]))
  }

  function Prepend(token: Token, tokens: Option<seq<Token>>): Option<seq<Token>> {
    match tokens
    case None => None
    case Some(ts) => Some([token] + ts)
  }

  // The ranges of a class up to and including its closing bracket.
  function ParseRanges(text: string, count: nat): (r: Option<(seq<(char, char)>, string)>)
    ensures r.Some? ==> |r.value.1| < |text|
    decreases |text|
  {
    if text != "" && text[0] == ']' && count > 0 then Some(([], text[1..]))
    else
      match ParseClassChar(text)
      case None => None
      case Some((lo, rest)) =>
        if rest[0] != '-' then AddRange((lo, lo), ParseRanges(rest, count + 1))
        else
          match ParseClassChar(rest[1..])
          case None => None
          case Some((hi, rest')) => AddRange((lo, hi), ParseRanges(rest', count + 1))
  }

  function AddRange(range: (char, char), tail: Option<(seq<(char, char)>, string)>): (r: Option<(seq<(char, char)>, string)>)
    ensures r.Some? <==> tail.Some?
    ensures r.Some? ==> r.value.1 == tail.value.1
  {
    match tail
    case None => None
    case Some((ranges, rest)) => Some(([range] + ranges, rest))
  }

  // One possibly escaped character; a class never ends the pattern here.
  function ParseClassChar(text: string): (r: Option<(char, string)>)
    ensures r.Some? ==> r.value.1 != "" && |r.value.1| < |text|
  {
    if text == "" || text[0] == '-' || text[0] == ']' then None
    else
      var body := if text[0] == '\\' then text[1..] else text;
      if |body| < 2 then None else Some((body[0], body[1..]))
  }

  predicate Accepts(token: Token, c: char) {
    match token
    case AnyRun => false
    case AnyOne => c != '/'
    case Class(negated, ranges) =>
      (exists i :: 0 <= i < |ranges| && ranges[i].0 <= c <= ranges[i].1) != negated
    case Exactly(d) => c == d
  }

  predicate TokensMatch(tokens: seq<Token>, s: string)
    decreases |tokens| + |s|
  {
    if tokens == [] then s == ""
    else if tokens[0].AnyRun? then
      TokensMatch(tokens[1..], s) || (s != "" && s[0] != '/' && TokensMatch(tokens, s[1..]))
    else s != "" && Accepts(tokens[0], s[0]) && TokensMatch(tokens[1..], s[1..])
  }

  // path.Match(pattern, s) reports a match and no error.
  predicate Matches(pattern: string, s: string) {
    Parse(pattern).Some? && TokensMatch(Parse(pattern).value, s)
  }
}
