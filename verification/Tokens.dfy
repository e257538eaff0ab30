/** Parser tokens, source spans and parse errors shared by the other modules.
    Offsets are abstract monotone positions in the source text. */
module Tokens {

  datatype Option<+T> = None | Some(value: T)

  /** Terminals of the grammar. Keywords that the code below never singles out are
      `Keyword(name)`, and the remaining punctuation and literals are `Symbol(name)`.
      A raw lexer token has the same kind as the parser token it converts to; the
      kinds from `ErrorExpression` to `SetAll` are never produced by the lexer. */
  datatype Kind =
    | ErrorExpression | PatternComprehension | PatternExpression | LabelPredicate
    | RelationshipLabelExpression | QualifiedFunctionName | SetAll
    | Identifier | EscapedIdentifier | Parameter
    | All | And | As | Call | Create | Delete | Detach | Distinct | Else | End | False
    | Inf | Infinity | Is | Limit | Match | Merge | Nan | Not | Null | Offset | Optional
    | Or | Order | Path | Remove | Return | Set | Skip | Then | True | Union | Unwind
    | When | Where | With | Xor | Yield
    | Keyword(name: string)
    | LeftParen | RightParen | LeftBracket | RightBracket | LeftBrace | RightBrace
    | Comma | Dot | Colon | Semicolon | Pipe | Ampersand | Question | Dollar
    | Plus | Minus | Star | Slash | Percent | Caret | Bang
    | Equal | NotEqual | Less | LessEqual | Greater | GreaterEqual | LeftArrow | RightArrow
    | Symbol(name: string)

  datatype Token = Token(start: nat, kind: Kind, end: nat)

  /** A half-open source range. `Span::new` panics unless start <= end. */
  type Span = s: RawSpan | s.start <= s.end witness RawSpan(0, 0)
  datatype RawSpan = RawSpan(start: nat, end: nat)

  /** `Span::new`, whose assertion is the precondition. */
  function NewSpan(start: nat, end: nat): Span
    requires start <= end
  {
    RawSpan(start, end)
  }

  /** `Span::cover`: the smallest span around both. */
  function CoverOf(a: RawSpan, b: RawSpan): RawSpan {
    RawSpan(if a.start < b.start then a.start else b.start, if a.end > b.end then a.end else b.end)
  }

  /** The error values of the generated parsers. */
  datatype Error =
    | InvalidToken(location: nat)
    | UnrecognizedEof(location: nat, expected: seq<string>)
    | UnrecognizedToken(token: Token, expected: seq<string>)
    | ExtraToken(token: Token)
    | User(location: nat)
  {
    function Location(): nat {
      match this
      case InvalidToken(location) => location
      case UnrecognizedEof(location, _) => location
      case UnrecognizedToken(token, _) => token.start
      case ExtraToken(token) => token.start
      case User(location) => location
    }
  }

  datatype Outcome<+V> = Parsed(value: V) | Failed(error: Error)

  /** Spans are ordered, disjoint and well formed. Only an injected operand may be empty. */
  ghost predicate Ordered(tokens: seq<Token>) {
    && (forall i :: 0 <= i < |tokens| ==> tokens[i].start <= tokens[i].end)
    && (forall i, j :: 0 <= i < j < |tokens| ==> tokens[i].end <= tokens[j].start)
  }

  /** The invariant of every stream folded from source text. */
  ghost predicate FromSource(tokens: seq<Token>) {
    && Ordered(tokens)
    && (forall i :: 0 <= i < |tokens| ==> tokens[i].start < tokens[i].end)
    && (forall i :: 0 <= i < |tokens| ==> tokens[i].kind != ErrorExpression)
  }

  predicate IsContextualNameCandidate(kind: Kind) {
    match kind
    case Identifier | ErrorExpression | EscapedIdentifier | Parameter => false
    case PatternComprehension | PatternExpression | LabelPredicate => false
    case RelationshipLabelExpression | QualifiedFunctionName => false
    case LeftParen | RightParen | LeftBracket | RightBracket | LeftBrace | RightBrace => false
    case Comma | Dot | Colon | Semicolon | Pipe | Ampersand | Question | Dollar => false
    case Plus | Minus | Star | Slash | Percent | Caret | Bang => false
    case Equal | NotEqual | Less | LessEqual | Greater | GreaterEqual => false
    case LeftArrow | RightArrow | Symbol(_) => false
    case _ => true
  }

  predicate IsKeywordLiteral(kind: Kind) {
    kind.False? || kind.Inf? || kind.Infinity? || kind.Nan? || kind.Null? || kind.True?
  }

  predicate ClauseStarts(kind: Kind) {
    match kind
    case Match | Optional | Unwind | With | Return | Create => true
    case Merge | Set | Remove | Delete | Detach | Call => true
    case _ => false
  }

  predicate IsOpener(kind: Kind) {
    kind.LeftParen? || kind.LeftBracket? || kind.LeftBrace?
  }

  predicate IsCloser(kind: Kind) {
    kind.RightParen? || kind.RightBracket? || kind.RightBrace?
  }
}
