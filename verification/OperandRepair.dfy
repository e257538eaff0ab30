/** Recovery inside one clause: inserting empty operands where the grammar asks for one. */
module OperandRepair {
  import opened Tokens

  const ROUNDS: nat := 4

  /** Expected names are held without the quotes the generated parser puts around them. */
  predicate ExpectsOperand(expected: seq<string>) {
    "error expression" in expected
  }

  predicate ClosesOperand(kind: Kind) {
    kind.As? || kind.When? || kind.Then? || kind.Else? || kind.End? || kind.Where?
  }

  predicate IsOperator(kind: Kind) {
    match kind
    case Plus | Minus | Star | Slash | Percent | Caret => true
    case And | Or | Xor | Not => true
    case Equal | NotEqual | Less | LessEqual | Greater | GreaterEqual => true
    case _ => false
  }

  function Position(tokens: seq<Token>, token: Token, from: nat): (p: Option<nat>)
    requires from <= |tokens|
    ensures p.Some? ==> from <= p.value < |tokens| && tokens[p.value] == token && token !in tokens[from..p.value]
    ensures p.None? ==> token !in tokens[from..]
    decreases |tokens| - from
  {
    if from == |tokens| then None
    else if tokens[from] == token then Some(from)
    else Position(tokens, token, from + 1)
  }

  /** Where the error says an operand is missing, before looking at what was expected. */
  function ErrorIndex(stream: seq<Token>, error: Error): Option<nat> {
    match error
    case UnrecognizedEof(_, _) => if stream == [] then None else Some(|stream|)
    case UnrecognizedToken(token, _) => if token.kind.ErrorExpression? then None else Position(stream, token, 0)
    case _ => None
  }

  function Expected(error: Error): seq<string> {
    match error
    case UnrecognizedEof(_, expected) => expected
    case UnrecognizedToken(_, expected) => expected
    case _ => []
  }

  /** The insertion point: where the error is, or before a structural keyword that directly
      follows an operator and was read as the operand. */
  function RepairPoint(stream: seq<Token>, error: Error): (p: Option<nat>)
    ensures p.Some? ==> p.value <= |stream| && stream != []
  {
    match ErrorIndex(stream, error)
    case None => None
    case Some(index) =>
      if ExpectsOperand(Expected(error)) then Some(index)
      else if index >= 2 && ClosesOperand(stream[index - 1].kind) && IsOperator(stream[index - 2].kind)
      then Some(index - 1)
      else None
  }

  function OperandAt(stream: seq<Token>, index: nat): Token
    requires index <= |stream| && stream != []
  {
    var location := if index < |stream| then stream[index].start else stream[|stream| - 1].end;
    Token(location, ErrorExpression, location)
  }

  function Insert(stream: seq<Token>, index: nat): seq<Token>
    requires index <= |stream| && stream != []
  {
    stream[..index] + ([OperandAt(stream, index)] + stream[index..])
  }

  /** One repair of a stream, if its error points at a missing operand. */
  function Fix(stream: seq<Token>, error: Error): Option<seq<Token>> {
    match RepairPoint(stream, error)
    case None => None
    case Some(index) => Some(Insert(stream, index))
  }

  type Fixer = (seq<Token>, Error) -> Option<seq<Token>>

  /** How the repair rounds end, and the streams they tried. */
  datatype Repaired<+V> = Repaired(clause: Option<V>, left: nat, tried: seq<seq<Token>>)

  function Rounds<V>(parse: seq<Token> -> Outcome<V>, fix: Fixer, stream: seq<Token>, error: Error, attempts: nat,
                     rounds: nat, tried: seq<seq<Token>>): Repaired<V>
    decreases rounds
  {
    if rounds == 0 || attempts == 0 then Repaired(None, attempts, tried)
    else
      match fix(stream, error)
      case None => Repaired(None, attempts, tried)
      case Some(repaired) =>
        match parse(repaired)
        case Parsed(clause) => Repaired(Some(clause), attempts - 1, tried + [repaired])
        case Failed(next) => Rounds(parse, fix, repaired, next, attempts - 1, rounds - 1, tried + [repaired])
  }

  function Repair<V>(parse: seq<Token> -> Outcome<V>, tokens: seq<Token>, error: Error, attempts: nat): Repaired<V> {
    Rounds(parse, Fix, tokens, error, attempts, ROUNDS, [])
  }

  method RecoverExpressionOperands<V>(parse: seq<Token> -> Outcome<V>, tokens: seq<Token>, error: Error, attempts: nat)
    returns (clause: Option<V>, left: nat, tried: seq<seq<Token>>)
    ensures Repaired(clause, left, tried) == Repair(parse, tokens, error, attempts)
  {
    clause, left, tried := RunRounds(parse, Fix, tokens, error, attempts);
  }

  method RunRounds<V>(parse: seq<Token> -> Outcome<V>, fix: Fixer, tokens: seq<Token>, first: Error, attempts: nat)
    returns (clause: Option<V>, left: nat, tried: seq<seq<Token>>)
    ensures Repaired(clause, left, tried) == Rounds(parse, fix, tokens, first, attempts, ROUNDS, [])
  {
    left, tried := attempts, [];
    var repaired, error := tokens, first;
    for round := 0 to ROUNDS
      invariant Rounds(parse, fix, repaired, error, left, ROUNDS - round, tried)
             == Rounds(parse, fix, tokens, first, attempts, ROUNDS, [])
    {
      if left == 0 {
        return None, left, tried;
      }
      var next := fix(repaired, error);
      if next.None? {
        return None, left, tried;
      }
      repaired := next.value;
      tried := tried + [repaired];
      left := left - 1;
      match parse(repaired) {
        case Parsed(value) =>
          return Some(value), left, tried;
        case Failed(failure) =>
          error := failure;
      }
    }
    clause := None;
  }

  // ---------- repair only inserts ----------

  /** The stream without its injected operands. */
  function Erase(stream: seq<Token>): seq<Token> {
    if stream == [] then []
    else if stream[0].kind.ErrorExpression? then Erase(stream[1..])
    else [stream[0]] + Erase(stream[1..])
  }

  lemma {:induction false} EraseConcat(a: seq<Token>, b: seq<Token>)
    ensures Erase(a + b) == Erase(a) + Erase(b)
  {
    if a == [] {
      assert a + b == b;
    } else {
      assert (a + b)[1..] == a[1..] + b;
      EraseConcat(a[1..], b);
    }
  }

  lemma EraseOperand(a: seq<Token>, operand: Token, b: seq<Token>)
    requires operand.kind.ErrorExpression?
    ensures Erase(a + ([operand] + b)) == Erase(a + b)
  {
    EraseConcat(a, [operand] + b);
    EraseConcat(a, b);
    assert ([operand] + b)[1..] == b;
  }

  lemma InsertErases(stream: seq<Token>, index: nat)
    requires index <= |stream| && stream != []
    ensures Erase(Insert(stream, index)) == Erase(stream)
  {
    EraseOperand(stream[..index], OperandAt(stream, index), stream[index..]);
    assert stream[..index] + stream[index..] == stream;
  }

  lemma InsertOrdered(stream: seq<Token>, index: nat)
    requires index <= |stream| && stream != [] && Ordered(stream)
    ensures Ordered(Insert(stream, index))
    ensures Insert(stream, index)[0].start == stream[0].start
    ensures Insert(stream, index)[|stream|].end == stream[|stream| - 1].end
  {
    var repaired := Insert(stream, index);
    var operand := OperandAt(stream, index);
    forall j | 0 <= j < |stream|
      ensures j < index ==> repaired[j] == stream[j] && stream[j].end <= operand.start
      ensures j >= index ==> repaired[j + 1] == stream[j] && operand.end <= stream[j].start
    {
    }
    forall i, j | 0 <= i < j < |repaired|
      ensures repaired[i].end <= repaired[j].start
    {
      if i < index && j > index {
        assert repaired[j] == stream[j - 1];
      }
    }
  }

  lemma {:induction false} EraseOfSource(stream: seq<Token>)
    requires forall i :: 0 <= i < |stream| ==> !stream[i].kind.ErrorExpression?
    ensures Erase(stream) == stream
  {
    if stream != [] {
      EraseOfSource(stream[1..]);
    }
  }

  /** k operands were inserted into the slice: erasing them gives it back, and the stream is
      still ordered, with the same extent. */
  ghost predicate HasInserted(tokens: seq<Token>, k: nat, stream: seq<Token>) {
    && |stream| == |tokens| + k && tokens != [] && stream != []
    && Erase(stream) == tokens && Ordered(stream)
    && stream[0].start == tokens[0].start
    && stream[|stream| - 1].end == tokens[|tokens| - 1].end
  }

  lemma InsertsOneMore(tokens: seq<Token>, k: nat, stream: seq<Token>, index: nat)
    requires HasInserted(tokens, k, stream) && index <= |stream|
    ensures HasInserted(tokens, k + 1, Insert(stream, index))
  {
    InsertErases(stream, index);
    InsertOrdered(stream, index);
  }

  /** An invariant of the streams tried, the k-th after k insertions. */
  ghost predicate Stable(fix: Fixer, inserted: (nat, seq<Token>) -> bool) {
    forall k: nat, stream, error :: inserted(k, stream) && fix(stream, error).Some?
      ==> inserted(k + 1, fix(stream, error).value)
  }

  /** Stream k of the list has k + 1 insertions. */
  ghost predicate AllInserted(inserted: (nat, seq<Token>) -> bool, tried: seq<seq<Token>>) {
    forall k: nat :: k < |tried| ==> inserted(k + 1, tried[k])
  }

  lemma {:induction false} RoundsKeep<V>(parse: seq<Token> -> Outcome<V>, fix: Fixer, stream: seq<Token>, error: Error,
                                         attempts: nat, rounds: nat, tried: seq<seq<Token>>,
                                         inserted: (nat, seq<Token>) -> bool)
    requires Stable(fix, inserted) && inserted(|tried|, stream)
    requires AllInserted(inserted, tried)
    ensures AllInserted(inserted, Rounds(parse, fix, stream, error, attempts, rounds, tried).tried)
    decreases rounds
  {
    if rounds > 0 && attempts > 0 && fix(stream, error).Some? {
      var repaired := fix(stream, error).value;
      var tried' := tried + [repaired];
      forall k: nat | k < |tried'|
        ensures inserted(k + 1, tried'[k])
      {
        assert k < |tried| ==> tried'[k] == tried[k];
      }
      if parse(repaired).Failed? {
        RoundsKeep(parse, fix, repaired, parse(repaired).error, attempts - 1, rounds - 1, tried', inserted);
      }
    }
  }

  /** Insertions are paid for one by one, there are no more than the rounds, and a clause comes
      from the last stream only. */
  lemma {:induction false} RoundsPay<V>(parse: seq<Token> -> Outcome<V>, fix: Fixer, stream: seq<Token>, error: Error,
                                        attempts: nat, rounds: nat, tried: seq<seq<Token>>)
    requires forall k :: 0 <= k < |tried| ==> parse(tried[k]).Failed?
    ensures var r := Rounds(parse, fix, stream, error, attempts, rounds, tried);
            && |tried| <= |r.tried| <= |tried| + rounds
            && r.left + |r.tried| == attempts + |tried|
            && (forall k :: 0 <= k < |r.tried| - 1 ==> parse(r.tried[k]).Failed?)
            && (r.clause.Some? ==> r.tried != [] && parse(r.tried[|r.tried| - 1]) == Parsed(r.clause.value))
            && (r.clause.None? ==> forall k :: 0 <= k < |r.tried| ==> parse(r.tried[k]).Failed?)
    decreases rounds
  {
    if rounds > 0 && attempts > 0 && fix(stream, error).Some? {
      var repaired := fix(stream, error).value;
      if parse(repaired).Failed? {
        RoundsPay(parse, fix, repaired, parse(repaired).error, attempts - 1, rounds - 1, tried + [repaired]);
      }
    }
  }

  ghost function Inserted(tokens: seq<Token>): (nat, seq<Token>) -> bool {
    (k: nat, stream) => HasInserted(tokens, k, stream)
  }

  lemma FixIsStable(tokens: seq<Token>)
    ensures Stable(Fix, Inserted(tokens))
  {
    forall k: nat, stream, error | HasInserted(tokens, k, stream) && Fix(stream, error).Some?
      ensures HasInserted(tokens, k + 1, Fix(stream, error).value)
    {
      InsertsOneMore(tokens, k, stream, RepairPoint(stream, error).value);
    }
  }

  // ---------- where an operand is inserted ----------

  /** Token k of the stream is where the error is, and the names were expected there: the first
      occurrence of the rejected token, or the end of the input. */
  ghost predicate IsErrorAt(stream: seq<Token>, error: Error, k: nat, expected: seq<string>) {
    || (error == UnrecognizedEof(error.Location(), expected) && k == |stream| > 0)
    || (&& error.UnrecognizedToken? && error.expected == expected && !error.token.kind.ErrorExpression?
        && k < |stream| && stream[k] == error.token && error.token !in stream[..k])
  }

  /** An operand between a and b. It sits where b begins, or where a ends. */
  ghost predicate IsBetween(stream: seq<Token>, repaired: seq<Token>, at: nat) {
    && 0 < |stream| && at <= |stream| && |repaired| == |stream| + 1
    && repaired[..at] == stream[..at] && repaired[at + 1..] == stream[at..]
    && var location := if at < |stream| then stream[at].start else stream[|stream| - 1].end;
      repaired[at] == Token(location, ErrorExpression, location)
  }

  /** The place for the operand: where it was expected; or else in front of a keyword that was
      read as the operand, directly in front of the error and directly behind an operator. */
  predicate IsPlace(stream: seq<Token>, k: nat, expected: seq<string>, at: nat)
    requires k <= |stream|
  {
    if "error expression" in expected then at == k
    else
      && k >= 2 && at == k - 1
      && stream[at].kind in {As, When, Then, Else, End, Where}
      && stream[at - 1].kind in {Plus, Minus, Star, Slash, Percent, Caret, And, Or, Xor, Not,
                                 Equal, NotEqual, Less, LessEqual, Greater, GreaterEqual}
  }

  /** The repaired stream has one operand more, in its place. */
  ghost predicate IsRepair(stream: seq<Token>, error: Error, repaired: seq<Token>) {
    exists k: nat, at: nat, expected :: IsRepairAt(stream, error, repaired, k, at, expected)
  }

  ghost predicate IsRepairAt(stream: seq<Token>, error: Error, repaired: seq<Token>, k: nat, at: nat,
                             expected: seq<string>)
  {
    k <= |stream| && IsErrorAt(stream, error, k, expected) && IsPlace(stream, k, expected, at)
    && IsBetween(stream, repaired, at)
  }

  lemma ErrorIndexIff(stream: seq<Token>, error: Error, k: nat, expected: seq<string>)
    ensures IsErrorAt(stream, error, k, expected)
       <==> ErrorIndex(stream, error) == Some(k) && expected == Expected(error)
  {
    if error.UnrecognizedToken? {
      PositionIff(stream, error.token, 0, k);
      assert k < |stream| ==> stream[0..k] == stream[..k];
    }
  }

  lemma {:induction false} PositionIff(stream: seq<Token>, token: Token, from: nat, k: nat)
    requires from <= |stream|
    ensures Position(stream, token, from) == Some(k)
       <==> from <= k < |stream| && stream[k] == token && token !in stream[from..k]
    decreases |stream| - from
  {
    if from < |stream| && stream[from] != token {
      PositionIff(stream, token, from + 1, k);
      assert from < k <= |stream| ==> stream[from..k] == [stream[from]] + stream[from + 1..k];
    } else if from < k < |stream| {
      assert stream[from] in stream[from..k];
    }
  }

  lemma PlaceIff(stream: seq<Token>, error: Error, k: nat, at: nat)
    requires ErrorIndex(stream, error) == Some(k)
    ensures k <= |stream|
    ensures IsPlace(stream, k, Expected(error), at) <==> RepairPoint(stream, error) == Some(at)
  {
    if k >= 2 && at == k - 1 {
      CloserIff(stream[at].kind);
      OperatorIff(stream[at - 1].kind);
    }
  }

  lemma CloserIff(kind: Kind)
    ensures ClosesOperand(kind) <==> kind in {As, When, Then, Else, End, Where}
  {
  }

  lemma OperatorIff(kind: Kind)
    ensures IsOperator(kind)
       <==> kind in {Plus, Minus, Star, Slash, Percent, Caret, And, Or, Xor, Not,
                     Equal, NotEqual, Less, LessEqual, Greater, GreaterEqual}
  {
  }

  lemma BetweenIff(stream: seq<Token>, repaired: seq<Token>, at: nat)
    requires at <= |stream| && stream != []
    ensures IsBetween(stream, repaired, at) <==> repaired == Insert(stream, at)
  {
    if IsBetween(stream, repaired, at) {
      assert repaired == repaired[..at] + ([repaired[at]] + repaired[at + 1..]);
    }
  }

  /** A stream is repaired exactly if its error asks for an operand, and in exactly one way. */
  lemma FixIff(stream: seq<Token>, error: Error, repaired: seq<Token>)
    ensures Fix(stream, error) == Some(repaired) <==> IsRepair(stream, error, repaired)
  {
    if Fix(stream, error) == Some(repaired) {
      var k, at := ErrorIndex(stream, error).value, RepairPoint(stream, error).value;
      ErrorIndexIff(stream, error, k, Expected(error));
      PlaceIff(stream, error, k, at);
      BetweenIff(stream, repaired, at);
      assert IsRepairAt(stream, error, repaired, k, at, Expected(error));
    }
    if k: nat, at: nat, expected :| IsRepairAt(stream, error, repaired, k, at, expected) {
      ErrorIndexIff(stream, error, k, expected);
      PlaceIff(stream, error, k, at);
      BetweenIff(stream, repaired, at);
    }
  }

  /** The stream in front of the k-th repair, and its error. */
  function StreamAt(tokens: seq<Token>, tried: seq<seq<Token>>, k: nat): seq<Token> {
    if 0 < k <= |tried| then tried[k - 1] else tokens
  }

  ghost predicate HasError<V>(parse: seq<Token> -> Outcome<V>, first: Error, tried: seq<seq<Token>>, k: nat,
                              error: Error)
  {
    if 0 < k <= |tried| then parse(tried[k - 1]) == Failed(error) else error == first
  }

  ghost predicate RepairsAt<V>(parse: seq<Token> -> Outcome<V>, tokens: seq<Token>, first: Error,
                               tried: seq<seq<Token>>, k: nat)
    requires k < |tried|
  {
    exists error :: HasError(parse, first, tried, k, error) && IsRepair(StreamAt(tokens, tried, k), error, tried[k])
  }

  /** Every tried stream is the repair of the one before it, by its own error. */
  ghost predicate AllRepair<V>(parse: seq<Token> -> Outcome<V>, tokens: seq<Token>, first: Error,
                               tried: seq<seq<Token>>)
  {
    forall k: nat :: k < |tried| ==> RepairsAt(parse, tokens, first, tried, k)
  }

  lemma AllRepairAppend<V>(parse: seq<Token> -> Outcome<V>, tokens: seq<Token>, first: Error, tried: seq<seq<Token>>,
                           error: Error, repaired: seq<Token>)
    requires AllRepair(parse, tokens, first, tried) && HasError(parse, first, tried, |tried|, error)
    requires IsRepair(StreamAt(tokens, tried, |tried|), error, repaired)
    ensures AllRepair(parse, tokens, first, tried + [repaired])
  {
    var tried' := tried + [repaired];
    forall k: nat | k < |tried'|
      ensures RepairsAt(parse, tokens, first, tried', k)
    {
      if k < |tried| {
        assert RepairsAt(parse, tokens, first, tried, k);
        var e :| HasError(parse, first, tried, k, e) && IsRepair(StreamAt(tokens, tried, k), e, tried[k]);
        assert HasError(parse, first, tried', k, e);
      } else {
        assert HasError(parse, first, tried', k, error);
      }
    }
  }

  /** Without a clause, the rounds end when four are over, the budget is, or no repair is left. */
  ghost predicate IsExhausted<V>(parse: seq<Token> -> Outcome<V>, tokens: seq<Token>, first: Error, r: Repaired<V>,
                                 rounds: nat)
  {
    || |r.tried| == rounds || r.left == 0
    || exists error :: HasError(parse, first, r.tried, |r.tried|, error)
                       && forall repaired :: !IsRepair(StreamAt(tokens, r.tried, |r.tried|), error, repaired)
  }

  /** The fixer finds the one repair of every stream. */
  ghost predicate IsFixer(fix: Fixer) {
    forall stream, error, repaired :: FixesTo(fix, stream, error, repaired)
  }

  ghost predicate FixesTo(fix: Fixer, stream: seq<Token>, error: Error, repaired: seq<Token>) {
    fix(stream, error) == Some(repaired) <==> IsRepair(stream, error, repaired)
  }

  lemma NoneRepairs(fix: Fixer, stream: seq<Token>, error: Error)
    requires IsFixer(fix) && fix(stream, error).None?
    ensures forall repaired :: !IsRepair(stream, error, repaired)
  {
    forall repaired
      ensures !IsRepair(stream, error, repaired)
    {
      assert FixesTo(fix, stream, error, repaired);
    }
  }

  lemma {:induction false} RoundsRepair<V>(parse: seq<Token> -> Outcome<V>, fix: Fixer, tokens: seq<Token>,
                                           first: Error, error: Error, attempts: nat, rounds: nat,
                                           tried: seq<seq<Token>>)
    requires IsFixer(fix) && AllRepair(parse, tokens, first, tried)
    requires HasError(parse, first, tried, |tried|, error)
    ensures var r := Rounds(parse, fix, StreamAt(tokens, tried, |tried|), error, attempts, rounds, tried);
            && AllRepair(parse, tokens, first, r.tried)
            && (r.clause.None? ==> IsExhausted(parse, tokens, first, r, rounds + |tried|))
    decreases rounds
  {
    var stream := StreamAt(tokens, tried, |tried|);
    if rounds > 0 && attempts > 0 {
      if fix(stream, error).None? {
        NoneRepairs(fix, stream, error);
      } else {
        var repaired := fix(stream, error).value;
        assert FixesTo(fix, stream, error, repaired);
        AllRepairAppend(parse, tokens, first, tried, error, repaired);
        if parse(repaired).Failed? {
          RoundsRepair(parse, fix, tokens, first, parse(repaired).error, attempts - 1, rounds - 1,
                       tried + [repaired]);
        }
      }
    }
  }

  /** Each stream tried is the one repair of the stream before it, and without a clause the loop
      goes on for four rounds, until the budget is used up, or until no repair is left. */
  lemma RepairsInPlace<V>(parse: seq<Token> -> Outcome<V>, tokens: seq<Token>, error: Error, attempts: nat)
    ensures var r := Repair(parse, tokens, error, attempts);
            && AllRepair(parse, tokens, error, r.tried)
            && (r.clause.None? ==> IsExhausted(parse, tokens, error, r, 4))
  {
    forall stream, error', repaired
      ensures FixesTo(Fix, stream, error', repaired)
    {
      FixIff(stream, error', repaired);
    }
    RoundsRepair(parse, Fix, tokens, error, error, attempts, ROUNDS, []);
  }

  // ---------- all repairs together ----------

  /** Repairing a source slice: at most four streams, each the slice once its operands are
      erased, each one operand longer than the last, and each paid from the budget. */
  lemma RepairOnlyInserts<V>(parse: seq<Token> -> Outcome<V>, tokens: seq<Token>, error: Error, attempts: nat)
    requires FromSource(tokens) && tokens != []
    ensures var r := Repair(parse, tokens, error, attempts);
            && |r.tried| <= 4 && r.left + |r.tried| == attempts
            && AllInserted(Inserted(tokens), r.tried)
            && (forall k :: 0 <= k < |r.tried| - 1 ==> parse(r.tried[k]).Failed?)
            && (r.clause.Some? ==> r.tried != [] && parse(r.tried[|r.tried| - 1]) == Parsed(r.clause.value))
  {
    EraseOfSource(tokens);
    FixIsStable(tokens);
    RoundsKeep(parse, Fix, tokens, error, attempts, ROUNDS, [], Inserted(tokens));
    RoundsPay(parse, Fix, tokens, error, attempts, ROUNDS, []);
  }
}
