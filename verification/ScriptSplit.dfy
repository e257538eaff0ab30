/** Splitting a script into statements, against the regions that the lexer recognises.
    Offsets index characters, and line breaks are normalised first. */
module ScriptSplit {
  import opened Tokens
  import opened Quoting

  // ---------- what the lexer recognises ----------

  predicate IsPair(text: string, i: nat, a: char, b: char) {
    i + 1 < |text| && text[i] == a && text[i + 1] == b
  }

  /** The end of a nested comment that has `depth` levels open at i. */
  function CommentEnd(text: string, i: nat, depth: nat): (r: Option<nat>)
    requires i <= |text| && depth > 0
    ensures r.Some? ==> i < r.value <= |text|
    decreases |text| - i
  {
    if i + 1 >= |text| then None
    else if IsPair(text, i, '/', '*') then CommentEnd(text, i + 2, depth + 1)
    else if IsPair(text, i, '*', '/') then if depth == 1 then Some(i + 2) else CommentEnd(text, i + 2, depth - 1)
    else CommentEnd(text, i + 1, depth)
  }

  /** `lex_block_comment`. The comment opens just before `start`. */
  method LexBlockComment(text: string, start: nat) returns (r: Option<nat>)
    requires start <= |text|
    ensures r == CommentEnd(text, start, 1)
  {
    var offset, depth: nat := start, 1;
    while offset + 1 < |text|
      invariant start <= offset <= |text| && depth > 0
      invariant CommentEnd(text, start, 1) == CommentEnd(text, offset, depth)
      decreases |text| - offset
    {
      if IsPair(text, offset, '/', '*') {
        depth, offset := depth + 1, offset + 2;
      } else if IsPair(text, offset, '*', '/') {
        depth, offset := depth - 1, offset + 2;
        if depth == 0 {
          return Some(offset);
        }
      } else {
        offset := offset + 1;
      }
    }
    r := None;
  }

  /** What stands in a comment: characters that open or close nothing, and whole comments. */
  datatype Body = Done | Other(rest: Body) | Nested(inner: Body, rest: Body)

  function Width(b: Body): nat {
    match b
    case Done => 0
    case Other(rest) => 1 + Width(rest)
    case Nested(inner, rest) => 2 + Width(inner) + 2 + Width(rest)
  }

  predicate Fits(text: string, i: nat, b: Body)
    decreases b
  {
    match b
    case Done => true
    case Other(rest) =>
      i < |text| && !IsPair(text, i, '/', '*') && !IsPair(text, i, '*', '/') && Fits(text, i + 1, rest)
    case Nested(inner, rest) =>
      && IsPair(text, i, '/', '*') && Fits(text, i + 2, inner)
      && IsPair(text, i + 2 + Width(inner), '*', '/') && Fits(text, i + 2 + Width(inner) + 2, rest)
  }

  /** A body from i on, closed just before e. */
  predicate ClosesBody(text: string, i: nat, b: Body, e: nat) {
    Fits(text, i, b) && IsPair(text, i + Width(b), '*', '/') && e == i + Width(b) + 2
  }

  lemma {:induction false} PassesBody(text: string, i: nat, b: Body, depth: nat)
    requires i <= |text| && Fits(text, i, b) && depth > 0
    ensures i + Width(b) <= |text| && CommentEnd(text, i, depth) == CommentEnd(text, i + Width(b), depth)
    decreases b, 1
  {
    match b
    case Done =>
    case Other(rest) =>
      PassesBody(text, i + 1, rest, depth);
    case Nested(inner, rest) =>
      PassesNested(text, i, inner, depth);
      PassesBody(text, i + 2 + Width(inner) + 2, rest, depth);
  }

  lemma {:induction false} PassesNested(text: string, i: nat, inner: Body, depth: nat)
    requires IsPair(text, i, '/', '*') && ClosesBody(text, i + 2, inner, i + 2 + Width(inner) + 2) && depth > 0
    ensures CommentEnd(text, i, depth) == CommentEnd(text, i + 2 + Width(inner) + 2, depth)
    decreases inner, 2
  {
    PassesBody(text, i + 2, inner, depth + 1);
    CommentCloses(text, i + 2 + Width(inner), depth);
  }

  lemma CommentCloses(text: string, i: nat, depth: nat)
    requires IsPair(text, i, '*', '/') && depth > 0
    ensures CommentEnd(text, i, depth + 1) == CommentEnd(text, i + 2, depth)
  {
  }

  /** Where the walk ends, it has read a body, then `depth` closings with bodies between them. */
  lemma {:induction false} ReadsBody(text: string, i: nat, depth: nat) returns (b: Body)
    requires i <= |text| && depth > 0 && CommentEnd(text, i, depth).Some?
    ensures ClosesBody(text, i, b, i + Width(b) + 2)
    ensures CommentEnd(text, i, depth)
         == if depth == 1 then Some(i + Width(b) + 2) else CommentEnd(text, i + Width(b) + 2, depth - 1)
    decreases |text| - i
  {
    if IsPair(text, i, '/', '*') {
      var inner := ReadsBody(text, i + 2, depth + 1);
      var rest := ReadsBody(text, i + 2 + Width(inner) + 2, depth);
      b := Nested(inner, rest);
    } else if IsPair(text, i, '*', '/') {
      b := Done;
    } else {
      var rest := ReadsBody(text, i + 1, depth);
      b := Other(rest);
    }
  }

  /** The counter finds exactly the end of a properly nested comment. */
  lemma CommentEndIff(text: string, i: nat, e: nat)
    requires i <= |text|
    ensures CommentEnd(text, i, 1) == Some(e) <==> exists b :: ClosesBody(text, i, b, e)
  {
    if CommentEnd(text, i, 1) == Some(e) {
      var b := ReadsBody(text, i, 1);
      assert ClosesBody(text, i, b, e);
    }
    forall b | ClosesBody(text, i, b, e)
      ensures CommentEnd(text, i, 1) == Some(e)
    {
      PassesBody(text, i, b, 1);
    }
  }

  /** The end of a line comment: the next line break, or the end of the text. */
  function LineEnd(text: string, i: nat): (r: nat)
    requires i <= |text|
    ensures i <= r <= |text| && (r < |text| ==> text[r] == '\n')
    ensures forall k :: i <= k < r ==> text[k] != '\n'
    decreases |text| - i
  {
    if i == |text| || text[i] == '\n' then i else LineEnd(text, i + 1)
  }

  // ---------- the lexer's regions ----------

  /** Where the lexer's walk over a quoted literal ends, valid or not. */
  ghost function QuoteEnd(text: string, d: char, i: nat): (r: Option<nat>)
    requires IsDelimiter(d) && i <= |text|
    ensures r == SimpleEnd(text, d, i)
  {
    ConsumeIsSimple(text, d, i, false);
    EndOf(Consume(text, d, i, false))
  }

  /** What a script breaks with. */
  datatype Fault = OpenSingle | OpenDouble | OpenBacktick | OpenComment

  function FaultOf(d: char): Fault {
    if d == '\'' then OpenSingle else if d == '"' then OpenDouble else OpenBacktick
  }

  /** Where the lexer goes on after the region or character at an index, or what stays open. */
  datatype Reach = Reach(next: nat) | Open(fault: Fault)

  function ReachOf(end: Option<nat>, fault: Fault): Reach {
    match end
    case None => Open(fault)
    case Some(next) => Reach(next)
  }

  ghost function After(text: string, i: nat): (r: Reach)
    requires i < |text|
    ensures r.Reach? ==> i < r.next <= |text|
  {
    if IsPair(text, i, '/', '/') then Reach(LineEnd(text, i + 2))
    else if IsPair(text, i, '/', '*') then ReachOf(CommentEnd(text, i + 2, 1), OpenComment)
    else if IsDelimiter(text[i]) then ReachOf(QuoteEnd(text, text[i], i + 1), FaultOf(text[i]))
    else Reach(i + 1)
  }

  // ---------- the splitter's view of backticks ----------

  /** The splitter knows doubled backticks, and no escapes. */
  function BacktickEnd(text: string, i: nat): (r: Option<nat>)
    requires i <= |text|
    ensures r.Some? ==> i < r.value <= |text|
    decreases |text| - i
  {
    if i == |text| then None
    else if IsDoubled(text, '`', i) then BacktickEnd(text, i + 2)
    else if text[i] == '`' then Some(i + 1)
    else BacktickEnd(text, i + 1)
  }

  /** The lexer's walk from i meets an escaped backtick before it ends. */
  predicate EscapesBacktick(text: string, i: nat)
    requires i <= |text|
    decreases |text| - i
  {
    if i == |text| then false
    else if text[i] == '\\' then i + 1 < |text| && (text[i + 1] == '`' || EscapesBacktick(text, i + 2))
    else if IsDoubled(text, '`', i) then EscapesBacktick(text, i + 2)
    else text[i] != '`' && EscapesBacktick(text, i + 1)
  }

  /** One character apart inside a run of backticks, the two walks never meet. */
  lemma {:induction false} OutOfStep(text: string, i: nat)
    requires 0 < i <= |text| && text[i - 1] == '`'
    ensures SimpleEnd(text, '`', i) != BacktickEnd(text, i - 1)
    decreases |text| - i
  {
    if i < |text| && text[i] == '`' && i + 1 < |text| && text[i + 1] == '`' {
      OutOfStep(text, i + 2);
    }
  }

  /** The splitter and the lexer end a backtick region at the same place exactly when the
      lexer meets no escaped backtick in it. */
  lemma {:induction false} BackticksAgreeIff(text: string, i: nat)
    requires i <= |text|
    ensures BacktickEnd(text, i) == SimpleEnd(text, '`', i) <==> !EscapesBacktick(text, i)
    decreases |text| - i
  {
    if i < |text| {
      if text[i] == '\\' {
        if i + 1 < |text| {
          if text[i + 1] == '`' {
            OutOfStep(text, i + 2);
          } else {
            BackticksAgreeIff(text, i + 2);
          }
        }
      } else if IsDoubled(text, '`', i) {
        BackticksAgreeIff(text, i + 2);
      } else if text[i] != '`' {
        BackticksAgreeIff(text, i + 1);
      }
    }
  }

  // ---------- the splitter ----------

  datatype Mode = Normal | SingleQuote | DoubleQuote | Backtick | LineComment | BlockComment(depth: nat)

  /** Cut positions, or the region left open. */
  datatype Splits = Cuts(at: seq<nat>) | Broken(fault: Fault)

  function Finish(mode: Mode): Splits {
    match mode
    case SingleQuote => Broken(OpenSingle)
    case DoubleQuote => Broken(OpenDouble)
    case Backtick => Broken(OpenBacktick)
    case BlockComment(_) => Broken(OpenComment)
    case _ => Cuts([])
  }

  /** What the character at i does: the mode after it, and how many characters it takes. */
  datatype Move = Move(mode: Mode, width: nat, isCut: bool)

  function NormalMove(text: string, i: nat): Move
    requires i < |text|
  {
    if IsPair(text, i, '/', '/') then Move(LineComment, 2, false)
    else if IsPair(text, i, '/', '*') then Move(BlockComment(1), 2, false)
    else if text[i] == '\'' then Move(SingleQuote, 1, false)
    else if text[i] == '"' then Move(DoubleQuote, 1, false)
    else if text[i] == '`' then Move(Backtick, 1, false)
    else Move(Normal, 1, text[i] == ';')
  }

  function StringMove(text: string, i: nat, d: char, mode: Mode): Move
    requires i < |text|
  {
    if text[i] == '\\' then Move(mode, if i + 1 < |text| then 2 else 1, false)
    else Move(if text[i] == d then Normal else mode, 1, false)
  }

  function CommentMove(text: string, i: nat, depth: nat): Move
    requires i < |text|
  {
    if IsPair(text, i, '/', '*') then Move(BlockComment(depth + 1), 2, false)
    else if IsPair(text, i, '*', '/') then Move(if depth <= 1 then Normal else BlockComment(depth - 1), 2, false)
    else Move(BlockComment(depth), 1, false)
  }

  function MoveAt(text: string, mode: Mode, i: nat): (r: Move)
    requires i < |text|
    ensures 0 < r.width && i + r.width <= |text|
  {
    match mode
    case Normal => NormalMove(text, i)
    case SingleQuote => StringMove(text, i, '\'', mode)
    case DoubleQuote => StringMove(text, i, '"', mode)
    case Backtick =>
      if IsDoubled(text, '`', i) then Move(Backtick, 2, false)
      else Move(if text[i] == '`' then Normal else Backtick, 1, false)
    case LineComment => Move(if text[i] == '\n' then Normal else LineComment, 1, false)
    case BlockComment(depth) => CommentMove(text, i, depth)
  }

  function Prepend(isCut: bool, i: nat, rest: Splits): Splits {
    if isCut && rest.Cuts? then Cuts([i] + rest.at) else rest
  }

  /** The splitter's run from index i in a mode. */
  function Split(text: string, mode: Mode, i: nat): (r: Splits)
    requires i <= |text|
    ensures r.Cuts? ==> Ascending(r.at, i, |text|)
    decreases |text| - i
  {
    if i == |text| then Finish(mode)
    else
      var move := MoveAt(text, mode, i);
      var rest := Split(text, move.mode, i + move.width);
      if rest.Cuts? then AscendingWeaken(rest.at, i + 1, i + move.width, |text|); Prepend(move.isCut, i, rest) else rest
  }

  predicate Ascending(at: seq<nat>, lo: nat, hi: nat) {
    at == [] || (lo <= at[0] < hi && Ascending(at[1..], at[0] + 1, hi))
  }

  lemma AscendingWeaken(at: seq<nat>, lo: nat, mid: nat, hi: nat)
    requires lo <= mid && Ascending(at, mid, hi)
    ensures Ascending(at, lo, hi)
  {
  }

  /** Cuts at the semicolons between the lexer's regions. */
  ghost function Reference(text: string, i: nat): Splits
    requires i <= |text|
    decreases |text| - i
  {
    if i == |text| then Cuts([])
    else
      match After(text, i)
      case Open(fault) => Broken(fault)
      case Reach(next) => Prepend(text[i] == ';', i, Reference(text, next))
  }

  lemma SplitMove(text: string, mode: Mode, i: nat)
    requires i < |text|
    ensures var move := MoveAt(text, mode, i);
            Split(text, mode, i) == Prepend(move.isCut, i, Split(text, move.mode, i + move.width))
  {
  }

  // ---------- the splitter follows the regions ----------

  function StringMode(d: char): Mode {
    if d == '\'' then SingleQuote else DoubleQuote
  }

  function Resume(text: string, end: Option<nat>, fault: Fault): Splits
    requires end.Some? ==> end.value <= |text|
  {
    match end
    case None => Broken(fault)
    case Some(next) => Split(text, Normal, next)
  }

  /** A doubled quote closes and reopens the string. */
  lemma {:induction false} StringFollows(text: string, d: char, i: nat)
    requires i <= |text| && (d == '\'' || d == '"')
    ensures Split(text, StringMode(d), i) == Resume(text, SimpleEnd(text, d, i), FaultOf(d))
    decreases |text| - i
  {
    if i < |text| {
      if text[i] == '\\' {
        StringFollows(text, d, if i + 1 < |text| then i + 2 else i + 1);
      } else if IsDoubled(text, d, i) {
        StringFollows(text, d, i + 2);
        assert NormalMove(text, i + 1) == Move(StringMode(d), 1, false);
      } else if text[i] != d {
        StringFollows(text, d, i + 1);
      }
    }
  }

  lemma {:induction false} BacktickFollows(text: string, i: nat)
    requires i <= |text|
    ensures Split(text, Backtick, i) == Resume(text, BacktickEnd(text, i), OpenBacktick)
    decreases |text| - i
  {
    if i < |text| {
      if IsDoubled(text, '`', i) {
        BacktickFollows(text, i + 2);
      } else if text[i] != '`' {
        BacktickFollows(text, i + 1);
      }
    }
  }

  lemma {:induction false} CommentFollows(text: string, i: nat, depth: nat)
    requires i <= |text| && depth > 0
    ensures Split(text, BlockComment(depth), i) == Resume(text, CommentEnd(text, i, depth), OpenComment)
    decreases |text| - i
  {
    if i < |text| {
      if IsPair(text, i, '/', '*') {
        CommentFollows(text, i + 2, depth + 1);
      } else if IsPair(text, i, '*', '/') {
        if depth > 1 {
          CommentFollows(text, i + 2, depth - 1);
        }
      } else {
        CommentFollows(text, i + 1, depth);
      }
    }
  }

  lemma {:induction false} LineFollows(text: string, i: nat)
    requires i <= |text|
    ensures Split(text, LineComment, i) == Split(text, Normal, LineEnd(text, i))
    decreases |text| - i
  {
    if i < |text| && text[i] != '\n' {
      LineFollows(text, i + 1);
    }
  }

  /** No backtick region of the script holds an escaped backtick. */
  ghost predicate NoEscapedBacktick(text: string, i: nat)
    requires i <= |text|
    decreases |text| - i
  {
    i < |text| ==>
      && (text[i] == '`' ==> !EscapesBacktick(text, i + 1))
      && (After(text, i).Reach? ==> NoEscapedBacktick(text, After(text, i).next))
  }

  /** One region or character of the splitter, in the lexer's terms. */
  lemma SplitStep(text: string, i: nat)
    requires i < |text| && (text[i] == '`' ==> !EscapesBacktick(text, i + 1))
    ensures Split(text, Normal, i)
         == match After(text, i)
            case Open(fault) => Broken(fault)
            case Reach(next) => Prepend(text[i] == ';', i, Split(text, Normal, next))
  {
    if IsPair(text, i, '/', '/') {
      LineFollows(text, i + 2);
    } else if IsPair(text, i, '/', '*') {
      CommentFollows(text, i + 2, 1);
    } else if text[i] == '`' {
      BacktickFollows(text, i + 1);
      BackticksAgreeIff(text, i + 1);
    } else if IsDelimiter(text[i]) {
      StringFollows(text, text[i], i + 1);
    }
  }

  /** The splitter cuts at the semicolons between the regions, and breaks on the region that
      the lexer finds open, whenever no backtick region holds an escaped backtick. */
  lemma {:induction false} SplitIsReference(text: string, i: nat)
    requires i <= |text| && NoEscapedBacktick(text, i)
    ensures Split(text, Normal, i) == Reference(text, i)
    decreases |text| - i
  {
    if i < |text| {
      SplitStep(text, i);
      if After(text, i).Reach? {
        SplitIsReference(text, After(text, i).next);
      }
    }
  }

  /** A script that is one identifier to the lexer, and holds an escaped backtick and a semicolon. */
  ghost predicate IsEscapedScript(text: string) {
    text == ['`', '\\', '`', ';', '`']
  }

  lemma EscapedBacktickReference(text: string)
    requires IsEscapedScript(text)
    ensures Reference(text, 0) == Cuts([])
  {
    assert SimpleEnd(text, '`', 4) == Some(5);
    assert SimpleEnd(text, '`', 3) == Some(5);
    assert After(text, 0) == Reach(5);
  }

  /** The splitter ends the identifier at the escaped backtick, cuts, and finds an open one. */
  lemma EscapedBacktickSplits(text: string)
    requires IsEscapedScript(text)
    ensures Split(text, Normal, 0) == Broken(OpenBacktick) != Reference(text, 0)
  {
    EscapedBacktickReference(text);
    EscapedBacktickTail(text);
    assert BacktickEnd(text, 2) == Some(3);
    BacktickFollows(text, 1);
    SplitMove(text, Normal, 0);
  }

  lemma EscapedBacktickTail(text: string)
    requires IsEscapedScript(text)
    ensures Split(text, Normal, 3) == Broken(OpenBacktick)
  {
    SplitMove(text, Normal, 3);
    SplitMove(text, Normal, 4);
    assert Split(text, Backtick, 5) == Broken(OpenBacktick);
  }

  // ---------- which semicolons ----------

  /** Index k begins a region or character of the lexer's walk from i, so it lies inside none. */
  ghost predicate IsOutside(text: string, i: nat, k: nat)
    requires i <= |text|
    decreases |text| - i
  {
    i == k || (i < k && i < |text| && After(text, i).Reach? && IsOutside(text, After(text, i).next, k))
  }

  /** The reference breaks exactly when a region stays open, and otherwise cuts at exactly the
      semicolons outside all regions. */
  lemma {:induction false} ReferenceCuts(text: string, i: nat, k: nat)
    requires i <= |text| && Reference(text, i).Cuts?
    ensures k in Reference(text, i).at <==> k < |text| && text[k] == ';' && IsOutside(text, i, k)
    decreases |text| - i
  {
    if i < |text| {
      var next := After(text, i).next;
      ReferenceCuts(text, next, k);
      if IsOutside(text, next, k) {
        OutsideIsAhead(text, next, k);
      }
    }
  }

  lemma OutsideIsAhead(text: string, i: nat, k: nat)
    requires i <= |text| && IsOutside(text, i, k)
    ensures i <= k
  {
  }

  lemma {:induction false} ReferenceBreaksIff(text: string, i: nat)
    requires i <= |text|
    ensures Reference(text, i).Broken? <==> exists k :: StaysOpen(text, i, k)
    decreases |text| - i
  {
    if i < |text| {
      if After(text, i).Open? {
        assert StaysOpen(text, i, i);
      } else {
        var next := After(text, i).next;
        ReferenceBreaksIff(text, next);
        if k :| StaysOpen(text, next, k) {
          OutsideGrows(text, i, k);
          assert StaysOpen(text, i, k);
        }
        if k :| StaysOpen(text, i, k) {
          assert StaysOpen(text, next, k);
        }
      }
    }
  }

  lemma OutsideGrows(text: string, i: nat, k: nat)
    requires i < |text| && After(text, i).Reach? && IsOutside(text, After(text, i).next, k)
    ensures IsOutside(text, i, k)
  {
    OutsideIsAhead(text, After(text, i).next, k);
  }

  /** The region that begins at k never closes. */
  ghost predicate StaysOpen(text: string, i: nat, k: nat)
    requires i <= |text|
  {
    k < |text| && IsOutside(text, i, k) && After(text, k).Open?
  }

  // ---------- statements ----------

  /** Line breaks become `\n`. */
  function Normalize(text: string): string {
    if text == "" then ""
    else if text[0] == '\r' then "\n" + Normalize(if |text| > 1 && text[1] == '\n' then text[2..] else text[1..])
    else [text[0]] + Normalize(text[1..])
  }

  function Trim(text: string, isSpace: char -> bool): string {
    if text == "" then ""
    else if isSpace(text[0]) then Trim(text[1..], isSpace)
    else if isSpace(text[|text| - 1]) then Trim(text[..|text| - 1], isSpace)
    else text
  }

  /** A statement, and the line that is reported for it. */
  datatype Statement = Statement(line: nat, text: string)

  /** `trimmed_statement`: blank pieces are no statements. */
  function Keep(line: nat, text: string, isSpace: char -> bool): seq<Statement> {
    if Trim(text, isSpace) == "" then [] else [Statement(line, Trim(text, isSpace))]
  }

  function One(b: bool): nat {
    if b then 1 else 0
  }

  /** The line breaks in front of index k that the run from i looks at. */
  function Counted(text: string, mode: Mode, i: nat, k: nat): nat
    requires i <= |text|
    decreases |text| - i
  {
    if i >= k || i == |text| then 0
    else
      var move := MoveAt(text, mode, i);
      One(text[i] == '\n') + Counted(text, move.mode, i + move.width, k)
  }

  /** The line counter when the splitter is at index k. */
  function LineAt(text: string, k: nat): nat {
    1 + Counted(text, Normal, 0, k)
  }

  /** The statements between the cuts, from `start` on. */
  function Pieces(text: string, isSpace: char -> bool, start: nat, at: seq<nat>): seq<Statement>
    requires start <= |text| && Ascending(at, start, |text|)
    decreases |at|
  {
    if at == [] then Keep(LineAt(text, start), text[start..], isSpace)
    else Keep(LineAt(text, start), text[start..at[0]], isSpace) + Pieces(text, isSpace, at[0] + 1, at[1..])
  }

  datatype Script = Statements(all: seq<Statement>) | Error(fault: Fault)

  function ScriptFrom(text: string, isSpace: char -> bool, start: nat, splits: Splits): Script
    requires start <= |text| && (splits.Cuts? ==> Ascending(splits.at, start, |text|))
  {
    match splits
    case Broken(fault) => Error(fault)
    case Cuts(at) => Statements(Pieces(text, isSpace, start, at))
  }

  function SplitScript(source: string, isSpace: char -> bool): Script {
    ScriptFrom(Normalize(source), isSpace, 0, Split(Normalize(source), Normal, 0))
  }

  /** What is done already, and what the cuts ahead still give. */
  function Outlook(text: string, isSpace: char -> bool, done: seq<Statement>, start: nat, splits: Splits): Script
    requires start <= |text| && (splits.Cuts? ==> Ascending(splits.at, start, |text|))
  {
    if splits.Broken? then Error(splits.fault) else Statements(done + Pieces(text, isSpace, start, splits.at))
  }

  lemma OutlookCut(text: string, isSpace: char -> bool, done: seq<Statement>, start: nat, i: nat, rest: Splits)
    requires start <= i < |text| && (rest.Cuts? ==> Ascending(rest.at, i + 1, |text|))
    ensures Prepend(true, i, rest).Cuts? ==> Ascending(Prepend(true, i, rest).at, start, |text|)
    ensures Outlook(text, isSpace, done, start, Prepend(true, i, rest))
         == Outlook(text, isSpace, done + Keep(LineAt(text, start), text[start..i], isSpace), i + 1, rest)
  {
    if rest.Cuts? {
      PiecesCut(text, isSpace, start, i, rest.at);
      assert done + (Keep(LineAt(text, start), text[start..i], isSpace) + Pieces(text, isSpace, i + 1, rest.at))
          == (done + Keep(LineAt(text, start), text[start..i], isSpace)) + Pieces(text, isSpace, i + 1, rest.at);
    }
  }

  lemma PiecesCut(text: string, isSpace: char -> bool, start: nat, i: nat, at: seq<nat>)
    requires start <= i < |text| && Ascending(at, i + 1, |text|)
    ensures Ascending([i] + at, start, |text|)
    ensures Pieces(text, isSpace, start, [i] + at)
         == Keep(LineAt(text, start), text[start..i], isSpace) + Pieces(text, isSpace, i + 1, at)
  {
    assert ([i] + at)[1..] == at;
  }

  /** The run from here fits the statements that start at `start`. */
  ghost predicate Ahead(text: string, start: nat, splits: Splits) {
    start <= |text| && (splits.Cuts? ==> Ascending(splits.at, start, |text|))
  }

  lemma SplitAhead(text: string, mode: Mode, start: nat, i: nat)
    requires start <= i <= |text|
    ensures Ahead(text, start, Split(text, mode, i))
  {
    var splits := Split(text, mode, i);
    if splits.Cuts? {
      AscendingWeaken(splits.at, start, i, |text|);
    }
  }

  /** `split_cypher_script`. `isSpace` is the whitespace that trimming removes. */
  method SplitCypherScript(source: string, isSpace: char -> bool) returns (r: Script)
    ensures r == SplitScript(source, isSpace)
  {
    r := SplitText(Normalize(source), isSpace);
  }

  /** The loop's state, and the run it belongs to. */
  datatype Place = Place(mode: Mode, statements: seq<Statement>, start: nat, index: nat, line: nat, startLine: nat)

  /** From this place the cuts ahead lead to the answer. */
  ghost predicate LeadsTo(text: string, isSpace: char -> bool, p: Place, splits: Splits, answer: Script) {
    && p.start <= p.index <= |text| && Ahead(text, p.start, splits)
    && answer == Outlook(text, isSpace, p.statements, p.start, splits)
  }

  /** From i on, the counter goes up with the line breaks that the run looks at. */
  ghost predicate IsCounter(text: string, mode: Mode, i: nat, line: nat) {
    i <= |text| && forall k: nat :: i <= k ==> CountsTo(text, mode, i, line, k)
  }

  ghost predicate CountsTo(text: string, mode: Mode, i: nat, line: nat, k: nat)
    requires i <= |text|
  {
    LineAt(text, k) == line + Counted(text, mode, i, k)
  }

  /** The line counters of a place. */
  ghost predicate IsNumbered(text: string, p: Place) {
    p.start <= p.index && IsCounter(text, p.mode, p.index, p.line) && p.startLine == LineAt(text, p.start)
  }

  lemma CounterMoves(text: string, mode: Mode, i: nat, line: nat)
    requires i < |text| && IsCounter(text, mode, i, line)
    ensures var move := MoveAt(text, mode, i);
            IsCounter(text, move.mode, i + move.width, line + One(text[i] == '\n'))
    ensures LineAt(text, i + 1) == line + One(text[i] == '\n')
  {
    var move := MoveAt(text, mode, i);
    var next, after := i + move.width, line + One(text[i] == '\n');
    assert CountsTo(text, mode, i, line, i + 1) && Counted(text, move.mode, next, i + 1) == 0;
    forall k: nat | next <= k
      ensures CountsTo(text, move.mode, next, after, k)
    {
      assert CountsTo(text, mode, i, line, k);
    }
  }

  /** The place after a move. */
  function NextPlace(text: string, isSpace: char -> bool, p: Place, move: Move): Place
    requires p.start <= p.index < |text|
  {
    var next := p.index + move.width;
    if move.isCut then
      Place(move.mode, p.statements + Keep(p.startLine, text[p.start..p.index], isSpace), p.index + 1, next,
            p.line, p.line)
    else if text[p.index] == '\n' then
      Place(move.mode, p.statements, p.start, next, p.line + 1,
            if p.start == p.index + 1 then p.line + 1 else p.startLine)
    else Place(move.mode, p.statements, p.start, next, p.line, p.startLine)
  }

  lemma CutsAtSemicolons(text: string, mode: Mode, i: nat)
    requires i < |text| && MoveAt(text, mode, i).isCut
    ensures text[i] == ';' && MoveAt(text, mode, i) == Move(Normal, 1, true)
  {
  }

  lemma PlaceIsNumbered(text: string, isSpace: char -> bool, p: Place)
    requires p.index < |text| && IsNumbered(text, p)
    ensures IsNumbered(text, NextPlace(text, isSpace, p, MoveAt(text, p.mode, p.index)))
  {
    CounterMoves(text, p.mode, p.index, p.line);
    if MoveAt(text, p.mode, p.index).isCut {
      CutsAtSemicolons(text, p.mode, p.index);
    }
  }

  lemma MoveLeadsOn(text: string, isSpace: char -> bool, p: Place, move: Move, here: Splits, rest: Splits,
                    answer: Script)
    requires p.start <= p.index < p.index + move.width <= |text| && here == Prepend(move.isCut, p.index, rest)
    requires LeadsTo(text, isSpace, p, here, answer) && p.startLine == LineAt(text, p.start)
    requires Ahead(text, p.index + 1, rest)
    ensures LeadsTo(text, isSpace, NextPlace(text, isSpace, p, move), rest, answer)
  {
    if move.isCut {
      OutlookCut(text, isSpace, p.statements, p.start, p.index, rest);
    }
  }

  method SplitText(text: string, isSpace: char -> bool) returns (r: Script)
    ensures r == ScriptFrom(text, isSpace, 0, Split(text, Normal, 0))
  {
    var p := Place(Normal, [], 0, 0, 1, 1);
    ghost var answer := ScriptFrom(text, isSpace, 0, Split(text, Normal, 0));
    CounterStarts(text);
    while p.index < |text|
      invariant IsNumbered(text, p)
      invariant p.index <= |text| && LeadsTo(text, isSpace, p, Split(text, p.mode, p.index), answer)
      decreases |text| - p.index
    {
      p := SplitOnce(text, isSpace, p, answer);
    }
    assert Split(text, p.mode, p.index) == Finish(p.mode);
    r := FinishScript(text, isSpace, p.mode, p.statements, p.start, p.startLine);
  }

  lemma CounterStarts(text: string)
    ensures IsNumbered(text, Place(Normal, [], 0, 0, 1, 1))
  {
    forall k: nat ensures CountsTo(text, Normal, 0, 1, k) {
    }
  }

  /** One turn of the loop. */
  method SplitOnce(text: string, isSpace: char -> bool, p: Place, ghost answer: Script) returns (q: Place)
    requires p.index < |text| && LeadsTo(text, isSpace, p, Split(text, p.mode, p.index), answer)
    requires IsNumbered(text, p)
    ensures p.index < q.index <= |text| && LeadsTo(text, isSpace, q, Split(text, q.mode, q.index), answer)
    ensures IsNumbered(text, q)
  {
    var move := MoveAt(text, p.mode, p.index);
    q := NextPlace(text, isSpace, p, move);
    assert IsNumbered(text, q) by {
      PlaceIsNumbered(text, isSpace, p);
    }
    ghost var rest := MoveRest(text, p.mode, p.index, move);
    assert LeadsTo(text, isSpace, q, rest, answer) by {
      MoveLeadsOn(text, isSpace, p, move, Split(text, p.mode, p.index), rest, answer);
    }
  }

  /** The run behind a move. */
  ghost function MoveRest(text: string, mode: Mode, i: nat, move: Move): (rest: Splits)
    requires i < |text| && move == MoveAt(text, mode, i)
    ensures rest == Split(text, move.mode, i + move.width) && Ahead(text, i + 1, rest)
    ensures Split(text, mode, i) == Prepend(move.isCut, i, rest)
  {
    SplitMove(text, mode, i);
    SplitAhead(text, move.mode, i + 1, i + move.width);
    Split(text, move.mode, i + move.width)
  }

  method FinishScript(text: string, isSpace: char -> bool, mode: Mode, statements: seq<Statement>, start: nat,
                      startLine: nat)
    returns (r: Script)
    requires start <= |text| && startLine == LineAt(text, start)
    ensures r == Outlook(text, isSpace, statements, start, Finish(mode))
  {
    match mode {
      case SingleQuote => return Error(OpenSingle);
      case DoubleQuote => return Error(OpenDouble);
      case Backtick => return Error(OpenBacktick);
      case BlockComment(_) => return Error(OpenComment);
      case _ => r := Statements(statements + Keep(startLine, text[start..], isSpace));
    }
  }

  /** The statements of a script without escaped backticks are the pieces between the
      semicolons outside all regions. */
  lemma ScriptByRegions(source: string, isSpace: char -> bool)
    requires NoEscapedBacktick(Normalize(source), 0)
    ensures Split(Normalize(source), Normal, 0) == Reference(Normalize(source), 0)
    ensures SplitScript(source, isSpace).Error? <==> exists k :: StaysOpen(Normalize(source), 0, k)
  {
    SplitIsReference(Normalize(source), 0);
    ReferenceBreaksIff(Normalize(source), 0);
  }
}
