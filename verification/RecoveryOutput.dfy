/** The recovered query with its spans, and the recovery loop that builds it on offsets. */
module RecoveryOutput {
  import opened Tokens
  import opened StrictQuery
  import opened RecoveryMachine
  import opened Recovery

  /** A clause node spans its first to its last token. An error clause stands for what it spans. */
  datatype ClauseNode<+V> = ClauseNode(clause: V, span: RawSpan) | ErrorClause(span: RawSpan)

  datatype BranchNode<+V> = BranchNode(clauses: seq<ClauseNode<V>>, span: RawSpan)

  datatype OperatorNode = OperatorNode(kind: OperatorKind, span: RawSpan)

  datatype RecoveredQuery<+V> = RecoveredQuery(
    branches: seq<BranchNode<V>>, operators: seq<OperatorNode>, span: RawSpan, statement: RawSpan)

  // ---------- rendering a layout ----------

  /** Where token i starts, or where the input ends. */
  function StartAt(tokens: seq<Token>, i: nat): nat {
    if i < |tokens| then tokens[i].start else if tokens == [] then 0 else tokens[|tokens| - 1].end
  }

  function EndAt(tokens: seq<Token>, i: nat): nat {
    if 0 < i <= |tokens| then tokens[i - 1].end else 0
  }

  function Extent(tokens: seq<Token>, lo: nat, hi: nat): RawSpan {
    if lo < hi then RawSpan(StartAt(tokens, lo), EndAt(tokens, hi))
    else RawSpan(StartAt(tokens, lo), StartAt(tokens, lo))
  }

  function RenderPiece<V>(tokens: seq<Token>, piece: Piece<V>): ClauseNode<V> {
    match piece
    case Kept(clause, lo, hi) => ClauseNode(clause, Extent(tokens, lo, hi))
    case Gap(lo, hi) => ErrorClause(Extent(tokens, lo, hi))
  }

  function RenderPieces<V>(tokens: seq<Token>, pieces: seq<Piece<V>>): (r: seq<ClauseNode<V>>)
    ensures |r| == |pieces| && forall i :: 0 <= i < |r| ==> r[i] == RenderPiece(tokens, pieces[i])
  {
    seq(|pieces|, i requires 0 <= i < |pieces| => RenderPiece(tokens, pieces[i]))
  }

  /** `recovered_branch`: a branch without clauses shows one error clause. */
  function RecoveredBranch<V>(clauses: seq<ClauseNode<V>>, span: RawSpan): BranchNode<V> {
    BranchNode(if clauses == [] then [ErrorClause(span)] else clauses, span)
  }

  function RenderPart<V>(tokens: seq<Token>, part: Part<V>): BranchNode<V> {
    RecoveredBranch(RenderPieces(tokens, part.pieces), Extent(tokens, part.lo, part.hi))
  }

  function RenderParts<V>(tokens: seq<Token>, parts: seq<Part<V>>): (r: seq<BranchNode<V>>)
    ensures |r| == |parts| && forall i :: 0 <= i < |r| ==> r[i] == RenderPart(tokens, parts[i])
  {
    seq(|parts|, i requires 0 <= i < |parts| => RenderPart(tokens, parts[i]))
  }

  function RenderOp(tokens: seq<Token>, op: Op): OperatorNode {
    OperatorNode(if op.lo < |tokens| then OperatorAt(tokens, op.lo, |tokens|) else UnionDefault,
                 Extent(tokens, op.lo, op.hi))
  }

  function RenderOps(tokens: seq<Token>, ops: seq<Op>): (r: seq<OperatorNode>)
    ensures |r| == |ops| && forall i :: 0 <= i < |r| ==> r[i] == RenderOp(tokens, ops[i])
  {
    seq(|ops|, i requires 0 <= i < |ops| => RenderOp(tokens, ops[i]))
  }

  function Render<V>(tokens: seq<Token>, terminator: Option<RawSpan>, layout: Layout<V>): RecoveredQuery<V> {
    var span := Extent(tokens, 0, |tokens|);
    RecoveredQuery(RenderParts(tokens, layout.parts), RenderOps(tokens, layout.ops), span,
                   if terminator.Some? then CoverOf(span, terminator.value) else span)
  }

  // ---------- the spans of a rendered layout ----------

  lemma OffsetsGrow(tokens: seq<Token>, i: nat, j: nat)
    requires Ordered(tokens) && i <= j <= |tokens|
    ensures i < j ==> StartAt(tokens, i) <= EndAt(tokens, j)
    ensures 0 < i ==> EndAt(tokens, i) <= StartAt(tokens, j)
    ensures StartAt(tokens, i) <= StartAt(tokens, j)
    ensures 0 < i ==> EndAt(tokens, i) <= EndAt(tokens, j)
  {
  }

  /** The span of one range ends before any later range starts, and both lie in the query. */
  lemma SpansInOrder(tokens: seq<Token>, a: Op, b: Op)
    requires Ordered(tokens) && a.lo <= a.hi <= b.lo <= b.hi <= |tokens|
    ensures Extent(tokens, a.lo, a.hi).start <= Extent(tokens, a.lo, a.hi).end
    ensures Extent(tokens, a.lo, a.hi).end <= Extent(tokens, b.lo, b.hi).start
    ensures Extent(tokens, 0, |tokens|).start <= Extent(tokens, a.lo, a.hi).start
    ensures Extent(tokens, b.lo, b.hi).end <= Extent(tokens, 0, |tokens|).end
  {
    OffsetsGrow(tokens, 0, a.lo);
    OffsetsGrow(tokens, a.lo, a.hi);
    OffsetsGrow(tokens, a.hi, b.lo);
    OffsetsGrow(tokens, a.lo, b.lo);
    OffsetsGrow(tokens, b.lo, b.hi);
    OffsetsGrow(tokens, b.lo, |tokens|);
    OffsetsGrow(tokens, b.hi, |tokens|);
    OffsetsGrow(tokens, 0, |tokens|);
  }

  // ---------- the loop ----------

  function OpenStart<V>(tokens: seq<Token>, s: State<V>): Option<nat> {
    if s.open.Some? then Some(StartAt(tokens, s.open.value)) else None
  }

  /** The loop's local variables, on offsets. */
  datatype Locals<+V> = Locals(
    cursor: nat, attempts: nat, skipped: Option<nat>, clauses: seq<ClauseNode<V>>, branchStart: nat,
    branches: seq<BranchNode<V>>, operators: seq<OperatorNode>, retained: bool, returned: bool)

  /** The local variables show the machine state. */
  function Show<V>(tokens: seq<Token>, s: State<V>): Locals<V> {
    Locals(s.cursor, s.attempts, OpenStart(tokens, s), RenderPieces(tokens, s.pieces), StartAt(tokens, s.lo),
           RenderParts(tokens, s.parts), RenderOps(tokens, s.ops), s.retained, s.returned)
  }

  lemma RenderPiecesAppend<V>(tokens: seq<Token>, pieces: seq<Piece<V>>, piece: Piece<V>)
    ensures RenderPieces(tokens, pieces + [piece]) == RenderPieces(tokens, pieces) + [RenderPiece(tokens, piece)]
  {
  }

  lemma RenderPartsAppend<V>(tokens: seq<Token>, parts: seq<Part<V>>, part: Part<V>)
    ensures RenderParts(tokens, parts + [part]) == RenderParts(tokens, parts) + [RenderPart(tokens, part)]
  {
  }

  lemma RenderOpsAppend(tokens: seq<Token>, ops: seq<Op>, op: Op)
    ensures RenderOps(tokens, ops + [op]) == RenderOps(tokens, ops) + [RenderOp(tokens, op)]
  {
  }

  /** Pushes the open error region, if any, ending at `end`. */
  method CloseRegion<V>(clauses: seq<ClauseNode<V>>, skipped: Option<nat>, end: nat) returns (r: seq<ClauseNode<V>>)
    requires skipped.Some? ==> skipped.value <= end
    ensures r == if skipped.Some? then clauses + [ErrorClause(RawSpan(skipped.value, end))] else clauses
  {
    r := clauses;
    if skipped.Some? {
      r := r + [ErrorClause(NewSpan(skipped.value, end))];
    }
  }

  lemma ClosedShows<V>(env: Env<V>, tokens: seq<Token>, s: State<V>)
    requires OpenBranch(env, s) && env.size == |tokens| && Ordered(tokens)
    ensures s.open.Some? ==> StartAt(tokens, s.open.value) <= EndAt(tokens, s.cursor)
    ensures RenderPieces(tokens, Closed(s, s.cursor))
         == if s.open.Some?
            then RenderPieces(tokens, s.pieces)
                + [ErrorClause(RawSpan(StartAt(tokens, s.open.value), EndAt(tokens, s.cursor)))]
            else RenderPieces(tokens, s.pieces)
  {
    if s.open.Some? {
      OffsetsGrow(tokens, s.open.value, s.cursor);
      RenderPiecesAppend(tokens, s.pieces, Gap(s.open.value, s.cursor));
    }
  }

  /** What the branch closed at the cursor looks like. */
  lemma ShowsBranch<V>(env: Env<V>, tokens: seq<Token>, s: State<V>)
    requires Ordered(tokens) && env.size == |tokens| && OpenBranch(env, s)
    ensures s.lo <= s.cursor && (s.pieces == [] && s.open.None? <==> s.lo == s.cursor)
    ensures s.open.Some? ==> StartAt(tokens, s.open.value) <= EndAt(tokens, s.cursor)
    ensures var end := if s.lo == s.cursor then StartAt(tokens, s.lo) else EndAt(tokens, s.cursor);
            && StartAt(tokens, s.lo) <= end
            && RenderPart(tokens, Part(Closed(s, s.cursor), s.lo, s.cursor))
               == RecoveredBranch(
                    if s.open.Some?
                    then RenderPieces(tokens, s.pieces) + [ErrorClause(RawSpan(StartAt(tokens, s.open.value), end))]
                    else RenderPieces(tokens, s.pieces),
                    RawSpan(StartAt(tokens, s.lo), end))
  {
    BranchExtent(env, tokens, s);
    ClosedShows(env, tokens, s);
  }

  /** The branch that ends at the cursor, on offsets. */
  method EndBranch<V>(locals: Locals<V>, end: nat) returns (branch: BranchNode<V>)
    requires locals.skipped.Some? ==> locals.skipped.value <= end
    requires locals.branchStart <= end
    ensures branch == RecoveredBranch(
                        if locals.skipped.Some? then locals.clauses + [ErrorClause(RawSpan(locals.skipped.value, end))]
                        else locals.clauses,
                        RawSpan(locals.branchStart, end))
  {
    var clauses := CloseRegion(locals.clauses, locals.skipped, end);
    branch := RecoveredBranch(clauses, NewSpan(locals.branchStart, end));
  }

  /** The operator at index u, with the quantifier after it. */
  method ReadOperator(tokens: seq<Token>, u: nat) returns (operator: OperatorNode, next: nat)
    requires FromSource(tokens) && u < |tokens|
    ensures next == u + Width(tokens, u) && operator == RenderOp(tokens, Op(u, next))
  {
    next := u + 1;
    var kind := UnionDefault;
    if next < |tokens| && tokens[next].kind.All? {
      next, kind := next + 1, UnionAll;
    } else if next < |tokens| && tokens[next].kind.Distinct? {
      next, kind := next + 1, UnionDistinct;
    }
    OffsetsGrow(tokens, u, next);
    operator := OperatorNode(kind, NewSpan(tokens[u].start, tokens[next - 1].end));
  }

  lemma ShowsSplit<V>(env: Env<V>, tokens: seq<Token>, s: State<V>)
    requires s.attempts > 0
    ensures var next := s.cursor + env.width(s.cursor);
            Show(tokens, Split(env, s))
            == Locals(next, s.attempts - 1, None, [], StartAt(tokens, next),
                      RenderParts(tokens, s.parts) + [RenderPart(tokens, Part(Closed(s, s.cursor), s.lo, s.cursor))],
                      RenderOps(tokens, s.ops) + [RenderOp(tokens, Op(s.cursor, next))], s.retained, false)
  {
    RenderPartsAppend(tokens, s.parts, Part(Closed(s, s.cursor), s.lo, s.cursor));
    RenderOpsAppend(tokens, s.ops, Op(s.cursor, s.cursor + env.width(s.cursor)));
    assert RenderPieces<V>(tokens, []) == [];
  }

  /** The UNION at the cursor ends a branch. */
  method SplitAtCursor<V>(tokens: seq<Token>, locals: Locals<V>, ghost env: Env<V>, ghost s: State<V>)
    returns (r: Locals<V>)
    requires FromSource(tokens) && env.size == |tokens| && env.width(s.cursor) == Width(tokens, s.cursor)
    requires OpenBranch(env, s) && s.cursor < env.size && s.attempts > 0 && locals == Show(tokens, s)
    ensures r == Show(tokens, Split(env, s))
  {
    var branch := BranchAtCursor(tokens, locals, env, s);
    r := NextBranchLocals(tokens, locals, branch);
    ShowsSplit(env, tokens, s);
  }

  /** The branch in front of the UNION at the cursor. Without a clause it is empty. */
  method BranchAtCursor<V>(tokens: seq<Token>, locals: Locals<V>, ghost env: Env<V>, ghost s: State<V>)
    returns (branch: BranchNode<V>)
    requires FromSource(tokens) && env.size == |tokens|
    requires OpenBranch(env, s) && s.cursor < env.size && locals == Show(tokens, s)
    ensures branch == RenderPart(tokens, Part(Closed(s, s.cursor), s.lo, s.cursor))
  {
    ShowsBranch(env, tokens, s);
    var isEmpty := locals.clauses == [] && locals.skipped.None?;
    var end := if isEmpty then locals.branchStart else tokens[locals.cursor - 1].end;
    assert end == if s.lo == s.cursor then StartAt(tokens, s.lo) else EndAt(tokens, s.cursor);
    branch := EndBranch(locals, end);
  }

  /** The variables after the operator at the cursor. */
  method NextBranchLocals<V>(tokens: seq<Token>, locals: Locals<V>, branch: BranchNode<V>) returns (r: Locals<V>)
    requires FromSource(tokens) && locals.cursor < |tokens| && locals.attempts > 0
    ensures var next := locals.cursor + Width(tokens, locals.cursor);
            r == Locals(next, locals.attempts - 1, None, [], StartAt(tokens, next), locals.branches + [branch],
                        locals.operators + [RenderOp(tokens, Op(locals.cursor, next))], locals.retained, false)
  {
    var operator, next := ReadOperator(tokens, locals.cursor);
    var branchStart := if next < |tokens| then tokens[next].start else operator.span.end;
    r := Locals(next, locals.attempts - 1, None, [], branchStart, locals.branches + [branch],
                locals.operators + [operator], locals.retained, false);
  }

  /** The current branch, closed at the cursor, is not empty unless nothing was read. */
  lemma BranchExtent<V>(env: Env<V>, tokens: seq<Token>, s: State<V>)
    requires OpenBranch(env, s) && env.size == |tokens| && Ordered(tokens)
    ensures s.lo <= s.cursor && (s.lo == s.cursor <==> s.pieces == [] && s.open.None?)
    ensures Extent(tokens, s.lo, s.cursor).start <= Extent(tokens, s.lo, s.cursor).end
  {
    TiledGrows(s.pieces, s.lo, if s.open.Some? then s.open.value else s.cursor);
    OffsetsGrow(tokens, s.lo, s.cursor);
  }

  lemma {:induction false} TiledGrows<V>(pieces: seq<Piece<V>>, lo: nat, hi: nat)
    requires Tiled(pieces, lo, hi)
    ensures lo <= hi && (pieces != [] ==> lo < hi)
    decreases |pieces|
  {
    if |pieces| > 1 {
      TiledGrows(pieces[..|pieces| - 1], lo, pieces[|pieces| - 1].lo);
    }
  }

  /** A clause that ends at `end` is retained. */
  method RetainClause<V>(tokens: seq<Token>, p: ClauseParser<V>, locals: Locals<V>, clause: V, end: nat, left: nat,
                         ghost env: Env<V>, ghost s: State<V>, ghost t: Trial<V>) returns (r: Locals<V>)
    requires FromSource(tokens) && env.size == |tokens| && env.isReturn == p.isReturn
    requires OpenBranch(env, s) && s.cursor < end <= env.size && locals == Show(tokens, s)
    requires t.found == Some((clause, end)) && t.left == left
    ensures r == Show(tokens, Retain(env, s, t))
  {
    ClosedShows(env, tokens, s);
    ShowsRetain(env, tokens, s, t);
    OffsetsGrow(tokens, s.cursor, end);
    var cursor := locals.cursor;
    var clauses := locals.clauses;
    if locals.skipped.Some? {
      clauses := CloseRegion(clauses, locals.skipped, tokens[cursor - 1].end);
    }
    assert clauses == RenderPieces(tokens, Closed(s, s.cursor));
    clauses := clauses + [ClauseNode(clause, NewSpan(tokens[cursor].start, tokens[end - 1].end))];
    r := locals.(cursor := end, attempts := left, skipped := None, clauses := clauses,
                 retained := true, returned := p.isReturn(clause));
  }

  lemma ShowsRetain<V>(env: Env<V>, tokens: seq<Token>, s: State<V>, t: Trial<V>)
    requires t.found.Some?
    ensures var (clause, end) := t.found.value;
            Show(tokens, Retain(env, s, t))
            == Show(tokens, s).(
                 cursor := end, attempts := t.left, skipped := None,
                 clauses := RenderPieces(tokens, Closed(s, s.cursor))
                     + [ClauseNode(clause, Extent(tokens, s.cursor, end))],
                 retained := true, returned := env.isReturn(clause))
  {
    RenderPiecesAppend(tokens, Closed(s, s.cursor), Kept(t.found.value.0, s.cursor, t.found.value.1));
  }

  /** Nothing parses here: the error region grows to the next place to try. */
  method SkipAhead<V>(tokens: seq<Token>, unions: seq<nat>, cuts: seq<nat>, locals: Locals<V>, left: nat,
                      ghost env: Env<V>, ghost s: State<V>, ghost t: Trial<V>) returns (r: Locals<V>)
    requires env.size == |tokens| && unions == Unions(tokens) && cuts == Cuts(tokens)
    requires env.isUnion == ((i: nat) => i in Unions(tokens)) && env.isBoundary == ((i: nat) => i in Cuts(tokens))
    requires OpenBranch(env, s) && s.cursor < env.size && locals == Show(tokens, s) && t.left == left
    ensures r == Show(tokens, PassOver(env, s, t))
  {
    var cursor := locals.cursor;
    var next;
    if left == 0 {
      next := |tokens|;
    } else if locals.returned {
      var found := FindAfter(unions, cursor, |tokens|);
      next := if found.Some? then found.value else |tokens|;
    } else {
      var found := FindAfter(cuts, cursor, |tokens|);
      assert |tokens| in cuts;
      next := found.value;
    }
    var skipped := if locals.skipped.Some? then locals.skipped else Some(tokens[cursor].start);
    r := locals.(cursor := next, attempts := left, skipped := skipped);
  }

  /** The loop, step for step with the machine. */
  method RunLoop<V(!new)>(p: ClauseParser<V>, tokens: seq<Token>, unions: seq<nat>, cuts: seq<nat>, ghost env: Env<V>)
    returns (locals: Locals<V>)
    requires FromSource(tokens) && tokens != [] && unions == Unions(tokens) && cuts == Cuts(tokens)
    requires Plausible(env) && env == EnvOf(p, tokens)
    ensures locals == Show(tokens, Run(env, Initial()))
  {
    locals := Locals(0, BUDGET, None, [], tokens[0].start, [], [], false, false);
    ghost var s: State<V> := Initial();
    while locals.cursor < |tokens|
      invariant locals == Show(tokens, s) && Reachable(env, s)
      invariant Run(env, s) == Run(env, Initial())
      decreases |tokens| - s.cursor
    {
      locals := Turn(p, tokens, unions, cuts, locals, env, s);
      StepAdvances(env, s);
      StepKeeps(env, s);
      s := Step(env, s);
    }
  }

  /** One turn of the loop. */
  method Turn<V(!new)>(p: ClauseParser<V>, tokens: seq<Token>, unions: seq<nat>, cuts: seq<nat>, locals: Locals<V>,
                       ghost env: Env<V>, ghost s: State<V>) returns (r: Locals<V>)
    requires FromSource(tokens) && unions == Unions(tokens) && cuts == Cuts(tokens) && env == EnvOf(p, tokens)
    requires OpenBranch(env, s) && s.cursor < env.size && locals == Show(tokens, s)
    ensures r == Show(tokens, Step(env, s))
  {
    if locals.attempts > 0 && locals.cursor in unions {
      r := SplitAtCursor(tokens, locals, env, s);
    } else {
      var t := Trial(None, locals.attempts, 0, 0);
      if !locals.returned {
        t := TryClause(p, tokens, cuts, locals.cursor, locals.attempts);
      }
      if t.found.Some? {
        TrialPays(p, tokens, cuts, locals.cursor, locals.attempts);
        r := RetainClause(tokens, p, locals, t.found.value.0, t.found.value.1, t.left, env, s, t);
      } else {
        r := SkipAhead(tokens, unions, cuts, locals, t.left, env, s, t);
      }
    }
  }

  function Assemble<V>(branches: seq<BranchNode<V>>, operators: seq<OperatorNode>, span: RawSpan,
                       terminator: Option<RawSpan>): RecoveredQuery<V>
  {
    RecoveredQuery(branches, operators, span, if terminator.Some? then CoverOf(span, terminator.value) else span)
  }

  /** The layout of a finished run, rendered. */
  lemma ShowsFinish<V>(env: Env<V>, tokens: seq<Token>, terminator: Option<RawSpan>, s: State<V>)
    requires s.retained && s.cursor == env.size
    ensures Finish(env, s).Some?
    ensures Render(tokens, terminator, Finish(env, s).value)
         == Assemble(RenderParts(tokens, s.parts) + [RenderPart(tokens, Part(Closed(s, s.cursor), s.lo, s.cursor))],
                     RenderOps(tokens, s.ops), Extent(tokens, 0, |tokens|), terminator)
  {
    RenderPartsAppend(tokens, s.parts, Part(Closed(s, s.cursor), s.lo, s.cursor));
  }

  /** Closes the last branch at the end of the input. */
  method FinishQuery<V>(tokens: seq<Token>, terminator: Option<RawSpan>, locals: Locals<V>, ghost env: Env<V>,
                        ghost s: State<V>)
    returns (r: Option<RecoveredQuery<V>>)
    requires FromSource(tokens) && tokens != [] && env.size == |tokens|
    requires OpenBranch(env, s) && s.cursor == env.size && locals == Show(tokens, s)
    ensures r == match Finish(env, s) case None => None case Some(layout) => Some(Render(tokens, terminator, layout))
  {
    if !locals.retained {
      return None;
    }
    var branch, last := LastBranch(tokens, locals, env, s);
    var span := NewSpan(tokens[0].start, WholeSpan(tokens, last));
    r := Some(Assemble(locals.branches + [branch], locals.operators, span, terminator));
    assert Finish(env, s).Some? && r.value == Render(tokens, terminator, Finish(env, s).value) by {
      ShowsFinish(env, tokens, terminator, s);
    }
  }

  /** The last offset, behind the first one. */
  function WholeSpan(tokens: seq<Token>, last: nat): (r: nat)
    requires FromSource(tokens) && tokens != [] && last == tokens[|tokens| - 1].end
    ensures r == last && tokens[0].start <= r && RawSpan(tokens[0].start, r) == Extent(tokens, 0, |tokens|)
  {
    OffsetsGrow(tokens, 0, |tokens|);
    last
  }

  lemma EndOfInput<V>(tokens: seq<Token>, s: State<V>)
    requires tokens != [] && s.cursor == |tokens|
    ensures EndAt(tokens, s.cursor) == tokens[|tokens| - 1].end
    ensures s.lo == s.cursor ==> StartAt(tokens, s.lo) == tokens[|tokens| - 1].end
  {
  }

  method LastBranch<V>(tokens: seq<Token>, locals: Locals<V>, ghost env: Env<V>, ghost s: State<V>)
    returns (branch: BranchNode<V>, last: nat)
    requires FromSource(tokens) && tokens != [] && env.size == |tokens|
    requires OpenBranch(env, s) && s.cursor == env.size && locals == Show(tokens, s)
    ensures last == tokens[|tokens| - 1].end
    ensures branch == RenderPart(tokens, Part(Closed(s, s.cursor), s.lo, s.cursor))
  {
    last := tokens[|tokens| - 1].end;
    EndOfInput(tokens, s);
    ShowsBranch(env, tokens, s);
    branch := EndBranch(locals, last);
  }

  predicate IsSemicolon(kind: Kind) {
    kind.Semicolon?
  }

  /** What recovery returns for a token list without its final semicolon. */
  ghost function RecoverSpec<V(!new)>(p: ClauseParser<V>, tokens: seq<Token>, terminator: Option<RawSpan>)
    : Option<RecoveredQuery<V>>
  {
    if tokens == [] || TopLevel(tokens, 0, |tokens|, IsSemicolon) != [] then None
    else
      match LayoutOf(p, tokens)
      case None => None
      case Some(layout) => Some(Render(tokens, terminator, layout))
  }

  ghost function LayoutOf<V(!new)>(p: ClauseParser<V>, tokens: seq<Token>): Option<Layout<V>> {
    EnvIsPlausible(p, tokens);
    Recover(EnvOf(p, tokens))
  }

  /** The tokens without a final semicolon, and its span. */
  function Unterminated(input: seq<Token>): (seq<Token>, Option<RawSpan>) {
    if input != [] && input[|input| - 1].kind.Semicolon?
    then (input[..|input| - 1], Some(RawSpan(input[|input| - 1].start, input[|input| - 1].end)))
    else (input, None)
  }

  /** `recover_clauses`. */
  method RecoverClauses<V(!new)>(p: ClauseParser<V>, input: seq<Token>) returns (r: Option<RecoveredQuery<V>>)
    requires FromSource(input)
    ensures r == RecoverSpec(p, Unterminated(input).0, Unterminated(input).1)
  {
    var (tokens, terminator) := Unterminated(input);
    if tokens == [] {
      return None;
    }
    var semicolons := TopLevelIndices(tokens, 0, |tokens|, IsSemicolon);
    if semicolons != [] {
      return None;
    }
    r := RecoverStripped(p, tokens, terminator);
  }

  method RecoverStripped<V(!new)>(p: ClauseParser<V>, tokens: seq<Token>, terminator: Option<RawSpan>)
    returns (r: Option<RecoveredQuery<V>>)
    requires FromSource(tokens) && tokens != [] && TopLevel(tokens, 0, |tokens|, IsSemicolon) == []
    ensures r == RecoverSpec(p, tokens, terminator)
  {
    EnvIsPlausible(p, tokens);
    ghost var env := EnvOf(p, tokens);
    assert Reachable(env, Initial<V>());
    RunKeeps(env, Initial());
    var unions, cuts := FindMarks(tokens);
    var locals := RunLoop(p, tokens, unions, cuts, env);
    r := FinishQuery(tokens, terminator, locals, env, Run(env, Initial()));
  }

  // ---------- what a recovered query looks like ----------

  /** Token i lies inside a span. */
  predicate Inside(token: Token, span: RawSpan) {
    span.start <= token.start && token.end <= span.end
  }

  /** In source order, the spans of the clauses, error clauses and operators of a query. */
  function FlatSpans(tokens: seq<Token>, ranges: seq<Op>): (r: seq<RawSpan>)
    ensures |r| == |ranges| && forall i :: 0 <= i < |r| ==> r[i] == Extent(tokens, ranges[i].lo, ranges[i].hi)
  {
    seq(|ranges|, i requires 0 <= i < |ranges| => Extent(tokens, ranges[i].lo, ranges[i].hi))
  }

  lemma InsideExtent(tokens: seq<Token>, lo: nat, hi: nat, i: nat)
    requires FromSource(tokens) && lo < hi <= |tokens| && i < |tokens|
    ensures Inside(tokens[i], Extent(tokens, lo, hi)) <==> lo <= i < hi
  {
    OffsetsGrow(tokens, lo, hi);
    if i < lo {
      assert tokens[i].end <= tokens[lo].start;
    } else if hi <= i {
      assert tokens[hi - 1].end <= tokens[i].start;
    } else {
      OffsetsGrow(tokens, lo, i);
      OffsetsGrow(tokens, i + 1, hi);
    }
  }

  lemma TilesBounded(ranges: seq<Op>, lo: nat, hi: nat, k: nat)
    requires Tiles(ranges, lo, hi) && k < |ranges|
    ensures ranges[k].hi <= hi && lo <= ranges[k].lo
    decreases |ranges| - k
  {
    TilesBelow(ranges, lo, hi, k);
    if k + 1 < |ranges| {
      TilesBounded(ranges, lo, hi, k + 1);
    }
  }

  lemma {:induction false} TilesBelow(ranges: seq<Op>, lo: nat, hi: nat, k: nat)
    requires Tiles(ranges, lo, hi) && k < |ranges|
    ensures lo <= ranges[k].lo
  {
    if k > 0 {
      TilesBelow(ranges, lo, hi, k - 1);
    }
  }

  // ---------- one span for every token ----------

  /** How many of the spans hold the token. */
  function Holding(spans: seq<RawSpan>, token: Token): nat {
    if spans == [] then 0
    else Holding(spans[..|spans| - 1], token) + if Inside(token, spans[|spans| - 1]) then 1 else 0
  }

  function ClauseSpans<V>(clauses: seq<ClauseNode<V>>): (r: seq<RawSpan>)
    ensures |r| == |clauses| && forall i :: 0 <= i < |r| ==> r[i] == clauses[i].span
  {
    seq(|clauses|, i requires 0 <= i < |clauses| => clauses[i].span)
  }

  /** The spans of the clauses, error clauses and operators, from branch k on. */
  function QuerySpans<V>(branches: seq<BranchNode<V>>, operators: seq<OperatorNode>, k: nat): seq<RawSpan>
    decreases |branches| - k
  {
    if k >= |branches| then []
    else
      ClauseSpans(branches[k].clauses) + (if k < |operators| then [operators[k].span] else [])
      + QuerySpans(branches, operators, k + 1)
  }

  lemma {:induction false} HoldingConcat(a: seq<RawSpan>, b: seq<RawSpan>, token: Token)
    ensures Holding(a + b, token) == Holding(a, token) + Holding(b, token)
  {
    if b == [] {
      assert a + b == a;
    } else {
      HoldingConcat(a, b[..|b| - 1], token);
      assert (a + b)[..|a + b| - 1] == a + b[..|b| - 1];
    }
  }

  lemma {:induction false} HoldingNone(spans: seq<RawSpan>, token: Token)
    requires forall k :: 0 <= k < |spans| ==> !Inside(token, spans[k])
    ensures Holding(spans, token) == 0
  {
    if spans != [] {
      HoldingNone(spans[..|spans| - 1], token);
    }
  }

  lemma HoldingOne(spans: seq<RawSpan>, token: Token, j: nat)
    requires j < |spans| && Inside(token, spans[j])
    requires forall k :: 0 <= k < |spans| && Inside(token, spans[k]) ==> k == j
    ensures Holding(spans, token) == 1
  {
    var before, behind := spans[..j], spans[j + 1..];
    HoldingNone(before, token);
    HoldingNone(behind, token);
    HoldingConcat(before, [spans[j]], token);
    HoldingConcat(before + [spans[j]], behind, token);
    assert Holding([spans[j]], token) == 1;
    assert spans == before + [spans[j]] + behind;
  }

  /** A branch shows the spans of its pieces, or else one empty span, which holds no token. */
  lemma BranchHolds<V>(env: Env<V>, tokens: seq<Token>, part: Part<V>, token: Token)
    requires GoodPart(env, part) && token.start < token.end
    ensures Holding(ClauseSpans(RenderPart(tokens, part).clauses), token)
         == Holding(FlatSpans(tokens, Ranges(part.pieces)), token)
  {
    var spans := ClauseSpans(RenderPart(tokens, part).clauses);
    if part.pieces == [] {
      HoldingNone(spans, token);
    } else {
      assert spans == FlatSpans(tokens, Ranges(part.pieces));
    }
  }

  lemma FlatSpansConcat(tokens: seq<Token>, a: seq<Op>, b: seq<Op>)
    ensures FlatSpans(tokens, a + b) == FlatSpans(tokens, a) + FlatSpans(tokens, b)
  {
  }

  lemma {:induction false} QueryHolds<V>(env: Env<V>, tokens: seq<Token>, layout: Layout<V>, k: nat, token: Token)
    requires Complete(env, layout) && k <= |layout.parts| && token.start < token.end
    ensures Holding(QueryFrom(tokens, layout, k), token)
         == Holding(FlatSpans(tokens, Flat(layout.parts, layout.ops, k)), token)
    decreases |layout.parts| - k
  {
    if k < |layout.parts| {
      QueryHolds(env, tokens, layout, k + 1, token);
      assert GoodPart(env, layout.parts[k]) by {
        CompleteAt(env, layout, k);
      }
      BranchHolds(env, tokens, layout.parts[k], token);
      OneMoreBranch(tokens, layout, k);
      HoldsApart(tokens, ClauseSpans(RenderPart(tokens, layout.parts[k]).clauses), Ranges(layout.parts[k].pieces),
                 OpAt(layout.ops, k), QueryFrom(tokens, layout, k + 1), Flat(layout.parts, layout.ops, k + 1), token);
    }
  }

  function OpAt(ops: seq<Op>, k: nat): seq<Op> {
    if k < |ops| then [ops[k]] else []
  }

  function QueryFrom<V>(tokens: seq<Token>, layout: Layout<V>, k: nat): seq<RawSpan> {
    QuerySpans(RenderParts(tokens, layout.parts), RenderOps(tokens, layout.ops), k)
  }

  lemma OneMoreBranch<V>(tokens: seq<Token>, layout: Layout<V>, k: nat)
    requires k < |layout.parts|
    ensures QueryFrom(tokens, layout, k)
         == ClauseSpans(RenderPart(tokens, layout.parts[k]).clauses) + FlatSpans(tokens, OpAt(layout.ops, k))
            + QueryFrom(tokens, layout, k + 1)
    ensures Flat(layout.parts, layout.ops, k)
         == Ranges(layout.parts[k].pieces) + OpAt(layout.ops, k) + Flat(layout.parts, layout.ops, k + 1)
  {
    if k < |layout.ops| {
      assert FlatSpans(tokens, OpAt(layout.ops, k)) == [RenderOp(tokens, layout.ops[k]).span];
    }
  }

  /** The counts of the parts add up. */
  lemma HoldsApart(tokens: seq<Token>, clauses: seq<RawSpan>, ranges: seq<Op>, ops: seq<Op>, rest: seq<RawSpan>,
                   flat: seq<Op>, token: Token)
    requires Holding(clauses, token) == Holding(FlatSpans(tokens, ranges), token)
    requires Holding(rest, token) == Holding(FlatSpans(tokens, flat), token)
    ensures Holding(clauses + FlatSpans(tokens, ops) + rest, token)
         == Holding(FlatSpans(tokens, ranges + ops + flat), token)
  {
    HoldingConcat(clauses, FlatSpans(tokens, ops), token);
    HoldingConcat(clauses + FlatSpans(tokens, ops), rest, token);
    FlatSpansConcat(tokens, ranges, ops);
    FlatSpansConcat(tokens, ranges + ops, flat);
    HoldingConcat(FlatSpans(tokens, ranges), FlatSpans(tokens, ops), token);
    HoldingConcat(FlatSpans(tokens, ranges + ops), FlatSpans(tokens, flat), token);
  }

  /** Every source token lies inside exactly one clause, error clause or operator of the
      recovered query. */
  lemma TokenInExactlyOne<V(!new)>(p: ClauseParser<V>, tokens: seq<Token>, terminator: Option<RawSpan>, i: nat)
    requires FromSource(tokens) && i < |tokens| && RecoverSpec(p, tokens, terminator).Some?
    ensures var q := RecoverSpec(p, tokens, terminator).value;
            Holding(QuerySpans(q.branches, q.operators, 0), tokens[i]) == 1
  {
    EnvIsPlausible(p, tokens);
    RecoveryLosesNothing(EnvOf(p, tokens));
    var layout := LayoutOf(p, tokens).value;
    var ranges := Flat(layout.parts, layout.ops, 0);
    var j := TokenInTiling(tokens, ranges, i);
    HoldingOne(FlatSpans(tokens, ranges), tokens[i], j);
    QueryHolds(EnvOf(p, tokens), tokens, layout, 0, tokens[i]);
  }

  lemma TokenInTiling(tokens: seq<Token>, ranges: seq<Op>, i: nat) returns (j: nat)
    requires FromSource(tokens) && i < |tokens| && Tiles(ranges, 0, |tokens|)
    ensures var spans := FlatSpans(tokens, ranges);
            && j < |spans| && Inside(tokens[i], spans[j])
            && forall k :: 0 <= k < |spans| && Inside(tokens[i], spans[k]) ==> k == j
  {
    j := TileOf(ranges, 0, |tokens|, i);
    forall k | 0 <= k < |ranges|
      ensures Inside(tokens[i], Extent(tokens, ranges[k].lo, ranges[k].hi)) <==> ranges[k].lo <= i < ranges[k].hi
    {
      TilesBounded(ranges, 0, |tokens|, k);
      InsideExtent(tokens, ranges[k].lo, ranges[k].hi, i);
    }
  }

  predicate IsReturnNode<V>(p: ClauseParser<V>, node: ClauseNode<V>) {
    node.ClauseNode? && p.isReturn(node.clause)
  }

  predicate IsOrdered(span: RawSpan) {
    span.start <= span.end
  }

  predicate Within(inner: RawSpan, outer: RawSpan) {
    outer.start <= inner.start && inner.end <= outer.end
  }

  /** Clauses in order inside the branch; no two adjacent error clauses; a RETURN is last or
      followed by one error clause only. A branch without tokens is one empty error clause. */
  ghost predicate GoodBranch<V>(p: ClauseParser<V>, branch: BranchNode<V>) {
    var clauses := branch.clauses;
    && IsOrdered(branch.span) && clauses != []
    && (forall i :: 0 <= i < |clauses| ==> IsOrdered(clauses[i].span) && Within(clauses[i].span, branch.span))
    && (forall i, j :: 0 <= i < j < |clauses| ==> clauses[i].span.end <= clauses[j].span.start)
    && (forall i, j :: 0 <= i && j == i + 1 && j < |clauses| && clauses[i].ErrorClause? ==> clauses[j].ClauseNode?)
    && (forall i, j :: 0 <= i < j < |clauses| && IsReturnNode(p, clauses[i]) ==>
          j == i + 1 == |clauses| - 1 && clauses[j].ErrorClause?)
    && (branch.span.start == branch.span.end ==> clauses == [ErrorClause(branch.span)])
  }

  /** Operator k lies between branches k and k + 1. */
  ghost predicate InOrder<V>(branches: seq<BranchNode<V>>, operators: seq<OperatorNode>, k: nat)
    requires k < |operators| && k + 1 < |branches|
  {
    && IsOrdered(operators[k].span)
    && branches[k].span.end <= operators[k].span.start
    && operators[k].span.end <= branches[k + 1].span.start
  }

  /** Branches and operators alternate in order inside the query. */
  ghost predicate GoodQuery<V>(p: ClauseParser<V>, q: RecoveredQuery<V>) {
    && |q.branches| == |q.operators| + 1 <= 129
    && IsOrdered(q.span) && Within(q.span, q.statement)
    && (forall k: nat :: k < |q.branches| ==> GoodBranch(p, q.branches[k]) && Within(q.branches[k].span, q.span))
    && (forall k: nat :: k < |q.operators| ==> InOrder(q.branches, q.operators, k))
  }

  lemma {:induction false} PieceLow<V>(pieces: seq<Piece<V>>, lo: nat, hi: nat, i: nat)
    requires Tiled(pieces, lo, hi) && i < |pieces|
    ensures lo <= pieces[i].lo
  {
    if i > 0 {
      PieceLow(pieces, lo, hi, i - 1);
    }
  }

  lemma {:induction false} PieceHigh<V>(pieces: seq<Piece<V>>, lo: nat, hi: nat, i: nat)
    requires Tiled(pieces, lo, hi) && i < |pieces|
    ensures pieces[i].hi <= hi
    decreases |pieces| - i
  {
    if i + 1 < |pieces| {
      PieceHigh(pieces, lo, hi, i + 1);
    }
  }

  lemma {:induction false} PiecesInOrder<V>(pieces: seq<Piece<V>>, lo: nat, hi: nat, i: nat, j: nat)
    requires Tiled(pieces, lo, hi) && i < j < |pieces|
    ensures pieces[i].hi <= pieces[j].lo
    decreases j
  {
    if i + 1 < j {
      PiecesInOrder(pieces, lo, hi, i, j - 1);
    }
  }

  lemma RenderedBranch<V>(p: ClauseParser<V>, env: Env<V>, tokens: seq<Token>, part: Part<V>)
    requires FromSource(tokens) && env.isReturn == p.isReturn && GoodPart(env, part) && part.hi <= |tokens|
    ensures GoodBranch(p, RenderPart(tokens, part))
    ensures part.lo <= part.hi
  {
    TiledGrows(part.pieces, part.lo, part.hi);
    OffsetsGrow(tokens, part.lo, part.hi);
    if part.pieces != [] {
      RenderedClauses(p, env, tokens, part);
      RenderedKinds(p, env, tokens, part);
      RenderedExtent(tokens, part.lo, part.hi);
    }
  }

  /** What stands next to what is rendered as it was laid out. */
  lemma RenderedKinds<V>(p: ClauseParser<V>, env: Env<V>, tokens: seq<Token>, part: Part<V>)
    requires env.isReturn == p.isReturn && GoodPart(env, part)
    ensures var clauses := RenderPieces(tokens, part.pieces);
            && (forall i, j :: 0 <= i && j == i + 1 && j < |clauses| && clauses[i].ErrorClause? ==>
                  clauses[j].ClauseNode?)
            && (forall i, j :: 0 <= i < j < |clauses| && IsReturnNode(p, clauses[i]) ==>
                  j == i + 1 == |clauses| - 1 && clauses[j].ErrorClause?)
  {
  }

  lemma RenderedExtent(tokens: seq<Token>, lo: nat, hi: nat)
    requires FromSource(tokens) && lo < hi <= |tokens|
    ensures Extent(tokens, lo, hi).start < Extent(tokens, lo, hi).end
  {
    assert tokens[lo].start < tokens[lo].end;
    assert lo < hi - 1 ==> tokens[lo].end <= tokens[hi - 1].start;
  }

  lemma RenderedClauses<V>(p: ClauseParser<V>, env: Env<V>, tokens: seq<Token>, part: Part<V>)
    requires FromSource(tokens) && env.isReturn == p.isReturn && GoodPart(env, part) && part.hi <= |tokens|
    requires part.lo < part.hi
    ensures var clauses, span := RenderPieces(tokens, part.pieces), Extent(tokens, part.lo, part.hi);
            && (forall i :: 0 <= i < |clauses| ==> IsOrdered(clauses[i].span) && Within(clauses[i].span, span))
            && (forall i, j :: 0 <= i < j < |clauses| ==> clauses[i].span.end <= clauses[j].span.start)
  {
    var pieces := part.pieces;
    var clauses := RenderPieces(tokens, pieces);
    forall i | 0 <= i < |clauses|
      ensures IsOrdered(clauses[i].span) && Within(clauses[i].span, Extent(tokens, part.lo, part.hi))
    {
      PieceLow(pieces, part.lo, part.hi, i);
      PieceHigh(pieces, part.lo, part.hi, i);
      OffsetsGrow(tokens, part.lo, pieces[i].lo);
      OffsetsGrow(tokens, pieces[i].lo, pieces[i].hi);
      OffsetsGrow(tokens, pieces[i].hi, part.hi);
    }
    forall i, j | 0 <= i < j < |clauses|
      ensures clauses[i].span.end <= clauses[j].span.start
    {
      PiecesInOrder(pieces, part.lo, part.hi, i, j);
      PieceHigh(pieces, part.lo, part.hi, j);
      OffsetsGrow(tokens, pieces[i].hi, pieces[j].lo);
    }
  }

  /** How many clauses, error clauses among them, a query shows in all its branches. */
  function TotalClauses<V>(branches: seq<BranchNode<V>>): nat {
    if branches == [] then 0
    else TotalClauses(branches[..|branches| - 1]) + |branches[|branches| - 1].clauses|
  }

  lemma {:induction false} ClausesAreShown<V>(tokens: seq<Token>, parts: seq<Part<V>>)
    ensures TotalClauses(RenderParts(tokens, parts)) == TotalShown(parts)
  {
    if parts != [] {
      var rest := parts[..|parts| - 1];
      ClausesAreShown(tokens, rest);
      assert RenderParts(tokens, parts)[..|parts| - 1] == RenderParts(tokens, rest);
    }
  }

  /** Whole-run shape: whatever the clause parser does, a recovered query is well formed. */
  lemma RecoveredShape<V(!new)>(p: ClauseParser<V>, tokens: seq<Token>, terminator: Option<RawSpan>)
    requires FromSource(tokens) && RecoverSpec(p, tokens, terminator).Some?
    ensures GoodQuery(p, RecoverSpec(p, tokens, terminator).value)
    ensures TotalClauses(RecoverSpec(p, tokens, terminator).value.branches) <= 257
  {
    var env := EnvOf(p, tokens);
    EnvIsPlausible(p, tokens);
    RecoveryLosesNothing(env);
    RenderedQuery(p, env, tokens, terminator, LayoutOf(p, tokens).value);
    ClausesAreShown(tokens, LayoutOf(p, tokens).value.parts);
  }

  lemma RenderedQuery<V>(p: ClauseParser<V>, env: Env<V>, tokens: seq<Token>, terminator: Option<RawSpan>,
                         layout: Layout<V>)
    requires FromSource(tokens) && env.isReturn == p.isReturn && env.size == |tokens| && Complete(env, layout)
    requires |layout.parts| <= 129
    ensures GoodQuery(p, Render(tokens, terminator, layout))
  {
    var q := Render(tokens, terminator, layout);
    OffsetsGrow(tokens, 0, |tokens|);
    forall k: nat | k < |q.branches|
      ensures GoodBranch(p, q.branches[k]) && Within(q.branches[k].span, q.span)
    {
      RenderedAt(p, env, tokens, layout, k);
    }
    forall k: nat | k < |q.operators|
      ensures InOrder(q.branches, q.operators, k)
    {
      RenderedAt(p, env, tokens, layout, k);
    }
  }

  lemma RenderedAt<V>(p: ClauseParser<V>, env: Env<V>, tokens: seq<Token>, layout: Layout<V>, k: nat)
    requires FromSource(tokens) && env.isReturn == p.isReturn && env.size == |tokens| && Complete(env, layout)
    requires k < |layout.parts|
    ensures var branch := RenderPart(tokens, layout.parts[k]);
            GoodBranch(p, branch) && Within(branch.span, Extent(tokens, 0, |tokens|))
    ensures k < |layout.ops| ==>
              var op := RenderOp(tokens, layout.ops[k]);
              && IsOrdered(op.span) && RenderPart(tokens, layout.parts[k]).span.end <= op.span.start
              && op.span.end <= RenderPart(tokens, layout.parts[k + 1]).span.start
  {
    var part := layout.parts[k];
    CompleteAt(env, layout, k);
    RenderedBranch(p, env, tokens, part);
    SpansInOrder(tokens, Op(part.lo, part.hi), Op(part.hi, part.hi));
    if k < |layout.ops| {
      var op, next := layout.ops[k], layout.parts[k + 1];
      CompleteAt(env, layout, k + 1);
      RenderedBranch(p, env, tokens, next);
      SpansInOrder(tokens, Op(part.lo, part.hi), op);
      SpansInOrder(tokens, op, Op(next.lo, next.hi));
    }
  }
}
