/** Where recovery loses tokens, and where it starts again. */
module RecoveryResync {
  import opened Tokens
  import opened StrictQuery
  import opened RecoveryMachine
  import opened Recovery
  import opened RecoveryOutput
  import StrictTree

  /** The state of the loop after n turns. */
  ghost function After<V(!new)>(env: Env<V>, n: nat): State<V>
    requires Plausible(env)
  {
    if n == 0 then Initial()
    else
      var before := After(env, n - 1);
      if before.cursor < env.size then Step(env, before) else before
  }

  /** With this budget left, the loop comes to token c. */
  ghost predicate Reaches<V(!new)>(env: Env<V>, c: nat, left: nat)
    requires Plausible(env)
  {
    exists n: nat :: After(env, n).cursor == c && After(env, n).attempts == left
  }

  /** When the loop comes to c or passes it, the budget is used up. */
  ghost predicate IsSpent<V(!new)>(env: Env<V>, c: nat)
    requires Plausible(env)
  {
    exists n: nat :: SpentAt(env, c, n)
  }

  ghost predicate SpentAt<V(!new)>(env: Env<V>, c: nat, n: nat)
    requires Plausible(env)
  {
    n > 0 && After(env, n - 1).cursor <= c <= After(env, n).cursor && After(env, n).attempts == 0
  }

  /** With some budget left, no clause was found to start at c. */
  ghost predicate FoundNothing<V(!new)>(env: Env<V>, c: nat)
    requires Plausible(env)
  {
    exists left: nat :: left > 0 && Reaches(env, c, left) && env.trial(c, left).found.None?
  }

  /** Why nothing starts at token c: the budget; a RETURN in front, where only a UNION counts;
      or a trial. An operator is lost to the budget only. */
  ghost predicate IsLost<V(!new)>(env: Env<V>, behindReturn: bool, c: nat)
    requires Plausible(env)
  {
    IsSpent(env, c) || (!env.isUnion(c) && (behindReturn || FoundNothing(env, c)))
  }

  /** An error region ends at the next place to start again, and at none of those inside it
      could anything start. */
  ghost predicate IsRegion<V(!new)>(env: Env<V>, behindReturn: bool, lo: nat, hi: nat)
    requires Plausible(env)
  {
    && (hi == env.size || env.isBoundary(hi) || env.isUnion(hi))
    && forall c: nat :: lo <= c < hi && (c == lo || env.isBoundary(c)) ==> IsLost(env, behindReturn, c)
  }

  /** A retained clause is what the trial at its first token found. */
  ghost predicate IsFound<V(!new)>(env: Env<V>, clause: V, lo: nat, hi: nat)
    requires Plausible(env)
  {
    exists left: nat :: Reaches(env, lo, left) && env.trial(lo, left).found == Some((clause, hi))
                        && (left > 0 ==> !env.isUnion(lo))
  }

  ghost predicate PieceIs<V(!new)>(env: Env<V>, pieces: seq<Piece<V>>, i: nat)
    requires Plausible(env) && i < |pieces|
  {
    match pieces[i]
    case Kept(clause, lo, hi) => IsFound(env, clause, lo, hi)
    case Gap(lo, hi) => IsRegion(env, i > 0 && IsReturnPiece(env, pieces[i - 1]), lo, hi)
  }

  ghost predicate PiecesAre<V(!new)>(env: Env<V>, pieces: seq<Piece<V>>)
    requires Plausible(env)
  {
    forall i: nat :: i < |pieces| ==> PieceIs(env, pieces, i)
  }

  /** An operator is taken wherever the loop comes to one with some budget left. */
  ghost predicate IsTaken<V(!new)>(env: Env<V>, op: Op)
    requires Plausible(env)
  {
    env.isUnion(op.lo) && exists left: nat :: left > 0 && Reaches(env, op.lo, left)
  }

  /** All of this holds of a state of the loop. */
  ghost predicate Traces<V(!new)>(env: Env<V>, s: State<V>)
    requires Plausible(env)
  {
    && (forall k: nat :: k < |s.parts| ==> PiecesAre(env, s.parts[k].pieces))
    && (forall k: nat :: k < |s.ops| ==> IsTaken(env, s.ops[k]))
    && PiecesAre(env, s.pieces)
    && (s.open.Some? ==> IsRegion(env, s.returned, s.open.value, s.cursor))
  }

  // ---------- one turn ----------

  lemma PiecesAppend<V(!new)>(env: Env<V>, pieces: seq<Piece<V>>, piece: Piece<V>)
    requires Plausible(env) && PiecesAre(env, pieces) && PieceIs(env, pieces + [piece], |pieces|)
    ensures PiecesAre(env, pieces + [piece])
  {
    forall i: nat | i < |pieces + [piece]|
      ensures PieceIs(env, pieces + [piece], i)
    {
      if i < |pieces| {
        assert PieceIs(env, pieces, i);
      }
    }
  }

  lemma ClosedTraces<V(!new)>(env: Env<V>, s: State<V>)
    requires Plausible(env) && OpenBranch(env, s) && Traces(env, s)
    ensures PiecesAre(env, Closed(s, s.cursor))
  {
    if s.open.Some? {
      var gap := Gap(s.open.value, s.cursor);
      var last := |s.pieces|;
      assert s.returned == (last > 0 && IsReturnPiece(env, s.pieces[last - 1]));
      PiecesAppend(env, s.pieces, gap);
    }
  }

  lemma SplitTraces<V(!new)>(env: Env<V>, n: nat)
    requires Plausible(env)
    requires var s := After(env, n);
             OpenBranch(env, s) && Traces(env, s) && s.cursor < env.size && s.attempts > 0 && env.isUnion(s.cursor)
    ensures Traces(env, Split(env, After(env, n)))
  {
    var s := After(env, n);
    ClosedTraces(env, s);
    assert Reaches(env, s.cursor, s.attempts);
  }

  lemma RetainTraces<V(!new)>(env: Env<V>, n: nat)
    requires Plausible(env)
    requires var s := After(env, n);
             OpenBranch(env, s) && Traces(env, s) && s.cursor < env.size && !(s.attempts > 0 && env.isUnion(s.cursor))
    requires TrialAt(env, After(env, n)).found.Some?
    ensures Traces(env, Retain(env, After(env, n), TrialAt(env, After(env, n))))
  {
    var s := After(env, n);
    var (clause, end) := TrialAt(env, s).found.value;
    ClosedTraces(env, s);
    assert Reaches(env, s.cursor, s.attempts);
    assert IsFound(env, clause, s.cursor, end);
    PiecesAppend(env, Closed(s, s.cursor), Kept(clause, s.cursor, end));
  }

  /** Where the loop passes over a token, it had no budget for it, or nothing to find. */
  lemma PassedIsLost<V(!new)>(env: Env<V>, n: nat)
    requires Plausible(env)
    requires var s := After(env, n); s.cursor < env.size && !(s.attempts > 0 && env.isUnion(s.cursor))
    requires TrialAt(env, After(env, n)).found.None?
    ensures IsLost(env, After(env, n).returned, After(env, n).cursor)
    ensures var s := After(env, n);
            forall c: nat :: s.cursor < c < After(env, n + 1).cursor && env.isBoundary(c) ==> IsLost(env, s.returned, c)
  {
    var s, next := After(env, n), After(env, n + 1);
    StepAdvances(env, s);
    var t := TrialAt(env, s);
    if t.left == 0 {
      forall c: nat | s.cursor <= c < next.cursor
        ensures IsSpent(env, c)
      {
        assert SpentAt(env, c, n + 1);
      }
    } else {
      assert Reaches(env, s.cursor, s.attempts);
    }
  }

  /** A region that goes on behind a lost token. */
  lemma RegionGrows<V(!new)>(env: Env<V>, behindReturn: bool, lo: nat, middle: nat, hi: nat)
    requires Plausible(env) && lo <= middle < hi && (lo == middle || IsRegion(env, behindReturn, lo, middle))
    requires IsLost(env, behindReturn, middle)
    requires forall c: nat :: middle < c < hi && env.isBoundary(c) ==> IsLost(env, behindReturn, c)
    requires hi == env.size || env.isBoundary(hi) || env.isUnion(hi)
    ensures IsRegion(env, behindReturn, lo, hi)
  {
  }

  lemma PassTraces<V(!new)>(env: Env<V>, n: nat)
    requires Plausible(env)
    requires var s := After(env, n);
             OpenBranch(env, s) && Traces(env, s) && s.cursor < env.size && !(s.attempts > 0 && env.isUnion(s.cursor))
    requires TrialAt(env, After(env, n)).found.None?
    ensures Traces(env, After(env, n + 1))
  {
    var s, next := After(env, n), After(env, n + 1);
    StepAdvances(env, s);
    PassedIsLost(env, n);
    RegionGrows(env, s.returned, next.open.value, s.cursor, next.cursor);
    OpenTraces(env, s, next);
  }

  /** Only the open region differs. */
  lemma OpenTraces<V(!new)>(env: Env<V>, s: State<V>, next: State<V>)
    requires Plausible(env) && Traces(env, s)
    requires next.parts == s.parts && next.ops == s.ops && next.pieces == s.pieces && next.open.Some?
    requires IsRegion(env, next.returned, next.open.value, next.cursor)
    ensures Traces(env, next)
  {
  }

  lemma TurnTraces<V(!new)>(env: Env<V>, n: nat)
    requires Plausible(env)
    requires var s := After(env, n); OpenBranch(env, s) && Traces(env, s)
    ensures Traces(env, After(env, n + 1))
  {
    var s := After(env, n);
    if s.cursor >= env.size {
      assert After(env, n + 1) == s;
    } else if s.attempts > 0 && env.isUnion(s.cursor) {
      SplitTraces(env, n);
    } else if TrialAt(env, s).found.Some? {
      RetainTraces(env, n);
    } else {
      PassTraces(env, n);
    }
  }

  lemma {:induction false} AfterReachable<V(!new)>(env: Env<V>, n: nat)
    requires Plausible(env)
    ensures Reachable(env, After(env, n))
  {
    if n == 0 {
      InitialReachable(env);
    } else {
      AfterReachable(env, n - 1);
      ReachableNext(env, After(env, n - 1), After(env, n));
    }
  }

  lemma InitialReachable<V>(env: Env<V>)
    ensures Reachable(env, Initial<V>())
  {
  }

  lemma ReachableNext<V(!new)>(env: Env<V>, s: State<V>, next: State<V>)
    requires Plausible(env) && Reachable(env, s)
    requires next == if s.cursor < env.size then Step(env, s) else s
    ensures Reachable(env, next)
  {
    if s.cursor < env.size {
      StepKeeps(env, s);
    }
  }

  lemma NextTraces<V(!new)>(env: Env<V>, n: nat)
    requires Plausible(env) && Traces(env, After(env, n))
    ensures Traces(env, After(env, n + 1))
  {
    AfterReachable(env, n);
    TurnTraces(env, n);
  }

  lemma InitialTraces<V(!new)>(env: Env<V>)
    requires Plausible(env)
    ensures Traces(env, Initial<V>())
  {
  }

  lemma {:induction false} AfterTraces<V(!new)>(env: Env<V>, n: nat)
    requires Plausible(env)
    ensures Traces(env, After(env, n))
  {
    if n == 0 {
      InitialTraces(env);
    } else {
      AfterTraces(env, n - 1);
      NextTraces(env, n - 1);
    }
  }

  // ---------- whole runs ----------

  lemma {:induction false} RunIsAfter<V(!new)>(env: Env<V>, n: nat) returns (m: nat)
    requires Plausible(env) && After(env, n).cursor <= env.size
    ensures Run(env, After(env, n)) == After(env, m)
    decreases env.size - After(env, n).cursor
  {
    m := n;
    if After(env, n).cursor < env.size {
      StepAdvances(env, After(env, n));
      m := RunIsAfter(env, n + 1);
    }
  }

  /** The branches of the whole run, whether or not a clause was retained. */
  ghost function AllParts<V(!new)>(env: Env<V>): seq<Part<V>>
    requires Plausible(env)
  {
    var s := Run(env, Initial());
    s.parts + [Part(Closed(s, env.size), s.lo, env.size)]
  }

  lemma {:induction false} NothingKept<V>(pieces: seq<Piece<V>>, i: nat)
    requires KeptCount(pieces) == 0 && i < |pieces|
    ensures pieces[i].Gap?
  {
    if i < |pieces| - 1 {
      NothingKept(pieces[..|pieces| - 1], i);
    }
  }

  lemma {:induction false} NothingKeptAt<V>(parts: seq<Part<V>>, k: nat)
    requires TotalKept(parts) == 0 && k < |parts|
    ensures KeptCount(parts[k].pieces) == 0
  {
    if k < |parts| - 1 {
      NothingKeptAt(parts[..|parts| - 1], k);
    }
  }

  lemma NothingCounted<V(!new)>(env: Env<V>)
    requires Plausible(env) && Recover(env).None?
    ensures TotalKept(Run(env, Initial<V>()).parts) == 0 && KeptCount(Run(env, Initial<V>()).pieces) == 0
  {
    RunCounts(env);
  }

  lemma RunCounts<V(!new)>(env: Env<V>)
    requires Plausible(env)
    ensures Budgeted(Run(env, Initial<V>()))
  {
    assert Reachable(env, Initial<V>());
    RunKeeps(env, Initial<V>());
  }

  lemma NothingRetained<V(!new)>(env: Env<V>, k: nat, i: nat)
    requires Plausible(env) && Recover(env).None? && k < |AllParts(env)| && i < |AllParts(env)[k].pieces|
    ensures AllParts(env)[k].pieces[i].Gap?
  {
    var s := Run(env, Initial());
    NothingCounted(env);
    if k < |s.parts| {
      NothingKeptAt(s.parts, k);
      NothingKept(s.parts[k].pieces, i);
    } else if i < |s.pieces| {
      NothingKept(s.pieces, i);
    }
  }

  /** In every branch of a run the retained clauses are those that the trials found, and each
      error region ends at the next place to start again and holds none that was within the
      budget and had a clause or an operator. The run gives a query unless all is lost. */
  lemma RegionsAreMaximal<V(!new)>(env: Env<V>)
    requires Plausible(env)
    ensures forall k: nat :: k < |AllParts(env)| ==> PiecesAre(env, AllParts(env)[k].pieces)
    ensures Recover(env).Some? ==>
              && Recover(env).value.parts == AllParts(env)
              && forall k: nat :: k < |Recover(env).value.ops| ==> IsTaken(env, Recover(env).value.ops[k])
    ensures Recover(env).None? ==>
              forall k: nat, i: nat :: k < |AllParts(env)| && i < |AllParts(env)[k].pieces| ==>
                AllParts(env)[k].pieces[i].Gap?
  {
    var m := RunIsAfter(env, 0);
    AfterTraces(env, m);
    AfterReachable(env, m);
    RunKeeps(env, After(env, 0));
    ClosedTraces(env, After(env, m));
    if Recover(env).None? {
      forall k: nat, i: nat | k < |AllParts(env)| && i < |AllParts(env)[k].pieces|
        ensures AllParts(env)[k].pieces[i].Gap?
      {
        NothingRetained(env, k, i);
      }
    }
  }

  lemma GapIsRegion<V(!new)>(env: Env<V>, k: nat, i: nat)
    requires Plausible(env) && k < |AllParts(env)| && i < |AllParts(env)[k].pieces| && AllParts(env)[k].pieces[i].Gap?
    ensures var pieces := AllParts(env)[k].pieces;
            IsRegion(env, i > 0 && IsReturnPiece(env, pieces[i - 1]), pieces[i].lo, pieces[i].hi)
  {
    RegionsAreMaximal(env);
    var pieces := AllParts(env)[k].pieces;
    assert PiecesAre(env, pieces);
    assert PieceIs(env, pieces, i);
  }

  // ---------- for a token list ----------

  /** Why no clause and no operator starts at the cut c of a token list. */
  ghost predicate CutIsLost<V(!new)>(p: ClauseParser<V>, tokens: seq<Token>, behindReturn: bool, c: nat)
    requires Plausible(EnvOf(p, tokens))
  {
    || IsSpent(EnvOf(p, tokens), c)
    || (c !in Unions(tokens) && (behindReturn || NothingParses(p, tokens, c)))
  }

  /** With some budget left, none of the ends that it allows to try gives a clause. */
  ghost predicate NothingParses<V(!new)>(p: ClauseParser<V>, tokens: seq<Token>, c: nat)
    requires Plausible(EnvOf(p, tokens))
  {
    exists left: nat :: left > 0 && Reaches(EnvOf(p, tokens), c, left)
                        && forall e :: e in TriedEnds(tokens, c, left) ==> !ParsesAt(p, tokens, c, e)
  }

  /** A region of the recovered layout ends at a cut, and every cut inside it, and its first
      token, was lost to the budget, to a RETURN in front, or to a trial in which nothing parses. */
  lemma NothingSwallowed<V(!new)>(p: ClauseParser<V>, tokens: seq<Token>, k: nat, i: nat)
    requires Plausible(EnvOf(p, tokens)) && k < |AllParts(EnvOf(p, tokens))|
    requires i < |AllParts(EnvOf(p, tokens))[k].pieces| && AllParts(EnvOf(p, tokens))[k].pieces[i].Gap?
    ensures var env, pieces := EnvOf(p, tokens), AllParts(EnvOf(p, tokens))[k].pieces;
            var behindReturn := i > 0 && IsReturnPiece(env, pieces[i - 1]);
            && pieces[i].hi in Cuts(tokens)
            && forall c: nat :: pieces[i].lo <= c < pieces[i].hi && (c == pieces[i].lo || c in Cuts(tokens)) ==>
                 CutIsLost(p, tokens, behindReturn, c)
  {
    var env := EnvOf(p, tokens);
    var pieces := AllParts(env)[k].pieces;
    GapIsRegion(env, k, i);
    RegionOfCuts(p, tokens, i > 0 && IsReturnPiece(env, pieces[i - 1]), pieces[i].lo, pieces[i].hi);
  }

  lemma RegionOfCuts<V(!new)>(p: ClauseParser<V>, tokens: seq<Token>, behindReturn: bool, lo: nat, hi: nat)
    requires Plausible(EnvOf(p, tokens)) && IsRegion(EnvOf(p, tokens), behindReturn, lo, hi)
    ensures hi in Cuts(tokens)
    ensures forall c: nat :: lo <= c < hi && (c == lo || c in Cuts(tokens)) ==> CutIsLost(p, tokens, behindReturn, c)
  {
    var env := EnvOf(p, tokens);
    forall c: nat | lo <= c < hi && (c == lo || c in Cuts(tokens))
      ensures CutIsLost(p, tokens, behindReturn, c)
    {
      assert IsLost(env, behindReturn, c);
      if FoundNothing(env, c) {
        FoundNothingParses(p, tokens, c);
      }
    }
  }

  lemma FoundNothingParses<V(!new)>(p: ClauseParser<V>, tokens: seq<Token>, c: nat)
    requires Plausible(EnvOf(p, tokens)) && FoundNothing(EnvOf(p, tokens), c)
    ensures NothingParses(p, tokens, c)
  {
    var env := EnvOf(p, tokens);
    var left: nat :| left > 0 && Reaches(env, c, left) && env.trial(c, left).found.None?;
    LongestWins(p, tokens, c, left);
  }

  // ---------- the returned query ----------

  /** From the first token to the last one. */
  predicate IsExtent(tokens: seq<Token>, lo: nat, hi: nat, span: RawSpan) {
    lo < hi <= |tokens| && span == RawSpan(tokens[lo].start, tokens[hi - 1].end)
  }

  /** A retained clause is shown as it was parsed, an error region as an error clause. */
  predicate IsShown<V(==)>(tokens: seq<Token>, piece: Piece<V>, node: ClauseNode<V>) {
    match piece
    case Kept(clause, lo, hi) => node.ClauseNode? && node.clause == clause && IsExtent(tokens, lo, hi, node.span)
    case Gap(lo, hi) => node.ErrorClause? && IsExtent(tokens, lo, hi, node.span)
  }

  /** Empty, in front of the token at index i, or behind the last one. */
  predicate IsNowhere(tokens: seq<Token>, i: nat, span: RawSpan) {
    tokens != [] && span.start == span.end == if i < |tokens| then tokens[i].start else tokens[|tokens| - 1].end
  }

  /** A branch shows its pieces in order, and if there are none, one error clause. */
  ghost predicate IsBranch<V>(tokens: seq<Token>, part: Part<V>, branch: BranchNode<V>) {
    if part.pieces == [] then branch.clauses == [ErrorClause(branch.span)] && IsNowhere(tokens, part.lo, branch.span)
    else
      && IsExtent(tokens, part.lo, part.hi, branch.span) && |branch.clauses| == |part.pieces|
      && forall i: nat :: i < |part.pieces| ==> IsShown(tokens, part.pieces[i], branch.clauses[i])
  }

  /** An operator: `UNION` outside brackets, with the word behind it, and none that names something. */
  ghost predicate IsOperatorNode(tokens: seq<Token>, op: Op, node: OperatorNode) {
    && StrictTree.IsOperator(tokens, op.lo, op.hi, |tokens|, node.kind)
    && DepthFrom(tokens, 0, op.lo) == 0
    && (op.lo > 0 ==> tokens[op.lo - 1].kind !in {As, Dot, Colon, Call})
    && IsExtent(tokens, op.lo, op.hi, node.span)
  }

  lemma ShownPiece<V>(env: Env<V>, tokens: seq<Token>, part: Part<V>, i: nat)
    requires GoodPart(env, part) && part.hi <= |tokens| && i < |part.pieces|
    ensures IsShown(tokens, part.pieces[i], RenderPiece(tokens, part.pieces[i]))
  {
    PieceHigh(part.pieces, part.lo, part.hi, i);
  }

  lemma ShownBranch<V>(env: Env<V>, tokens: seq<Token>, part: Part<V>)
    requires GoodPart(env, part) && part.hi <= |tokens| && tokens != []
    ensures IsBranch(tokens, part, RenderPart(tokens, part))
  {
    TiledGrows(part.pieces, part.lo, part.hi);
    forall i: nat | i < |part.pieces|
      ensures IsShown(tokens, part.pieces[i], RenderPieces(tokens, part.pieces)[i])
    {
      ShownPiece(env, tokens, part, i);
    }
  }

  lemma ShownOperator<V>(p: ClauseParser<V>, tokens: seq<Token>, op: Op)
    requires GoodOp(EnvOf(p, tokens), op)
    ensures IsOperatorNode(tokens, op, RenderOp(tokens, op))
  {
    assert op.lo in Unions(tokens);
    StrictTree.OperatorIs(tokens, op.lo, op.hi, |tokens|, RenderOp(tokens, op).kind);
  }

  /** The branches and operators of a query are those of a layout. */
  ghost predicate Shows<V>(tokens: seq<Token>, parts: seq<Part<V>>, q: RecoveredQuery<V>) {
    && |q.branches| == |parts| == |q.operators| + 1
    && (forall k: nat :: k < |parts| ==> IsBranch(tokens, parts[k], q.branches[k]))
    && (forall k: nat :: k < |q.operators| ==>
          IsOperatorNode(tokens, Op(parts[k].hi, parts[k + 1].lo), q.operators[k]))
  }

  /** The returned query shows the branches of the run and the operators between them, and spans
      the tokens, with the final semicolon as a statement. */
  lemma QueryShows<V(!new)>(p: ClauseParser<V>, tokens: seq<Token>, terminator: Option<RawSpan>)
    requires FromSource(tokens) && RecoverSpec(p, tokens, terminator).Some? && Plausible(EnvOf(p, tokens))
    ensures var q := RecoverSpec(p, tokens, terminator).value;
            && Shows(tokens, AllParts(EnvOf(p, tokens)), q)
            && IsExtent(tokens, 0, |tokens|, q.span)
            && q.statement == if terminator.Some? then CoverOf(q.span, terminator.value) else q.span
  {
    var env := EnvOf(p, tokens);
    var layout := LayoutOf(p, tokens).value;
    assert layout.parts == AllParts(env) by { RegionsAreMaximal(env); }
    assert Complete(env, layout) by { RecoveryLosesNothing(env); }
    LayoutShows(p, tokens, terminator, layout);
  }

  lemma LayoutShows<V>(p: ClauseParser<V>, tokens: seq<Token>, terminator: Option<RawSpan>, layout: Layout<V>)
    requires Complete(EnvOf(p, tokens), layout) && tokens != []
    ensures Shows(tokens, layout.parts, Render(tokens, terminator, layout))
  {
    forall k: nat | k < |layout.parts|
      ensures IsBranch(tokens, layout.parts[k], RenderPart(tokens, layout.parts[k]))
      ensures k < |layout.ops| ==>
                IsOperatorNode(tokens, Op(layout.parts[k].hi, layout.parts[k + 1].lo), RenderOp(tokens, layout.ops[k]))
    {
      ShownAt(p, tokens, layout, k);
    }
  }

  lemma ShownAt<V>(p: ClauseParser<V>, tokens: seq<Token>, layout: Layout<V>, k: nat)
    requires Complete(EnvOf(p, tokens), layout) && k < |layout.parts| && tokens != []
    ensures IsBranch(tokens, layout.parts[k], RenderPart(tokens, layout.parts[k]))
    ensures k < |layout.ops| ==>
              IsOperatorNode(tokens, Op(layout.parts[k].hi, layout.parts[k + 1].lo), RenderOp(tokens, layout.ops[k]))
  {
    CompleteAt(EnvOf(p, tokens), layout, k);
    ShownBranch(EnvOf(p, tokens), tokens, layout.parts[k]);
    if k < |layout.ops| {
      ShownOperator(p, tokens, layout.ops[k]);
    }
  }
}
