/** A five-state grammar, `RETURN 1` and `RETURN <pattern expression>`, whose pattern
    fragment never parses. It shows that the table hypotheses can be met and that malformed
    UNION chains of every length exist. */
module MiniGrammar {
  import opened Tokens
  import opened LrMachine
  import opened LrRuns
  import opened LrContract
  import opened StrictQuery
  import opened StrictParser
  import opened StrictTheorems
  import opened UnionChain

  const ONE: Kind := Symbol("1")

  datatype Value = Terminal | Expression | Clause

  function Integer(kind: Kind): Option<usize> {
    if kind.Return? then Some(1)
    else if ClauseStarts(kind) then Some(6)
    else
      match kind
      case Identifier => Some(0)
      case Symbol(_) => if kind == ONE then Some(2) else None
      case PatternExpression => Some(3)
      case Union => Some(4)
      case All => Some(5)
      case _ => None
  }

  function ActionTable(state: nat, integer: usize): int {
    if state == 0 && integer == 1 then 2
    else if state == 1 && integer == 2 then 3
    else if state == 1 && integer == 3 then 4
    else if state == 3 && (integer == 1 || integer == 6) then -3
    else 0
  }

  /** Productions: 0 Clause = RETURN Expr, 1 Expr = 1, 2 Expr = fragment, 3 the start. */
  function EofTable(state: nat): int {
    if state == 2 then -2 else if state == 3 then -3 else if state == 4 then -1 else if state == 5 then -4 else 0
  }

  function Semantic(production: nat, popped: seq<Sym<Value>>, lookahead: Option<nat>): Reduced<Value> {
    if production == 2 then
      var at := if popped == [] then 0 else popped[0].start;
      Raise(UnrecognizedToken(Token(at, Identifier, at), []))
    else Value(if production == 1 then Expression else Clause)
  }

  const MINI: Tables<Value> := Tables(
    Integer, 0, IsContextualNameCandidate, ActionTable, EofTable,
    (state: nat, production: nat) => if production == 0 then 5 else 4,
    (production: nat) => if production == 0 then 2 else 1,
    (production: nat) => production == 3,
    (integer, token) => Terminal,
    Semantic,
    frames => [])

  function Owner(state: nat): Option<nat> {
    if state == 3 then Some(2) else None
  }

  const STEP: Stepper<Value> := StepperOf(MachineOf(MINI, Contextual))

  lemma MiniMeetsHypotheses()
    ensures WellFormed(MINI) && FragmentTables(MINI, Owner) && UniformTables(MINI, Owner) && ErrorsInside(MINI)
  {
    MiniIsWellFormed();
    MiniErrors();
    MiniFragments();
    MiniIsUniform();
  }

  lemma MiniIsWellFormed()
    ensures WellFormed(MINI)
  {
  }

  lemma MiniErrors()
    ensures ErrorsInside(MINI)
  {
  }

  lemma MiniFragments()
    ensures FragmentTables(MINI, Owner)
  {
    assert forall p: nat :: IsFragmentProduction(MINI, p) ==> p == 2;
  }

  lemma MiniIsUniform()
    ensures UniformTables(MINI, Owner)
  {
    forall token: Token | ClauseStarts(token.kind)
      ensures UniformAt(MINI, 3, token)
    {
      assert TokenIndex(MINI, Contextual, token.kind) == Some(Mark(if token.kind.Return? then 1 else 6));
    }
  }

  // ---------- the parser it drives ----------

  function Rank(state: nat): nat {
    if state == 2 || state == 3 then 3 else if state == 4 then 2 else if state == 5 then 1 else 0
  }

  function Measure(tokens: seq<Token>, c: Config<Value>): nat {
    5 * (if c.next < |tokens| then |tokens| - c.next else 0) + Rank(Top(c))
  }

  lemma MiniStepShrinks(tokens: seq<Token>, c: Config<Value>)
    ensures STEP(tokens, c).Running? ==> Measure(tokens, STEP(tokens, c).config) < Measure(tokens, c)
  {
  }

  lemma MiniHalts()
    ensures Shrinks(STEP, Measure)
  {
    forall tokens, c
      ensures STEP(tokens, c).Running? ==> Measure(tokens, STEP(tokens, c).config) < Measure(tokens, c)
    {
      MiniStepShrinks(tokens, c);
    }
  }

  /** Tables and a clause parser that meet every hypothesis exist, and so the contract of the search is met. */
  lemma MiniParser() returns (p: ClauseParser<Value>)
    ensures WellFormed(MINI) && FragmentTables(MINI, Owner) && UniformTables(MINI, Owner) && ErrorsInside(MINI)
    ensures Drives(STEP, p.parse)
    ensures BlamesPrefix(p.parse) && StableErrors(p.parse)
  {
    MiniHalts();
    ParseOfDrives(STEP, Measure);
    p := ClauseParser(ParseOf(STEP, Measure), v => true);
    MiniMeetsHypotheses();
    DrivenParserBlamesPrefix(MINI, Owner, p.parse);
    DrivenParserIsStable(MINI, Owner, p.parse);
  }

  // ---------- what it does on the slices below ----------

  /** The configuration after `RETURN`, and after one more shift. */
  lemma AfterReturn(tokens: seq<Token>)
    requires tokens != [] && tokens[0].kind == Return
    ensures Run(STEP, tokens, 1) == Running(Shift(Config([], 0), tokens[0], 1, Terminal))
  {
    assert Run(STEP, tokens, 0) == Running(Config([], 0));
  }

  lemma AfterOperand(tokens: seq<Token>)
    requires |tokens| >= 2 && tokens[0].kind == Return && tokens[1].kind == ONE
    ensures Run(STEP, tokens, 2)
         == Running(Shift(Shift(Config([], 0), tokens[0], 1, Terminal), tokens[1], 2, Terminal))
  {
    AfterReturn(tokens);
    var c := Shift(Config([], 0), tokens[0], 1, Terminal);
    assert Decide(MINI, Contextual, 1, tokens[1]) == ShiftTo(2, Terminal);
    assert STEP(tokens, c) == Running(Shift(c, tokens[1], 2, Terminal));
  }

  /** `RETURN` alone is incomplete. */
  lemma FailsAfterReturn(tokens: seq<Token>, c: Config<Value>)
    requires c.next >= |tokens| && Top(c) == 1
    ensures STEP(tokens, c).Stopped? && STEP(tokens, c).outcome.Failed?
  {
  }

  lemma LoneReturnFails(p: ClauseParser<Value>, tokens: seq<Token>)
    requires Drives(STEP, p.parse)
    requires |tokens| == 1 && tokens[0].kind == Return
    ensures p.parse(tokens).Failed?
  {
    AfterReturn(tokens);
    FailsAfterReturn(tokens, Run(STEP, tokens, 1).config);
    OutcomeIsUnique(STEP, p.parse, tokens, 2);
  }

  /** Reductions at the end of input: 1 to Expr, RETURN Expr to Clause, and acceptance. */
  lemma ReducesOperand(tokens: seq<Token>, c: Config<Value>)
    requires c.next >= |tokens| && |c.frames| == 2 && c.frames[0].state == 1 && c.frames[1].state == 2
    ensures STEP(tokens, c).Running?
    ensures var after := STEP(tokens, c).config;
            after.next == c.next && |after.frames| == 2 && after.frames[1].state == 4
  {
  }

  lemma ReducesClause(tokens: seq<Token>, c: Config<Value>)
    requires c.next >= |tokens| && |c.frames| == 2 && c.frames[1].state == 4
    ensures STEP(tokens, c).Running?
    ensures var after := STEP(tokens, c).config;
            after.next == c.next && |after.frames| == 1 && after.frames[0].state == 5
  {
  }

  lemma AcceptsClause(tokens: seq<Token>, c: Config<Value>)
    requires c.next >= |tokens| && |c.frames| == 1 && c.frames[0].state == 5
    ensures STEP(tokens, c).Stopped? && STEP(tokens, c).outcome.Parsed?
  {
  }

  lemma ReturnOneParses(p: ClauseParser<Value>, tokens: seq<Token>)
    requires Drives(STEP, p.parse)
    requires |tokens| == 2 && tokens[0].kind == Return && tokens[1].kind == ONE
    ensures p.parse(tokens).Parsed?
  {
    AfterOperand(tokens);
    ReducesOperand(tokens, Run(STEP, tokens, 2).config);
    ReducesClause(tokens, Run(STEP, tokens, 3).config);
    AcceptsClause(tokens, Run(STEP, tokens, 4).config);
    OutcomeIsUnique(STEP, p.parse, tokens, 5);
  }

  /** After `RETURN 1`, any other token is a rejected lookahead. */
  lemma ThirdTokenRejected(p: ClauseParser<Value>, tokens: seq<Token>)
    requires Drives(STEP, p.parse)
    requires |tokens| >= 3 && tokens[0].kind == Return && tokens[1].kind == ONE
    ensures p.parse(tokens) == Failed(UnrecognizedToken(tokens[2], []))
  {
    AfterOperand(tokens);
    assert Run(STEP, tokens, 3).Stopped?;
    OutcomeIsUnique(STEP, p.parse, tokens, 3);
  }

  // ---------- malformed chains of every length ----------

  function KindAt(i: nat): Kind {
    if i % 4 == 0 then Return else if i % 4 == 1 then ONE else if i % 4 == 2 then Union else All
  }

  /** n times RETURN 1 UNION ALL, then RETURN. */
  function ChainTokens(n: nat): (tokens: seq<Token>)
    ensures |tokens| == 4 * n + 1
  {
    seq(4 * n + 1, (i: nat) => ChainToken(i))
  }

  function ChainToken(i: nat): Token {
    Token(2 * i, KindAt(i), 2 * i + 1)
  }

  lemma ChainFromSource(n: nat)
    ensures FromSource(ChainTokens(n))
  {
  }

  lemma {:induction false} FlatDepth(n: nat, base: nat, i: nat)
    requires base <= i <= 4 * n + 1
    ensures DepthFrom(ChainTokens(n), base, i) == 0
    decreases i
  {
    if base < i {
      FlatDepth(n, base, i - 1);
    }
  }

  lemma ChainMarks(n: nat, lo: nat, i: nat)
    requires lo < 4 * n + 1
    ensures BoundaryMark(ChainTokens(n), lo, 4 * n + 1)(i) <==> i == 4 * n + 1 || (lo < i < 4 * n + 1 && i % 4 == 0)
    ensures UnionMark(ChainTokens(n), lo, 4 * n + 1)(i) <==> lo <= i < 4 * n + 1 && i % 4 == 2
  {
    if lo <= i < 4 * n + 1 {
      FlatDepth(n, lo, i);
    }
    if lo < i < 4 * n + 1 {
      FlatDepth(n, lo + 1, i);
    }
  }

  lemma ChainLink(p: ClauseParser<Value>, n: nat, lo: nat)
    requires lo < 4 * n && lo % 4 == 0 && Drives(STEP, p.parse)
    ensures Link(p, ChainTokens(n), lo, lo + 2, lo + 4, 4 * n + 1)
  {
    LinkMarks(n, lo);
    LinkParses(p, n, lo);
  }

  lemma LinkMarks(n: nat, lo: nat)
    requires lo < 4 * n && lo % 4 == 0
    ensures var tokens, hi := ChainTokens(n), 4 * n + 1;
            && NoMark(UnionMark(tokens, lo, hi), lo, lo + 2) && UnionMark(tokens, lo, hi)(lo + 2)
            && NoMark(BoundaryMark(tokens, lo, hi), lo + 1, lo + 4) && BoundaryMark(tokens, lo, hi)(lo + 4)
  {
    LinkUnions(n, lo);
    LinkBoundaries(n, lo);
  }

  lemma LinkUnions(n: nat, lo: nat)
    requires lo < 4 * n && lo % 4 == 0
    ensures var mark := UnionMark(ChainTokens(n), lo, 4 * n + 1); NoMark(mark, lo, lo + 2) && mark(lo + 2)
  {
    var mark := UnionMark(ChainTokens(n), lo, 4 * n + 1);
    forall i: nat | lo <= i <= lo + 2
      ensures mark(i) <==> i == lo + 2
    {
      ChainMarks(n, lo, i);
    }
  }

  lemma LinkBoundaries(n: nat, lo: nat)
    requires lo < 4 * n && lo % 4 == 0
    ensures var mark := BoundaryMark(ChainTokens(n), lo, 4 * n + 1); NoMark(mark, lo + 1, lo + 4) && mark(lo + 4)
  {
    var mark := BoundaryMark(ChainTokens(n), lo, 4 * n + 1);
    forall i: nat | lo < i <= lo + 4
      ensures mark(i) <==> i == lo + 4
    {
      ChainMarks(n, lo, i);
    }
  }

  /** The four tokens from lo on are a branch and its UNION ALL. */
  ghost predicate IsBranch(tokens: seq<Token>, lo: nat) {
    && lo + 4 <= |tokens| && tokens[lo].kind == KindAt(0) && tokens[lo + 1].kind == KindAt(1)
    && tokens[lo + 2].kind == KindAt(2) && tokens[lo + 3].kind == KindAt(3)
  }

  lemma ChainKind(n: nat, lo: nat, k: nat)
    requires lo < 4 * n && lo % 4 == 0 && k < 4
    ensures ChainTokens(n)[lo + k].kind == KindAt(k)
  {
    assert ChainTokens(n)[lo + k] == ChainToken(lo + k);
  }

  lemma ChainBranch(n: nat, lo: nat)
    requires lo < 4 * n && lo % 4 == 0
    ensures IsBranch(ChainTokens(n), lo)
  {
    ChainKind(n, lo, 0);
    ChainKind(n, lo, 1);
    ChainKind(n, lo, 2);
    ChainKind(n, lo, 3);
  }

  lemma BranchKinds(tokens: seq<Token>, lo: nat) returns (branch: seq<Token>)
    requires IsBranch(tokens, lo)
    ensures branch == tokens[lo..lo + 4]
    ensures branch[0].kind == Return && branch[1].kind == ONE && branch[2].kind == Union && branch[3].kind == All
  {
    branch := tokens[lo..lo + 4];
  }

  lemma LinkParses(p: ClauseParser<Value>, n: nat, lo: nat)
    requires lo < 4 * n && lo % 4 == 0 && Drives(STEP, p.parse)
    ensures var tokens := ChainTokens(n);
            && p.parse(tokens[lo..lo + 2]).Parsed?
            && p.parse(tokens[lo..lo + 4]) == Failed(UnrecognizedToken(tokens[lo + 2], []))
            && RightStart(tokens, lo + 2, 4 * n + 1) == lo + 4
  {
    var tokens := ChainTokens(n);
    ChainBranch(n, lo);
    var branch := BranchKinds(tokens, lo);
    assert branch[2] == tokens[lo + 2] && branch[3] == tokens[lo + 3];
    ThirdTokenRejected(p, branch);
    assert branch[..2] == tokens[lo..lo + 2];
    ReturnOneParses(p, branch[..2]);
  }

  lemma ChainEnd(p: ClauseParser<Value>, n: nat)
    requires Drives(STEP, p.parse)
    ensures Incomplete(p, ChainTokens(n), 4 * n, 4 * n + 1)
  {
    var tokens, lo, hi := ChainTokens(n), 4 * n, 4 * n + 1;
    forall i: nat
      ensures BoundaryMark(tokens, lo, hi)(i) <==> i == hi
      ensures !UnionMark(tokens, lo, hi)(i)
    {
      ChainMarks(n, lo, i);
    }
    LoneReturnFails(p, tokens[lo..hi]);
  }

  ghost predicate LinkAt(p: ClauseParser<Value>, tokens: seq<Token>, n: nat, j: nat) {
    Link(p, tokens, 4 * j, 4 * j + 2, 4 * (j + 1), 4 * n + 1)
  }

  lemma LinksAreChain(p: ClauseParser<Value>, tokens: seq<Token>, n: nat) returns (starts: seq<nat>, unions: seq<nat>)
    requires forall j: nat :: j < n ==> LinkAt(p, tokens, n, j)
    requires Incomplete(p, tokens, 4 * n, 4 * n + 1)
    ensures Chain(p, tokens, 4 * n + 1, starts, unions)
    ensures |unions| == n && starts[0] == 0
  {
    starts := seq(n + 1, (j: nat) => 4 * j);
    unions := seq(n, (j: nat) => 4 * j + 2);
    forall j | 0 <= j < |unions|
      ensures Link(p, tokens, starts[j], unions[j], starts[j + 1], 4 * n + 1)
    {
      assert LinkAt(p, tokens, n, j);
    }
  }

  lemma ChainExists(p: ClauseParser<Value>, n: nat) returns (starts: seq<nat>, unions: seq<nat>)
    requires Drives(STEP, p.parse)
    ensures Chain(p, ChainTokens(n), 4 * n + 1, starts, unions)
    ensures |unions| == n && starts[0] == 0
  {
    forall j: nat | j < n ensures LinkAt(p, ChainTokens(n), n, j) {
      ChainLink(p, n, 4 * j);
    }
    ChainEnd(p, n);
    starts, unions := LinksAreChain(p, ChainTokens(n), n);
  }

  /** The chains of the performance test exist for every n and cost exactly 2n + 1 attempts. */
  lemma MalformedChains(p: ClauseParser<Value>, n: nat)
    requires Drives(STEP, p.parse)
    ensures RegularCost(p, ChainTokens(n), 0, 4 * n + 1) == 2 * n + 1
    ensures var result := RegularQuery(p, PRUNED, ChainTokens(n), 0, 4 * n + 1);
            result.Rejected? && (n > 0 ==> result.error.Location() == ChainTokens(n)[2].start)
  {
    var starts, unions := ChainExists(p, n);
    ChainFromSource(n);
    UnionChain.ChainCost(p, ChainTokens(n), 4 * n + 1, starts, unions);
    if n > 0 {
      FirstUnionOfChain(n);
    }
  }

  lemma FirstUnionOfChain(n: nat)
    requires n > 0
    ensures var unions := TopLevel(ChainTokens(n), 0, 4 * n + 1, IsUnion); unions != [] && unions[0] == 2
  {
    var unions := TopLevel(ChainTokens(n), 0, 4 * n + 1, IsUnion);
    FlatDepth(n, 0, 2);
    assert 2 in unions;
    assert unions[0] in unions;
    ChainMarks(n, 0, unions[0]);
  }
}
