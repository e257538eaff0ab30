/** Malformed UNION chains cost a linear number of clause-parser attempts. */
module UnionChain {
  import opened Tokens
  import opened StrictQuery
  import opened StrictParser

  /** The first branch parses up to the UNION at u and is rejected there when the tokens up to
      the next branch, at r, are included. */
  ghost predicate Link<V>(p: ClauseParser<V>, tokens: seq<Token>, lo: nat, u: nat, r: nat, hi: nat) {
    && lo < u < r < hi <= |tokens| && r == RightStart(tokens, u, hi)
    && NoMark(UnionMark(tokens, lo, hi), lo, u) && UnionMark(tokens, lo, hi)(u)
    && NoMark(BoundaryMark(tokens, lo, hi), lo + 1, r) && BoundaryMark(tokens, lo, hi)(r)
    && p.parse(tokens[lo..u]).Parsed?
    && p.parse(tokens[lo..r]).Failed? && p.parse(tokens[lo..r]).error.UnrecognizedToken?
    && p.parse(tokens[lo..r]).error.token == tokens[u]
  }

  /** One clause, without a UNION, that is incomplete. */
  ghost predicate Incomplete<V>(p: ClauseParser<V>, tokens: seq<Token>, lo: nat, hi: nat) {
    && lo < hi <= |tokens|
    && NoMark(UnionMark(tokens, lo, hi), lo, hi)
    && NoMark(BoundaryMark(tokens, lo, hi), lo + 1, hi)
    && p.parse(tokens[lo..hi]).Failed?
  }

  /** |unions| rejected branches and an incomplete clause. `starts` lists where they start. */
  ghost predicate Chain<V>(p: ClauseParser<V>, tokens: seq<Token>, hi: nat, starts: seq<nat>, unions: seq<nat>) {
    && |starts| == |unions| + 1
    && (forall j :: 0 <= j < |unions| ==> Link(p, tokens, starts[j], unions[j], starts[j + 1], hi))
    && Incomplete(p, tokens, starts[|unions|], hi)
  }

  /** A window tried at a single candidate end. */
  lemma SingleCandidate<V>(p: ClauseParser<V>, tokens: seq<Token>, lo: nat, end: nat, hi: nat)
    requires lo < end <= hi <= |tokens| && BoundaryMark(tokens, lo, hi)(end)
    requires NoMark(BoundaryMark(tokens, lo, hi), lo + 1, end)
    requires var outcome := p.parse(tokens[lo..end]);
             (outcome.Parsed? && end == hi) || (outcome.Failed? && (outcome.error.UnrecognizedToken? || end == hi))
    ensures ClausesCost(p, tokens, lo, hi) == 1
    ensures var outcome := p.parse(tokens[lo..end]);
            SingleQuery(p, PRUNED, tokens, lo, hi)
            == if outcome.Parsed? then Clauses([outcome.value]) else ClauseError(outcome.error)
  {
    SkipToBoundary(p, tokens, lo, lo + 1, end, hi, None);
    TryStep(p, tokens, lo, end, hi, None);
    var outcome := p.parse(tokens[lo..end]);
    if outcome.Parsed? {
      assert TryFrom(p, PRUNED, tokens, lo, lo + 1, hi, None) == Found(outcome.value, hi);
      assert ClausesFrom(p, PRUNED, tokens, hi, hi) == Clauses([]);
    } else {
      assert TryFrom(p, PRUNED, tokens, lo, lo + 1, hi, None) == Stop(outcome.error);
    }
  }

  /** After an error at the UNION at u, no later UNION is tried. */
  lemma {:induction false} NoLaterSplit<V>(p: ClauseParser<V>, tokens: seq<Token>, lo: nat, u: nat, from: nat, hi: nat,
                                           unsplit: Error)
    requires lo <= u < from <= hi <= |tokens| && FromSource(tokens)
    requires unsplit.UnrecognizedToken? && unsplit.token == tokens[u]
    ensures SplitFrom(p, PRUNED, tokens, lo, from, hi, unsplit) == Rejected(unsplit)
    ensures SplitCost(p, tokens, lo, from, hi, unsplit) == 0
    decreases hi - from
  {
    if from < hi {
      assert tokens[u].start < tokens[u].end <= tokens[from].start;
      NoLaterSplit(p, tokens, lo, u, from + 1, hi, unsplit);
    }
  }

  /** From branch j on: two attempts a branch and one for the last clause, and no tree. */
  lemma {:induction false} ChainCostFrom<V>(p: ClauseParser<V>, tokens: seq<Token>, hi: nat, starts: seq<nat>,
                                            unions: seq<nat>, j: nat)
    requires FromSource(tokens) && Chain(p, tokens, hi, starts, unions) && j <= |unions|
    ensures starts[j] < hi <= |tokens|
    ensures RegularCost(p, tokens, starts[j], hi) == 2 * (|unions| - j) + 1
    ensures RegularQuery(p, PRUNED, tokens, starts[j], hi).Rejected?
    decreases |unions| - j
  {
    if j == |unions| {
      LastCost(p, tokens, starts[j], hi);
    } else {
      ChainCostFrom(p, tokens, hi, starts, unions, j + 1);
      LinkCost(p, tokens, starts[j], unions[j], starts[j + 1], hi);
    }
  }

  /** A chain of n rejected branches costs exactly 2n + 1 attempts, and its error is the
      rejection of the first UNION. */
  lemma ChainCost<V>(p: ClauseParser<V>, tokens: seq<Token>, hi: nat, starts: seq<nat>, unions: seq<nat>)
    requires FromSource(tokens) && Chain(p, tokens, hi, starts, unions)
    ensures starts[0] < hi <= |tokens|
    ensures RegularCost(p, tokens, starts[0], hi) == 2 * |unions| + 1
    ensures var result := RegularQuery(p, PRUNED, tokens, starts[0], hi);
            result.Rejected? && (unions != [] ==> IsFirstUnion(tokens, starts[0], hi, result.error))
  {
    ChainCostFrom(p, tokens, hi, starts, unions, 0);
    if unions != [] {
      ChainCostFrom(p, tokens, hi, starts, unions, 1);
      LinkCost(p, tokens, starts[0], unions[0], starts[1], hi);
      LinkBlames(p, tokens, starts[0], unions[0], starts[1], hi);
    }
  }

  ghost predicate IsFirstUnion(tokens: seq<Token>, lo: nat, hi: nat, error: Error)
    requires lo <= hi <= |tokens|
  {
    var unions := TopLevel(tokens, lo, hi, IsUnion);
    unions != [] && unions[0] < |tokens| && error.UnrecognizedToken? && error.token == tokens[unions[0]]
  }

  lemma LinkBlames<V>(p: ClauseParser<V>, tokens: seq<Token>, lo: nat, u: nat, r: nat, hi: nat)
    requires Link(p, tokens, lo, u, r, hi)
    ensures IsFirstUnion(tokens, lo, hi, p.parse(tokens[lo..r]).error)
  {
    var unions := TopLevel(tokens, lo, hi, IsUnion);
    assert u in unions;
    assert unions[0] in unions;
    assert UnionMark(tokens, lo, hi)(unions[0]);
    assert u <= unions[0];
    var k :| 0 <= k < |unions| && unions[k] == u;
    assert k == 0 || unions[0] < unions[k];
  }

  lemma LastCost<V>(p: ClauseParser<V>, tokens: seq<Token>, lo: nat, hi: nat)
    requires Incomplete(p, tokens, lo, hi)
    ensures RegularCost(p, tokens, lo, hi) == 1
    ensures RegularQuery(p, PRUNED, tokens, lo, hi) == Rejected(p.parse(tokens[lo..hi]).error)
  {
    SingleCandidate(p, tokens, lo, hi, hi);
    SkipToUnion(p, tokens, lo, lo, hi, hi, p.parse(tokens[lo..hi]).error);
  }

  /** One branch costs two attempts: the window that includes the UNION, and its head. */
  lemma LinkCost<V>(p: ClauseParser<V>, tokens: seq<Token>, lo: nat, u: nat, r: nat, hi: nat)
    requires FromSource(tokens) && Link(p, tokens, lo, u, r, hi) && RegularQuery(p, PRUNED, tokens, r, hi).Rejected?
    ensures RegularCost(p, tokens, lo, hi) == 2 + RegularCost(p, tokens, r, hi)
    ensures RegularQuery(p, PRUNED, tokens, lo, hi) == Rejected(p.parse(tokens[lo..r]).error)
  {
    SingleCandidate(p, tokens, lo, r, hi);
    HeadSplit(p, tokens, lo, u, r, hi);
    FirstSplitOnly(p, tokens, lo, u, hi, p.parse(tokens[lo..r]).error);
  }

  /** Only the UNION the error points at is tried. */
  lemma FirstSplitOnly<V>(p: ClauseParser<V>, tokens: seq<Token>, lo: nat, u: nat, hi: nat, unsplit: Error)
    requires FromSource(tokens) && lo <= u < hi <= |tokens|
    requires NoMark(UnionMark(tokens, lo, hi), lo, u) && UnionMark(tokens, lo, hi)(u)
    requires unsplit.UnrecognizedToken? && unsplit.token == tokens[u]
    requires SplitAt(p, PRUNED, tokens, lo, u, hi).Rejected?
    ensures SplitCost(p, tokens, lo, lo, hi, unsplit) == SplitAtCost(p, tokens, lo, u, hi)
    ensures SplitFrom(p, PRUNED, tokens, lo, lo, hi, unsplit) == Rejected(unsplit)
  {
    SkipToUnion(p, tokens, lo, lo, u, hi, unsplit);
    SplitStep(p, tokens, lo, u, hi, unsplit);
    NoLaterSplit(p, tokens, lo, u, u + 1, hi, unsplit);
  }

  lemma HeadSplit<V>(p: ClauseParser<V>, tokens: seq<Token>, lo: nat, u: nat, r: nat, hi: nat)
    requires Link(p, tokens, lo, u, r, hi) && RegularQuery(p, PRUNED, tokens, r, hi).Rejected?
    ensures SplitAt(p, PRUNED, tokens, lo, u, hi).Rejected?
    ensures SplitAtCost(p, tokens, lo, u, hi) == 1 + RegularCost(p, tokens, r, hi)
  {
    forall i: nat | lo + 1 <= i < u
      ensures !BoundaryMark(tokens, lo, u)(i)
    {
      assert !BoundaryMark(tokens, lo, hi)(i);
    }
    SingleCandidate(p, tokens, lo, u, u);
  }
}
