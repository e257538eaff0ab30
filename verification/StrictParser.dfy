/** The strict parser's loops, with the attempt counter the performance test reads. */
module StrictParser {
  import opened Tokens
  import opened StrictQuery

  // ---------- clause-parser attempts of the pruned search ----------

  function TryCost<V>(p: ClauseParser<V>, tokens: seq<Token>, c: nat, e: nat, hi: nat): nat
    requires c < e <= hi <= |tokens|
    decreases hi - e
  {
    if e < hi && !IsBoundary(tokens, c, e) then TryCost(p, tokens, c, e + 1, hi)
    else
      match p.parse(tokens[c..e])
      case Parsed(_) => 1
      case Failed(error) =>
        if error.UnrecognizedToken? || e == hi then 1 else 1 + TryCost(p, tokens, c, e + 1, hi)
  }

  function ClausesCost<V>(p: ClauseParser<V>, tokens: seq<Token>, c: nat, hi: nat): nat
    requires c <= hi <= |tokens|
    decreases hi - c
  {
    if c == hi then 0
    else
      FoundInside(p, PRUNED, tokens, c, c + 1, hi, None);
      var attempt := TryFrom(p, PRUNED, tokens, c, c + 1, hi, None);
      TryCost(p, tokens, c, c + 1, hi) + (if attempt.Found? then ClausesCost(p, tokens, attempt.end, hi) else 0)
  }

  function RegularCost<V>(p: ClauseParser<V>, tokens: seq<Token>, lo: nat, hi: nat): nat
    requires lo <= hi <= |tokens|
    decreases hi - lo, 1
  {
    var single := SingleQuery(p, PRUNED, tokens, lo, hi);
    ClausesCost(p, tokens, lo, hi)
    + (if single.ClauseError? then SplitCost(p, tokens, lo, lo, hi, single.error) else 0)
  }

  function SplitAtCost<V>(p: ClauseParser<V>, tokens: seq<Token>, lo: nat, u: nat, hi: nat): nat
    requires lo <= u < hi <= |tokens|
    decreases hi - lo, 0, hi - u, 0
  {
    var r := RightStart(tokens, u, hi);
    ClausesCost(p, tokens, lo, u)
    + (if SingleQuery(p, PRUNED, tokens, lo, u).Clauses? && r < hi then RegularCost(p, tokens, r, hi) else 0)
  }

  function SplitCost<V>(p: ClauseParser<V>, tokens: seq<Token>, lo: nat, u: nat, hi: nat, unsplit: Error): nat
    requires lo <= u <= hi <= |tokens|
    decreases hi - lo, 0, hi - u, 1
  {
    if u == hi then 0
    else if !AtTopLevel(tokens, lo, u, IsUnion) then SplitCost(p, tokens, lo, u + 1, hi, unsplit)
    else if unsplit.UnrecognizedToken? && tokens[u].start > unsplit.token.start then 0
    else
      SplitAtCost(p, tokens, lo, u, hi)
      + (if SplitAt(p, PRUNED, tokens, lo, u, hi).Regular? then 0 else SplitCost(p, tokens, lo, u + 1, hi, unsplit))
  }

  // ---------- index lists ----------

  /** indices[j..] lists, in order, exactly the marks from `from` up to hi. */
  ghost predicate Lists(mark: nat -> bool, from: nat, hi: nat, indices: seq<nat>, j: nat)
    requires j <= |indices|
    decreases |indices| - j
  {
    if j == |indices| then from <= hi && NoMark(mark, from, hi)
    else
      && from <= indices[j] < hi && NoMark(mark, from, indices[j]) && mark(indices[j])
      && Lists(mark, indices[j] + 1, hi, indices, j + 1)
  }

  ghost predicate NoMark(mark: nat -> bool, from: nat, end: nat) {
    forall i :: from <= i < end ==> !mark(i)
  }

  lemma {:induction false} SortedLists(mark: nat -> bool, from: nat, hi: nat, indices: seq<nat>, j: nat)
    requires j <= |indices| && from <= hi
    requires forall a, b :: 0 <= a < b < |indices| ==> indices[a] < indices[b]
    requires forall k :: j <= k < |indices| ==> from <= indices[k] < hi && mark(indices[k])
    requires forall i :: from <= i < hi && mark(i) ==> i in indices[j..]
    ensures Lists(mark, from, hi, indices, j)
    decreases |indices| - j
  {
    if j < |indices| {
      forall i | indices[j] < i < hi && mark(i)
        ensures i in indices[j + 1..]
      {
        assert indices[j..] == [indices[j]] + indices[j + 1..];
      }
      SortedLists(mark, indices[j] + 1, hi, indices, j + 1);
    }
  }

  function BoundaryMark(tokens: seq<Token>, c: nat, hi: nat): nat -> bool
    requires c < hi <= |tokens|
  {
    (i: nat) => i == hi || (c < i < hi && IsBoundary(tokens, c, i))
  }

  function UnionMark(tokens: seq<Token>, lo: nat, hi: nat): nat -> bool
    requires lo <= hi <= |tokens|
  {
    (i: nat) => lo <= i < hi && AtTopLevel(tokens, lo, i, IsUnion)
  }

  predicate Within(indices: seq<nat>, lo: nat, hi: nat) {
    forall k :: 0 <= k < |indices| ==> lo <= indices[k] < hi
  }

  lemma TopLevelLists(tokens: seq<Token>, base: nat, hi: nat, wanted: Kind -> bool, mark: nat -> bool)
    requires base <= hi <= |tokens|
    requires forall i: nat :: base <= i < hi ==> mark(i) == AtTopLevel(tokens, base, i, wanted)
    ensures Lists(mark, base, hi, TopLevel(tokens, base, hi, wanted), 0)
    ensures Within(TopLevel(tokens, base, hi, wanted), base, hi)
  {
    var indices := TopLevel(tokens, base, hi, wanted);
    forall k | 0 <= k < |indices|
      ensures base <= indices[k] < hi && mark(indices[k])
    {
      assert indices[k] in indices;
    }
    assert indices[0..] == indices;
    SortedLists(mark, base, hi, indices, 0);
  }

  lemma {:induction false} ListsAppend(mark: nat -> bool, from: nat, hi: nat, indices: seq<nat>, j: nat)
    requires j <= |indices| && from <= hi && Lists(mark, from, hi, indices, j) && mark(hi)
    ensures Lists(mark, from, hi + 1, indices + [hi], j)
    decreases |indices| - j
  {
    if j < |indices| {
      ListsAppend(mark, indices[j] + 1, hi, indices, j + 1);
    }
  }

  /** Sorting the candidate ends and removing duplicates would change nothing. */
  lemma CandidateEnds(tokens: seq<Token>, c: nat, hi: nat)
    requires c < hi <= |tokens|
    ensures Lists(BoundaryMark(tokens, c, hi), c + 1, hi + 1, TopLevel(tokens, c + 1, hi, ClauseStarts) + [hi], 0)
    ensures Within(TopLevel(tokens, c + 1, hi, ClauseStarts) + [hi], c + 1, hi + 1)
  {
    TopLevelLists(tokens, c + 1, hi, ClauseStarts, BoundaryMark(tokens, c, hi));
    ListsAppend(BoundaryMark(tokens, c, hi), c + 1, hi, TopLevel(tokens, c + 1, hi, ClauseStarts), 0);
  }

  // ---------- the loops ----------

  /** Ends that are no boundary are never tried. */
  lemma {:induction false} SkipToBoundary<V>(p: ClauseParser<V>, tokens: seq<Token>, c: nat, e: nat, target: nat,
                                             hi: nat, best: Option<Error>)
    requires c < e <= target <= hi <= |tokens| && NoMark(BoundaryMark(tokens, c, hi), e, target)
    ensures TryFrom(p, PRUNED, tokens, c, e, hi, best) == TryFrom(p, PRUNED, tokens, c, target, hi, best)
    ensures TryCost(p, tokens, c, e, hi) == TryCost(p, tokens, c, target, hi)
    decreases target - e
  {
    if e < target {
      assert !BoundaryMark(tokens, c, hi)(e);
      SkipToBoundary(p, tokens, c, e + 1, target, hi, best);
    }
  }

  /** The candidate loop over its list of ends, from the j-th on, with its attempts. */
  function TryEnds<V>(p: ClauseParser<V>, tokens: seq<Token>, c: nat, hi: nat, ends: seq<nat>, j: nat,
                      best: Option<Error>): (Attempt<V>, nat)
    requires c < hi <= |tokens| && j <= |ends|
    requires Within(ends, c + 1, hi + 1)
    decreases |ends| - j
  {
    if j == |ends| then
      (Stop(if best.Some? then best.value else UnrecognizedEof(tokens[c].start, ["query clause"])), 0)
    else
      match p.parse(tokens[c..ends[j]])
      case Parsed(clause) =>
        (if p.isReturn(clause) && ends[j] < hi then Stop(ExtraToken(tokens[ends[j]])) else Found(clause, ends[j]), 1)
      case Failed(error) =>
        if error.UnrecognizedToken? then (Stop(error), 1)
        else
          var (attempt, more) := TryEnds(p, tokens, c, hi, ends, j + 1, Some(Farthest(best, error)));
          (attempt, 1 + more)
  }

  method ParseClause<V>(p: ClauseParser<V>, tokens: seq<Token>, c: nat, hi: nat) returns (r: Attempt<V>, attempts: nat)
    requires c < hi <= |tokens|
    ensures r == TryFrom(p, PRUNED, tokens, c, c + 1, hi, None)
    ensures attempts == TryCost(p, tokens, c, c + 1, hi)
  {
    var ends := TopLevelIndices(tokens, c + 1, hi, ClauseStarts);
    ends := ends + [hi];
    CandidateEnds(tokens, c, hi);
    ListedEnds(p, tokens, c, hi, ends, 0, c + 1, None);
    r, attempts := ParseCandidates(p, tokens, c, hi, ends);
  }

  method ParseCandidates<V>(p: ClauseParser<V>, tokens: seq<Token>, c: nat, hi: nat, ends: seq<nat>)
    returns (r: Attempt<V>, attempts: nat)
    requires c < hi <= |tokens|
    requires Within(ends, c + 1, hi + 1)
    ensures (r, attempts) == TryEnds(p, tokens, c, hi, ends, 0, None)
  {
    var best: Option<Error> := None;
    attempts := 0;
    ghost var whole := TryEnds(p, tokens, c, hi, ends, 0, None);
    for j := 0 to |ends|
      invariant var rest := TryEnds(p, tokens, c, hi, ends, j, best); whole == (rest.0, attempts + rest.1)
    {
      attempts := attempts + 1;
      var end := ends[j];
      match p.parse(tokens[c..end]) {
        case Parsed(clause) =>
          r := if p.isReturn(clause) && end < hi then Stop(ExtraToken(tokens[end])) else Found(clause, end);
          return;
        case Failed(error) =>
          if error.UnrecognizedToken? {
            return Stop(error), attempts;
          }
          best := Some(Farthest(best, error));
      }
    }
    r := Stop(if best.Some? then best.value else UnrecognizedEof(tokens[c].start, ["query clause"]));
  }

  /** The list visits exactly the candidates of the specification. */
  lemma {:induction false} ListedEnds<V>(p: ClauseParser<V>, tokens: seq<Token>, c: nat, hi: nat, ends: seq<nat>,
                                         j: nat, from: nat, best: Option<Error>)
    requires c < from <= hi <= |tokens| && j < |ends| && Within(ends, c + 1, hi + 1)
    requires Lists(BoundaryMark(tokens, c, hi), from, hi + 1, ends, j)
    ensures TryEnds(p, tokens, c, hi, ends, j, best)
         == (TryFrom(p, PRUNED, tokens, c, from, hi, best), TryCost(p, tokens, c, from, hi))
    decreases |ends| - j
  {
    SkipToBoundary(p, tokens, c, from, ends[j], hi, best);
    TryStep(p, tokens, c, ends[j], hi, best);
    var outcome := p.parse(tokens[c..ends[j]]);
    assert BoundaryMark(tokens, c, hi)(hi);
    if outcome.Failed? && ends[j] < hi {
      ListedEnds(p, tokens, c, hi, ends, j + 1, ends[j] + 1, Some(Farthest(best, outcome.error)));
    }
  }

  /** One candidate end of the specification. */
  lemma TryStep<V>(p: ClauseParser<V>, tokens: seq<Token>, c: nat, e: nat, hi: nat, best: Option<Error>)
    requires c < e <= hi <= |tokens| && (e == hi || IsBoundary(tokens, c, e))
    ensures var outcome := p.parse(tokens[c..e]);
            var attempt, cost := TryFrom(p, PRUNED, tokens, c, e, hi, best), TryCost(p, tokens, c, e, hi);
            match outcome
            case Parsed(clause) =>
              cost == 1
              && attempt == if p.isReturn(clause) && e < hi then Stop(ExtraToken(tokens[e])) else Found(clause, e)
            case Failed(error) =>
              if error.UnrecognizedToken? then cost == 1 && attempt == Stop(error)
              else if e == hi then cost == 1 && attempt == Stop(Farthest(best, error))
              else cost == 1 + TryCost(p, tokens, c, e + 1, hi)
                   && attempt == TryFrom(p, PRUNED, tokens, c, e + 1, hi, Some(Farthest(best, error)))
  {
  }

  method ParseSingleQuery<V>(p: ClauseParser<V>, tokens: seq<Token>, lo: nat, hi: nat)
    returns (r: SingleResult<V>, attempts: nat)
    requires lo <= hi <= |tokens|
    ensures r == SingleQuery(p, PRUNED, tokens, lo, hi)
    ensures attempts == ClausesCost(p, tokens, lo, hi)
  {
    if lo == hi {
      return ClauseError(NO_CLAUSE), 0;
    }
    var clauses := [];
    var cursor := lo;
    attempts := 0;
    while cursor < hi
      invariant lo <= cursor <= hi
      invariant ClausesFrom(p, PRUNED, tokens, lo, hi) == Prepend(clauses, ClausesFrom(p, PRUNED, tokens, cursor, hi))
      invariant attempts + ClausesCost(p, tokens, cursor, hi) == ClausesCost(p, tokens, lo, hi)
    {
      var attempt, tries := ParseClause(p, tokens, cursor, hi);
      FoundInside(p, PRUNED, tokens, cursor, cursor + 1, hi, None);
      attempts := attempts + tries;
      match attempt {
        case Stop(error) =>
          return ClauseError(error), attempts;
        case Found(clause, end) =>
          PrependOne(clauses, clause, ClausesFrom(p, PRUNED, tokens, end, hi));
          clauses := clauses + [clause];
          cursor := end;
      }
    }
    r := Clauses(clauses);
  }

  function Prepend<V>(clauses: seq<V>, rest: SingleResult<V>): SingleResult<V> {
    match rest
    case Clauses(more) => Clauses(clauses + more)
    case ClauseError(error) => rest
  }

  lemma PrependOne<V>(clauses: seq<V>, clause: V, rest: SingleResult<V>)
    ensures Prepend(clauses + [clause], rest) == Prepend(clauses, Prepend([clause], rest))
  {
    if rest.Clauses? {
      assert clauses + [clause] + rest.clauses == clauses + ([clause] + rest.clauses);
    }
  }

  /** UNION splits that are not at top level are never tried. */
  lemma {:induction false} SkipToUnion<V>(p: ClauseParser<V>, tokens: seq<Token>, lo: nat, u: nat, target: nat, hi: nat,
                                          unsplit: Error)
    requires lo <= u <= target <= hi <= |tokens| && NoMark(UnionMark(tokens, lo, hi), u, target)
    ensures SplitFrom(p, PRUNED, tokens, lo, u, hi, unsplit) == SplitFrom(p, PRUNED, tokens, lo, target, hi, unsplit)
    ensures SplitCost(p, tokens, lo, u, hi, unsplit) == SplitCost(p, tokens, lo, target, hi, unsplit)
    decreases target - u
  {
    if u < target {
      assert !UnionMark(tokens, lo, hi)(u);
      SkipToUnion(p, tokens, lo, u + 1, target, hi, unsplit);
    }
  }

  method ParseSplit<V>(p: ClauseParser<V>, tokens: seq<Token>, lo: nat, u: nat, hi: nat)
    returns (r: RegularResult<V>, attempts: nat)
    requires lo <= u < hi <= |tokens| && Ordered(tokens)
    ensures r == SplitAt(p, PRUNED, tokens, lo, u, hi)
    ensures attempts == SplitAtCost(p, tokens, lo, u, hi)
    decreases hi - lo, 0
  {
    var head, headTries := ParseSingleQuery(p, tokens, lo, u);
    attempts := headTries;
    if head.ClauseError? {
      return Rejected(head.error), attempts;
    }
    var right := RightStart(tokens, u, hi);
    if right == hi {
      return Rejected(NO_CLAUSE), attempts;
    }
    var rest, restTries := ParseRegularQuery(p, tokens, right, hi);
    attempts := attempts + restTries;
    if rest.Rejected? {
      return rest, attempts;
    }
    CoverIsSpan(tokens, u, right);
    CoverIsSpan(tokens, lo, u);
    var operatorSpan: Span := Cover(tokens, u, right);
    var headSpan: Span := Cover(tokens, lo, u);
    var branch := Branch(OperatorAt(tokens, u, hi), operatorSpan, rest.head);
    r := Regular(Single(head.clauses, headSpan), [branch] + rest.unions);
  }

  method ParseRegularQuery<V>(p: ClauseParser<V>, tokens: seq<Token>, lo: nat, hi: nat)
    returns (r: RegularResult<V>, attempts: nat)
    requires lo <= hi <= |tokens| && Ordered(tokens)
    ensures r == RegularQuery(p, PRUNED, tokens, lo, hi)
    ensures attempts == RegularCost(p, tokens, lo, hi)
    decreases hi - lo, 2
  {
    var single, tries := ParseSingleQuery(p, tokens, lo, hi);
    if single.Clauses? {
      CoverIsSpan(tokens, lo, hi);
      var span: Span := Cover(tokens, lo, hi);
      return Regular(Single(single.clauses, span), []), tries;
    }
    var unions := TopLevelIndices(tokens, lo, hi, IsUnion);
    TopLevelLists(tokens, lo, hi, IsUnion, UnionMark(tokens, lo, hi));
    ListedUnions(p, tokens, lo, hi, unions, 0, lo, single.error);
    var rest, more := ParseUnions(p, tokens, lo, hi, unions, single.error);
    r, attempts := rest, tries + more;
  }

  /** The UNION loop over its list of indices, from the j-th on, with its attempts. */
  function SplitUnions<V>(p: ClauseParser<V>, tokens: seq<Token>, lo: nat, hi: nat, unions: seq<nat>, j: nat,
                          unsplit: Error): (RegularResult<V>, nat)
    requires lo <= hi <= |tokens| && j <= |unions|
    requires Within(unions, lo, hi)
    decreases |unions| - j
  {
    if j == |unions| then (Rejected(unsplit), 0)
    else if unsplit.UnrecognizedToken? && tokens[unions[j]].start > unsplit.token.start then (Rejected(unsplit), 0)
    else
      var split := SplitAt(p, PRUNED, tokens, lo, unions[j], hi);
      var cost := SplitAtCost(p, tokens, lo, unions[j], hi);
      if split.Regular? then (split, cost)
      else
        var (rest, more) := SplitUnions(p, tokens, lo, hi, unions, j + 1, unsplit);
        (rest, cost + more)
  }

  method ParseUnions<V>(p: ClauseParser<V>, tokens: seq<Token>, lo: nat, hi: nat, unions: seq<nat>, unsplit: Error)
    returns (r: RegularResult<V>, attempts: nat)
    requires lo <= hi <= |tokens| && Ordered(tokens)
    requires Within(unions, lo, hi)
    ensures (r, attempts) == SplitUnions(p, tokens, lo, hi, unions, 0, unsplit)
    decreases hi - lo, 1
  {
    attempts := 0;
    ghost var whole := SplitUnions(p, tokens, lo, hi, unions, 0, unsplit);
    for j := 0 to |unions|
      invariant var rest := SplitUnions(p, tokens, lo, hi, unions, j, unsplit); whole == (rest.0, attempts + rest.1)
    {
      if unsplit.UnrecognizedToken? && tokens[unions[j]].start > unsplit.token.start {
        break;
      }
      var split, more := ParseSplit(p, tokens, lo, unions[j], hi);
      attempts := attempts + more;
      if split.Regular? {
        return split, attempts;
      }
    }
    r := Rejected(unsplit);
  }

  lemma {:induction false} ListedUnions<V>(p: ClauseParser<V>, tokens: seq<Token>, lo: nat, hi: nat, unions: seq<nat>,
                                           j: nat, from: nat, unsplit: Error)
    requires lo <= from <= hi <= |tokens| && j <= |unions| && Within(unions, lo, hi)
    requires Lists(UnionMark(tokens, lo, hi), from, hi, unions, j)
    ensures SplitUnions(p, tokens, lo, hi, unions, j, unsplit)
         == (SplitFrom(p, PRUNED, tokens, lo, from, hi, unsplit), SplitCost(p, tokens, lo, from, hi, unsplit))
    decreases |unions| - j
  {
    if j == |unions| {
      SkipToUnion(p, tokens, lo, from, hi, hi, unsplit);
    } else {
      SkipToUnion(p, tokens, lo, from, unions[j], hi, unsplit);
      ListedUnions(p, tokens, lo, hi, unions, j + 1, unions[j] + 1, unsplit);
      ListedStep(p, tokens, lo, hi, unions, j, unsplit);
    }
  }

  /** The UNION at the head of the list. */
  lemma ListedStep<V>(p: ClauseParser<V>, tokens: seq<Token>, lo: nat, hi: nat, unions: seq<nat>, j: nat,
                      unsplit: Error)
    requires lo <= hi <= |tokens| && j < |unions| && Within(unions, lo, hi)
        && AtTopLevel(tokens, lo, unions[j], IsUnion)
    requires SplitUnions(p, tokens, lo, hi, unions, j + 1, unsplit)
          == (SplitFrom(p, PRUNED, tokens, lo, unions[j] + 1, hi, unsplit),
              SplitCost(p, tokens, lo, unions[j] + 1, hi, unsplit))
    ensures SplitUnions(p, tokens, lo, hi, unions, j, unsplit)
         == (SplitFrom(p, PRUNED, tokens, lo, unions[j], hi, unsplit), SplitCost(p, tokens, lo, unions[j], hi, unsplit))
  {
    SplitStep(p, tokens, lo, unions[j], hi, unsplit);
  }

  /** One top-level UNION of the specification. */
  lemma SplitStep<V>(p: ClauseParser<V>, tokens: seq<Token>, lo: nat, u: nat, hi: nat, unsplit: Error)
    requires lo <= u < hi <= |tokens| && AtTopLevel(tokens, lo, u, IsUnion)
    ensures var result := SplitFrom(p, PRUNED, tokens, lo, u, hi, unsplit);
            var cost := SplitCost(p, tokens, lo, u, hi, unsplit);
            if unsplit.UnrecognizedToken? && tokens[u].start > unsplit.token.start
            then result == Rejected(unsplit) && cost == 0
            else if SplitAt(p, PRUNED, tokens, lo, u, hi).Regular?
            then result == SplitAt(p, PRUNED, tokens, lo, u, hi) && cost == SplitAtCost(p, tokens, lo, u, hi)
            else result == SplitFrom(p, PRUNED, tokens, lo, u + 1, hi, unsplit)
                 && cost == SplitAtCost(p, tokens, lo, u, hi) + SplitCost(p, tokens, lo, u + 1, hi, unsplit)
  {
  }
}
