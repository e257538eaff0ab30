/** The early exits of the strict search lose nothing. */
module StrictTheorems {
  import opened Tokens
  import opened LrMachine
  import opened LrRuns
  import opened LrContract
  import opened StrictQuery

  // ---------- the early return of parse_single_query ----------

  ghost predicate AllFail<V>(p: ClauseParser<V>, tokens: seq<Token>, c: nat, from: nat) {
    forall e :: c < from <= e <= |tokens| ==> p.parse(tokens[c..e]).Failed?
  }

  lemma SliceExtends(tokens: seq<Token>, c: nat, e: nat, e': nat, k: nat)
    requires c < e <= |tokens| && c < e' <= |tokens| && c + k <= e && c + k <= e'
    ensures Extends(tokens[c..e'], tokens[c..e], k)
  {
  }

  lemma OrderedSlice(tokens: seq<Token>, c: nat, e: nat)
    requires c <= e <= |tokens| && Ordered(tokens)
    ensures Ordered(tokens[c..e])
  {
  }

  /** A token error at one candidate end dooms every end beyond the token it blames. */
  lemma BlamedToken<V(!new)>(p: ClauseParser<V>, tokens: seq<Token>, c: nat, e: nat) returns (k: nat)
    requires Ordered(tokens) && BlamesPrefix(p.parse) && c < e <= |tokens|
    requires IsTokenError(p.parse(tokens[c..e]))
    ensures c <= k < e && tokens[k].start <= p.parse(tokens[c..e]).error.token.start
    ensures AllFail(p, tokens, c, k + 1)
  {
    var slice := tokens[c..e];
    OrderedSlice(tokens, c, e);
    var i: nat :| RejectsFrom(p.parse, slice, i) && slice[i].start <= p.parse(slice).error.token.start;
    k := c + i;
    forall e' | c < k + 1 <= e' <= |tokens|
      ensures p.parse(tokens[c..e']).Failed?
    {
      SliceExtends(tokens, c, e, e', i + 1);
    }
  }

  lemma {:induction false} AllFailStops<V>(p: ClauseParser<V>, mode: Pruning, tokens: seq<Token>, c: nat, e: nat,
                                           hi: nat, best: Option<Error>)
    requires c < e <= hi <= |tokens| && AllFail(p, tokens, c, e)
    ensures TryFrom(p, mode, tokens, c, e, hi, best).Stop?
    decreases hi - e
  {
    if e < hi {
      if IsBoundary(tokens, c, e) {
        AllFailStops(p, mode, tokens, c, e + 1, hi, Some(Farthest(best, p.parse(tokens[c..e]).error)));
      } else {
        AllFailStops(p, mode, tokens, c, e + 1, hi, best);
      }
    }
  }

  /** A token error stops the pruned search at once and the exhaustive search in the end. */
  lemma TokenErrorStops<V(!new)>(p: ClauseParser<V>, mode: Pruning, tokens: seq<Token>, c: nat, e: nat, hi: nat,
                                 best: Option<Error>)
    requires Ordered(tokens) && BlamesPrefix(p.parse) && c < e <= hi <= |tokens|
    requires e == hi || IsBoundary(tokens, c, e)
    requires IsTokenError(p.parse(tokens[c..e]))
    ensures TryFrom(p, mode, tokens, c, e, hi, best).Stop?
  {
    var k := BlamedToken(p, tokens, c, e);
    AllFailStops(p, mode, tokens, c, e, hi, best);
  }

  /** The candidate end e does not decide the search: no boundary, or a failure that is no token error. */
  predicate Undecided<V>(p: ClauseParser<V>, tokens: seq<Token>, c: nat, e: nat, hi: nat)
    requires c < e <= hi <= |tokens|
  {
    e < hi && (!IsBoundary(tokens, c, e) || (p.parse(tokens[c..e]).Failed? && !IsTokenError(p.parse(tokens[c..e]))))
  }

  function NextBest<V>(p: ClauseParser<V>, tokens: seq<Token>, c: nat, e: nat, hi: nat,
                       best: Option<Error>): Option<Error>
    requires c < e <= hi <= |tokens| && Undecided(p, tokens, c, e, hi)
  {
    if IsBoundary(tokens, c, e) then Some(Farthest(best, p.parse(tokens[c..e]).error)) else best
  }

  /** One step of the search, in either mode, past a candidate that does not decide it. */
  lemma TryNext<V>(p: ClauseParser<V>, tokens: seq<Token>, c: nat, e: nat, hi: nat, best: Option<Error>, unions: bool)
    requires c < e <= hi <= |tokens| && Undecided(p, tokens, c, e, hi)
    ensures TryFrom(p, Pruning(true, unions), tokens, c, e, hi, best)
         == TryFrom(p, Pruning(true, unions), tokens, c, e + 1, hi, NextBest(p, tokens, c, e, hi, best))
    ensures TryFrom(p, Pruning(false, unions), tokens, c, e, hi, best)
         == TryFrom(p, Pruning(false, unions), tokens, c, e + 1, hi, NextBest(p, tokens, c, e, hi, best))
  {
  }

  /** The candidate decides the search, the same way in both modes. */
  lemma TryLast<V>(p: ClauseParser<V>, tokens: seq<Token>, c: nat, e: nat, hi: nat, best: Option<Error>, unions: bool)
    requires c < e <= hi <= |tokens| && !Undecided(p, tokens, c, e, hi)
    requires !IsTokenError(p.parse(tokens[c..e]))
    ensures TryFrom(p, Pruning(true, unions), tokens, c, e, hi, best)
         == TryFrom(p, Pruning(false, unions), tokens, c, e, hi, best)
  {
  }

  /** Returning at the first token error finds the same clause as trying every boundary. */
  lemma {:induction false} SameClause<V(!new)>(p: ClauseParser<V>, tokens: seq<Token>, c: nat, e: nat, hi: nat,
                                               best: Option<Error>, unions: bool)
    requires Ordered(tokens) && BlamesPrefix(p.parse) && c < e <= hi <= |tokens|
    ensures var pruned := TryFrom(p, Pruning(true, unions), tokens, c, e, hi, best);
            var exhaustive := TryFrom(p, Pruning(false, unions), tokens, c, e, hi, best);
            pruned == exhaustive || (pruned.Stop? && exhaustive.Stop?)
    decreases hi - e
  {
    if Undecided(p, tokens, c, e, hi) {
      TryNext(p, tokens, c, e, hi, best, unions);
      SameClause(p, tokens, c, e + 1, hi, NextBest(p, tokens, c, e, hi, best), unions);
    } else if IsTokenError(p.parse(tokens[c..e])) {
      TokenErrorStops(p, Pruning(true, unions), tokens, c, e, hi, best);
      TokenErrorStops(p, Pruning(false, unions), tokens, c, e, hi, best);
    } else {
      TryLast(p, tokens, c, e, hi, best, unions);
    }
  }

  /** So the pruned single query accepts the same windows, with the same clauses. */
  lemma {:induction false} SameClauses<V(!new)>(p: ClauseParser<V>, tokens: seq<Token>, c: nat, hi: nat, unions: bool)
    requires Ordered(tokens) && BlamesPrefix(p.parse) && c <= hi <= |tokens|
    ensures var pruned := ClausesFrom(p, Pruning(true, unions), tokens, c, hi);
            var exhaustive := ClausesFrom(p, Pruning(false, unions), tokens, c, hi);
            pruned == exhaustive || (pruned.ClauseError? && exhaustive.ClauseError?)
    decreases hi - c
  {
    if c < hi {
      SameClause(p, tokens, c, c + 1, hi, None, unions);
      FoundInside(p, Pruning(true, unions), tokens, c, c + 1, hi, None);
      var pruned := TryFrom(p, Pruning(true, unions), tokens, c, c + 1, hi, None);
      if pruned.Found? {
        SameClauses(p, tokens, pruned.end, hi, unions);
      }
    }
  }

  // ---------- the reported error ----------

  /** What both searches rely on to report one error. */
  ghost predicate StableErrors<V(!new)>(parse: seq<Token> -> Outcome<V>) {
    RepeatsErrors(parse) && ErrorsMoveOn(parse) && ErrorsWithinInput(parse)
  }

  lemma BoundaryContinues(tokens: seq<Token>, c: nat, e: nat, e': nat)
    requires c < e < e' <= |tokens| && IsBoundary(tokens, c, e)
    ensures Continues(tokens[c..e'], tokens[c..e]) && tokens[c..e'][|tokens[c..e]|] == tokens[e]
  {
    SliceExtends(tokens, c, e, e', e - c);
  }

  /** Past a token error, every longer candidate repeats the error and keeps it. */
  lemma {:induction false} Repeats<V(!new)>(p: ClauseParser<V>, mode: Pruning, tokens: seq<Token>, c: nat, e: nat,
                                            hi: nat, error: Error)
    requires c < e <= hi <= |tokens| && !mode.clauses
    requires forall e' :: e <= e' <= hi ==> p.parse(tokens[c..e']) == Failed(error)
    ensures TryFrom(p, mode, tokens, c, e, hi, Some(error)) == Stop(error)
    decreases hi - e
  {
    if e < hi {
      Repeats(p, mode, tokens, c, e + 1, hi, error);
    }
  }

  /** `best` was retained from candidates up to the boundary `last`, none of them a token error. */
  ghost predicate Retained<V>(p: ClauseParser<V>, tokens: seq<Token>, c: nat, e: nat, last: nat, best: Option<Error>) {
    best.Some? ==>
      && c < last < e <= |tokens| && IsBoundary(tokens, c, last)
      && !IsTokenError(p.parse(tokens[c..last]))
      && best.value.Location() <= tokens[last - 1].end
  }

  /** No retained error lies farther than a token error. */
  lemma FarthestIsLast<V(!new)>(p: ClauseParser<V>, tokens: seq<Token>, c: nat, e: nat, last: nat, best: Option<Error>)
    requires Ordered(tokens) && ErrorsMoveOn(p.parse) && c < e <= |tokens|
    requires Retained(p, tokens, c, e, last, best) && IsTokenError(p.parse(tokens[c..e]))
    ensures Farthest(best, p.parse(tokens[c..e]).error) == p.parse(tokens[c..e]).error
  {
    if best.Some? {
      OrderedSlice(tokens, c, e);
      BoundaryContinues(tokens, c, last, e);
      assert tokens[last - 1].end <= tokens[last].start;
    }
  }

  lemma RepeatsBehind<V(!new)>(p: ClauseParser<V>, tokens: seq<Token>, c: nat, e: nat, hi: nat)
    requires RepeatsErrors(p.parse) && c < e <= hi <= |tokens| && (e == hi || IsBoundary(tokens, c, e))
    requires IsTokenError(p.parse(tokens[c..e]))
    ensures forall e' :: e <= e' <= hi ==> p.parse(tokens[c..e']) == p.parse(tokens[c..e])
  {
    forall e' | e < e' <= hi
      ensures p.parse(tokens[c..e']) == p.parse(tokens[c..e])
    {
      BoundaryContinues(tokens, c, e, e');
    }
  }

  /** A farthest error that every longer candidate repeats stops both searches. */
  lemma StopsBoth<V(!new)>(p: ClauseParser<V>, tokens: seq<Token>, c: nat, e: nat, hi: nat, best: Option<Error>,
                           unions: bool)
    requires c < e <= hi <= |tokens| && (e == hi || IsBoundary(tokens, c, e))
    requires forall e' :: e <= e' <= hi ==> p.parse(tokens[c..e']) == p.parse(tokens[c..e])
    requires IsTokenError(p.parse(tokens[c..e]))
    requires Farthest(best, p.parse(tokens[c..e]).error) == p.parse(tokens[c..e]).error
    ensures TryFrom(p, Pruning(true, unions), tokens, c, e, hi, best)
         == TryFrom(p, Pruning(false, unions), tokens, c, e, hi, best)
         == Stop(p.parse(tokens[c..e]).error)
  {
    if e < hi {
      Repeats(p, Pruning(false, unions), tokens, c, e + 1, hi, p.parse(tokens[c..e]).error);
    }
  }

  /** A token error stops both searches with that error. */
  lemma TokenErrorStands<V(!new)>(p: ClauseParser<V>, tokens: seq<Token>, c: nat, e: nat, hi: nat,
                                  best: Option<Error>, last: nat, unions: bool)
    requires Ordered(tokens) && StableErrors(p.parse) && c < e <= hi <= |tokens|
    requires Retained(p, tokens, c, e, last, best)
    requires (e == hi || IsBoundary(tokens, c, e)) && IsTokenError(p.parse(tokens[c..e]))
    ensures TryFrom(p, Pruning(true, unions), tokens, c, e, hi, best)
         == TryFrom(p, Pruning(false, unions), tokens, c, e, hi, best)
         == Stop(p.parse(tokens[c..e]).error)
  {
    FarthestIsLast(p, tokens, c, e, last, best);
    RepeatsBehind(p, tokens, c, e, hi);
    StopsBoth(p, tokens, c, e, hi, best, unions);
  }

  lemma RetainsFailure<V(!new)>(p: ClauseParser<V>, tokens: seq<Token>, c: nat, e: nat, last: nat, best: Option<Error>)
    requires Ordered(tokens) && ErrorsWithinInput(p.parse) && c < e < |tokens| && IsBoundary(tokens, c, e)
    requires Retained(p, tokens, c, e, last, best)
    requires p.parse(tokens[c..e]).Failed? && !IsTokenError(p.parse(tokens[c..e]))
    ensures Retained(p, tokens, c, e + 1, e, Some(Farthest(best, p.parse(tokens[c..e]).error)))
  {
    OrderedSlice(tokens, c, e);
    assert tokens[c..e][e - c - 1] == tokens[e - 1];
    if best.Some? {
      EndsGrow(tokens, last - 1, e - 1);
    }
  }

  lemma RetainsNext<V(!new)>(p: ClauseParser<V>, tokens: seq<Token>, c: nat, e: nat, hi: nat, last: nat,
                             best: Option<Error>) returns (last': nat)
    requires Ordered(tokens) && ErrorsWithinInput(p.parse) && c < e <= hi <= |tokens|
    requires Retained(p, tokens, c, e, last, best) && Undecided(p, tokens, c, e, hi)
    ensures Retained(p, tokens, c, e + 1, last', NextBest(p, tokens, c, e, hi, best))
  {
    last' := last;
    if IsBoundary(tokens, c, e) {
      RetainsFailure(p, tokens, c, e, last, best);
      last' := e;
    }
  }

  /** At one cursor, the exhaustive search stops with the very same error. */
  lemma {:induction false} SameStop<V(!new)>(p: ClauseParser<V>, tokens: seq<Token>, c: nat, e: nat, hi: nat,
                                             best: Option<Error>, last: nat, unions: bool)
    requires Ordered(tokens) && StableErrors(p.parse) && c < e <= hi <= |tokens|
    requires Retained(p, tokens, c, e, last, best)
    ensures TryFrom(p, Pruning(true, unions), tokens, c, e, hi, best)
         == TryFrom(p, Pruning(false, unions), tokens, c, e, hi, best)
    decreases hi - e
  {
    if Undecided(p, tokens, c, e, hi) {
      var next := NextBest(p, tokens, c, e, hi, best);
      var last' := RetainsNext(p, tokens, c, e, hi, last, best);
      SameStop(p, tokens, c, e + 1, hi, next, last', unions);
      TryNext(p, tokens, c, e, hi, best, unions);
    } else {
      DecidedAlike(p, tokens, c, e, hi, best, last, unions);
    }
  }

  /** The candidate end e decides the search, in both modes alike. */
  lemma DecidedAlike<V(!new)>(p: ClauseParser<V>, tokens: seq<Token>, c: nat, e: nat, hi: nat,
                              best: Option<Error>, last: nat, unions: bool)
    requires Ordered(tokens) && StableErrors(p.parse) && c < e <= hi <= |tokens|
    requires Retained(p, tokens, c, e, last, best) && !Undecided(p, tokens, c, e, hi)
    ensures TryFrom(p, Pruning(true, unions), tokens, c, e, hi, best)
         == TryFrom(p, Pruning(false, unions), tokens, c, e, hi, best)
  {
    if IsTokenError(p.parse(tokens[c..e])) {
      TokenErrorStands(p, tokens, c, e, hi, best, last, unions);
    } else {
      TryLast(p, tokens, c, e, hi, best, unions);
    }
  }

  lemma EndsGrow(tokens: seq<Token>, i: nat, j: nat)
    requires Ordered(tokens) && i <= j < |tokens|
    ensures tokens[i].end <= tokens[j].end
  {
  }

  /** The early return leaves the whole result unchanged, clauses or error. */
  lemma {:induction false} SameError<V(!new)>(p: ClauseParser<V>, tokens: seq<Token>, c: nat, hi: nat, unions: bool)
    requires Ordered(tokens) && StableErrors(p.parse) && c <= hi <= |tokens|
    ensures ClausesFrom(p, Pruning(true, unions), tokens, c, hi)
        == ClausesFrom(p, Pruning(false, unions), tokens, c, hi)
    decreases hi - c
  {
    if c < hi {
      SameStop(p, tokens, c, c + 1, hi, None, 0, unions);
      FoundInside(p, Pruning(true, unions), tokens, c, c + 1, hi, None);
      var pruned := TryFrom(p, Pruning(true, unions), tokens, c, c + 1, hi, None);
      if pruned.Found? {
        SameError(p, tokens, pruned.end, hi, unions);
      }
    }
  }

  lemma DrivenParserIsStable<V(!new)>(t: Tables<V>, owner: nat -> Option<nat>, parse: seq<Token> -> Outcome<V>)
    requires FragmentTables(t, owner) && UniformTables(t, owner) && ErrorsInside(t)
    requires Drives(StepperOf(MachineOf(t, Contextual)), parse)
    ensures StableErrors(parse)
  {
    DrivenParserRepeatsErrors(t, owner, parse);
    DrivenParserErrorsWithinInput(t, parse);
  }

  /** A parser driven by the patched tables: on every window the early return gives the
      result of the exhaustive search, errors included. */
  lemma DrivenSameError<V(!new)>(t: Tables<V>, owner: nat -> Option<nat>, p: ClauseParser<V>,
                                 tokens: seq<Token>, lo: nat, hi: nat, unions: bool)
    requires FragmentTables(t, owner) && UniformTables(t, owner) && ErrorsInside(t)
    requires Drives(StepperOf(MachineOf(t, Contextual)), p.parse)
    requires Ordered(tokens) && lo <= hi <= |tokens|
    ensures SingleQuery(p, Pruning(true, unions), tokens, lo, hi)
         == SingleQuery(p, Pruning(false, unions), tokens, lo, hi)
  {
    DrivenParserIsStable(t, owner, p.parse);
    SameError(p, tokens, lo, hi, unions);
  }

  // ---------- the UNION break ----------

  lemma {:induction false} FoundInPrefix<V>(p: ClauseParser<V>, tokens: seq<Token>, c: nat, e: nat, u: nat, hi: nat,
                                            best: Option<Error>, mode: Pruning)
    requires c < e <= u <= hi <= |tokens|
    requires var found := TryFrom(p, mode, tokens, c, e, hi, best); found.Found? && found.end < u
    ensures TryFrom(p, mode, tokens, c, e, u, best) == TryFrom(p, mode, tokens, c, e, hi, best)
    decreases hi - e
  {
    FoundInside(p, mode, tokens, c, e, hi, best);
    if !IsBoundary(tokens, c, e) {
      FoundInPrefix(p, tokens, c, e + 1, u, hi, best, mode);
    } else {
      var outcome := p.parse(tokens[c..e]);
      if outcome.Failed? {
        FoundInPrefix(p, tokens, c, e + 1, u, hi, Some(Farthest(best, outcome.error)), mode);
      }
    }
  }

  /** A token error at one cursor also stops every shorter window that keeps the blamed token. */
  lemma {:induction false} StopBlames<V(!new)>(p: ClauseParser<V>, tokens: seq<Token>, c: nat, e: nat, hi: nat,
                                               best: Option<Error>, mode: Pruning) returns (k: nat)
    requires Ordered(tokens) && BlamesPrefix(p.parse) && c < e <= hi <= |tokens| && mode.clauses
    requires best.Some? ==> !best.value.UnrecognizedToken?
    requires var stop := TryFrom(p, mode, tokens, c, e, hi, best); stop.Stop? && stop.error.UnrecognizedToken?
    ensures c <= k < hi && tokens[k].start <= TryFrom(p, mode, tokens, c, e, hi, best).error.token.start
    ensures forall u :: e <= u <= hi && k < u ==> TryFrom(p, mode, tokens, c, e, u, best).Stop?
    ensures AllFail(p, tokens, c, k + 1)
    decreases hi - e
  {
    var outcome := p.parse(tokens[c..e]);
    var retained := best;
    if e < hi && !IsBoundary(tokens, c, e) {
      k := StopBlames(p, tokens, c, e + 1, hi, best, mode);
    } else if IsTokenError(outcome) {
      k := BlamedToken(p, tokens, c, e);
    } else {
      retained := Some(Farthest(best, outcome.error));
      k := StopBlames(p, tokens, c, e + 1, hi, retained, mode);
    }
    forall u | e <= u <= hi && k < u
      ensures TryFrom(p, mode, tokens, c, e, u, best).Stop?
    {
      if k < e {
        AllFailStops(p, mode, tokens, c, e, u, best);
      } else {
        assert e < u;
        assert TryFrom(p, mode, tokens, c, e, u, best) == TryFrom(p, mode, tokens, c, e + 1, u, retained);
      }
    }
  }

  /** A window whose strict parse ends in a token error blames a token, and no shorter window
      that keeps this token is a single query. */
  lemma {:induction false} WindowBlames<V(!new)>(p: ClauseParser<V>, tokens: seq<Token>, c: nat, hi: nat, mode: Pruning)
    returns (k: nat)
    requires Ordered(tokens) && BlamesPrefix(p.parse) && c <= hi <= |tokens| && mode.clauses
    requires var r := ClausesFrom(p, mode, tokens, c, hi); r.ClauseError? && r.error.UnrecognizedToken?
    ensures c <= k < hi && tokens[k].start <= ClausesFrom(p, mode, tokens, c, hi).error.token.start
    ensures forall u :: k < u <= hi ==> ClausesFrom(p, mode, tokens, c, u).ClauseError?
    decreases hi - c
  {
    var attempt := TryFrom(p, mode, tokens, c, c + 1, hi, None);
    if attempt.Stop? {
      k := StopBlames(p, tokens, c, c + 1, hi, None, mode);
    } else {
      FoundInside(p, mode, tokens, c, c + 1, hi, None);
      k := WindowBlames(p, tokens, attempt.end, hi, mode);
      forall u | k < u <= hi
        ensures ClausesFrom(p, mode, tokens, c, u).ClauseError?
      {
        FoundInPrefix(p, tokens, c, c + 1, u, hi, None, mode);
      }
    }
  }

  /** Every head ending at a UNION beyond the reported token is rejected. */
  lemma {:induction false} LaterSplitsFail<V(!new)>(p: ClauseParser<V>, tokens: seq<Token>, lo: nat, u: nat, hi: nat,
                                                    mode: Pruning, unsplit: Error)
    requires Ordered(tokens) && BlamesPrefix(p.parse) && lo <= u <= hi <= |tokens| && mode.clauses && !mode.unions
    requires SingleQuery(p, mode, tokens, lo, hi) == ClauseError(unsplit) && unsplit.UnrecognizedToken?
    requires u < hi ==> tokens[u].start > unsplit.token.start
    ensures SplitFrom(p, mode, tokens, lo, u, hi, unsplit) == Rejected(unsplit)
    decreases hi - u
  {
    if u < hi {
      var k := WindowBlames(p, tokens, lo, hi, mode);
      assert k < u;
      assert SingleQuery(p, mode, tokens, lo, u).ClauseError?;
      if u + 1 < hi { assert tokens[u].end <= tokens[u + 1].start; }
      LaterSplitsFail(p, tokens, lo, u + 1, hi, mode, unsplit);
    }
  }

  lemma {:induction false} ModeOfClauses<V>(p: ClauseParser<V>, tokens: seq<Token>, c: nat, hi: nat, clauses: bool)
    requires c <= hi <= |tokens|
    ensures ClausesFrom(p, Pruning(clauses, true), tokens, c, hi)
        == ClausesFrom(p, Pruning(clauses, false), tokens, c, hi)
    decreases hi - c
  {
    if c < hi {
      ModeOfTry(p, tokens, c, c + 1, hi, None, clauses);
      FoundInside(p, Pruning(clauses, true), tokens, c, c + 1, hi, None);
      var found := TryFrom(p, Pruning(clauses, true), tokens, c, c + 1, hi, None);
      if found.Found? {
        ModeOfClauses(p, tokens, found.end, hi, clauses);
      }
    }
  }

  lemma {:induction false} ModeOfTry<V>(p: ClauseParser<V>, tokens: seq<Token>, c: nat, e: nat, hi: nat,
                                        best: Option<Error>, clauses: bool)
    requires c < e <= hi <= |tokens|
    ensures TryFrom(p, Pruning(clauses, true), tokens, c, e, hi, best)
        == TryFrom(p, Pruning(clauses, false), tokens, c, e, hi, best)
    decreases hi - e
  {
    if e < hi {
      ModeOfTry(p, tokens, c, e + 1, hi, best, clauses);
      if p.parse(tokens[c..e]).Failed? {
        ModeOfTry(p, tokens, c, e + 1, hi, Some(Farthest(best, p.parse(tokens[c..e]).error)), clauses);
      }
    }
  }

  /** The UNION break changes nothing: the same tree, or the same error. */
  lemma {:induction false} UnionBreakIsExact<V(!new)>(p: ClauseParser<V>, tokens: seq<Token>, lo: nat, hi: nat)
    requires Ordered(tokens) && BlamesPrefix(p.parse) && lo <= hi <= |tokens|
    ensures RegularQuery(p, PRUNED, tokens, lo, hi) == RegularQuery(p, Pruning(true, false), tokens, lo, hi)
    decreases hi - lo, 1
  {
    ModeOfClauses(p, tokens, lo, hi, true);
    var single := SingleQuery(p, PRUNED, tokens, lo, hi);
    if single.ClauseError? {
      UnionBreakInSplit(p, tokens, lo, lo, hi, single.error);
    }
  }

  lemma {:induction false} UnionBreakInSplit<V(!new)>(p: ClauseParser<V>, tokens: seq<Token>, lo: nat, u: nat, hi: nat,
                                                      unsplit: Error)
    requires Ordered(tokens) && BlamesPrefix(p.parse) && lo <= u <= hi <= |tokens|
    requires SingleQuery(p, Pruning(true, false), tokens, lo, hi) == ClauseError(unsplit)
    ensures SplitFrom(p, PRUNED, tokens, lo, u, hi, unsplit)
        == SplitFrom(p, Pruning(true, false), tokens, lo, u, hi, unsplit)
    decreases hi - lo, 0, hi - u, 1
  {
    if u < hi {
      UnionBreakInSplit(p, tokens, lo, u + 1, hi, unsplit);
      if unsplit.UnrecognizedToken? && tokens[u].start > unsplit.token.start {
        LaterSplitsFail(p, tokens, lo, u, hi, Pruning(true, false), unsplit);
      } else if AtTopLevel(tokens, lo, u, IsUnion) {
        ModeOfClauses(p, tokens, lo, u, true);
        var r := RightStart(tokens, u, hi);
        if r < hi {
          UnionBreakIsExact(p, tokens, r, hi);
        }
      }
    }
  }

  // ---------- both exits together ----------

  lemma {:induction false} ExhaustiveSplit<V(!new)>(p: ClauseParser<V>, tokens: seq<Token>, lo: nat, u: nat, hi: nat,
                                                    unsplit: Error)
    requires Ordered(tokens) && StableErrors(p.parse) && lo <= u <= hi <= |tokens|
    ensures SplitFrom(p, Pruning(true, false), tokens, lo, u, hi, unsplit)
         == SplitFrom(p, EXHAUSTIVE, tokens, lo, u, hi, unsplit)
    decreases hi - lo, 0, hi - u, 1
  {
    if u < hi {
      ExhaustiveSplit(p, tokens, lo, u + 1, hi, unsplit);
      if AtTopLevel(tokens, lo, u, IsUnion) {
        SameError(p, tokens, lo, u, false);
        var r := RightStart(tokens, u, hi);
        if r < hi {
          ExhaustiveQuery(p, tokens, r, hi);
        }
      }
    }
  }

  lemma {:induction false} ExhaustiveQuery<V(!new)>(p: ClauseParser<V>, tokens: seq<Token>, lo: nat, hi: nat)
    requires Ordered(tokens) && StableErrors(p.parse) && lo <= hi <= |tokens|
    ensures RegularQuery(p, Pruning(true, false), tokens, lo, hi) == RegularQuery(p, EXHAUSTIVE, tokens, lo, hi)
    decreases hi - lo, 1
  {
    SameError(p, tokens, lo, hi, false);
    var single := SingleQuery(p, EXHAUSTIVE, tokens, lo, hi);
    if single.ClauseError? {
      ExhaustiveSplit(p, tokens, lo, lo, hi, single.error);
    }
  }

  /** The search as it runs returns what the exhaustive search returns: the tree, or the error. */
  lemma PrunedRefinesExhaustive<V(!new)>(p: ClauseParser<V>, tokens: seq<Token>, lo: nat, hi: nat)
    requires Ordered(tokens) && BlamesPrefix(p.parse) && StableErrors(p.parse) && lo <= hi <= |tokens|
    ensures RegularQuery(p, PRUNED, tokens, lo, hi) == RegularQuery(p, EXHAUSTIVE, tokens, lo, hi)
  {
    UnionBreakIsExact(p, tokens, lo, hi);
    ExhaustiveQuery(p, tokens, lo, hi);
  }

  /** The same for any clause parser driven by the patched LR tables. */
  lemma DrivenSearchRefinesExhaustive<V(!new)>(t: Tables<V>, owner: nat -> Option<nat>, p: ClauseParser<V>,
                                               tokens: seq<Token>, lo: nat, hi: nat)
    requires FragmentTables(t, owner) && UniformTables(t, owner) && ErrorsInside(t)
    requires Drives(StepperOf(MachineOf(t, Contextual)), p.parse)
    requires Ordered(tokens) && lo <= hi <= |tokens|
    ensures RegularQuery(p, PRUNED, tokens, lo, hi) == RegularQuery(p, EXHAUSTIVE, tokens, lo, hi)
  {
    DrivenParserBlamesPrefix(t, owner, p.parse);
    DrivenParserIsStable(t, owner, p.parse);
    PrunedRefinesExhaustive(p, tokens, lo, hi);
  }
}
