/** What the exhaustive search returns, in terms of tokens and outcomes of the clause parser. */
module StrictTree {
  import opened Tokens
  import opened LrMachine
  import opened LrRuns
  import opened LrContract
  import opened StrictQuery
  import StrictTheorems

  // ---------- one clause ----------

  /** A clause from c on may end at e: where the window ends, or in front of a clause keyword
      that no bracket opened since c encloses. */
  predicate MayEnd(tokens: seq<Token>, c: nat, e: nat, hi: nat)
    requires hi <= |tokens|
  {
    c < e <= hi && (e == hi || (ClauseStarts(tokens[e].kind) && DepthFrom(tokens, c + 1, e) == 0))
  }

  /** No end from e0 up to e gives a clause. */
  ghost predicate NoneBefore<V>(p: ClauseParser<V>, tokens: seq<Token>, c: nat, e0: nat, e: nat, hi: nat)
    requires hi <= |tokens|
  {
    forall e': nat :: e0 <= e' < e && MayEnd(tokens, c, e', hi) ==> p.parse(tokens[c..e']).Failed?
  }

  /** The first end from e0 on that gives a clause. */
  ghost predicate ParsesFirst<V>(p: ClauseParser<V>, tokens: seq<Token>, c: nat, e0: nat, e: nat, hi: nat, clause: V)
    requires hi <= |tokens|
  {
    && e0 <= e && MayEnd(tokens, c, e, hi)
    && p.parse(tokens[c..e]) == Parsed(clause) && NoneBefore(p, tokens, c, e0, e, hi)
  }

  /** The tokens from c to e are the clause that starts at c. A RETURN is one only at the end. */
  ghost predicate IsClause<V>(p: ClauseParser<V>, tokens: seq<Token>, c: nat, e: nat, hi: nat, clause: V)
    requires hi <= |tokens|
  {
    ParsesFirst(p, tokens, c, c + 1, e, hi, clause) && (p.isReturn(clause) ==> e == hi)
  }

  /** Among the failures from e0 on, the one at e lies farthest, and no later one as far. */
  ghost predicate FailsFarthest<V>(p: ClauseParser<V>, tokens: seq<Token>, c: nat, e0: nat, e: nat, hi: nat,
                                   error: Error)
    requires hi <= |tokens|
  {
    && e0 <= e && MayEnd(tokens, c, e, hi) && p.parse(tokens[c..e]) == Failed(error)
    && forall e': nat :: e0 <= e' && MayEnd(tokens, c, e', hi) ==> FailsNearer(p, tokens, c, e, e', error)
  }

  predicate FailsNearer<V>(p: ClauseParser<V>, tokens: seq<Token>, c: nat, e: nat, e': nat, error: Error)
    requires c < e' <= |tokens|
  {
    var other := p.parse(tokens[c..e']);
    && other.Failed? && other.error.Location() <= error.Location()
    && (e < e' ==> other.error.Location() < error.Location())
  }

  /** The first end from e0 on that gives a clause gives a RETURN, in front of more tokens. */
  ghost predicate EndsEarly<V>(p: ClauseParser<V>, tokens: seq<Token>, c: nat, e0: nat, e: nat, hi: nat, clause: V)
    requires hi <= |tokens|
  {
    e < hi && ParsesFirst(p, tokens, c, e0, e, hi, clause) && p.isReturn(clause)
  }

  // ---------- the search at one cursor ----------

  lemma BoundaryMayEnd(tokens: seq<Token>, c: nat, e: nat, hi: nat)
    requires c < e <= hi <= |tokens|
    ensures MayEnd(tokens, c, e, hi) <==> e == hi || IsBoundary(tokens, c, e)
  {
  }

  /** The end e0 gives no clause, so the first one is behind it. */
  lemma FirstIsBehind<V>(p: ClauseParser<V>, tokens: seq<Token>, c: nat, e0: nat, e: nat, hi: nat, clause: V)
    requires c < e0 < hi <= |tokens| && (MayEnd(tokens, c, e0, hi) ==> p.parse(tokens[c..e0]).Failed?)
    ensures ParsesFirst(p, tokens, c, e0, e, hi, clause) <==> ParsesFirst(p, tokens, c, e0 + 1, e, hi, clause)
  {
    if e0 + 1 <= e && NoneBefore(p, tokens, c, e0 + 1, e, hi) {
      forall e': nat | e0 <= e' < e && MayEnd(tokens, c, e', hi)
        ensures p.parse(tokens[c..e']).Failed?
      {
        assert e' != e0 ==> e0 + 1 <= e';
      }
    }
  }

  lemma {:induction false} FoundIff<V>(p: ClauseParser<V>, tokens: seq<Token>, c: nat, e0: nat, hi: nat,
                                       best: Option<Error>, clause: V, e: nat)
    requires c < e0 <= hi <= |tokens|
    ensures TryFrom(p, EXHAUSTIVE, tokens, c, e0, hi, best) == Found(clause, e)
       <==> ParsesFirst(p, tokens, c, e0, e, hi, clause) && (p.isReturn(clause) ==> e == hi)
    decreases hi - e0
  {
    BoundaryMayEnd(tokens, c, e0, hi);
    if e0 < hi && !MayEnd(tokens, c, e0, hi) {
      FoundIff(p, tokens, c, e0 + 1, hi, best, clause, e);
      FirstIsBehind(p, tokens, c, e0, e, hi, clause);
    } else if p.parse(tokens[c..e0]).Failed? {
      if e0 < hi {
        var next := Some(Farthest(best, p.parse(tokens[c..e0]).error));
        FoundIff(p, tokens, c, e0 + 1, hi, next, clause, e);
        FirstIsBehind(p, tokens, c, e0, e, hi, clause);
      }
    } else {
      FirstIsHere(p, tokens, c, e0, e, hi, clause);
    }
  }

  lemma FirstIsHere<V>(p: ClauseParser<V>, tokens: seq<Token>, c: nat, e0: nat, e: nat, hi: nat, clause: V)
    requires c < e0 <= hi <= |tokens| && MayEnd(tokens, c, e0, hi) && p.parse(tokens[c..e0]).Parsed?
    ensures ParsesFirst(p, tokens, c, e0, e, hi, clause) <==> e == e0 && clause == p.parse(tokens[c..e0]).value
  {
  }

  /** The retained error lies farther than every failure from e0 on. */
  ghost predicate StaysFarthest<V>(p: ClauseParser<V>, tokens: seq<Token>, c: nat, e0: nat, hi: nat, error: Error)
    requires hi <= |tokens|
  {
    forall e': nat :: e0 <= e' && MayEnd(tokens, c, e', hi) ==>
      p.parse(tokens[c..e']).Failed? && p.parse(tokens[c..e']).error.Location() < error.Location()
  }

  /** What the search from e0 on stops with, when `best` is the error retained so far. */
  ghost predicate StopsFrom<V(!new)>(p: ClauseParser<V>, tokens: seq<Token>, c: nat, e0: nat, hi: nat,
                                     best: Option<Error>, error: Error)
    requires hi <= |tokens|
  {
    || (exists e: nat, clause :: EndsEarly(p, tokens, c, e0, e, hi, clause) && error == ExtraToken(tokens[e]))
    || ((exists e: nat :: FailsFarthest(p, tokens, c, e0, e, hi, error))
        && (best.Some? ==> best.value.Location() <= error.Location()))
    || (best == Some(error) && StaysFarthest(p, tokens, c, e0, hi, error))
  }

  lemma {:induction false} StopIs<V(!new)>(p: ClauseParser<V>, tokens: seq<Token>, c: nat, e0: nat, hi: nat,
                                           best: Option<Error>)
    requires c < e0 <= hi <= |tokens| && TryFrom(p, EXHAUSTIVE, tokens, c, e0, hi, best).Stop?
    ensures StopsFrom(p, tokens, c, e0, hi, best, TryFrom(p, EXHAUSTIVE, tokens, c, e0, hi, best).error)
    decreases hi - e0
  {
    var error := TryFrom(p, EXHAUSTIVE, tokens, c, e0, hi, best).error;
    BoundaryMayEnd(tokens, c, e0, hi);
    if e0 < hi && !MayEnd(tokens, c, e0, hi) {
      StopIs(p, tokens, c, e0 + 1, hi, best);
      StopsBehind(p, tokens, c, e0, hi, best, best, error);
    } else if p.parse(tokens[c..e0]).Failed? {
      if e0 < hi {
        var next := Some(Farthest(best, p.parse(tokens[c..e0]).error));
        StopIs(p, tokens, c, e0 + 1, hi, next);
        StopsBehind(p, tokens, c, e0, hi, best, next, error);
      } else {
        StopsAtEnd(p, tokens, c, hi, best);
      }
    } else {
      assert EndsEarly(p, tokens, c, e0, e0, hi, p.parse(tokens[c..e0]).value);
    }
  }

  lemma StopsAtEnd<V(!new)>(p: ClauseParser<V>, tokens: seq<Token>, c: nat, hi: nat, best: Option<Error>)
    requires c < hi <= |tokens| && p.parse(tokens[c..hi]).Failed?
    ensures StopsFrom(p, tokens, c, hi, hi, best, Farthest(best, p.parse(tokens[c..hi]).error))
  {
    var last := p.parse(tokens[c..hi]).error;
    if Farthest(best, last) == last {
      assert FailsFarthest(p, tokens, c, hi, hi, hi, last);
    }
  }

  /** One end further to the front, which fails or cannot end a clause. */
  lemma StopsBehind<V(!new)>(p: ClauseParser<V>, tokens: seq<Token>, c: nat, e0: nat, hi: nat, best: Option<Error>,
                             next: Option<Error>, error: Error)
    requires c < e0 < hi <= |tokens| && StopsFrom(p, tokens, c, e0 + 1, hi, next, error)
    requires if MayEnd(tokens, c, e0, hi)
             then p.parse(tokens[c..e0]).Failed? && next == Some(Farthest(best, p.parse(tokens[c..e0]).error))
             else next == best
    ensures StopsFrom(p, tokens, c, e0, hi, best, error)
  {
    var e1 := e0 + 1;
    if e: nat, clause :| EndsEarly(p, tokens, c, e1, e, hi, clause) && error == ExtraToken(tokens[e]) {
      FirstIsBehind(p, tokens, c, e0, e, hi, clause);
      assert EndsEarly(p, tokens, c, e0, e, hi, clause);
    } else if e: nat :| FailsFarthest(p, tokens, c, e1, e, hi, error) {
      FarthestIsBehind(p, tokens, c, e0, e, hi, best, next, error);
    } else {
      RetainedStays(p, tokens, c, e0, hi, best, next, error);
    }
  }

  lemma FarthestIsBehind<V>(p: ClauseParser<V>, tokens: seq<Token>, c: nat, e0: nat, e: nat, hi: nat,
                            best: Option<Error>, next: Option<Error>, error: Error)
    requires c < e0 < hi <= |tokens| && FailsFarthest(p, tokens, c, e0 + 1, e, hi, error)
    requires next.Some? ==> next.value.Location() <= error.Location()
    requires if MayEnd(tokens, c, e0, hi)
             then p.parse(tokens[c..e0]).Failed? && next == Some(Farthest(best, p.parse(tokens[c..e0]).error))
             else next == best
    ensures FailsFarthest(p, tokens, c, e0, e, hi, error)
    ensures best.Some? ==> best.value.Location() <= error.Location()
  {
    forall e': nat | e0 <= e' && MayEnd(tokens, c, e', hi)
      ensures FailsNearer(p, tokens, c, e, e', error)
    {
      if e' != e0 {
        assert e0 + 1 <= e';
      }
    }
  }

  lemma RetainedStays<V(!new)>(p: ClauseParser<V>, tokens: seq<Token>, c: nat, e0: nat, hi: nat, best: Option<Error>,
                               next: Option<Error>, error: Error)
    requires c < e0 < hi <= |tokens| && next == Some(error) && StaysFarthest(p, tokens, c, e0 + 1, hi, error)
    requires if MayEnd(tokens, c, e0, hi)
             then p.parse(tokens[c..e0]).Failed? && next == Some(Farthest(best, p.parse(tokens[c..e0]).error))
             else next == best
    ensures StopsFrom(p, tokens, c, e0, hi, best, error)
  {
    if MayEnd(tokens, c, e0, hi) && error == p.parse(tokens[c..e0]).error
       && (best.Some? ==> best.value.Location() <= error.Location()) {
      forall e': nat | e0 <= e' && MayEnd(tokens, c, e', hi)
        ensures FailsNearer(p, tokens, c, e0, e', error)
      {
        assert e' != e0 ==> e0 + 1 <= e';
      }
      assert FailsFarthest(p, tokens, c, e0, e0, hi, error);
    } else {
      forall e': nat | e0 <= e' && MayEnd(tokens, c, e', hi)
        ensures p.parse(tokens[c..e']).Failed? && p.parse(tokens[c..e']).error.Location() < error.Location()
      {
        assert e' != e0 ==> e0 + 1 <= e';
      }
    }
  }

  // ---------- single queries ----------

  /** From lo to c, the tokens are the clauses, one behind the other. */
  ghost predicate AreClauses<V>(p: ClauseParser<V>, tokens: seq<Token>, lo: nat, c: nat, hi: nat, cuts: seq<nat>,
                                clauses: seq<V>)
    requires hi <= |tokens|
  {
    && |cuts| == |clauses| + 1 && cuts[0] == lo && cuts[|clauses|] == c
    && forall i, j :: 0 <= i && j == i + 1 && j < |cuts| ==> IsClause(p, tokens, cuts[i], cuts[j], hi, clauses[i])
  }

  /** A window of at least one token whose tokens are these clauses. */
  ghost predicate IsSingle<V>(p: ClauseParser<V>, tokens: seq<Token>, lo: nat, hi: nat, clauses: seq<V>)
    requires hi <= |tokens|
  {
    lo < hi && exists cuts :: AreClauses(p, tokens, lo, hi, hi, cuts, clauses)
  }

  /** Clauses up to some index, where no further one starts: the error of the window. */
  ghost predicate IsSingleError<V(!new)>(p: ClauseParser<V>, tokens: seq<Token>, lo: nat, hi: nat, error: Error)
    requires hi <= |tokens|
  {
    if lo == hi then error == UnrecognizedEof(0, ["query clause"])
    else exists c: nat, cuts, clauses ::
      c < hi && AreClauses(p, tokens, lo, c, hi, cuts, clauses) && StopsFrom(p, tokens, c, c + 1, hi, None, error)
  }

  lemma ClausesCons<V>(p: ClauseParser<V>, tokens: seq<Token>, lo: nat, next: nat, c: nat, hi: nat, clause: V,
                       cuts: seq<nat>, clauses: seq<V>)
    requires hi <= |tokens| && IsClause(p, tokens, lo, next, hi, clause)
    requires AreClauses(p, tokens, next, c, hi, cuts, clauses)
    ensures AreClauses(p, tokens, lo, c, hi, [lo] + cuts, [clause] + clauses)
  {
    var cuts', clauses' := [lo] + cuts, [clause] + clauses;
    forall i, j | 0 <= i && j == i + 1 && j < |cuts'|
      ensures IsClause(p, tokens, cuts'[i], cuts'[j], hi, clauses'[i])
    {
      assert i > 0 ==> cuts'[i] == cuts[i - 1] && cuts'[j] == cuts[j - 1] && clauses'[i] == clauses[i - 1];
    }
  }

  lemma ClausesTail<V>(p: ClauseParser<V>, tokens: seq<Token>, lo: nat, c: nat, hi: nat, cuts: seq<nat>,
                       clauses: seq<V>)
    requires hi <= |tokens| && AreClauses(p, tokens, lo, c, hi, cuts, clauses) && clauses != []
    ensures IsClause(p, tokens, lo, cuts[1], hi, clauses[0])
    ensures AreClauses(p, tokens, cuts[1], c, hi, cuts[1..], clauses[1..])
  {
    var cuts', clauses' := cuts[1..], clauses[1..];
    forall i, j | 0 <= i && j == i + 1 && j < |cuts'|
      ensures IsClause(p, tokens, cuts'[i], cuts'[j], hi, clauses'[i])
    {
      assert IsClause(p, tokens, cuts[i + 1], cuts[j + 1], hi, clauses[i + 1]);
    }
  }

  lemma {:induction false} ClausesAreFound<V>(p: ClauseParser<V>, tokens: seq<Token>, lo: nat, hi: nat,
                                              cuts: seq<nat>, clauses: seq<V>)
    requires lo <= hi <= |tokens| && AreClauses(p, tokens, lo, hi, hi, cuts, clauses)
    ensures ClausesFrom(p, EXHAUSTIVE, tokens, lo, hi) == Clauses(clauses)
    decreases |clauses|
  {
    if clauses != [] {
      ClausesTail(p, tokens, lo, hi, hi, cuts, clauses);
      FoundIff(p, tokens, lo, lo + 1, hi, None, clauses[0], cuts[1]);
      ClausesAreFound(p, tokens, cuts[1], hi, cuts[1..], clauses[1..]);
    }
  }

  lemma {:induction false} FoundAreClauses<V(!new)>(p: ClauseParser<V>, tokens: seq<Token>, lo: nat, hi: nat)
    returns (cuts: seq<nat>)
    requires lo <= hi <= |tokens| && ClausesFrom(p, EXHAUSTIVE, tokens, lo, hi).Clauses?
    ensures AreClauses(p, tokens, lo, hi, hi, cuts, ClausesFrom(p, EXHAUSTIVE, tokens, lo, hi).clauses)
    decreases hi - lo
  {
    cuts := [lo];
    if lo < hi {
      FoundInside(p, EXHAUSTIVE, tokens, lo, lo + 1, hi, None);
      var Found(clause, end) := TryFrom(p, EXHAUSTIVE, tokens, lo, lo + 1, hi, None);
      FoundIff(p, tokens, lo, lo + 1, hi, None, clause, end);
      var rest := FoundAreClauses(p, tokens, end, hi);
      ClausesCons(p, tokens, lo, end, hi, hi, clause, rest, ClausesFrom(p, EXHAUSTIVE, tokens, end, hi).clauses);
      cuts := [lo] + rest;
    }
  }

  /** A window is a single query exactly if its tokens are clauses, each the shortest that a
      clause keyword or the end of the window ends. */
  lemma SingleIff<V(!new)>(p: ClauseParser<V>, tokens: seq<Token>, lo: nat, hi: nat, clauses: seq<V>)
    requires lo <= hi <= |tokens|
    ensures SingleQuery(p, EXHAUSTIVE, tokens, lo, hi) == Clauses(clauses) <==> IsSingle(p, tokens, lo, hi, clauses)
  {
    if SingleQuery(p, EXHAUSTIVE, tokens, lo, hi) == Clauses(clauses) {
      var cuts := FoundAreClauses(p, tokens, lo, hi);
    }
    if IsSingle(p, tokens, lo, hi, clauses) {
      var cuts :| AreClauses(p, tokens, lo, hi, hi, cuts, clauses);
      ClausesAreFound(p, tokens, lo, hi, cuts, clauses);
    }
  }

  lemma {:induction false} ErrorIsStop<V(!new)>(p: ClauseParser<V>, tokens: seq<Token>, lo: nat, hi: nat)
    returns (c: nat, cuts: seq<nat>, clauses: seq<V>)
    requires lo < hi <= |tokens| && ClausesFrom(p, EXHAUSTIVE, tokens, lo, hi).ClauseError?
    ensures c < hi && AreClauses(p, tokens, lo, c, hi, cuts, clauses)
    ensures StopsFrom(p, tokens, c, c + 1, hi, None, ClausesFrom(p, EXHAUSTIVE, tokens, lo, hi).error)
    decreases hi - lo
  {
    var attempt := TryFrom(p, EXHAUSTIVE, tokens, lo, lo + 1, hi, None);
    if attempt.Stop? {
      c, cuts, clauses := lo, [lo], [];
      StopIs(p, tokens, lo, lo + 1, hi, None);
    } else {
      FoundInside(p, EXHAUSTIVE, tokens, lo, lo + 1, hi, None);
      FoundIff(p, tokens, lo, lo + 1, hi, None, attempt.clause, attempt.end);
      c, cuts, clauses := ErrorIsStop(p, tokens, attempt.end, hi);
      ClausesCons(p, tokens, lo, attempt.end, c, hi, attempt.clause, cuts, clauses);
      cuts, clauses := [lo] + cuts, [attempt.clause] + clauses;
    }
  }

  /** The error of a window that is no single query. */
  lemma SingleErrorIs<V(!new)>(p: ClauseParser<V>, tokens: seq<Token>, lo: nat, hi: nat)
    requires lo <= hi <= |tokens| && SingleQuery(p, EXHAUSTIVE, tokens, lo, hi).ClauseError?
    ensures IsSingleError(p, tokens, lo, hi, SingleQuery(p, EXHAUSTIVE, tokens, lo, hi).error)
  {
    if lo < hi {
      var c, cuts, clauses := ErrorIsStop(p, tokens, lo, hi);
    }
  }

  // ---------- UNION ----------

  /** The operator at u, up to the token r: `UNION ALL`, `UNION DISTINCT` or `UNION`. */
  predicate IsOperator(tokens: seq<Token>, u: nat, r: nat, hi: nat, kind: OperatorKind)
    requires hi <= |tokens|
  {
    && u < r <= hi && tokens[u].kind.Union?
    && match kind
       case UnionAll => r == u + 2 && tokens[u + 1].kind.All?
       case UnionDistinct => r == u + 2 && tokens[u + 1].kind.Distinct?
       case UnionDefault => r == u + 1 && (r < hi ==> !tokens[r].kind.All? && !tokens[r].kind.Distinct?)
  }

  /** The windows of a query with UNIONs: operators from us[k] to rs[k], one behind the other. */
  datatype Splits = Splits(us: seq<nat>, rs: seq<nat>)

  function WindowStart(s: Splits, lo: nat, k: nat): nat {
    if 0 < k <= |s.rs| then s.rs[k - 1] else lo
  }

  function WindowEnd(s: Splits, hi: nat, k: nat): nat {
    if k < |s.us| then s.us[k] else hi
  }

  /** The k-th query of a tree. */
  function QueryAt<V>(head: Single<V>, unions: seq<Branch<V>>, k: nat): Single<V> {
    if 0 < k <= |unions| then unions[k - 1].query else head
  }

  /** The window is a single query, spanned from its first token to its last. */
  ghost predicate IsQuery<V>(p: ClauseParser<V>, tokens: seq<Token>, lo: nat, hi: nat, query: Single<V>)
    requires hi <= |tokens|
  {
    && lo < hi && IsSingle(p, tokens, lo, hi, query.clauses)
    && query.span == RawSpan(tokens[lo].start, tokens[hi - 1].end)
  }

  /** The operator at u ends a window that starts at lo, and no bracket opened since encloses it. */
  ghost predicate IsBranchAt<V>(tokens: seq<Token>, lo: nat, u: nat, r: nat, hi: nat, branch: Branch<V>)
    requires hi <= |tokens|
  {
    && lo < u && r < hi && IsOperator(tokens, u, r, hi, branch.operator) && DepthFrom(tokens, lo, u) == 0
    && branch.operatorSpan == RawSpan(tokens[u].start, tokens[r - 1].end)
  }

  ghost predicate QueryFits<V>(p: ClauseParser<V>, tokens: seq<Token>, lo: nat, hi: nat, s: Splits, head: Single<V>,
                               unions: seq<Branch<V>>, k: nat)
    requires hi <= |tokens|
  {
    WindowEnd(s, hi, k) <= hi
    && IsQuery(p, tokens, WindowStart(s, lo, k), WindowEnd(s, hi, k), QueryAt(head, unions, k))
  }

  ghost predicate BranchFits<V>(tokens: seq<Token>, lo: nat, hi: nat, s: Splits, unions: seq<Branch<V>>, k: nat)
    requires hi <= |tokens| && k < |s.us| == |s.rs| == |unions|
  {
    IsBranchAt(tokens, WindowStart(s, lo, k), s.us[k], s.rs[k], hi, unions[k])
  }

  /** The windows and operators tile lo..hi, and the tree shows them in order. */
  ghost predicate Decomposes<V>(p: ClauseParser<V>, tokens: seq<Token>, lo: nat, hi: nat, s: Splits, head: Single<V>,
                                unions: seq<Branch<V>>)
    requires hi <= |tokens|
  {
    && |s.us| == |s.rs| == |unions|
    && (forall k: nat :: k <= |unions| ==> QueryFits(p, tokens, lo, hi, s, head, unions, k))
    && (forall k: nat :: k < |unions| ==> BranchFits(tokens, lo, hi, s, unions, k))
  }

  function TailOf(s: Splits): Splits
    requires s.us != [] && s.rs != []
  {
    Splits(s.us[1..], s.rs[1..])
  }

  /** The first window and operator, and the rest. */
  lemma DecomposeTail<V>(p: ClauseParser<V>, tokens: seq<Token>, lo: nat, hi: nat, s: Splits, head: Single<V>,
                         unions: seq<Branch<V>>)
    requires hi <= |tokens| && Decomposes(p, tokens, lo, hi, s, head, unions) && unions != []
    ensures s.us[0] <= hi && IsQuery(p, tokens, lo, s.us[0], head)
    ensures IsBranchAt(tokens, lo, s.us[0], s.rs[0], hi, unions[0])
    ensures Decomposes(p, tokens, s.rs[0], hi, TailOf(s), unions[0].query, unions[1..])
  {
    assert QueryFits(p, tokens, lo, hi, s, head, unions, 0) && BranchFits(tokens, lo, hi, s, unions, 0);
    var tail, rest := TailOf(s), unions[1..];
    forall k: nat | k <= |rest|
      ensures QueryFits(p, tokens, s.rs[0], hi, tail, unions[0].query, rest, k)
    {
      assert QueryFits(p, tokens, lo, hi, s, head, unions, k + 1);
    }
    forall k: nat | k < |rest|
      ensures BranchFits(tokens, s.rs[0], hi, tail, rest, k)
    {
      assert BranchFits(tokens, lo, hi, s, unions, k + 1);
    }
  }

  lemma DecomposeCons<V>(p: ClauseParser<V>, tokens: seq<Token>, lo: nat, hi: nat, u: nat, r: nat, tail: Splits,
                         head: Single<V>, branch: Branch<V>, rest: seq<Branch<V>>)
    requires u <= hi <= |tokens| && IsQuery(p, tokens, lo, u, head) && IsBranchAt(tokens, lo, u, r, hi, branch)
    requires Decomposes(p, tokens, r, hi, tail, branch.query, rest)
    ensures Decomposes(p, tokens, lo, hi, Splits([u] + tail.us, [r] + tail.rs), head, [branch] + rest)
  {
    var s, unions := Splits([u] + tail.us, [r] + tail.rs), [branch] + rest;
    forall k: nat | k <= |unions|
      ensures QueryFits(p, tokens, lo, hi, s, head, unions, k)
    {
      if k > 0 {
        assert QueryFits(p, tokens, r, hi, tail, branch.query, rest, k - 1);
      }
    }
    forall k: nat | k < |unions|
      ensures BranchFits(tokens, lo, hi, s, unions, k)
    {
      if k > 0 {
        assert BranchFits(tokens, r, hi, tail, rest, k - 1);
      }
    }
  }

  lemma OperatorIs(tokens: seq<Token>, u: nat, r: nat, hi: nat, kind: OperatorKind)
    requires u < hi <= |tokens| && tokens[u].kind.Union?
    ensures IsOperator(tokens, u, r, hi, kind) <==> r == RightStart(tokens, u, hi) && kind == OperatorAt(tokens, u, hi)
  {
  }

  lemma QueryIff<V(!new)>(p: ClauseParser<V>, tokens: seq<Token>, lo: nat, hi: nat, query: Single<V>)
    requires lo <= hi <= |tokens|
    ensures IsQuery(p, tokens, lo, hi, query)
       <==> lo < hi && SingleQuery(p, EXHAUSTIVE, tokens, lo, hi) == Clauses(query.clauses)
            && query.span == Cover(tokens, lo, hi)
  {
    SingleIff(p, tokens, lo, hi, query.clauses);
  }

  /** The UNIONs of one tree come before those of another: none comes first, then the one whose
      first difference lies in front. */
  predicate Precedes(us: seq<nat>, vs: seq<nat>) {
    us == [] || (vs != [] && (us[0] < vs[0] || (us[0] == vs[0] && Precedes(us[1..], vs[1..]))))
  }

  lemma {:induction false} PrecedesBoth(us: seq<nat>, vs: seq<nat>)
    requires Precedes(us, vs) && Precedes(vs, us)
    ensures us == vs
  {
    if us != [] {
      PrecedesBoth(us[1..], vs[1..]);
      assert us == [us[0]] + us[1..] && vs == [vs[0]] + vs[1..];
    }
  }

  /** Nothing decomposes the window with UNIONs that come before these. */
  ghost predicate IsFirst<V(!new)>(p: ClauseParser<V>, tokens: seq<Token>, lo: nat, hi: nat, us: seq<nat>)
    requires hi <= |tokens|
  {
    forall s: Splits, head: Single<V>, unions: seq<Branch<V>> :: 
      Decomposes(p, tokens, lo, hi, s, head, unions) ==> Precedes(us, s.us)
  }

  ghost predicate IsFirstTree<V(!new)>(p: ClauseParser<V>, tokens: seq<Token>, lo: nat, hi: nat, s: Splits,
                                       head: Single<V>, unions: seq<Branch<V>>)
    requires hi <= |tokens|
  {
    Decomposes(p, tokens, lo, hi, s, head, unions) && IsFirst(p, tokens, lo, hi, s.us)
  }

  /** No decomposition of the window has its first UNION in front of u. */
  ghost predicate NoneSplits<V(!new)>(p: ClauseParser<V>, tokens: seq<Token>, lo: nat, hi: nat, u: nat)
    requires hi <= |tokens|
  {
    forall s: Splits, head: Single<V>, unions: seq<Branch<V>> :: 
      Decomposes(p, tokens, lo, hi, s, head, unions) ==> s.us != [] && u <= s.us[0]
  }

  ghost predicate HasNoTree<V(!new)>(p: ClauseParser<V>, tokens: seq<Token>, lo: nat, hi: nat)
    requires hi <= |tokens|
  {
    forall s: Splits, head: Single<V>, unions: seq<Branch<V>> :: !Decomposes(p, tokens, lo, hi, s, head, unions)
  }

  // ---------- the tree is the first one ----------

  /** What the search answers on a window, in terms of decompositions. */
  ghost predicate Answers<V(!new)>(p: ClauseParser<V>, tokens: seq<Token>, lo: nat, hi: nat, r: RegularResult<V>)
    requires hi <= |tokens|
  {
    match r
    case Regular(head, unions) => exists s: Splits :: IsFirstTree(p, tokens, lo, hi, s, head, unions)
    case Rejected(_) => HasNoTree(p, tokens, lo, hi)
  }

  lemma {:induction false} QueryAnswers<V(!new)>(p: ClauseParser<V>, tokens: seq<Token>, lo: nat, hi: nat)
    requires lo <= hi <= |tokens|
    ensures Answers(p, tokens, lo, hi, RegularQuery(p, EXHAUSTIVE, tokens, lo, hi))
    decreases hi - lo, 1
  {
    var single := SingleQuery(p, EXHAUSTIVE, tokens, lo, hi);
    if single.Clauses? {
      Unsplit(p, tokens, lo, hi, Single(single.clauses, Cover(tokens, lo, hi)));
    } else {
      SplitsSomewhere(p, tokens, lo, hi);
      SplitAnswers(p, tokens, lo, lo, hi, single.error);
    }
  }

  lemma Unsplit<V(!new)>(p: ClauseParser<V>, tokens: seq<Token>, lo: nat, hi: nat, head: Single<V>)
    requires lo < hi <= |tokens| && SingleQuery(p, EXHAUSTIVE, tokens, lo, hi) == Clauses(head.clauses)
    requires head.span == Cover(tokens, lo, hi)
    ensures IsFirstTree(p, tokens, lo, hi, Splits([], []), head, [])
  {
    QueryIff(p, tokens, lo, hi, head);
    assert QueryFits(p, tokens, lo, hi, Splits([], []), head, [], 0);
  }

  /** A window that is no single query has UNIONs in every decomposition. */
  lemma SplitsSomewhere<V(!new)>(p: ClauseParser<V>, tokens: seq<Token>, lo: nat, hi: nat)
    requires lo <= hi <= |tokens| && SingleQuery(p, EXHAUSTIVE, tokens, lo, hi).ClauseError?
    ensures NoneSplits(p, tokens, lo, hi, lo)
  {
    forall s: Splits, head: Single<V>, unions: seq<Branch<V>> | Decomposes<V>(p, tokens, lo, hi, s, head, unions)
      ensures s.us != [] && lo <= s.us[0]
    {
      if s.us == [] {
        assert QueryFits(p, tokens, lo, hi, s, head, unions, 0);
        QueryIff(p, tokens, lo, hi, head);
      } else {
        DecomposeTail(p, tokens, lo, hi, s, head, unions);
      }
    }
  }

  lemma {:induction false} SplitAnswers<V(!new)>(p: ClauseParser<V>, tokens: seq<Token>, lo: nat, u: nat, hi: nat,
                                                 unsplit: Error)
    requires lo <= u <= hi <= |tokens| && NoneSplits(p, tokens, lo, hi, u)
    ensures Answers(p, tokens, lo, hi, SplitFrom(p, EXHAUSTIVE, tokens, lo, u, hi, unsplit))
    decreases hi - lo, 0, hi - u
  {
    if u == hi {
      NothingSplits(p, tokens, lo, hi);
    } else if !AtTopLevel(tokens, lo, u, IsUnion) {
      NoSplitHere(p, tokens, lo, u, hi);
      SplitAnswers(p, tokens, lo, u + 1, hi, unsplit);
    } else {
      var r := RightStart(tokens, u, hi);
      QueryAnswers(p, tokens, r, hi);
      var split := SplitAt(p, EXHAUSTIVE, tokens, lo, u, hi);
      if split.Regular? {
        SplitIsFirst(p, tokens, lo, u, hi);
      } else {
        NoSplitHere(p, tokens, lo, u, hi);
        SplitAnswers(p, tokens, lo, u + 1, hi, unsplit);
      }
    }
  }

  lemma NothingSplits<V(!new)>(p: ClauseParser<V>, tokens: seq<Token>, lo: nat, hi: nat)
    requires lo <= hi <= |tokens| && NoneSplits(p, tokens, lo, hi, hi)
    ensures HasNoTree(p, tokens, lo, hi)
  {
    forall s: Splits, head: Single<V>, unions: seq<Branch<V>>
      ensures !Decomposes<V>(p, tokens, lo, hi, s, head, unions)
    {
      if Decomposes<V>(p, tokens, lo, hi, s, head, unions) {
        DecomposeTail(p, tokens, lo, hi, s, head, unions);
      }
    }
  }

  /** The UNION at u begins no decomposition. */
  lemma NoSplitHere<V(!new)>(p: ClauseParser<V>, tokens: seq<Token>, lo: nat, u: nat, hi: nat)
    requires lo <= u < hi <= |tokens| && NoneSplits(p, tokens, lo, hi, u)
    requires AtTopLevel(tokens, lo, u, IsUnion) ==>
      var r := RightStart(tokens, u, hi);
      SplitAt(p, EXHAUSTIVE, tokens, lo, u, hi).Rejected?
      && Answers(p, tokens, r, hi, RegularQuery(p, EXHAUSTIVE, tokens, r, hi))
    ensures NoneSplits(p, tokens, lo, hi, u + 1)
  {
    forall s: Splits, head: Single<V>, unions: seq<Branch<V>> | Decomposes<V>(p, tokens, lo, hi, s, head, unions)
      ensures s.us != [] && u + 1 <= s.us[0]
    {
      DecomposeTail(p, tokens, lo, hi, s, head, unions);
      if s.us[0] == u {
        OperatorIs(tokens, u, s.rs[0], hi, unions[0].operator);
        QueryIff(p, tokens, lo, u, head);
      }
    }
  }

  /** The split at u is a decomposition, and the first one. */
  lemma SplitIsFirst<V(!new)>(p: ClauseParser<V>, tokens: seq<Token>, lo: nat, u: nat, hi: nat)
    requires lo <= u < hi <= |tokens| && NoneSplits(p, tokens, lo, hi, u) && AtTopLevel(tokens, lo, u, IsUnion)
    requires var r := RightStart(tokens, u, hi); Answers(p, tokens, r, hi, RegularQuery(p, EXHAUSTIVE, tokens, r, hi))
    requires SplitAt(p, EXHAUSTIVE, tokens, lo, u, hi).Regular?
    ensures Answers(p, tokens, lo, hi, SplitAt(p, EXHAUSTIVE, tokens, lo, u, hi))
  {
    var r := RightStart(tokens, u, hi);
    var Regular(head, unions) := SplitAt(p, EXHAUSTIVE, tokens, lo, u, hi);
    var Regular(right, rest) := RegularQuery(p, EXHAUSTIVE, tokens, r, hi);
    var tail: Splits :| IsFirstTree(p, tokens, r, hi, tail, right, rest);
    QueryIff(p, tokens, lo, u, head);
    OperatorIs(tokens, u, r, hi, unions[0].operator);
    DecomposeCons(p, tokens, lo, hi, u, r, tail, head, unions[0], rest);
    var s := Splits([u] + tail.us, [r] + tail.rs);
    FirstCons(p, tokens, lo, u, r, hi, tail.us);
    assert unions == [unions[0]] + rest;
    assert IsFirstTree(p, tokens, lo, hi, s, head, unions);
  }

  lemma FirstCons<V(!new)>(p: ClauseParser<V>, tokens: seq<Token>, lo: nat, u: nat, r: nat, hi: nat, us: seq<nat>)
    requires lo <= u < hi <= |tokens| && tokens[u].kind.Union? && r == RightStart(tokens, u, hi)
    requires NoneSplits(p, tokens, lo, hi, u) && IsFirst(p, tokens, r, hi, us)
    ensures IsFirst(p, tokens, lo, hi, [u] + us)
  {
    forall s: Splits, head: Single<V>, unions: seq<Branch<V>> | Decomposes<V>(p, tokens, lo, hi, s, head, unions)
      ensures Precedes([u] + us, s.us)
    {
      DecomposeTail(p, tokens, lo, hi, s, head, unions);
      if s.us[0] == u {
        OperatorIs(tokens, u, s.rs[0], hi, unions[0].operator);
        assert Decomposes(p, tokens, r, hi, TailOf(s), unions[0].query, unions[1..]);
        assert Precedes(us, TailOf(s).us);
      }
      assert ([u] + us)[1..] == us;
    }
  }

  // ---------- both directions ----------

  /** The same UNIONs give the same tree. */
  lemma {:induction false} SameUnionsSameTree<V(!new)>(p: ClauseParser<V>, tokens: seq<Token>, lo: nat, hi: nat,
                                                       s: Splits, head: Single<V>, unions: seq<Branch<V>>,
                                                       s': Splits, head': Single<V>, unions': seq<Branch<V>>)
    requires hi <= |tokens| && Decomposes(p, tokens, lo, hi, s, head, unions)
    requires Decomposes(p, tokens, lo, hi, s', head', unions') && s.us == s'.us
    ensures head == head' && unions == unions'
    decreases |unions|
  {
    if unions == [] {
      assert QueryFits(p, tokens, lo, hi, s, head, unions, 0) && QueryFits(p, tokens, lo, hi, s', head', unions', 0);
      QueryIff(p, tokens, lo, hi, head);
      QueryIff(p, tokens, lo, hi, head');
    } else {
      DecomposeTail(p, tokens, lo, hi, s, head, unions);
      DecomposeTail(p, tokens, lo, hi, s', head', unions');
      var u := s.us[0];
      QueryIff(p, tokens, lo, u, head);
      QueryIff(p, tokens, lo, u, head');
      OperatorIs(tokens, u, s.rs[0], hi, unions[0].operator);
      OperatorIs(tokens, u, s'.rs[0], hi, unions'[0].operator);
      SameUnionsSameTree(p, tokens, s.rs[0], hi, TailOf(s), unions[0].query, unions[1..],
                         TailOf(s'), unions'[0].query, unions'[1..]);
      assert unions == [unions[0]] + unions[1..] && unions' == [unions'[0]] + unions'[1..];
    }
  }

  /** The search returns a tree exactly if it is the first decomposition of the window. */
  lemma TreeIff<V(!new)>(p: ClauseParser<V>, tokens: seq<Token>, lo: nat, hi: nat, head: Single<V>,
                         unions: seq<Branch<V>>)
    requires lo <= hi <= |tokens|
    ensures RegularQuery(p, EXHAUSTIVE, tokens, lo, hi) == Regular(head, unions)
       <==> exists s: Splits :: IsFirstTree(p, tokens, lo, hi, s, head, unions)
  {
    QueryAnswers(p, tokens, lo, hi);
    if s: Splits :| IsFirstTree(p, tokens, lo, hi, s, head, unions) {
      var Regular(head', unions') := RegularQuery(p, EXHAUSTIVE, tokens, lo, hi);
      var s': Splits :| IsFirstTree(p, tokens, lo, hi, s', head', unions');
      PrecedesBoth(s.us, s'.us);
      SameUnionsSameTree(p, tokens, lo, hi, s, head, unions, s', head', unions');
    }
  }

  /** A window without a decomposition is rejected with the error of its clauses. */
  lemma RejectionIs<V(!new)>(p: ClauseParser<V>, tokens: seq<Token>, lo: nat, hi: nat)
    requires lo <= hi <= |tokens| && RegularQuery(p, EXHAUSTIVE, tokens, lo, hi).Rejected?
    ensures HasNoTree(p, tokens, lo, hi)
    ensures IsSingleError(p, tokens, lo, hi, RegularQuery(p, EXHAUSTIVE, tokens, lo, hi).error)
  {
    QueryAnswers(p, tokens, lo, hi);
    var error := SingleQuery(p, EXHAUSTIVE, tokens, lo, hi).error;
    UnsplitStands(p, tokens, lo, lo, hi, error);
    SingleErrorIs(p, tokens, lo, hi);
  }

  lemma {:induction false} UnsplitStands<V(!new)>(p: ClauseParser<V>, tokens: seq<Token>, lo: nat, u: nat, hi: nat,
                                                  unsplit: Error)
    requires lo <= u <= hi <= |tokens|
    ensures var r := SplitFrom(p, EXHAUSTIVE, tokens, lo, u, hi, unsplit); r.Rejected? ==> r.error == unsplit
    decreases hi - u
  {
    if u < hi {
      UnsplitStands(p, tokens, lo, u + 1, hi, unsplit);
    }
  }

  /** For a parser driven by the patched tables, the search as it runs returns that tree, or
      that error. */
  lemma DrivenTreeIff<V(!new)>(t: Tables<V>, owner: nat -> Option<nat>, p: ClauseParser<V>, tokens: seq<Token>,
                               lo: nat, hi: nat, head: Single<V>, unions: seq<Branch<V>>)
    requires FragmentTables(t, owner) && UniformTables(t, owner) && ErrorsInside(t)
    requires Drives(StepperOf(MachineOf(t, Contextual)), p.parse)
    requires Ordered(tokens) && lo <= hi <= |tokens|
    ensures RegularQuery(p, PRUNED, tokens, lo, hi) == Regular(head, unions)
       <==> exists s: Splits :: IsFirstTree(p, tokens, lo, hi, s, head, unions)
    ensures RegularQuery(p, PRUNED, tokens, lo, hi).Rejected? ==>
              IsSingleError(p, tokens, lo, hi, RegularQuery(p, PRUNED, tokens, lo, hi).error)
  {
    StrictTheorems.DrivenSearchRefinesExhaustive(t, owner, p, tokens, lo, hi);
    TreeIff(p, tokens, lo, hi, head, unions);
    if RegularQuery(p, EXHAUSTIVE, tokens, lo, hi).Rejected? {
      RejectionIs(p, tokens, lo, hi);
    }
  }
}
