/** `recover_clauses` on source offsets, refining the machine on token indices. */
module Recovery {
  import opened Tokens
  import opened StrictQuery
  import opened OperandRepair
  import opened RecoveryMachine

  // ---------- boundaries ----------

  predicate NamePosition(kind: Kind) {
    kind.As? || kind.Dot? || kind.Colon? || kind.Call?
  }

  predicate IsOperatorUnion(tokens: seq<Token>, i: nat)
    requires i < |tokens|
  {
    AtTopLevel(tokens, 0, i, IsUnion) && !(i > 0 && NamePosition(tokens[i - 1].kind))
  }

  predicate IsCut(tokens: seq<Token>, i: nat)
    requires i < |tokens|
  {
    AtTopLevel(tokens, 0, i, ClauseStarts) || IsOperatorUnion(tokens, i)
  }

  predicate Ascending(indices: seq<nat>) {
    forall a, b :: 0 <= a < b < |indices| ==> indices[a] < indices[b]
  }

  /** The UNIONs before hi that can be operators. */
  function UnionsBefore(tokens: seq<Token>, hi: nat): (unions: seq<nat>)
    requires hi <= |tokens|
    ensures Ascending(unions) && forall i: nat :: i in unions <==> i < hi && IsOperatorUnion(tokens, i)
  {
    if hi == 0 then []
    else if IsOperatorUnion(tokens, hi - 1) then Append(UnionsBefore(tokens, hi - 1), hi - 1)
    else UnionsBefore(tokens, hi - 1)
  }

  /** The clause starts and operators before hi, in order. */
  function CutsBefore(tokens: seq<Token>, hi: nat): (cuts: seq<nat>)
    requires hi <= |tokens|
    ensures Ascending(cuts) && forall i: nat :: i in cuts <==> i < hi && IsCut(tokens, i)
  {
    if hi == 0 then []
    else if IsCut(tokens, hi - 1) then Append(CutsBefore(tokens, hi - 1), hi - 1)
    else CutsBefore(tokens, hi - 1)
  }

  function Append(indices: seq<nat>, index: nat): (r: seq<nat>)
    requires Ascending(indices) && forall i: nat :: i in indices ==> i < index
    ensures r == indices + [index] && Ascending(r)
    ensures forall i: nat :: i in r <==> i in indices || i == index
  {
    assert forall k :: 0 <= k < |indices| ==> indices[k] in indices;
    indices + [index]
  }

  function Unions(tokens: seq<Token>): seq<nat> {
    UnionsBefore(tokens, |tokens|)
  }

  /** Where a clause may end: a cut, or the end of the input. */
  function Cuts(tokens: seq<Token>): seq<nat> {
    Append(CutsBefore(tokens, |tokens|), |tokens|)
  }

  /** One pass builds both lists; the original collects the clause starts, appends the UNIONs
      and sorts. */
  method FindMarks(tokens: seq<Token>) returns (unions: seq<nat>, cuts: seq<nat>)
    ensures unions == Unions(tokens) && cuts == Cuts(tokens)
  {
    unions, cuts := [], [];
    var depth := 0;
    for index := 0 to |tokens|
      invariant depth == DepthFrom(tokens, 0, index)
      invariant unions == UnionsBefore(tokens, index)
      invariant cuts == CutsBefore(tokens, index)
    {
      var kind := tokens[index].kind;
      var union := depth == 0 && kind.Union? && !(index > 0 && NamePosition(tokens[index - 1].kind));
      if union {
        unions := unions + [index];
      }
      if union || (depth == 0 && ClauseStarts(kind)) {
        cuts := cuts + [index];
      }
      depth := Nest(depth, kind);
    }
    cuts := cuts + [|tokens|];
  }

  /** The first listed index beyond the cursor, if there is one. */
  method FindAfter(indices: seq<nat>, cursor: nat, end: nat) returns (r: Option<nat>)
    requires cursor < end && Ascending(indices) && forall i: nat :: i in indices ==> i <= end
    ensures (if r.Some? then r.value else end) == NextMark((i: nat) => i in indices, cursor + 1, end)
    ensures end in indices ==> r.Some?
  {
    for k := 0 to |indices|
      invariant forall j :: 0 <= j < k ==> indices[j] <= cursor
    {
      if indices[k] > cursor {
        assert indices[k] in indices;
        NextIs((i: nat) => i in indices, cursor + 1, end, indices[k]);
        return Some(indices[k]);
      }
    }
    NextIs((i: nat) => i in indices, cursor + 1, end, end);
    r := None;
  }

  lemma NextIs(mark: nat -> bool, from: nat, end: nat, i: nat)
    requires from <= i <= end && (i < end ==> mark(i)) && forall k: nat :: from <= k < i ==> !mark(k)
    ensures NextMark(mark, from, end) == i
  {
  }

  // ---------- the clauses that start at a cursor ----------

  /** Candidates tried so far: the longest that parsed, and those that failed. */
  datatype Tried<+V> = Tried(found: Option<(V, nat)>, failed: seq<(nat, Error)>, left: nat, parses: nat)

  function TryCandidates<V>(p: ClauseParser<V>, tokens: seq<Token>, c: nat, cuts: seq<nat>, j: nat,
                            t: Tried<V>): Tried<V>
    requires j <= |cuts|
    decreases |cuts| - j
  {
    if j == |cuts| then t
    else if !(c < cuts[j] <= |tokens|) then TryCandidates(p, tokens, c, cuts, j + 1, t)
    else if t.left == 0 then t
    else TryCandidates(p, tokens, c, cuts, j + 1, TryOne(p, tokens, c, cuts[j], t))
  }

  function TryOne<V>(p: ClauseParser<V>, tokens: seq<Token>, c: nat, e: nat, t: Tried<V>): Tried<V>
    requires t.left > 0
  {
    match p.parse(Slice(tokens, c, e))
    case Parsed(clause) => Tried(Some((clause, e)), t.failed, t.left - 1, t.parses + 1)
    case Failed(error) => Tried(t.found, t.failed + [(e, error)], t.left - 1, t.parses + 1)
  }

  // ---------- the longest candidate wins ----------

  /** The listed ends behind the cursor, from the j-th on. */
  function EndsFrom(tokens: seq<Token>, c: nat, cuts: seq<nat>, j: nat): (ends: seq<nat>)
    requires j <= |cuts|
    ensures forall e: nat :: e in ends <==> EndInside(tokens, c, e) && e in cuts[j..]
    decreases |cuts| - j
  {
    if j == |cuts| then []
    else
      assert cuts[j..] == [cuts[j]] + cuts[j + 1..];
      var rest := EndsFrom(tokens, c, cuts, j + 1);
      if EndInside(tokens, c, cuts[j]) then [cuts[j]] + rest else rest
  }

  function First(ends: seq<nat>, n: nat): seq<nat> {
    if n < |ends| then ends[..n] else ends
  }

  predicate ParsesAt<V>(p: ClauseParser<V>, tokens: seq<Token>, c: nat, e: nat) {
    p.parse(Slice(tokens, c, e)).Parsed?
  }

  /** The last of the ends that parses, with its clause. */
  function LastParsed<V>(p: ClauseParser<V>, tokens: seq<Token>, c: nat, ends: seq<nat>): (r: Option<(V, nat)>)
    ensures r.None? <==> forall e :: e in ends ==> !ParsesAt(p, tokens, c, e)
    ensures r.Some? ==>
              var (clause, end) := r.value;
              end in ends && p.parse(Slice(tokens, c, end)) == Parsed(clause)
  {
    if ends == [] then None
    else
      var rest, end := ends[..|ends| - 1], ends[|ends| - 1];
      assert ends == rest + [end] && end in ends;
      match p.parse(Slice(tokens, c, end))
      case Parsed(clause) => assert ParsesAt(p, tokens, c, end); Some((clause, end))
      case Failed(_) => LastParsed(p, tokens, c, rest)
  }

  lemma {:induction false} LastIsGreatest<V>(p: ClauseParser<V>, tokens: seq<Token>, c: nat, ends: seq<nat>)
    requires Ascending(ends) && LastParsed(p, tokens, c, ends).Some?
    ensures forall e :: e in ends && ParsesAt(p, tokens, c, e) ==> e <= LastParsed(p, tokens, c, ends).value.1
  {
    var rest, end := ends[..|ends| - 1], ends[|ends| - 1];
    assert ends == rest + [end];
    if !ParsesAt(p, tokens, c, end) {
      LastIsGreatest(p, tokens, c, rest);
    }
  }

  lemma {:induction false} LastParsedCons<V>(p: ClauseParser<V>, tokens: seq<Token>, c: nat, e: nat, ends: seq<nat>)
    ensures LastParsed(p, tokens, c, [e] + ends)
         == if LastParsed(p, tokens, c, ends).Some? then LastParsed(p, tokens, c, ends)
            else LastParsed(p, tokens, c, [e])
  {
    if ends == [] {
      assert [e] + ends == [e];
    } else {
      assert ([e] + ends)[..|ends|] == [e] + ends[..|ends| - 1];
      LastParsedCons(p, tokens, c, e, ends[..|ends| - 1]);
    }
  }

  /** What trying the ends gives: the last of them that parses, or what was found before. */
  ghost predicate Tries<V>(p: ClauseParser<V>, tokens: seq<Token>, c: nat, ends: seq<nat>, t: Tried<V>, r: Tried<V>) {
    && r.found == (if LastParsed(p, tokens, c, ends).Some? then LastParsed(p, tokens, c, ends) else t.found)
    && r.parses == t.parses + |ends| && r.left == t.left - |ends|
  }

  lemma {:induction false} TriesEnds<V>(p: ClauseParser<V>, tokens: seq<Token>, c: nat, cuts: seq<nat>, j: nat,
                                        t: Tried<V>)
    requires j <= |cuts|
    ensures Tries(p, tokens, c, First(EndsFrom(tokens, c, cuts, j), t.left), t, TryCandidates(p, tokens, c, cuts, j, t))
    decreases |cuts| - j
  {
    if j < |cuts| {
      if !EndInside(tokens, c, cuts[j]) {
        TriesEnds(p, tokens, c, cuts, j + 1, t);
      } else if t.left > 0 {
        TriesEnds(p, tokens, c, cuts, j + 1, TryOne(p, tokens, c, cuts[j], t));
        var rest := First(EndsFrom(tokens, c, cuts, j + 1), t.left - 1);
        assert First(EndsFrom(tokens, c, cuts, j), t.left) == [cuts[j]] + rest;
        TriesFirst(p, tokens, c, cuts[j], rest, t, TryCandidates(p, tokens, c, cuts, j, t));
      } else {
        assert First(EndsFrom(tokens, c, cuts, j), 0) == [];
      }
    }
  }

  /** What the first of several ends adds to the others. */
  lemma TriesFirst<V>(p: ClauseParser<V>, tokens: seq<Token>, c: nat, e: nat, rest: seq<nat>, t: Tried<V>, r: Tried<V>)
    requires t.left > 0 && Tries(p, tokens, c, rest, TryOne(p, tokens, c, e, t), r)
    ensures Tries(p, tokens, c, [e] + rest, t, r)
  {
    LastParsedCons(p, tokens, c, e, rest);
    LastParsedOne(p, tokens, c, e);
  }

  lemma LastParsedOne<V>(p: ClauseParser<V>, tokens: seq<Token>, c: nat, e: nat)
    ensures LastParsed(p, tokens, c, [e])
         == match p.parse(Slice(tokens, c, e)) case Parsed(clause) => Some((clause, e)) case Failed(_) => None
  {
    assert LastParsed(p, tokens, c, [e][..0]) == None;
  }

  /** The ends that the budget allows to try at a cursor, in ascending order. */
  function TriedEnds(tokens: seq<Token>, c: nat, attempts: nat): seq<nat> {
    First(EndsFrom(tokens, c, Cuts(tokens), 0), attempts)
  }

  /** The clause up to e is the longest among those ends. */
  ghost predicate IsLongest<V>(p: ClauseParser<V>, tokens: seq<Token>, c: nat, attempts: nat, clause: V, e: nat) {
    && e in TriedEnds(tokens, c, attempts) && p.parse(Slice(tokens, c, e)) == Parsed(clause)
    && forall e' :: e' in TriedEnds(tokens, c, attempts) && ParsesAt(p, tokens, c, e') ==> e' <= e
  }

  lemma {:induction false} EndsAscend(tokens: seq<Token>, c: nat, cuts: seq<nat>, j: nat)
    requires j <= |cuts| && Ascending(cuts)
    ensures Ascending(EndsFrom(tokens, c, cuts, j))
    decreases |cuts| - j
  {
    if j < |cuts| {
      EndsAscend(tokens, c, cuts, j + 1);
      var rest := EndsFrom(tokens, c, cuts, j + 1);
      forall k | 0 <= k < |rest| ensures cuts[j] < rest[k] {
        assert rest[k] in rest;
      }
    }
  }

  /** Of the ends that the budget allows to try, the longest that parses wins, and no repair is
      made. Repairs begin exactly when none of them parses. */
  lemma LongestWins<V(!new)>(p: ClauseParser<V>, tokens: seq<Token>, c: nat, attempts: nat)
    ensures var tried := TryCandidates(p, tokens, c, Cuts(tokens), 0, Tried(None, [], attempts, 0));
            var trial := TrialOf(p, tokens, Cuts(tokens), c, attempts);
            && trial.parses == tried.parses == |TriedEnds(tokens, c, attempts)| <= attempts
            && (tried.found.None? <==>
                  forall e :: e in TriedEnds(tokens, c, attempts) ==> !ParsesAt(p, tokens, c, e))
            && (forall clause, e: nat :: tried.found == Some((clause, e))
                  <==> IsLongest(p, tokens, c, attempts, clause, e))
            && (tried.found.Some? ==> trial.found == tried.found && trial.insertions == 0)
  {
    var tried := TryCandidates(p, tokens, c, Cuts(tokens), 0, Tried(None, [], attempts, 0));
    TriesEnds(p, tokens, c, Cuts(tokens), 0, Tried(None, [], attempts, 0));
    var ends := TriedEnds(tokens, c, attempts);
    EndsAscend(tokens, c, Cuts(tokens), 0);
    forall clause, e: nat
      ensures LastParsed(p, tokens, c, ends) == Some((clause, e)) <==> IsLongest(p, tokens, c, attempts, clause, e)
    {
      LongestIsLast(p, tokens, c, attempts, clause, e);
    }
  }

  lemma LongestIsLast<V>(p: ClauseParser<V>, tokens: seq<Token>, c: nat, attempts: nat, clause: V, e: nat)
    requires Ascending(TriedEnds(tokens, c, attempts))
    ensures LastParsed(p, tokens, c, TriedEnds(tokens, c, attempts)) == Some((clause, e))
       <==> IsLongest(p, tokens, c, attempts, clause, e)
  {
    var ends := TriedEnds(tokens, c, attempts);
    assert IsLongest(p, tokens, c, attempts, clause, e) ==> ParsesAt(p, tokens, c, e);
    if LastParsed(p, tokens, c, ends).Some? {
      LastIsGreatest(p, tokens, c, ends);
    }
  }

  /** Candidate ends lie past the cursor and inside the input. */
  ghost predicate EndsInside(tokens: seq<Token>, c: nat, failed: seq<(nat, Error)>) {
    forall i :: 0 <= i < |failed| ==> EndInside(tokens, c, failed[i].0)
  }

  predicate EndInside(tokens: seq<Token>, c: nat, end: nat) {
    c < end <= |tokens|
  }

  type Repairer<!V> = (seq<Token>, Error, nat) -> Repaired<V>

  function RepairerOf<V>(p: ClauseParser<V>): Repairer<V> {
    (slice, error, attempts: nat) => Repair(p.parse, slice, error, attempts)
  }

  function Slice(tokens: seq<Token>, c: nat, end: nat): seq<Token> {
    if c <= end <= |tokens| then tokens[c..end] else []
  }

  /** The first failed candidate that repairs, with the attempts left and the insertions made. */
  function RepairFailed<V>(repair: Repairer<V>, tokens: seq<Token>, c: nat, failed: seq<(nat, Error)>, k: nat,
                           left: nat, insertions: nat): Trial<V>
    requires k <= |failed|
    decreases |failed| - k
  {
    if k == |failed| then Trial(None, left, 0, insertions)
    else
      var r := repair(Slice(tokens, c, failed[k].0), failed[k].1, left);
      if r.clause.Some? then Trial(Some((r.clause.value, failed[k].0)), r.left, 0, insertions + |r.tried|)
      else RepairFailed(repair, tokens, c, failed, k + 1, r.left, insertions + |r.tried|)
  }

  lemma {:induction false} CandidatesPay<V>(p: ClauseParser<V>, tokens: seq<Token>, c: nat, cuts: seq<nat>, j: nat,
                                            t: Tried<V>)
    requires j <= |cuts| && TriedInside(tokens, c, t)
    ensures var r := TryCandidates(p, tokens, c, cuts, j, t);
            TriedInside(tokens, c, r) && r.left + r.parses == t.left + t.parses
    decreases |cuts| - j
  {
    if j < |cuts| {
      CandidatesPay(p, tokens, c, cuts, j + 1, t);
      if c < cuts[j] <= |tokens| && t.left > 0 {
        CandidatesPay(p, tokens, c, cuts, j + 1, TryOne(p, tokens, c, cuts[j], t));
      }
    }
  }

  /** Every candidate lies inside the input and cost a parse. */
  ghost predicate TriedInside<V>(tokens: seq<Token>, c: nat, t: Tried<V>) {
    && (t.found.Some? ==> EndInside(tokens, c, t.found.value.1) && t.parses > 0)
    && EndsInside(tokens, c, t.failed)
    && (t.failed != [] ==> t.parses > 0)
  }

  function TrialOf<V>(p: ClauseParser<V>, tokens: seq<Token>, cuts: seq<nat>, c: nat, attempts: nat): Trial<V> {
    var t := TryCandidates(p, tokens, c, cuts, 0, Tried(None, [], attempts, 0));
    if t.found.Some? then Trial(t.found, t.left, t.parses, 0)
    else RepairFailed(RepairerOf(p), tokens, c, t.failed, 0, t.left, 0).(parses := t.parses)
  }

  ghost predicate RepairPays<V(!new)>(repair: Repairer<V>) {
    forall slice, error, attempts: nat :: var r := repair(slice, error, attempts); r.left + |r.tried| == attempts
  }

  lemma RepairerPays<V(!new)>(p: ClauseParser<V>)
    ensures RepairPays(RepairerOf(p))
  {
    forall slice, error, attempts: nat
      ensures var r := RepairerOf(p)(slice, error, attempts); r.left + |r.tried| == attempts
    {
      RoundsPay(p.parse, Fix, slice, error, attempts, ROUNDS, []);
    }
  }

  lemma {:induction false} RepairsPay<V(!new)>(repair: Repairer<V>, tokens: seq<Token>, c: nat,
                                               failed: seq<(nat, Error)>,
                                               k: nat, left: nat, insertions: nat)
    requires RepairPays(repair) && k <= |failed| && EndsInside(tokens, c, failed)
    ensures var r := RepairFailed(repair, tokens, c, failed, k, left, insertions);
            && r.left + r.insertions == left + insertions
            && (r.found.Some? ==> failed != [] && EndInside(tokens, c, r.found.value.1))
    decreases |failed| - k
  {
    if k < |failed| {
      var r := repair(Slice(tokens, c, failed[k].0), failed[k].1, left);
      if r.clause.None? {
        RepairsPay(repair, tokens, c, failed, k + 1, r.left, insertions + |r.tried|);
      }
    }
  }

  method TryClause<V>(p: ClauseParser<V>, tokens: seq<Token>, cuts: seq<nat>, c: nat, attempts: nat)
    returns (t: Trial<V>)
    ensures t == TrialOf(p, tokens, cuts, c, attempts)
  {
    var tried := TryEach(p, tokens, cuts, c, attempts);
    if tried.found.Some? {
      return Trial(tried.found, tried.left, tried.parses, 0);
    }
    var repaired := RepairEach(p, RepairerOf(p), tokens, c, tried.failed, tried.left);
    t := repaired.(parses := tried.parses);
  }

  /** `repair` names what the repair method computes. */
  ghost predicate Names<V>(p: ClauseParser<V>, repair: Repairer<V>) {
    repair == RepairerOf(p)
  }

  method RepairOne<V>(p: ClauseParser<V>, ghost repair: Repairer<V>, slice: seq<Token>, error: Error, attempts: nat)
    returns (r: Repaired<V>)
    requires Names(p, repair)
    ensures r == repair(slice, error, attempts)
  {
    var clause, left, streams := RecoverExpressionOperands(p.parse, slice, error, attempts);
    r := Repaired(clause, left, streams);
  }

  method RepairEach<V>(p: ClauseParser<V>, ghost repair: Repairer<V>, tokens: seq<Token>, c: nat,
                       failed: seq<(nat, Error)>, attempts: nat) returns (t: Trial<V>)
    requires Names(p, repair)
    ensures t == RepairFailed(repair, tokens, c, failed, 0, attempts, 0)
  {
    var left: nat, insertions: nat := attempts, 0;
    for k := 0 to |failed|
      invariant RepairFailed(repair, tokens, c, failed, k, left, insertions)
             == RepairFailed(repair, tokens, c, failed, 0, attempts, 0)
    {
      var r := RepairOne(p, repair, Slice(tokens, c, failed[k].0), failed[k].1, left);
      left, insertions := r.left, insertions + |r.tried|;
      if r.clause.Some? {
        return Trial(Some((r.clause.value, failed[k].0)), left, 0, insertions);
      }
    }
    t := Trial(None, left, 0, insertions);
  }

  method TryEach<V>(p: ClauseParser<V>, tokens: seq<Token>, cuts: seq<nat>, c: nat, attempts: nat) returns (t: Tried<V>)
    ensures t == TryCandidates(p, tokens, c, cuts, 0, Tried(None, [], attempts, 0))
  {
    t := Tried(None, [], attempts, 0);
    for j := 0 to |cuts|
      invariant TryCandidates(p, tokens, c, cuts, j, t)
          == TryCandidates(p, tokens, c, cuts, 0, Tried(None, [], attempts, 0))
    {
      if c < cuts[j] <= |tokens| {
        if t.left == 0 {
          break;
        }
        match p.parse(Slice(tokens, c, cuts[j])) {
          case Parsed(clause) =>
            t := Tried(Some((clause, cuts[j])), t.failed, t.left - 1, t.parses + 1);
          case Failed(error) =>
            t := Tried(t.found, t.failed + [(cuts[j], error)], t.left - 1, t.parses + 1);
        }
      }
    }
  }

  // ---------- the machine for a token list ----------

  function Width(tokens: seq<Token>, u: nat): (w: nat)
    ensures 1 <= w <= 2 && (u < |tokens| ==> u + w <= |tokens|)
  {
    if u + 1 < |tokens| && (tokens[u + 1].kind.All? || tokens[u + 1].kind.Distinct?) then 2 else 1
  }

  function EnvOf<V>(p: ClauseParser<V>, tokens: seq<Token>): Env<V> {
    Env(|tokens|, (i: nat) => i in Unions(tokens), (i: nat) => i in Cuts(tokens), (u: nat) => Width(tokens, u),
        (c: nat, attempts: nat) => TrialOf(p, tokens, Cuts(tokens), c, attempts), p.isReturn)
  }

  lemma EnvIsPlausible<V(!new)>(p: ClauseParser<V>, tokens: seq<Token>)
    ensures Plausible(EnvOf(p, tokens))
  {
    var env := EnvOf(p, tokens);
    forall c: nat, attempts: nat | c < |tokens|
      ensures PlausibleTrial(env, c, attempts, env.trial(c, attempts))
    {
      TrialPays(p, tokens, Cuts(tokens), c, attempts);
    }
  }

  lemma TrialPays<V(!new)>(p: ClauseParser<V>, tokens: seq<Token>, cuts: seq<nat>, c: nat, attempts: nat)
    ensures var t := TrialOf(p, tokens, cuts, c, attempts);
            && t.left + t.parses + t.insertions == attempts
            && (t.found.Some? ==> c < t.found.value.1 <= |tokens| && t.parses > 0)
  {
    var start: Tried<V> := Tried(None, [], attempts, 0);
    CandidatesPay(p, tokens, c, cuts, 0, start);
    var t := TryCandidates(p, tokens, c, cuts, 0, start);
    RepairerPays(p);
    RepairsPay(RepairerOf(p), tokens, c, t.failed, 0, t.left, 0);
  }

  // ---------- the first repair wins ----------

  /** The ends that fail, in order, with their errors. */
  function Failures<V>(p: ClauseParser<V>, tokens: seq<Token>, c: nat, ends: seq<nat>): seq<(nat, Error)> {
    if ends == [] then []
    else
      match p.parse(Slice(tokens, c, ends[0]))
      case Parsed(_) => Failures(p, tokens, c, ends[1..])
      case Failed(error) => [(ends[0], error)] + Failures(p, tokens, c, ends[1..])
  }

  lemma {:induction false} TriedFailures<V>(p: ClauseParser<V>, tokens: seq<Token>, c: nat, cuts: seq<nat>, j: nat,
                                            t: Tried<V>)
    requires j <= |cuts|
    ensures TryCandidates(p, tokens, c, cuts, j, t).failed
         == t.failed + Failures(p, tokens, c, First(EndsFrom(tokens, c, cuts, j), t.left))
    decreases |cuts| - j
  {
    if j < |cuts| {
      if !EndInside(tokens, c, cuts[j]) {
        TriedFailures(p, tokens, c, cuts, j + 1, t);
      } else if t.left > 0 {
        TriedFailures(p, tokens, c, cuts, j + 1, TryOne(p, tokens, c, cuts[j], t));
        var rest := First(EndsFrom(tokens, c, cuts, j + 1), t.left - 1);
        assert First(EndsFrom(tokens, c, cuts, j), t.left) == [cuts[j]] + rest;
        FailuresFirst(p, tokens, c, cuts[j], rest, t);
      } else {
        assert First(EndsFrom(tokens, c, cuts, j), 0) == [];
      }
    }
  }

  lemma FailuresFirst<V>(p: ClauseParser<V>, tokens: seq<Token>, c: nat, e: nat, rest: seq<nat>, t: Tried<V>)
    requires t.left > 0
    ensures TryOne(p, tokens, c, e, t).failed + Failures(p, tokens, c, rest)
         == t.failed + Failures(p, tokens, c, [e] + rest)
  {
    assert ([e] + rest)[1..] == rest;
  }

  predicate FailsAt<V(==)>(p: ClauseParser<V>, tokens: seq<Token>, c: nat, end: nat, failed: (nat, Error)) {
    failed.0 == end && p.parse(Slice(tokens, c, end)) == Failed(failed.1)
  }

  ghost predicate AllFail<V>(p: ClauseParser<V>, tokens: seq<Token>, c: nat, ends: seq<nat>,
                             failed: seq<(nat, Error)>)
  {
    |failed| == |ends| && forall k: nat :: k < |ends| ==> FailsAt(p, tokens, c, ends[k], failed[k])
  }

  lemma {:induction false} FailuresAre<V>(p: ClauseParser<V>, tokens: seq<Token>, c: nat, ends: seq<nat>)
    requires forall e :: e in ends ==> !ParsesAt(p, tokens, c, e)
    ensures AllFail(p, tokens, c, ends, Failures(p, tokens, c, ends))
  {
    if ends != [] {
      assert !ParsesAt(p, tokens, c, ends[0]);
      assert forall e :: e in ends[1..] ==> e in ends;
      FailuresAre(p, tokens, c, ends[1..]);
    }
  }

  /** Repairing the slice up to e with some budget left gives this clause, or none, and leaves
      the rest of the budget. */
  ghost predicate RepairsTo<V(!new)>(p: ClauseParser<V>, repair: Repairer<V>, tokens: seq<Token>, c: nat, e: nat,
                                     left: nat, clause: Option<V>, rest: nat)
  {
    exists error :: RepairGives(p, repair, Slice(tokens, c, e), error, left, clause, rest)
  }

  predicate RepairGives<V(==)>(p: ClauseParser<V>, repair: Repairer<V>, slice: seq<Token>, error: Error, left: nat,
                               clause: Option<V>, rest: nat)
  {
    && p.parse(slice) == Failed(error)
    && repair(slice, error, left).clause == clause && repair(slice, error, left).left == rest
  }

  /** The ends from the k-th to the n-th are repaired in vain, each with what the one before left. */
  ghost predicate RepairsInVain<V(!new)>(p: ClauseParser<V>, repair: Repairer<V>, tokens: seq<Token>, c: nat,
                                         ends: seq<nat>, k: nat, n: nat, lefts: seq<nat>)
    requires k <= n <= |ends|
    decreases n - k
  {
    if k == n then |lefts| == 1
    else
      && |lefts| > 1 && RepairsTo(p, repair, tokens, c, ends[k], lefts[0], None, lefts[1])
      && RepairsInVain(p, repair, tokens, c, ends, k + 1, n, lefts[1..])
  }

  /** The n-th end is the first one whose repair gives a clause, or there is none and n counts them all. */
  ghost predicate RepairIs<V(!new)>(p: ClauseParser<V>, repair: Repairer<V>, tokens: seq<Token>, c: nat,
                                    ends: seq<nat>, n: nat, left: nat, trial: Trial<V>)
    requires n <= |ends|
  {
    if n == |ends| then trial.found.None? && trial.left == left
    else
      && trial.found.Some? && trial.found.value.1 == ends[n]
      && RepairsTo(p, repair, tokens, c, ends[n], left, Some(trial.found.value.0), trial.left)
  }

  lemma {:induction false} RepairsFrom<V(!new)>(p: ClauseParser<V>, repair: Repairer<V>, tokens: seq<Token>, c: nat,
                                                ends: seq<nat>, failed: seq<(nat, Error)>, k: nat, left: nat,
                                                insertions: nat)
    returns (n: nat, lefts: seq<nat>)
    requires AllFail(p, tokens, c, ends, failed) && k <= |ends|
    ensures k <= n <= |ends| && lefts != [] && lefts[0] == left
    ensures RepairsInVain(p, repair, tokens, c, ends, k, n, lefts)
    ensures RepairIs(p, repair, tokens, c, ends, n, lefts[|lefts| - 1],
                     RepairFailed(repair, tokens, c, failed, k, left, insertions))
    decreases |ends| - k
  {
    n, lefts := k, [left];
    if k < |ends| {
      assert FailsAt(p, tokens, c, ends[k], failed[k]);
      var r := repair(Slice(tokens, c, ends[k]), failed[k].1, left);
      assert RepairGives(p, repair, Slice(tokens, c, ends[k]), failed[k].1, left, r.clause, r.left);
      if r.clause.None? {
        var rest;
        n, rest := RepairsFrom(p, repair, tokens, c, ends, failed, k + 1, r.left, insertions + |r.tried|);
        lefts := [left] + rest;
        assert lefts[1..] == rest;
      }
    }
  }

  lemma NoneTried<V>(p: ClauseParser<V>, tokens: seq<Token>, c: nat, attempts: nat)
    requires forall e :: e in TriedEnds(tokens, c, attempts) ==> !ParsesAt(p, tokens, c, e)
    ensures var t := TryCandidates(p, tokens, c, Cuts(tokens), 0, Tried(None, [], attempts, 0));
            && t.found.None? && AllFail(p, tokens, c, TriedEnds(tokens, c, attempts), t.failed)
            && t.left == attempts - |TriedEnds(tokens, c, attempts)|
  {
    var start: Tried<V> := Tried(None, [], attempts, 0);
    var ends, t := TriedEnds(tokens, c, attempts), TryCandidates(p, tokens, c, Cuts(tokens), 0, start);
    assert t.failed == Failures(p, tokens, c, ends) by {
      TriedFailures(p, tokens, c, Cuts(tokens), 0, start);
    }
    TriesEnds(p, tokens, c, Cuts(tokens), 0, start);
    FailuresAre(p, tokens, c, ends);
  }

  /** When none of the tried ends parses, they are repaired from the nearest to the farthest, each
      with the budget that is left, and the first that gives a clause wins. */
  lemma FirstRepairWins<V(!new)>(p: ClauseParser<V>, tokens: seq<Token>, c: nat, attempts: nat)
    returns (n: nat, lefts: seq<nat>)
    requires forall e :: e in TriedEnds(tokens, c, attempts) ==> !ParsesAt(p, tokens, c, e)
    ensures var ends := TriedEnds(tokens, c, attempts);
            && Ascending(ends) && n <= |ends| && lefts != [] && lefts[0] == attempts - |ends|
            && RepairsInVain(p, RepairerOf(p), tokens, c, ends, 0, n, lefts)
            && RepairIs(p, RepairerOf(p), tokens, c, ends, n, lefts[|lefts| - 1],
                        TrialOf(p, tokens, Cuts(tokens), c, attempts))
  {
    EndsAscend(tokens, c, Cuts(tokens), 0);
    NoneTried(p, tokens, c, attempts);
    var ends := TriedEnds(tokens, c, attempts);
    var t := TryCandidates(p, tokens, c, Cuts(tokens), 0, Tried(None, [], attempts, 0));
    n, lefts := RepairsFrom(p, RepairerOf(p), tokens, c, ends, t.failed, 0, t.left, 0);
  }
}
