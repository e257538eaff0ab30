/** The strict query parser. A slice `&tokens[lo..hi]` is the window lo..hi of one token
    list. The functions take two switches: with a switch off, the corresponding early exit
    is absent and the search is exhaustive. The methods are the parser as it runs. */
module StrictQuery {
  import opened Tokens

  datatype ClauseParser<!V> = ClauseParser(parse: seq<Token> -> Outcome<V>, isReturn: V -> bool)

  datatype Pruning = Pruning(clauses: bool, unions: bool)
  const PRUNED := Pruning(true, true)
  const EXHAUSTIVE := Pruning(false, false)

  /** What one cursor position yields. */
  datatype Attempt<+V> = Found(clause: V, end: nat) | Stop(error: Error)

  datatype Single<+V> = Single(clauses: seq<V>, span: RawSpan)

  datatype SingleResult<+V> = Clauses(clauses: seq<V>) | ClauseError(error: Error)

  datatype OperatorKind = UnionAll | UnionDistinct | UnionDefault

  datatype Branch<+V> = Branch(operator: OperatorKind, operatorSpan: RawSpan, query: Single<V>)

  datatype RegularResult<+V> = Regular(head: Single<V>, unions: seq<Branch<V>>) | Rejected(error: Error)

  // ---------- top level ----------

  function Nest(depth: nat, kind: Kind): nat {
    if IsOpener(kind) then depth + 1
    else if IsCloser(kind) && depth > 0 then depth - 1
    else depth
  }

  /** The saturating bracket depth before token i, counted from token `base`. */
  function DepthFrom(tokens: seq<Token>, base: nat, i: nat): nat
    requires base <= i <= |tokens|
  {
    if i == base then 0 else Nest(DepthFrom(tokens, base, i - 1), tokens[i - 1].kind)
  }

  predicate AtTopLevel(tokens: seq<Token>, base: nat, i: nat, wanted: Kind -> bool)
    requires base <= i < |tokens|
  {
    DepthFrom(tokens, base, i) == 0 && wanted(tokens[i].kind)
  }

  function TopLevel(tokens: seq<Token>, base: nat, hi: nat, wanted: Kind -> bool): (indices: seq<nat>)
    requires base <= hi <= |tokens|
    ensures forall i :: i in indices <==> base <= i < hi && AtTopLevel(tokens, base, i, wanted)
    ensures forall a, b :: 0 <= a < b < |indices| ==> indices[a] < indices[b]
  {
    if hi == base then []
    else
      var before := TopLevel(tokens, base, hi - 1, wanted);
      assert forall a :: 0 <= a < |before| ==> before[a] in before;
      if AtTopLevel(tokens, base, hi - 1, wanted) then before + [hi - 1] else before
  }

  method TopLevelIndices(tokens: seq<Token>, base: nat, hi: nat, wanted: Kind -> bool) returns (indices: seq<nat>)
    requires base <= hi <= |tokens|
    ensures indices == TopLevel(tokens, base, hi, wanted)
  {
    var depth := 0;
    indices := [];
    for index := base to hi
      invariant depth == DepthFrom(tokens, base, index)
      invariant indices == TopLevel(tokens, base, index, wanted)
    {
      var kind := tokens[index].kind;
      if depth == 0 && wanted(kind) {
        indices := indices + [index];
      }
      if IsOpener(kind) {
        depth := depth + 1;
      } else if IsCloser(kind) {
        depth := if depth > 0 then depth - 1 else 0;
      }
    }
  }

  // ---------- one clause ----------

  function Farthest(best: Option<Error>, candidate: Error): Error {
    if best.None? || candidate.Location() >= best.value.Location() then candidate else best.value
  }

  /** Another clause may start at e when the clause before it starts at c. */
  predicate IsBoundary(tokens: seq<Token>, c: nat, e: nat)
    requires c < e < |tokens|
  {
    AtTopLevel(tokens, c + 1, e, ClauseStarts)
  }

  /** Tries the candidate ends from e on, keeping the farthest error so far. */
  function TryFrom<V>(p: ClauseParser<V>, mode: Pruning, tokens: seq<Token>, c: nat, e: nat, hi: nat,
                      best: Option<Error>): Attempt<V>
    requires c < e <= hi <= |tokens|
    decreases hi - e
  {
    if e < hi && !IsBoundary(tokens, c, e) then TryFrom(p, mode, tokens, c, e + 1, hi, best)
    else
      match p.parse(tokens[c..e])
      case Parsed(clause) =>
        if p.isReturn(clause) && e < hi then Stop(ExtraToken(tokens[e])) else Found(clause, e)
      case Failed(error) =>
        if mode.clauses && error.UnrecognizedToken? then Stop(error)
        else if e == hi then Stop(Farthest(best, error))
        else TryFrom(p, mode, tokens, c, e + 1, hi, Some(Farthest(best, error)))
  }

  lemma FoundInside<V>(p: ClauseParser<V>, mode: Pruning, tokens: seq<Token>, c: nat, e: nat, hi: nat,
                       best: Option<Error>)
    requires c < e <= hi <= |tokens|
    ensures TryFrom(p, mode, tokens, c, e, hi, best).Found? ==>
              e <= TryFrom(p, mode, tokens, c, e, hi, best).end <= hi
    decreases hi - e
  {
  }

  // ---------- a single query ----------

  function ClausesFrom<V>(p: ClauseParser<V>, mode: Pruning, tokens: seq<Token>, c: nat, hi: nat): SingleResult<V>
    requires c <= hi <= |tokens|
    decreases hi - c
  {
    if c == hi then Clauses([])
    else
      FoundInside(p, mode, tokens, c, c + 1, hi, None);
      match TryFrom(p, mode, tokens, c, c + 1, hi, None)
      case Stop(error) => ClauseError(error)
      case Found(clause, end) =>
        match ClausesFrom(p, mode, tokens, end, hi)
        case ClauseError(error) => ClauseError(error)
        case Clauses(rest) => Clauses([clause] + rest)
  }

  const NO_CLAUSE: Error := UnrecognizedEof(0, ["query clause"])

  function SingleQuery<V>(p: ClauseParser<V>, mode: Pruning, tokens: seq<Token>, lo: nat, hi: nat): SingleResult<V>
    requires lo <= hi <= |tokens|
  {
    if lo == hi then ClauseError(NO_CLAUSE) else ClausesFrom(p, mode, tokens, lo, hi)
  }

  // ---------- UNION ----------

  predicate IsUnion(kind: Kind) {
    kind.Union?
  }

  function RightStart(tokens: seq<Token>, u: nat, hi: nat): (r: nat)
    requires u < hi <= |tokens|
    ensures u < r <= hi
  {
    if u + 1 < hi && (tokens[u + 1].kind.All? || tokens[u + 1].kind.Distinct?) then u + 2 else u + 1
  }

  function OperatorAt(tokens: seq<Token>, u: nat, hi: nat): OperatorKind
    requires u < hi <= |tokens|
  {
    if u + 1 < hi && tokens[u + 1].kind.All? then UnionAll
    else if u + 1 < hi && tokens[u + 1].kind.Distinct? then UnionDistinct
    else UnionDefault
  }

  /** From the first token of a window to its last. */
  function Cover(tokens: seq<Token>, lo: nat, hi: nat): RawSpan
    requires lo < hi <= |tokens|
  {
    RawSpan(tokens[lo].start, tokens[hi - 1].end)
  }

  lemma CoverIsSpan(tokens: seq<Token>, lo: nat, hi: nat)
    requires lo < hi <= |tokens| && Ordered(tokens)
    ensures Cover(tokens, lo, hi).start <= Cover(tokens, lo, hi).end
  {
    assert lo < hi - 1 ==> tokens[lo].end <= tokens[hi - 1].start;
  }

  function RegularQuery<V>(p: ClauseParser<V>, mode: Pruning, tokens: seq<Token>, lo: nat, hi: nat): RegularResult<V>
    requires lo <= hi <= |tokens|
    decreases hi - lo, 1
  {
    match SingleQuery(p, mode, tokens, lo, hi)
    case Clauses(clauses) => Regular(Single(clauses, Cover(tokens, lo, hi)), [])
    case ClauseError(error) => SplitFrom(p, mode, tokens, lo, lo, hi, error)
  }

  /** Takes the UNION at u as the first operator. */
  function SplitAt<V>(p: ClauseParser<V>, mode: Pruning, tokens: seq<Token>, lo: nat, u: nat, hi: nat): RegularResult<V>
    requires lo <= u < hi <= |tokens|
    decreases hi - lo, 0, hi - u, 0
  {
    match SingleQuery(p, mode, tokens, lo, u)
    case ClauseError(error) => Rejected(error)
    case Clauses(clauses) =>
      var r := RightStart(tokens, u, hi);
      if r == hi then Rejected(NO_CLAUSE)
      else
        match RegularQuery(p, mode, tokens, r, hi)
        case Rejected(error) => Rejected(error)
        case Regular(right, tail) =>
          var branch := Branch(OperatorAt(tokens, u, hi), Cover(tokens, u, r), right);
          Regular(Single(clauses, Cover(tokens, lo, u)), [branch] + tail)
  }

  /** Tries the top-level UNIONs from u on. When none splits, the unsplit error stands. */
  function SplitFrom<V>(p: ClauseParser<V>, mode: Pruning, tokens: seq<Token>, lo: nat, u: nat, hi: nat,
                        unsplit: Error): RegularResult<V>
    requires lo <= u <= hi <= |tokens|
    decreases hi - lo, 0, hi - u, 1
  {
    if u == hi then Rejected(unsplit)
    else if !AtTopLevel(tokens, lo, u, IsUnion) then SplitFrom(p, mode, tokens, lo, u + 1, hi, unsplit)
    else if mode.unions && unsplit.UnrecognizedToken? && tokens[u].start > unsplit.token.start then Rejected(unsplit)
    else
      var split := SplitAt(p, mode, tokens, lo, u, hi);
      if split.Regular? then split else SplitFrom(p, mode, tokens, lo, u + 1, hi, unsplit)
  }
}
