/** What a pattern comprehension is, against the scan that counts brackets and evidence. */
module FoldedComprehensions {
  import opened Tokens
  import opened Folding
  import opened FoldedSyntax
  import Delimiters

  // ---------- the parts of a pattern comprehension ----------

  const SQUARE: Delimiters.Bracket -> bool := (bracket: Delimiters.Bracket) => bracket.Square?
  const ROUND: Delimiters.Bracket -> bool := (bracket: Delimiters.Bracket) => bracket.Round?
  const CURLY: Delimiters.Bracket -> bool := (bracket: Delimiters.Bracket) => bracket.Curly?

  /** Inside the brackets at start and close, no pair of a counted kind encloses token i. */
  ghost predicate IsFree(scan: seq<Token>, start: nat, close: nat, counted: Delimiters.Bracket -> bool, i: nat) {
    && start < i < close
    && !Delimiters.IsEnclosed(Delimiters.Shapes(scan), counted, start + 1, close, i)
  }

  ghost predicate IsOwn(scan: seq<Token>, start: nat, close: nat, i: nat) {
    IsFree(scan, start, close, Delimiters.ALL_KINDS, i)
  }

  ghost predicate IsSeparator(scan: seq<Token>, start: nat, close: nat, i: nat) {
    i < |scan| && scan[i].kind.Pipe? && IsOwn(scan, start, close, i)
  }

  /** `WHERE`, unless an equals sign makes it a binding name. */
  ghost predicate IsWhere(scan: seq<Token>, start: nat, close: nat, i: nat) {
    i < |scan| && scan[i].kind.Where? && !IsEqualAt(scan, i + 1) && IsOwn(scan, start, close, i)
  }

  ghost predicate StopsPattern(scan: seq<Token>, start: nat, close: nat, i: nat) {
    IsSeparator(scan, start, close, i) || IsWhere(scan, start, close, i)
  }

  /** Token i stands in front of the first `WHERE` and the first separator. */
  ghost predicate IsInPattern(scan: seq<Token>, start: nat, close: nat, i: nat) {
    forall j: nat :: start < j < i ==> !StopsPattern(scan, start, close, j)
  }

  /** An arrow, at any depth of parentheses and braces. */
  ghost predicate IsArrowAt(scan: seq<Token>, start: nat, close: nat, i: nat) {
    && i < |scan| && (scan[i].kind.LeftArrow? || scan[i].kind.RightArrow?)
    && IsFree(scan, start, close, SQUARE, i) && IsInPattern(scan, start, close, i)
  }

  ghost predicate IsMinus(scan: seq<Token>, start: nat, close: nat, i: nat) {
    && i < |scan| && scan[i].kind.Minus?
    && IsOwn(scan, start, close, i) && IsInPattern(scan, start, close, i)
  }

  ghost predicate IsNodeAt(scan: seq<Token>, start: nat, close: nat, i: nat) {
    && i < |scan| && scan[i].kind.LeftParen? && !IsCallOrGrouping(scan, start, i)
    && IsOwn(scan, start, close, i) && IsInPattern(scan, start, close, i)
  }

  ghost predicate Twice(p: nat -> bool, hi: nat) {
    exists i: nat, j: nat :: i < j < hi && p(i) && p(j)
  }

  ghost predicate HasEvidence(scan: seq<Token>, start: nat, close: nat) {
    || (exists i: nat :: IsArrowAt(scan, start, close, i))
    || (Twice((i: nat) => IsNodeAt(scan, start, close, i), close)
        && Twice((i: nat) => IsMinus(scan, start, close, i), close))
  }

  /** There is a separator, the last one does not stand directly in front of the end, and what
      precedes the first one looks like a pattern. */
  ghost predicate IsComprehension(scan: seq<Token>, start: nat, close: nat) {
    && (exists p: nat :: IsSeparator(scan, start, close, p))
    && (close > 0 ==> !IsSeparator(scan, start, close, close - 1))
    && HasEvidence(scan, start, close)
  }

  // ---------- the levels of the scan ----------

  function LevelsAt(scan: seq<Token>, start: nat, i: nat): Levels
    requires start <= i <= |scan|
  {
    if i == start then AT_START else Behind(scan, start, LevelsAt(scan, start, i - 1), i - 1)
  }

  function DepthBy(scan: seq<Token>, start: nat, bracket: Delimiters.Bracket, i: nat): nat {
    if !(start <= i <= |scan|) then 0
    else
      match bracket
      case Square => LevelsAt(scan, start, i).brackets
      case Round => LevelsAt(scan, start, i).parentheses
      case Curly => LevelsAt(scan, start, i).braces
  }

  function KindOf(bracket: Delimiters.Bracket): Delimiters.Bracket -> bool {
    match bracket
    case Square => SQUARE
    case Round => ROUND
    case Curly => CURLY
  }

  /** The counter of one kind of brackets. */
  function CounterOf(scan: seq<Token>, start: nat, bracket: Delimiters.Bracket): Delimiters.Depth {
    Delimiters.Depth(KindOf(bracket), (i: nat) => DepthBy(scan, start, bracket, i), start)
  }

  lemma CounterIsDepth(scan: seq<Token>, start: nat, bracket: Delimiters.Bracket)
    ensures Delimiters.IsDepth(Delimiters.Shapes(scan), CounterOf(scan, start, bracket))
  {
    forall i: nat | start <= i < |scan|
      ensures Delimiters.StepsTo(Delimiters.Shapes(scan), CounterOf(scan, start, bracket), i)
    {
      CounterSteps(scan, start, bracket, i);
    }
  }

  lemma CounterSteps(scan: seq<Token>, start: nat, bracket: Delimiters.Bracket, i: nat)
    requires start <= i < |scan|
    ensures Delimiters.StepsTo(Delimiters.Shapes(scan), CounterOf(scan, start, bracket), i)
  {
    var l := LevelsAt(scan, start, i);
    assert LevelsAt(scan, start, i + 1) == Behind(scan, start, l, i);
    NextCounts(l, i, scan[i].kind);
  }

  /** The counters follow the brackets of their kind. */
  lemma NextCounts(l: Levels, i: nat, kind: Kind)
    ensures var shape, next := Delimiters.ShapeOf(kind), NextLevels(l, i, kind);
            && next.brackets == Counts(shape, Delimiters.Square, l.brackets)
            && next.parentheses == Counts(shape, Delimiters.Round, l.parentheses)
            && next.braces == Counts(shape, Delimiters.Curly, l.braces)
  {
  }

  function Counts(shape: Delimiters.Shape, bracket: Delimiters.Bracket, n: nat): nat {
    match shape
    case Opening(b) => if b == bracket then n + 1 else n
    case Closing(b) => if b == bracket && n > 0 then n - 1 else n
    case Ordinary => n
  }

  // ---------- what the levels say ----------

  /** A square bracket and a well-nested word behind it. */
  ghost predicate IsList(scan: seq<Token>, start: nat, end: nat) {
    && OpensAt(scan, start, Delimiters.Square) && start < end <= |scan|
    && Delimiters.Nested(Delimiters.Shapes(scan), start + 1, end)
  }

  /** The word ends at the bracket's partner. */
  ghost predicate IsListPair(scan: seq<Token>, start: nat, close: nat) {
    IsList(scan, start, close) && IsPair(scan, start, close)
  }

  lemma OpenLevels(scan: seq<Token>, start: nat)
    requires OpensAt(scan, start, Delimiters.Square)
    ensures LevelsAt(scan, start, start + 1) == AT_START.(brackets := 1)
  {
    assert LevelsAt(scan, start, start) == AT_START;
  }

  function Base(bracket: Delimiters.Bracket): nat {
    if bracket.Square? then 1 else 0
  }

  /** The depth inside the pair: never below the base, and the base again at its end. */
  lemma InsideHill(scan: seq<Token>, start: nat, close: nat, bracket: Delimiters.Bracket)
    requires IsList(scan, start, close)
    ensures Delimiters.IsHill(CounterOf(scan, start, bracket), start + 1, close)
    ensures DepthBy(scan, start, bracket, start + 1) == Base(bracket)
  {
    OpenLevels(scan, start);
    CounterIsDepth(scan, start, bracket);
    Delimiters.NestedIsHill(Delimiters.Shapes(scan), CounterOf(scan, start, bracket), start + 1, close);
  }

  lemma CloseLevels(scan: seq<Token>, start: nat, close: nat)
    requires IsListPair(scan, start, close)
    ensures LevelsAt(scan, start, close).IsOwnLevel() && scan[close].kind.RightBracket?
  {
    InsideHill(scan, start, close, Delimiters.Square);
    InsideHill(scan, start, close, Delimiters.Round);
    InsideHill(scan, start, close, Delimiters.Curly);
    assert CounterOf(scan, start, Delimiters.Square).depth(close) == LevelsAt(scan, start, close).brackets;
    assert CounterOf(scan, start, Delimiters.Round).depth(close) == LevelsAt(scan, start, close).parentheses;
    assert CounterOf(scan, start, Delimiters.Curly).depth(close) == LevelsAt(scan, start, close).braces;
  }

  /** No closing bracket inside the pair is at the comprehension's own level. */
  lemma InnerCloserIsDeep(scan: seq<Token>, start: nat, close: nat, i: nat)
    requires IsList(scan, start, close) && start < i < close && scan[i].kind.RightBracket?
    ensures !LevelsAt(scan, start, i).IsOwnLevel()
  {
    InsideHill(scan, start, close, Delimiters.Square);
    var counter := CounterOf(scan, start, Delimiters.Square);
    CounterSteps(scan, start, Delimiters.Square, i);
    assert counter.depth(i) >= 1 && counter.depth(i + 1) >= 1;
  }

  lemma DepthIffFree(scan: seq<Token>, start: nat, close: nat, bracket: Delimiters.Bracket, i: nat)
    requires IsListPair(scan, start, close) && start < i < close && !IsCloser(scan[i].kind)
    ensures DepthBy(scan, start, bracket, i) == Base(bracket) <==> IsFree(scan, start, close, KindOf(bracket), i)
  {
    InsideHill(scan, start, close, bracket);
    CounterIsDepth(scan, start, bracket);
    var counter := CounterOf(scan, start, bracket);
    Delimiters.ShallowIffUnenclosed(Delimiters.Shapes(scan), counter, start + 1, close, i);
    assert counter.depth(i) == DepthBy(scan, start, bracket, i);
  }

  lemma OwnIffFree(scan: seq<Token>, start: nat, close: nat, i: nat)
    requires start < i < close
    ensures IsOwn(scan, start, close, i)
       <==> && IsFree(scan, start, close, SQUARE, i) && IsFree(scan, start, close, ROUND, i)
            && IsFree(scan, start, close, CURLY, i)
  {
    var shapes := Delimiters.Shapes(scan);
    forall bracket | Delimiters.IsEnclosed(shapes, KindOf(bracket), start + 1, close, i)
      ensures Delimiters.IsEnclosed(shapes, Delimiters.ALL_KINDS, start + 1, close, i)
    {
      var j: nat, k: nat :| Delimiters.IsAround(shapes, KindOf(bracket), start + 1, close, j, k, i);
      assert Delimiters.IsAround(shapes, Delimiters.ALL_KINDS, start + 1, close, j, k, i);
    }
    assert KindOf(Delimiters.Square) == SQUARE;
    assert KindOf(Delimiters.Round) == ROUND && KindOf(Delimiters.Curly) == CURLY;
    if Delimiters.IsEnclosed(shapes, Delimiters.ALL_KINDS, start + 1, close, i) {
      var j: nat, k: nat :| Delimiters.IsAround(shapes, Delimiters.ALL_KINDS, start + 1, close, j, k, i);
      assert Delimiters.IsAround(shapes, KindOf(shapes[j].bracket), start + 1, close, j, k, i);
    }
  }

  lemma OwnIffLevel(scan: seq<Token>, start: nat, close: nat, i: nat)
    requires IsListPair(scan, start, close) && start < i < close && !IsCloser(scan[i].kind)
    ensures LevelsAt(scan, start, i).IsOwnLevel() <==> IsOwn(scan, start, close, i)
    ensures LevelsAt(scan, start, i).brackets == 1 <==> IsFree(scan, start, close, SQUARE, i)
  {
    DepthIffFree(scan, start, close, Delimiters.Square, i);
    DepthIffFree(scan, start, close, Delimiters.Round, i);
    DepthIffFree(scan, start, close, Delimiters.Curly, i);
    OwnIffFree(scan, start, close, i);
  }

  /** The scan does not end before the partner of its bracket. */
  lemma {:induction false} RunsToClose(scan: seq<Token>, start: nat, close: nat, i: nat)
    requires IsList(scan, start, close) && start < i <= close
    ensures ComprehensionEnd(scan, start) == ComprehensionFrom(scan, start, i, LevelsAt(scan, start, i))
  {
    if i == start + 1 {
      assert LevelsAt(scan, start, start) == AT_START;
    } else {
      RunsToClose(scan, start, close, i - 1);
      if scan[i - 1].kind.RightBracket? {
        InnerCloserIsDeep(scan, start, close, i - 1);
      }
    }
  }

  // ---------- what the scan has seen ----------

  ghost function CountUpTo(p: nat -> bool, hi: nat): nat {
    if hi == 0 then 0 else CountUpTo(p, hi - 1) + if p(hi - 1) then 1 else 0
  }

  ghost predicate Once(p: nat -> bool, hi: nat) {
    exists i: nat :: i < hi && p(i)
  }

  lemma {:induction false} CountTwice(p: nat -> bool, hi: nat)
    ensures CountUpTo(p, hi) >= 1 <==> Once(p, hi)
    ensures CountUpTo(p, hi) >= 2 <==> Twice(p, hi)
  {
    if hi > 0 {
      CountTwice(p, hi - 1);
      if Twice(p, hi - 1) {
        var i: nat, j: nat :| i < j < hi - 1 && p(i) && p(j);
        assert i < j < hi;
      }
      if Once(p, hi - 1) && p(hi - 1) {
        var i: nat :| i < hi - 1 && p(i);
        assert i < hi - 1 < hi;
      }
      if Twice(p, hi) {
        var i: nat, j: nat :| i < j < hi && p(i) && p(j);
        assert j < hi - 1 || (j == hi - 1 && Once(p, hi - 1));
      }
    }
  }

  /** One token, in the terms of the levels in front of it. */
  lemma Moves(scan: seq<Token>, start: nat, l: Levels, i: nat)
    requires i < |scan|
    ensures var kind, next := scan[i].kind, Behind(scan, start, l, i);
            && (next.InPattern()
                <==> && l.InPattern() && !(kind.Pipe? && l.IsOwnLevel())
                     && !(kind.Where? && l.IsOwnLevel() && !IsEqualAt(scan, i + 1)))
            && next.pipeAt == (if kind.Pipe? && l.IsOwnLevel() then Some(i) else l.pipeAt)
            && (next.seen.arrow
                <==> l.seen.arrow || (l.InPattern() && (kind.LeftArrow? || kind.RightArrow?) && l.brackets == 1))
  {
  }

  lemma MovesCounts(scan: seq<Token>, start: nat, l: Levels, i: nat)
    requires i < |scan|
    ensures var kind, next := scan[i].kind, Behind(scan, start, l, i);
            && next.seen.minuses
               == l.seen.minuses + (if l.InPattern() && kind.Minus? && l.IsOwnLevel() then 1 else 0)
            && next.seen.nodes
               == l.seen.nodes + (if && l.InPattern() && kind.LeftParen? && l.IsOwnLevel()
                                     && !IsCallOrGrouping(scan, start, i) then 1 else 0)
  {
  }

  ghost predicate KnowsPattern(scan: seq<Token>, start: nat, close: nat, i: nat)
    requires start <= i <= |scan|
  {
    LevelsAt(scan, start, i).InPattern() <==> IsInPattern(scan, start, close, i)
  }

  /** The last separator in front of token i. */
  ghost predicate KnowsPipe(scan: seq<Token>, start: nat, close: nat, i: nat)
    requires start <= i <= |scan|
  {
    match LevelsAt(scan, start, i).pipeAt
    case None => forall j: nat :: j < i ==> !IsSeparator(scan, start, close, j)
    case Some(p) =>
      && p < i && IsSeparator(scan, start, close, p)
      && forall j: nat :: p < j < i ==> !IsSeparator(scan, start, close, j)
  }

  ghost predicate KnowsArrow(scan: seq<Token>, start: nat, close: nat, i: nat)
    requires start <= i <= |scan|
  {
    LevelsAt(scan, start, i).seen.arrow <==> exists a: nat :: a < i && IsArrowAt(scan, start, close, a)
  }

  ghost function MinusesOf(scan: seq<Token>, start: nat, close: nat): nat -> bool {
    (i: nat) => IsMinus(scan, start, close, i)
  }

  ghost function NodesOf(scan: seq<Token>, start: nat, close: nat): nat -> bool {
    (i: nat) => IsNodeAt(scan, start, close, i)
  }

  ghost predicate KnowsCounts(scan: seq<Token>, start: nat, close: nat, i: nat)
    requires start <= i <= |scan|
  {
    && LevelsAt(scan, start, i).seen.minuses == CountUpTo(MinusesOf(scan, start, close), i)
    && LevelsAt(scan, start, i).seen.nodes == CountUpTo(NodesOf(scan, start, close), i)
  }

  /** Token i, in the terms of the pairs around it. */
  lemma Sees(scan: seq<Token>, start: nat, close: nat, i: nat)
    requires IsListPair(scan, start, close) && start < i < close && KnowsPattern(scan, start, close, i)
    ensures var l, kind := LevelsAt(scan, start, i), scan[i].kind;
            && (IsSeparator(scan, start, close, i) <==> kind.Pipe? && l.IsOwnLevel())
            && (IsWhere(scan, start, close, i)
                <==> kind.Where? && l.IsOwnLevel() && !IsEqualAt(scan, i + 1))
            && (IsArrowAt(scan, start, close, i)
                <==> l.InPattern() && (kind.LeftArrow? || kind.RightArrow?) && l.brackets == 1)
            && (MinusesOf(scan, start, close)(i) <==> l.InPattern() && kind.Minus? && l.IsOwnLevel())
            && (NodesOf(scan, start, close)(i)
                <==> l.InPattern() && kind.LeftParen? && l.IsOwnLevel() && !IsCallOrGrouping(scan, start, i))
  {
    if !IsCloser(scan[i].kind) {
      OwnIffLevel(scan, start, close, i);
    }
  }

  lemma PatternStep(scan: seq<Token>, start: nat, close: nat, i: nat)
    requires IsListPair(scan, start, close) && start < i < close && KnowsPattern(scan, start, close, i)
    ensures KnowsPattern(scan, start, close, i + 1)
  {
    Sees(scan, start, close, i);
    Moves(scan, start, LevelsAt(scan, start, i), i);
    assert IsInPattern(scan, start, close, i + 1)
      <==> IsInPattern(scan, start, close, i) && !StopsPattern(scan, start, close, i);
  }

  lemma PipeStep(scan: seq<Token>, start: nat, close: nat, i: nat)
    requires IsListPair(scan, start, close) && start < i < close
    requires KnowsPattern(scan, start, close, i) && KnowsPipe(scan, start, close, i)
    ensures KnowsPipe(scan, start, close, i + 1)
  {
    Sees(scan, start, close, i);
    Moves(scan, start, LevelsAt(scan, start, i), i);
  }

  lemma ArrowStep(scan: seq<Token>, start: nat, close: nat, i: nat)
    requires IsListPair(scan, start, close) && start < i < close
    requires KnowsPattern(scan, start, close, i) && KnowsArrow(scan, start, close, i)
    ensures KnowsArrow(scan, start, close, i + 1)
  {
    Sees(scan, start, close, i);
    Moves(scan, start, LevelsAt(scan, start, i), i);
  }

  lemma CountsStep(scan: seq<Token>, start: nat, close: nat, i: nat)
    requires IsListPair(scan, start, close) && start < i < close
    requires KnowsPattern(scan, start, close, i) && KnowsCounts(scan, start, close, i)
    ensures KnowsCounts(scan, start, close, i + 1)
  {
    Sees(scan, start, close, i);
    MovesCounts(scan, start, LevelsAt(scan, start, i), i);
  }

  lemma {:induction false} NothingCounted(p: nat -> bool, hi: nat)
    requires forall i: nat :: i < hi ==> !p(i)
    ensures CountUpTo(p, hi) == 0
  {
    if hi > 0 {
      NothingCounted(p, hi - 1);
    }
  }

  lemma {:induction false} Knows(scan: seq<Token>, start: nat, close: nat, i: nat)
    requires IsListPair(scan, start, close) && start < i <= close
    ensures KnowsPattern(scan, start, close, i) && KnowsPipe(scan, start, close, i)
    ensures KnowsArrow(scan, start, close, i) && KnowsCounts(scan, start, close, i)
  {
    if i == start + 1 {
      OpenLevels(scan, start);
      NothingCounted(MinusesOf(scan, start, close), i);
      NothingCounted(NodesOf(scan, start, close), i);
    } else {
      Knows(scan, start, close, i - 1);
      PatternStep(scan, start, close, i - 1);
      PipeStep(scan, start, close, i - 1);
      ArrowStep(scan, start, close, i - 1);
      CountsStep(scan, start, close, i - 1);
    }
  }

  lemma SeenIsEvidence(scan: seq<Token>, start: nat, close: nat)
    requires IsListPair(scan, start, close)
    ensures LevelsAt(scan, start, close).seen.IsPattern() <==> HasEvidence(scan, start, close)
  {
    Knows(scan, start, close, close);
    CountTwice(MinusesOf(scan, start, close), close);
    CountTwice(NodesOf(scan, start, close), close);
  }

  lemma ProjectionIff(scan: seq<Token>, start: nat, close: nat)
    requires IsListPair(scan, start, close)
    ensures HasProjection(LevelsAt(scan, start, close), close)
       <==> (exists p: nat :: IsSeparator(scan, start, close, p)) && !IsSeparator(scan, start, close, close - 1)
  {
    Knows(scan, start, close, close);
  }

  /** A list bracket and its partner are folded as a pattern comprehension exactly when there
      is a pattern, a separator and a projection between them. */
  lemma ComprehensionIff(scan: seq<Token>, start: nat, close: nat)
    requires OpensAt(scan, start, Delimiters.Square) && IsPair(scan, start, close)
    ensures ComprehensionEnd(scan, start) == if IsComprehension(scan, start, close) then Some(close) else None
  {
    RunsToClose(scan, start, close, close);
    CloseLevels(scan, start, close);
    SeenIsEvidence(scan, start, close);
    ProjectionIff(scan, start, close);
  }

  /** A list bracket whose word goes on to the end of the tokens folds nothing. */
  lemma UnclosedListFoldsNothing(scan: seq<Token>, start: nat)
    requires IsList(scan, start, |scan|)
    ensures ComprehensionEnd(scan, start) == None
  {
    RunsToClose(scan, start, |scan|, |scan|);
  }
}
