/** Folding lexer tokens into parser tokens. */
module Folding {
  import opened Tokens
  import Delimiters
  import Labels

  // ---------- scanners ----------

  /** The heuristics that look around a token. Nothing is assumed about their answers. */
  datatype Heuristics = Heuristics(
    isPatternContext: (seq<Token>, nat) -> bool,
    isLabelContext: (seq<Token>, nat) -> bool)

  predicate IsNameAt(tokens: seq<Token>, i: nat) {
    i < |tokens| && Labels.IsSymbolicName(tokens[i].kind)
  }

  predicate IsDotAt(tokens: seq<Token>, i: nat) {
    i < |tokens| && tokens[i].kind.Dot?
  }

  predicate IsOpenAt(tokens: seq<Token>, i: nat) {
    i < |tokens| && tokens[i].kind.LeftParen?
  }

  /** A result of a scan from `start` lies inside the scanned tokens. */
  predicate InBounds(end: Option<nat>, start: nat, limit: nat) {
    end.Some? ==> start <= end.value < limit
  }

  /** `escaped_parameter_end`: `$` directly before an escaped name. */
  function ParameterEnd(scan: seq<Token>, start: nat): (r: Option<nat>)
    ensures InBounds(r, start, |scan|)
    ensures r.Some? ==> scan[start].kind.Dollar?
  {
    if start + 1 < |scan| && scan[start].kind.Dollar? && scan[start + 1].kind.EscapedIdentifier?
       && scan[start].end == scan[start + 1].start
    then Some(start + 1) else None
  }

  /** The last name of the dotted path whose name at `end` has been read. */
  function PathEnd(scan: seq<Token>, end: nat): (r: nat)
    requires end < |scan|
    ensures end <= r < |scan|
    decreases |scan| - end
  {
    if IsDotAt(scan, end + 1) && IsNameAt(scan, end + 2) then PathEnd(scan, end + 2) else end
  }

  /** At least two names joined by dots, before an opening parenthesis. */
  function QualifiedEnd(scan: seq<Token>, start: nat): (r: Option<nat>)
    ensures InBounds(r, start, |scan|)
    ensures r.Some? ==> IsNameAt(scan, start)
  {
    if IsNameAt(scan, start) && PathEnd(scan, start) > start && IsOpenAt(scan, PathEnd(scan, start) + 1)
    then Some(PathEnd(scan, start)) else None
  }

  /** `qualified_function_name_end`. */
  method QualifiedFunctionNameEnd(scan: seq<Token>, start: nat) returns (r: Option<nat>)
    ensures r == QualifiedEnd(scan, start)
  {
    if !IsNameAt(scan, start) {
      return None;
    }
    var end, components := start, 1;
    while IsDotAt(scan, end + 1) && IsNameAt(scan, end + 2)
      invariant start <= end < |scan| && (components > 1 <==> end > start) && components >= 1
      invariant PathEnd(scan, start) == PathEnd(scan, end)
      decreases |scan| - end
    {
      end, components := end + 2, components + 1;
    }
    r := if components > 1 && IsOpenAt(scan, end + 1) then Some(end) else None;
  }

  /** The first name of the dotted path that reaches index i. */
  function PathStart(tokens: seq<Token>, i: nat): (r: nat)
    ensures r <= i
  {
    if i >= 2 && IsDotAt(tokens, i - 1) && IsNameAt(tokens, i - 2) then PathStart(tokens, i - 2) else i
  }

  predicate IsProcedureName(tokens: seq<Token>, start: nat) {
    var first := PathStart(tokens, start);
    0 < first <= |tokens| && tokens[first - 1].kind.Call?
  }

  /** `is_procedure_name_start`. */
  method IsProcedureNameStart(tokens: seq<Token>, start: nat) returns (r: bool)
    requires start < |tokens|
    ensures r == IsProcedureName(tokens, start)
  {
    var first: nat := start;
    while first >= 2 && IsDotAt(tokens, first - 1) && IsNameAt(tokens, first - 2)
      invariant first <= start && PathStart(tokens, start) == PathStart(tokens, first)
      decreases first
    {
      first := first - 2;
    }
    r := first > 0 && tokens[first - 1].kind.Call?;
  }

  function FunctionEnd(full: seq<Token>, scan: seq<Token>, start: nat): (r: Option<nat>)
    ensures InBounds(r, start, |scan|)
    ensures r.Some? ==> IsNameAt(scan, start)
  {
    if IsProcedureName(full, start) then None else QualifiedEnd(scan, start)
  }

  // ---------- pattern comprehensions ----------

  /** What speaks for a pattern in front of the first `WHERE` and the first separator. */
  datatype Evidence = Evidence(whereSeen: bool, arrow: bool, nodes: nat, minuses: nat) {
    predicate IsPattern() {
      arrow || (nodes >= 2 && minuses >= 2)
    }
  }

  /** Bracket counters, the last separator seen at the comprehension's own level, and the evidence. */
  datatype Levels = Levels(brackets: nat, parentheses: nat, braces: nat, pipeAt: Option<nat>, seen: Evidence) {
    predicate IsOwnLevel() {
      brackets == 1 && parentheses == 0 && braces == 0
    }

    predicate InPattern() {
      pipeAt.None? && !seen.whereSeen
    }
  }

  const AT_START := Levels(0, 0, 0, None, Evidence(false, false, 0, 0))

  function Less(n: nat): nat {
    if n > 0 then n - 1 else 0
  }

  function NextLevels(l: Levels, i: nat, kind: Kind): Levels {
    if kind.LeftBracket? then l.(brackets := l.brackets + 1)
    else if kind.RightBracket? then l.(brackets := Less(l.brackets))
    else if kind.LeftParen? then l.(parentheses := l.parentheses + 1)
    else if kind.RightParen? then l.(parentheses := Less(l.parentheses))
    else if kind.LeftBrace? then l.(braces := l.braces + 1)
    else if kind.RightBrace? then l.(braces := Less(l.braces))
    else if kind.Pipe? && l.IsOwnLevel() then l.(pipeAt := Some(i))
    else l
  }

  /** A parenthesis directly behind a name or a closing bracket calls or groups. */
  predicate IsCallOrGrouping(scan: seq<Token>, start: nat, i: nat) {
    start < i <= |scan| && (IsCloser(scan[i - 1].kind) || Labels.IsSymbolicName(scan[i - 1].kind))
  }

  function NextEvidence(scan: seq<Token>, start: nat, l: Levels, i: nat): Evidence
    requires i < |scan|
  {
    var kind, isOwn := scan[i].kind, l.IsOwnLevel();
    if !l.InPattern() then l.seen
    else if kind.LeftParen? && isOwn && !IsCallOrGrouping(scan, start, i) then l.seen.(nodes := l.seen.nodes + 1)
    else if kind.Where? && isOwn && !IsEqualAt(scan, i + 1) then l.seen.(whereSeen := true)
    else if (kind.LeftArrow? || kind.RightArrow?) && l.brackets == 1 then l.seen.(arrow := true)
    else if kind.Minus? && isOwn then l.seen.(minuses := l.seen.minuses + 1)
    else l.seen
  }

  predicate IsEqualAt(tokens: seq<Token>, i: nat) {
    i < |tokens| && tokens[i].kind.Equal?
  }

  /** What the scan knows behind token i. */
  function Behind(scan: seq<Token>, start: nat, l: Levels, i: nat): Levels
    requires i < |scan|
  {
    NextLevels(l, i, scan[i].kind).(seen := NextEvidence(scan, start, l, i))
  }

  predicate HasProjection(l: Levels, i: nat) {
    l.pipeAt.Some? && i > l.pipeAt.value + 1
  }

  function ComprehensionFrom(scan: seq<Token>, start: nat, i: nat, l: Levels): (r: Option<nat>)
    requires i <= |scan|
    ensures InBounds(r, i, |scan|)
    decreases |scan| - i
  {
    if i == |scan| then None
    else if scan[i].kind.RightBracket? && l.IsOwnLevel() then
      if HasProjection(l, i) && l.seen.IsPattern() then Some(i) else None
    else ComprehensionFrom(scan, start, i + 1, Behind(scan, start, l, i))
  }

  function ComprehensionEnd(scan: seq<Token>, start: nat): (r: Option<nat>)
    ensures InBounds(r, start, |scan|)
    ensures r.Some? ==> scan[start].kind.LeftBracket?
  {
    if start < |scan| && scan[start].kind.LeftBracket? then ComprehensionFrom(scan, start, start, AT_START) else None
  }

  /** `pattern_comprehension_end`. */
  method PatternComprehensionEnd(scan: seq<Token>, start: nat) returns (r: Option<nat>)
    ensures r == ComprehensionEnd(scan, start)
  {
    if start >= |scan| || !scan[start].kind.LeftBracket? {
      return None;
    }
    var levels := AT_START;
    for index := start to |scan|
      invariant ComprehensionEnd(scan, start) == ComprehensionFrom(scan, start, index, levels)
    {
      if scan[index].kind.RightBracket? && levels.IsOwnLevel() {
        var isComprehension := HasProjection(levels, index) && levels.seen.IsPattern();
        return if isComprehension then Some(index) else None;
      }
      levels := Behind(scan, start, levels, index);
    }
    r := None;
  }

  // ---------- pattern expressions ----------

  function Partner(scan: seq<Token>, i: nat, bracket: Delimiters.Bracket): (r: Option<nat>)
    ensures InBounds(r, i, |scan|)
  {
    Delimiters.Match(Delimiters.Shapes(scan), i, bracket)
  }

  predicate IsMinusAt(scan: seq<Token>, i: nat) {
    i < |scan| && scan[i].kind.Minus?
  }

  /** The index after `-`, `<-` or `←`. */
  function ArrowTail(scan: seq<Token>, start: nat): (r: Option<nat>)
    ensures r.Some? ==> start < r.value <= |scan|
  {
    if start < |scan| && (scan[start].kind.Minus? || scan[start].kind.LeftArrow?) then Some(start + 1)
    else if start < |scan| && scan[start].kind.Less? && IsMinusAt(scan, start + 1) then Some(start + 2)
    else None
  }

  /** The index after `->`, `-` or `→`. */
  function ArrowHead(scan: seq<Token>, i: nat): (r: Option<nat>)
    ensures r.Some? ==> i < r.value <= |scan|
  {
    if IsMinusAt(scan, i) && i + 1 < |scan| && scan[i + 1].kind.Greater? then Some(i + 2)
    else if i < |scan| && (scan[i].kind.Minus? || scan[i].kind.RightArrow?) then Some(i + 1)
    else None
  }

  /** The index after an optional bracketed part. */
  function Bracketed(scan: seq<Token>, i: nat, bracket: Delimiters.Bracket): (r: Option<nat>)
    requires i <= |scan|
    ensures r.Some? ==> i <= r.value <= |scan|
  {
    if i < |scan| && Delimiters.ShapeOf(scan[i].kind) == Delimiters.Opening(bracket) then
      match Partner(scan, i, bracket)
      case None => None
      case Some(close) => Some(close + 1)
    else Some(i)
  }

  /** `relationship_syntax_end`. */
  function RelationshipSyntaxEnd(scan: seq<Token>, start: nat): (r: Option<nat>)
    ensures r.Some? ==> start < r.value <= |scan|
  {
    match ArrowTail(scan, start)
    case None => None
    case Some(cursor) =>
      match Bracketed(scan, cursor, Delimiters.Square)
      case None => None
      case Some(cursor) => ArrowHead(scan, cursor)
  }

  /** The index after an optional quantifier. */
  function Quantified(scan: seq<Token>, i: nat): (r: Option<nat>)
    requires i <= |scan|
    ensures r.Some? ==> i <= r.value <= |scan|
  {
    if i < |scan| && (scan[i].kind.Star? || scan[i].kind.Plus? || scan[i].kind.Question?) then Some(i + 1)
    else Bracketed(scan, i, Delimiters.Curly)
  }

  /** The rest of the chain after the node that ends at `nodeEnd`. */
  function ChainFrom(scan: seq<Token>, nodeEnd: nat, isChain: bool): (r: Option<nat>)
    requires nodeEnd < |scan|
    ensures InBounds(r, nodeEnd, |scan|)
    decreases |scan| - nodeEnd
  {
    var here := if isChain then Some(nodeEnd) else None;
    match RelationshipSyntaxEnd(scan, nodeEnd + 1)
    case None => here
    case Some(after) =>
      match Quantified(scan, after)
      case None => None
      case Some(node) =>
        if !IsOpenAt(scan, node) then here
        else
          match Partner(scan, node, Delimiters.Round)
          case None => None
          case Some(end) => ChainFrom(scan, end, true)
  }

  function PatternEnd(scan: seq<Token>, start: nat): (r: Option<nat>)
    ensures InBounds(r, start, |scan|)
    ensures r.Some? ==> scan[start].kind.LeftParen?
  {
    if !IsOpenAt(scan, start) then None
    else
      match Partner(scan, start, Delimiters.Round)
      case None => None
      case Some(nodeEnd) => ChainFrom(scan, nodeEnd, false)
  }

  /** `pattern_expression_end`. */
  method PatternExpressionEnd(scan: seq<Token>, start: nat) returns (r: Option<nat>)
    ensures r == PatternEnd(scan, start)
  {
    if !IsOpenAt(scan, start) {
      return None;
    }
    var partner := Delimiters.MatchingDelimiter(Delimiters.Shapes(scan), start, Delimiters.Round);
    if partner.None? {
      return None;
    }
    var nodeEnd, relationships := partner.value, 0;
    ghost var answer := PatternEnd(scan, start);
    while true
      invariant nodeEnd < |scan| && answer == ChainFrom(scan, nodeEnd, relationships > 0)
      decreases |scan| - nodeEnd
    {
      var after := RelationshipSyntaxEnd(scan, nodeEnd + 1);
      if after.None? {
        break;
      }
      var node := Quantified(scan, after.value);
      if node.None? {
        return None;
      }
      if !IsOpenAt(scan, node.value) {
        break;
      }
      partner := Delimiters.MatchingDelimiter(Delimiters.Shapes(scan), node.value, Delimiters.Round);
      if partner.None? {
        return None;
      }
      nodeEnd, relationships := partner.value, relationships + 1;
    }
    r := if relationships > 0 then Some(nodeEnd) else None;
  }

  // ---------- one fold ----------

  /** Significant tokens lo..hi become one parser token. */
  datatype Run = Run(lo: nat, hi: nat, kind: Kind)

  /** `is_explicit_set_all`. */
  predicate IsExplicitSetAll(full: seq<Token>, i: nat) {
    && 0 < i <= |full|
    && !IsOpenAt(full, i + 1)
    && (|| full[i - 1].kind.Return? || full[i - 1].kind.With?
        || (full[i - 1].kind.LeftParen? && i >= 2 && NamesAggregate(full[i - 2].kind)))
  }

  predicate NamesAggregate(kind: Kind) {
    || kind.Identifier? || kind.EscapedIdentifier? || kind.Match? || kind.Path? || kind.Return?
    || (kind.Keyword? && kind.name == "COUNT")
  }

  function PlainKind(full: seq<Token>, i: nat): Kind
    requires i < |full|
  {
    if full[i].kind.All? && IsExplicitSetAll(full, i) then SetAll else full[i].kind
  }

  // Each scan sees `full[..limit]`, while context checks see all tokens. None starts at a `|`.

  function ParameterScan(full: seq<Token>, limit: nat, i: nat): (r: Option<nat>)
    ensures InBounds(r, i, limit) && (IsPipeAt(full, i) ==> r.None?)
  {
    if limit <= |full| then ParameterEnd(full[..limit], i) else None
  }

  function ComprehensionScan(full: seq<Token>, limit: nat, i: nat): (r: Option<nat>)
    ensures InBounds(r, i, limit) && (IsPipeAt(full, i) ==> r.None?)
  {
    if limit <= |full| then ComprehensionEnd(full[..limit], i) else None
  }

  function PatternScan(h: Heuristics, full: seq<Token>, limit: nat, i: nat): (r: Option<nat>)
    ensures InBounds(r, i, limit) && (IsPipeAt(full, i) ==> r.None?)
  {
    if limit <= |full| && IsOpenAt(full, i) && h.isPatternContext(full, i) then PatternEnd(full[..limit], i) else None
  }

  function RelationshipScan(full: seq<Token>, limit: nat, i: nat): (r: Option<nat>)
    ensures InBounds(r, i, limit) && (IsPipeAt(full, i) ==> r.None?)
  {
    if limit <= |full| && Labels.IsRelationshipLabelStart(full, i) then Labels.RelationshipEnd(full[..limit], i)
    else None
  }

  function PredicateScan(h: Heuristics, full: seq<Token>, limit: nat, i: nat): (r: Option<nat>)
    ensures InBounds(r, i, limit) && (IsPipeAt(full, i) ==> r.None?)
  {
    if limit <= |full| && IsLabelContext(h, full, i) then Labels.PredicateEnd(full[..limit], i) else None
  }

  function QualifiedScan(full: seq<Token>, limit: nat, i: nat): (r: Option<nat>)
    ensures InBounds(r, i, limit) && (IsPipeAt(full, i) ==> r.None?)
  {
    if limit <= |full| then FunctionEnd(full, full[..limit], i) else None
  }

  predicate IsPipeAt(full: seq<Token>, i: nat) {
    i < |full| && full[i].kind.Pipe?
  }

  /** `is_label_predicate_context`: only `:` and `IS` can start a label predicate. */
  predicate IsLabelContext(h: Heuristics, full: seq<Token>, i: nat) {
    i < |full| && (full[i].kind.Colon? || full[i].kind.Is?) && h.isLabelContext(full, i)
  }

  function RunTo(end: Option<nat>, start: nat, kind: Kind): Option<Run> {
    if end.Some? then Some(Run(start, end.value + 1, kind)) else None
  }

  function OrElse(first: Option<Run>, second: Option<Run>): Option<Run> {
    if first.Some? then first else second
  }

  /** The fold of a pattern that is parsed again from its text, if one starts here. */
  function PatternRun(h: Heuristics, full: seq<Token>, limit: nat, i: nat): Option<Run> {
    OrElse(RunTo(ComprehensionScan(full, limit, i), i, PatternComprehension),
           RunTo(PatternScan(h, full, limit, i), i, PatternExpression))
  }

  /** The fold of a label expression, if one starts here. */
  function LabelRun(h: Heuristics, full: seq<Token>, limit: nat, i: nat): Option<Run> {
    OrElse(RunTo(RelationshipScan(full, limit, i), i, RelationshipLabelExpression),
           RunTo(PredicateScan(h, full, limit, i), i, LabelPredicate))
  }

  /** The fold at one index. The first token of a fragment starts no construct that is parsed
      again, because the fragment would only be folded into itself. */
  function Fold(h: Heuristics, full: seq<Token>, limit: nat, i: nat, isNested: bool): Run
    requires i < |full|
  {
    var fragment :=
      if isNested && i == 0 then None
      else OrElse(PatternRun(h, full, limit, i), LabelRun(h, full, limit, i));
    var run := OrElse(RunTo(ParameterScan(full, limit, i), i, Parameter),
                      OrElse(fragment, RunTo(QualifiedScan(full, limit, i), i, QualifiedFunctionName)));
    if run.Some? then run.value else Run(i, i + 1, PlainKind(full, i))
  }

  /** A run starts at i and ends by the limit. */
  ghost predicate RunsWithin(run: Run, i: nat, limit: nat) {
    run.lo == i < run.hi <= limit
  }

  lemma FoldConfined(h: Heuristics, full: seq<Token>, limit: nat, i: nat, isNested: bool)
    requires i < limit <= |full|
    ensures RunsWithin(Fold(h, full, limit, i, isNested), i, limit)
  {
    PatternRunConfined(h, full, limit, i);
    LabelRunConfined(h, full, limit, i);
  }

  lemma PatternRunConfined(h: Heuristics, full: seq<Token>, limit: nat, i: nat)
    ensures PatternRun(h, full, limit, i).Some? ==>
        RunsWithin(PatternRun(h, full, limit, i).value, i, limit) && !IsPipeAt(full, i)
  {
  }

  lemma LabelRunConfined(h: Heuristics, full: seq<Token>, limit: nat, i: nat)
    ensures LabelRun(h, full, limit, i).Some? ==>
        RunsWithin(LabelRun(h, full, limit, i).value, i, limit) && !IsPipeAt(full, i)
  {
  }

  /** A `|` is folded into itself. */
  lemma PipeIsPlain(h: Heuristics, full: seq<Token>, limit: nat, i: nat, isNested: bool)
    requires IsPipeAt(full, i)
    ensures Fold(h, full, limit, i, isNested) == Run(i, i + 1, Pipe)
  {
    PatternRunConfined(h, full, limit, i);
    LabelRunConfined(h, full, limit, i);
  }

  /** One turn of either loop. */
  method FoldOnce(h: Heuristics, full: seq<Token>, limit: nat, i: nat, isNested: bool) returns (run: Run)
    requires i < limit <= |full|
    ensures run == Fold(h, full, limit, i, isNested)
  {
    var parameter := ParameterEnd(full[..limit], i);
    if parameter.Some? {
      return Run(i, parameter.value + 1, Parameter);
    }
    if !isNested || i != 0 {
      var pattern := FoldPattern(h, full, limit, i);
      if pattern.Some? {
        return pattern.value;
      }
      var label_ := FoldLabel(h, full, limit, i);
      if label_.Some? {
        return label_.value;
      }
    }
    var name := FoldName(full, limit, i);
    if name.Some? {
      return name.value;
    }
    run := Run(i, i + 1, PlainKind(full, i));
  }

  method FoldName(full: seq<Token>, limit: nat, i: nat) returns (run: Option<Run>)
    requires i < limit <= |full|
    ensures run == RunTo(QualifiedScan(full, limit, i), i, QualifiedFunctionName)
  {
    var isProcedure := IsProcedureNameStart(full, i);
    if !isProcedure {
      var end := QualifiedFunctionNameEnd(full[..limit], i);
      if end.Some? {
        return Some(Run(i, end.value + 1, QualifiedFunctionName));
      }
    }
    run := None;
  }

  method FoldPattern(h: Heuristics, full: seq<Token>, limit: nat, i: nat) returns (run: Option<Run>)
    requires i < limit <= |full|
    ensures run == PatternRun(h, full, limit, i)
  {
    var end := PatternComprehensionEnd(full[..limit], i);
    if end.Some? {
      return Some(Run(i, end.value + 1, PatternComprehension));
    }
    if full[i].kind.LeftParen? && h.isPatternContext(full, i) {
      end := PatternExpressionEnd(full[..limit], i);
      if end.Some? {
        return Some(Run(i, end.value + 1, PatternExpression));
      }
    }
    run := None;
  }

  method FoldLabel(h: Heuristics, full: seq<Token>, limit: nat, i: nat) returns (run: Option<Run>)
    requires i < limit <= |full|
    ensures run == LabelRun(h, full, limit, i)
  {
    run := FoldRelationship(full, limit, i);
    if run.None? {
      run := FoldPredicate(h, full, limit, i);
    }
  }

  method FoldRelationship(full: seq<Token>, limit: nat, i: nat) returns (run: Option<Run>)
    requires i < limit <= |full|
    ensures run == RunTo(RelationshipScan(full, limit, i), i, RelationshipLabelExpression)
  {
    var end := None;
    if Labels.IsRelationshipLabelStart(full, i) {
      end := Labels.RelationshipLabelEnd(full[..limit], i);
    }
    run := RunTo(end, i, RelationshipLabelExpression);
  }

  method FoldPredicate(h: Heuristics, full: seq<Token>, limit: nat, i: nat) returns (run: Option<Run>)
    requires i < limit <= |full|
    ensures run == RunTo(PredicateScan(h, full, limit, i), i, LabelPredicate)
  {
    if IsLabelContext(h, full, i) {
      var end := Labels.LabelPredicateEnd(full[..limit], i);
      if end.Some? {
        return Some(Run(i, end.value + 1, LabelPredicate));
      }
    }
    run := None;
  }

  // ---------- all folds ----------

  /** How far a scan that starts at i may look: not past a reserved separator ahead of it. */
  function Limit(boundary: Option<nat>, i: nat, n: nat): nat {
    if boundary.Some? && i < boundary.value then boundary.value else n
  }

  /** The fold at each index of a token list of n tokens. */
  type Folder = nat -> Run

  function FolderOf(h: Heuristics, full: seq<Token>, boundary: Option<nat>, isNested: bool): Folder {
    (i: nat) => if i < |full| then Fold(h, full, Limit(boundary, i, |full|), i, isNested) else Run(i, i + 1, Semicolon)
  }

  ghost predicate FoldsAt(h: Heuristics, full: seq<Token>, boundary: Option<nat>, isNested: bool, fold: Folder,
                          i: nat)
  {
    i < |full| ==> fold(i) == Fold(h, full, Limit(boundary, i, |full|), i, isNested)
  }

  ghost predicate IsFolder(h: Heuristics, full: seq<Token>, boundary: Option<nat>, isNested: bool, fold: Folder) {
    forall i: nat :: FoldsAt(h, full, boundary, isNested, fold, i)
  }

  /** Every fold moves forward and respects the boundary. */
  ghost predicate Advances(fold: Folder, boundary: Option<nat>, n: nat) {
    && (boundary.Some? ==> boundary.value <= n)
    && forall i: nat :: i < n ==> RunsWithin(fold(i), i, Limit(boundary, i, n))
  }

  lemma FolderAdvances(h: Heuristics, full: seq<Token>, boundary: Option<nat>, isNested: bool)
    requires boundary.Some? ==> boundary.value <= |full|
    ensures Advances(FolderOf(h, full, boundary, isNested), boundary, |full|)
    ensures IsFolder(h, full, boundary, isNested, FolderOf(h, full, boundary, isNested))
  {
    forall i: nat | i < |full|
      ensures RunsWithin(FolderOf(h, full, boundary, isNested)(i), i, Limit(boundary, i, |full|))
    {
      FoldConfined(h, full, Limit(boundary, i, |full|), i, isNested);
    }
  }

  /** The runs from index i on. */
  ghost function Runs(fold: Folder, boundary: Option<nat>, n: nat, i: nat): seq<Run>
    requires Advances(fold, boundary, n) && i <= n
    decreases n - i
  {
    if i == n then []
    else
      assert RunsWithin(fold(i), i, Limit(boundary, i, n));
      [fold(i)] + Runs(fold, boundary, n, fold(i).hi)
  }

  function Emit(base: nat, full: seq<Token>, run: Run): Token
    requires run.lo < run.hi <= |full|
  {
    Token(base + full[run.lo].start, run.kind, base + full[run.hi - 1].end)
  }

  /** Consecutive non-empty runs from lo to hi. */
  ghost predicate Partition(runs: seq<Run>, lo: nat, hi: nat) {
    if runs == [] then lo == hi
    else runs[0].lo == lo < runs[0].hi <= hi && Partition(runs[1..], runs[0].hi, hi)
  }

  // ---------- the loops ----------

  datatype Lexeme = Lexeme(token: Token, isTrivia: bool)

  function Significant(lexemes: seq<Lexeme>): (r: seq<Token>)
    ensures |r| <= |lexemes|
  {
    if lexemes == [] then []
    else
      var last := lexemes[|lexemes| - 1];
      Significant(lexemes[..|lexemes| - 1]) + if last.isTrivia then [] else [last.token]
  }

  /** The significant index of a reserved raw index. */
  function Boundary(lexemes: seq<Lexeme>, reserved: Option<nat>): (r: Option<nat>)
    requires reserved.Some? ==> reserved.value <= |lexemes|
    ensures r.Some? ==> r.value <= |Significant(lexemes)|
  {
    if reserved.Some? then
      SignificantPrefix(lexemes, reserved.value);
      Some(|Significant(lexemes[..reserved.value])|)
    else None
  }

  lemma {:induction false} SignificantPrefix(lexemes: seq<Lexeme>, n: nat)
    requires n <= |lexemes|
    ensures |Significant(lexemes[..n])| <= |Significant(lexemes)|
    ensures n < |lexemes| && !lexemes[n].isTrivia ==>
              |Significant(lexemes[..n])| < |Significant(lexemes)|
              && Significant(lexemes)[|Significant(lexemes[..n])|] == lexemes[n].token
    decreases |lexemes|
  {
    if n == |lexemes| {
      assert lexemes[..n] == lexemes;
    } else if n < |lexemes| - 1 {
      var shorter := lexemes[..|lexemes| - 1];
      assert shorter[..n] == lexemes[..n];
      SignificantPrefix(shorter, n);
    }
  }

  /** The runs of a token list, from the first token on. */
  ghost function AllRuns(h: Heuristics, lexemes: seq<Lexeme>, reserved: Option<nat>, isNested: bool): seq<Run>
    requires reserved.Some? ==> reserved.value <= |lexemes|
  {
    var full, boundary := Significant(lexemes), Boundary(lexemes, reserved);
    FolderAdvances(h, full, boundary, isNested);
    Runs(FolderOf(h, full, boundary, isNested), boundary, |full|, 0)
  }

  /** `parser_tokens`. */
  method ParserTokens(h: Heuristics, lexemes: seq<Lexeme>) returns (result: seq<Token>)
    ensures IsFoldOf(0, Significant(lexemes), AllRuns(h, lexemes, None, false), result)
  {
    var full := Significant(lexemes);
    FolderAdvances(h, full, None, false);
    result := FoldAll(h, full, 0, None, false, FolderOf(h, full, None, false));
  }

  /** `nested_parser_tokens`. */
  method NestedParserTokens(h: Heuristics, lexemes: seq<Lexeme>, base: nat, reservedPipe: Option<nat>)
    returns (result: seq<Token>)
    requires reservedPipe.Some? ==> reservedPipe.value <= |lexemes|
    ensures IsFoldOf(base, Significant(lexemes), AllRuns(h, lexemes, reservedPipe, true), result)
  {
    var full, boundary := Significant(lexemes), Boundary(lexemes, reservedPipe);
    FolderAdvances(h, full, boundary, true);
    result := FoldAll(h, full, base, boundary, true, FolderOf(h, full, boundary, true));
  }

  /** The output has one token per run, covering the run's text. */
  ghost predicate IsFoldOf(base: nat, full: seq<Token>, runs: seq<Run>, result: seq<Token>) {
    && |result| == |runs|
    && forall k :: 0 <= k < |runs| ==> runs[k].lo < runs[k].hi <= |full| && result[k] == Emit(base, full, runs[k])
  }

  /** The loop that both share. */
  method FoldAll(h: Heuristics, full: seq<Token>, base: nat, boundary: Option<nat>, isNested: bool, ghost fold: Folder)
    returns (result: seq<Token>)
    requires IsFolder(h, full, boundary, isNested, fold) && Advances(fold, boundary, |full|)
    ensures IsFoldOf(base, full, Runs(fold, boundary, |full|, 0), result)
  {
    ghost var done: seq<Run> := [];
    ghost var all := Runs(fold, boundary, |full|, 0);
    result := [];
    var index := 0;
    while index < |full|
      invariant index <= |full| && IsFoldOf(base, full, done, result)
      invariant all == done + Runs(fold, boundary, |full|, index)
      decreases |full| - index
    {
      var run := FoldStep(h, full, boundary, isNested, index, fold);
      RunsStep(fold, boundary, |full|, index, done);
      FoldAppend(base, full, done, result, run);
      done := done + [run];
      result := result + [Emit(base, full, run)];
      index := run.hi;
    }
    assert all == done;
  }

  method FoldStep(h: Heuristics, full: seq<Token>, boundary: Option<nat>, isNested: bool, i: nat, ghost fold: Folder)
    returns (run: Run)
    requires IsFolder(h, full, boundary, isNested, fold) && Advances(fold, boundary, |full|) && i < |full|
    ensures run == fold(i) && RunsWithin(run, i, |full|)
  {
    assert RunsWithin(fold(i), i, Limit(boundary, i, |full|));
    assert FoldsAt(h, full, boundary, isNested, fold, i);
    run := FoldOnce(h, full, Limit(boundary, i, |full|), i, isNested);
  }

  lemma RunsStep(fold: Folder, boundary: Option<nat>, n: nat, i: nat, done: seq<Run>)
    requires Advances(fold, boundary, n) && i < n
    ensures RunsWithin(fold(i), i, n)
    ensures done + Runs(fold, boundary, n, i) == (done + [fold(i)]) + Runs(fold, boundary, n, fold(i).hi)
  {
    assert RunsWithin(fold(i), i, Limit(boundary, i, n));
  }

  lemma FoldAppend(base: nat, full: seq<Token>, runs: seq<Run>, result: seq<Token>, run: Run)
    requires IsFoldOf(base, full, runs, result) && run.lo < run.hi <= |full|
    ensures IsFoldOf(base, full, runs + [run], result + [Emit(base, full, run)])
  {
  }

  // ---------- what folding keeps ----------

  /** Runs are consecutive and non-empty. */
  lemma {:induction false} RunsPartition(fold: Folder, boundary: Option<nat>, n: nat, i: nat)
    requires Advances(fold, boundary, n) && i <= n
    ensures Partition(Runs(fold, boundary, n, i), i, n)
    decreases n - i
  {
    if i < n {
      assert RunsWithin(fold(i), i, Limit(boundary, i, n));
      RunsPartition(fold, boundary, n, fold(i).hi);
    }
  }

  lemma {:induction false} PartitionOrdered(runs: seq<Run>, lo: nat, hi: nat, j: nat, k: nat)
    requires Partition(runs, lo, hi) && j <= k < |runs|
    ensures lo <= runs[j].lo < runs[j].hi <= hi && (j < k ==> runs[j].hi <= runs[k].lo)
    decreases |runs|
  {
    if j > 0 {
      PartitionOrdered(runs[1..], runs[0].hi, hi, j - 1, k - 1);
    } else if k > 0 {
      PartitionOrdered(runs[1..], runs[0].hi, hi, 0, k - 1);
      PartitionOrdered(runs[1..], runs[0].hi, hi, k - 1, k - 1);
    }
  }

  /** Each token belongs to a run. */
  lemma {:induction false} RunOfToken(runs: seq<Run>, lo: nat, hi: nat, i: nat) returns (k: nat)
    requires Partition(runs, lo, hi) && lo <= i < hi
    ensures k < |runs| && runs[k].lo <= i < runs[k].hi
    decreases |runs|
  {
    if i < runs[0].hi {
      k := 0;
    } else {
      var next := RunOfToken(runs[1..], runs[0].hi, hi, i);
      k := next + 1;
    }
  }

  /** Text order and non-empty spans survive folding. */
  lemma FoldKeepsOrder(base: nat, full: seq<Token>, runs: seq<Run>, result: seq<Token>)
    requires FromSource(full) && Partition(runs, 0, |full|) && IsFoldOf(base, full, runs, result)
    ensures forall k :: 0 <= k < |result| ==> result[k].start < result[k].end
    ensures Ordered(result)
  {
    forall k | 0 <= k < |result| ensures result[k].start < result[k].end {
      var run := runs[k];
      assert run.lo < run.hi - 1 ==> full[run.lo].end <= full[run.hi - 1].start;
    }
    forall j, k | 0 <= j < k < |result| ensures result[j].end <= result[k].start {
      PartitionOrdered(runs, 0, |full|, j, k);
      assert full[runs[j].hi - 1].end <= full[runs[k].lo].start;
    }
  }

  /** A significant token lies inside exactly one emitted token. */
  lemma TokenEmittedOnce(base: nat, full: seq<Token>, runs: seq<Run>, result: seq<Token>, i: nat) returns (k: nat)
    requires FromSource(full) && Partition(runs, 0, |full|) && IsFoldOf(base, full, runs, result) && i < |full|
    ensures k < |result| && Holds(result[k], base, full[i])
    ensures forall j :: 0 <= j < |result| && Holds(result[j], base, full[i]) ==> j == k
  {
    k := RunOfToken(runs, 0, |full|, i);
    RunHolds(base, full, runs[k], i);
    forall j | 0 <= j < |result| && Holds(result[j], base, full[i]) ensures j == k {
      RunHolds(base, full, runs[j], i);
      if j < k {
        PartitionOrdered(runs, 0, |full|, j, k);
      } else {
        PartitionOrdered(runs, 0, |full|, k, j);
      }
    }
  }

  predicate Holds(outer: Token, base: nat, inner: Token) {
    outer.start <= base + inner.start && base + inner.end <= outer.end
  }

  lemma RunHolds(base: nat, full: seq<Token>, run: Run, i: nat)
    requires FromSource(full) && run.lo < run.hi <= |full| && i < |full|
    ensures Holds(Emit(base, full, run), base, full[i]) <==> run.lo <= i < run.hi
  {
    if i < run.lo {
      assert full[i].end <= full[run.lo].start;
    } else if i >= run.hi {
      assert full[run.hi - 1].end <= full[i].start;
    } else {
      assert run.lo < i ==> full[run.lo].end <= full[i].start;
      assert i < run.hi - 1 ==> full[i].end <= full[run.hi - 1].start;
    }
  }

  // ---------- the reserved separator ----------

  /** Scans that start before the boundary stop before it, so a run starts there. */
  lemma {:induction false} RunAtBoundary(fold: Folder, b: nat, n: nat, i: nat) returns (k: nat)
    requires Advances(fold, Some(b), n) && i <= b < n
    ensures k < |Runs(fold, Some(b), n, i)| && Runs(fold, Some(b), n, i)[k] == fold(b)
    decreases b - i
  {
    assert RunsWithin(fold(i), i, Limit(Some(b), i, n));
    if i == b {
      k := 0;
    } else {
      var next := RunAtBoundary(fold, b, n, fold(i).hi);
      k := next + 1;
    }
  }

  lemma RunOfPipe(h: Heuristics, full: seq<Token>, b: nat, isNested: bool)
    requires IsPipeAt(full, b)
    ensures FolderOf(h, full, Some(b), isNested)(b) == Run(b, b + 1, Pipe)
  {
    PipeIsPlain(h, full, |full|, b, isNested);
  }

  /** The run of a reserved `|`. */
  lemma ReservedRun(h: Heuristics, lexemes: seq<Lexeme>, raw: nat) returns (k: nat, b: nat)
    requires raw < |lexemes| && !lexemes[raw].isTrivia && lexemes[raw].token.kind.Pipe?
    ensures b < |Significant(lexemes)| && Significant(lexemes)[b] == lexemes[raw].token
    ensures k < |AllRuns(h, lexemes, Some(raw), true)|
    ensures AllRuns(h, lexemes, Some(raw), true)[k] == Run(b, b + 1, Pipe)
  {
    b := |Significant(lexemes[..raw])|;
    SignificantPrefix(lexemes, raw);
    var fold := FolderOf(h, Significant(lexemes), Some(b), true);
    FolderAdvances(h, Significant(lexemes), Some(b), true);
    RunOfPipe(h, Significant(lexemes), b, true);
    k := RunAtBoundary(fold, b, |Significant(lexemes)|, 0);
  }

  /** A run of one token that keeps its kind comes out as that token. */
  lemma PlainEmitted(base: nat, full: seq<Token>, runs: seq<Run>, result: seq<Token>, k: nat, b: nat, token: Token)
    requires IsFoldOf(base, full, runs, result) && b < |full| && full[b] == token
    requires k < |runs| && runs[k] == Run(b, b + 1, token.kind)
    ensures Token(base + token.start, token.kind, base + token.end) in result
  {
    assert result[k] == Emit(base, full, runs[k]);
  }

  /** A reserved `|` comes out as a plain `|` with its own span, whatever the heuristics say. */
  lemma ReservedPipeKept(h: Heuristics, lexemes: seq<Lexeme>, base: nat, raw: nat, result: seq<Token>)
    requires raw < |lexemes| && !lexemes[raw].isTrivia && lexemes[raw].token.kind.Pipe?
    requires IsFoldOf(base, Significant(lexemes), AllRuns(h, lexemes, Some(raw), true), result)
    ensures Token(base + lexemes[raw].token.start, Pipe, base + lexemes[raw].token.end) in result
  {
    var k, b := ReservedRun(h, lexemes, raw);
    PlainEmitted(base, Significant(lexemes), AllRuns(h, lexemes, Some(raw), true), result, k, b, lexemes[raw].token);
  }

  /** Folding partitions the significant tokens into runs, in order. */
  lemma FoldPartitions(h: Heuristics, lexemes: seq<Lexeme>, reserved: Option<nat>, isNested: bool)
    requires reserved.Some? ==> reserved.value <= |lexemes|
    ensures Partition(AllRuns(h, lexemes, reserved, isNested), 0, |Significant(lexemes)|)
  {
    var full, boundary := Significant(lexemes), Boundary(lexemes, reserved);
    FolderAdvances(h, full, boundary, isNested);
    RunsPartition(FolderOf(h, full, boundary, isNested), boundary, |full|, 0);
  }

  lemma FoldInjectsNothing(h: Heuristics, full: seq<Token>, boundary: Option<nat>, isNested: bool, i: nat)
    requires i < |full| && !full[i].kind.ErrorExpression?
    ensures !FolderOf(h, full, boundary, isNested)(i).kind.ErrorExpression?
  {
  }

  lemma {:induction false} RunsInjectNothing(fold: Folder, boundary: Option<nat>, n: nat, i: nat, k: nat)
    requires Advances(fold, boundary, n) && i <= n && k < |Runs(fold, boundary, n, i)|
    requires forall j: nat :: j < n ==> !fold(j).kind.ErrorExpression?
    ensures !Runs(fold, boundary, n, i)[k].kind.ErrorExpression?
    decreases n - i
  {
    assert RunsWithin(fold(i), i, Limit(boundary, i, n));
    if k > 0 {
      RunsInjectNothing(fold, boundary, n, fold(i).hi, k - 1);
    }
  }

  /** What the strict parser and recovery require of their input holds of every folded stream. */
  lemma FoldedFromSource(h: Heuristics, lexemes: seq<Lexeme>, base: nat, reserved: Option<nat>, isNested: bool,
                         result: seq<Token>)
    requires reserved.Some? ==> reserved.value <= |lexemes|
    requires FromSource(Significant(lexemes))
    requires IsFoldOf(base, Significant(lexemes), AllRuns(h, lexemes, reserved, isNested), result)
    ensures FromSource(result)
  {
    var full, boundary := Significant(lexemes), Boundary(lexemes, reserved);
    var fold := FolderOf(h, full, boundary, isNested);
    FoldPartitions(h, lexemes, reserved, isNested);
    FoldKeepsOrder(base, full, AllRuns(h, lexemes, reserved, isNested), result);
    FolderAdvances(h, full, boundary, isNested);
    forall j: nat | j < |full| ensures !fold(j).kind.ErrorExpression? {
      FoldInjectsNothing(h, full, boundary, isNested, j);
    }
    forall k | 0 <= k < |result| ensures !result[k].kind.ErrorExpression? {
      RunsInjectNothing(fold, boundary, |full|, 0, k);
    }
  }
}
