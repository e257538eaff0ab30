/** What folding makes of a token, in terms of the constructs that may start there. */
module FoldedRuns {
  import opened Tokens
  import opened Folding
  import opened FoldedSyntax
  import opened FoldedComprehensions
  import Delimiters
  import Labels

  // ---------- the constructs ----------

  /** `$` and an escaped name directly behind it. */
  predicate StartsParameter(scan: seq<Token>, i: nat, e: nat) {
    && e == i + 1 < |scan| && scan[i].kind.Dollar? && scan[e].kind.EscapedIdentifier?
    && scan[i].end == scan[e].start
  }

  /** A pattern comprehension up to the partner of its bracket. */
  ghost predicate StartsComprehension(scan: seq<Token>, i: nat, e: nat) {
    OpensAt(scan, i, Delimiters.Square) && IsPair(scan, i, e) && IsComprehension(scan, i, e)
  }

  /** Nodes and relationships, where the surroundings ask for an expression. */
  ghost predicate StartsPattern(h: Heuristics, full: seq<Token>, scan: seq<Token>, i: nat, e: nat) {
    && OpensAt(scan, i, Delimiters.Round) && h.isPatternContext(full, i)
    && exists ends :: IsPattern(scan, i, ends, e)
  }

  /** name (`|:` name)*, from lo up to hi. */
  ghost predicate IsPipedChain(scan: seq<Token>, lo: nat, hi: nat) {
    lo < hi <= |scan| && (hi - lo) % 3 == 1 && forall k: nat :: lo <= k < hi ==> ChainToken(scan, lo, k)
  }

  predicate ChainToken(scan: seq<Token>, lo: nat, k: nat)
    requires lo <= k < |scan|
  {
    if (k - lo) % 3 == 0 then Labels.IsSymbolicName(scan[k].kind)
    else if (k - lo) % 3 == 1 then scan[k].kind.Pipe?
    else scan[k].kind.Colon?
  }

  ghost predicate HasInnerColon(scan: seq<Token>, lo: nat, hi: nat) {
    exists k: nat :: lo <= k < hi && k < |scan| && scan[k].kind.Colon?
  }

  /** A colon behind `[`, or behind `[` and a name, and a label expression up to e. Colons inside
      it only stand in a chain of names. */
  ghost predicate StartsRelationship(full: seq<Token>, scan: seq<Token>, i: nat, e: nat) {
    && 0 < i < |full| && i < |scan| && full[i].kind.Colon? && scan[i].kind.Colon?
    && (|| full[i - 1].kind.LeftBracket?
        || (i >= 2 && Labels.IsSymbolicName(full[i - 1].kind) && full[i - 2].kind.LeftBracket?))
    && Labels.IsLast(Labels.Marks(scan), i + 1, e)
    && (HasInnerColon(scan, i + 1, e + 1) ==> IsPipedChain(scan, i + 1, e + 1))
  }

  predicate IsNull(scan: seq<Token>, i: nat) {
    i < |scan| && scan[i].kind.Null?
  }

  /** A colon, or `IS` without `NULL` or `NOT NULL`, in a place for a label predicate, and a label
      expression up to e. `IS NULL` with an operator behind it is no null check. */
  ghost predicate StartsPredicate(h: Heuristics, full: seq<Token>, scan: seq<Token>, i: nat, e: nat) {
    && i < |full| && i < |scan| && full[i].kind == scan[i].kind && h.isLabelContext(full, i)
    && (|| scan[i].kind.Colon?
        || (&& scan[i].kind.Is?
            && !(IsNull(scan, i + 1)
                 && !(i + 2 < |scan| && (scan[i + 2].kind.Pipe? || scan[i + 2].kind.Ampersand?)))
            && !(i + 1 < |scan| && scan[i + 1].kind.Not? && IsNull(scan, i + 2))))
    && Labels.IsLast(Labels.Marks(scan), i + 1, e)
  }

  /** A dotted name in front of a parenthesis that is not called as a procedure. */
  ghost predicate StartsName(full: seq<Token>, scan: seq<Token>, i: nat, e: nat) {
    && i < e && IsDotted(scan, i, e) && IsNameAt(scan, e) && IsOpenAt(scan, e + 1)
    && !exists first: nat :: 0 < first <= |full| && IsDotted(full, first, i) && full[first - 1].kind.Call?
  }

  /** A construct that becomes a token of this kind starts at i and ends at e. The first token of
      a nested fragment starts none that would be folded into the fragment itself. A relationship
      type comes before a label predicate, and that before a name. */
  ghost predicate Starts(h: Heuristics, full: seq<Token>, scan: seq<Token>, i: nat, isFirst: bool, kind: Kind, e: nat) {
    if kind.Parameter? then StartsParameter(scan, i, e)
    else if kind.PatternComprehension? then !isFirst && StartsComprehension(scan, i, e)
    else if kind.PatternExpression? then !isFirst && StartsPattern(h, full, scan, i, e)
    else if kind.RelationshipLabelExpression? then !isFirst && StartsRelationship(full, scan, i, e)
    else if kind.LabelPredicate? then
      && !isFirst && StartsPredicate(h, full, scan, i, e)
      && !exists e': nat :: StartsRelationship(full, scan, i, e')
    else if kind.QualifiedFunctionName? then
      StartsName(full, scan, i, e) && (isFirst || !exists e': nat :: StartsPredicate(h, full, scan, i, e'))
    else false
  }

  // ---------- brackets that can be read ----------

  /** A bracket at i has a partner, or a well-nested word behind it. */
  ghost predicate IsReadable(scan: seq<Token>, i: nat) {
    && (OpensAt(scan, i, Delimiters.Square) ==>
          (exists close: nat :: IsPair(scan, i, close)) || IsList(scan, i, |scan|))
    && (OpensAt(scan, i, Delimiters.Round) ==> exists hi: nat :: IsWord(Word(scan, i, hi)))
  }

  /** From i on, the shapes up to h are well nested, and h is the end or a closing bracket. */
  ghost predicate RunsOn(shapes: seq<Delimiters.Shape>, i: nat, h: nat, hi: nat) {
    i <= h <= hi && Delimiters.Nested(shapes, i, h) && (h == hi || (h < |shapes| && shapes[h].Closing?))
  }

  ghost predicate AllRunOn(shapes: seq<Delimiters.Shape>, lo: nat, hi: nat) {
    && Delimiters.Nested(shapes, lo, hi)
    && forall i: nat :: lo <= i <= hi ==> RunsOnFrom(shapes, i, hi)
  }

  ghost predicate RunsOnFrom(shapes: seq<Delimiters.Shape>, i: nat, hi: nat) {
    exists h: nat :: RunsOn(shapes, i, h, hi)
  }

  lemma WrapRunsOn(shapes: seq<Delimiters.Shape>, a: nat, b: nat)
    requires Delimiters.Encloses(shapes, a, b) && AllRunOn(shapes, a + 1, b)
    ensures AllRunOn(shapes, a, b + 1)
  {
    assert Delimiters.Pairs(shapes, a, b);
    Delimiters.NestedPair(shapes, a, b);
    var end := b + 1;
    forall i: nat | a <= i <= end
      ensures RunsOnFrom(shapes, i, end)
    {
      if i == a {
        assert RunsOn(shapes, i, end, end);
      } else if i == end {
        Delimiters.NestedNone(shapes, i);
        assert RunsOn(shapes, i, end, end);
      } else {
        assert RunsOnFrom(shapes, i, b);
        var h: nat :| RunsOn(shapes, i, h, b);
        assert RunsOn(shapes, i, h, end);
      }
    }
  }

  lemma JoinRunsOn(shapes: seq<Delimiters.Shape>, a: nat, b: nat, c: nat)
    requires a <= b <= c && AllRunOn(shapes, a, b) && AllRunOn(shapes, b, c)
    ensures AllRunOn(shapes, a, c)
  {
    Delimiters.NestedConcat(shapes, a, b, c);
    forall i: nat | a <= i <= c
      ensures RunsOnFrom(shapes, i, c)
    {
      if i < b {
        assert RunsOnFrom(shapes, i, b);
        var h: nat :| RunsOn(shapes, i, h, b);
        if h == b {
          Delimiters.NestedConcat(shapes, i, b, c);
          assert RunsOn(shapes, i, c, c);
        } else {
          assert RunsOn(shapes, i, h, c);
        }
      }
    }
  }

  lemma ShortRunsOn(shapes: seq<Delimiters.Shape>, i: nat)
    requires i <= |shapes|
    ensures AllRunOn(shapes, i, i)
    ensures i < |shapes| && shapes[i].Ordinary? ==> AllRunOn(shapes, i, i + 1)
  {
    Delimiters.NestedNone(shapes, i);
    assert RunsOn(shapes, i, i, i);
    if i < |shapes| && shapes[i].Ordinary? {
      var end := i + 1;
      Delimiters.NestedOne(shapes, i);
      Delimiters.NestedNone(shapes, end);
      assert RunsOn(shapes, i, end, end) && RunsOn(shapes, end, end, end);
    }
  }

  lemma NestedRunsOn(shapes: seq<Delimiters.Shape>, lo: nat, hi: nat)
    requires Delimiters.Nested(shapes, lo, hi)
    ensures AllRunOn(shapes, lo, hi)
  {
    var rel := (i: nat, j: nat) => AllRunOn(shapes, i, j);
    forall i: nat | i <= |shapes|
      ensures rel(i, i)
      ensures i < |shapes| && shapes[i].Ordinary? ==> rel(i, i + 1)
    {
      ShortRunsOn(shapes, i);
    }
    forall i: nat, j: nat | Delimiters.Encloses(shapes, i, j) && rel(i + 1, j) ensures rel(i, j + 1) {
      WrapRunsOn(shapes, i, j);
    }
    forall a: nat, b: nat, c: nat | a <= b <= c <= |shapes| && rel(a, b) && rel(b, c) ensures rel(a, c) {
      JoinRunsOn(shapes, a, b, c);
    }
    Delimiters.Kept(shapes, rel, lo, hi);
  }

  /** Every bracket of a well-nested token list can be read. */
  lemma NestedIsReadable(scan: seq<Token>, i: nat)
    requires Delimiters.Nested(Delimiters.Shapes(scan), 0, |scan|)
    ensures IsReadable(scan, i)
  {
    var shapes := Delimiters.Shapes(scan);
    if OpensAt(scan, i, Delimiters.Square) {
      Delimiters.MatchIffPairs(shapes, 0, |scan|, i, 0);
      assert Delimiters.HasPartner(shapes, i, |scan|);
      var close: nat :| close < |scan| && Delimiters.Pairs(shapes, i, close);
      assert IsPair(scan, i, close);
    }
    if OpensAt(scan, i, Delimiters.Round) {
      NestedRunsOn(shapes, 0, |scan|);
      assert RunsOnFrom(shapes, i, |scan|);
      var hi: nat :| RunsOn(shapes, i, hi, |scan|);
      assert IsWord(Word(scan, i, hi));
    }
  }

  // ---------- what each scan finds ----------

  lemma ParameterIff(scan: seq<Token>, i: nat, e: nat)
    ensures ParameterEnd(scan, i) == Some(e) <==> StartsParameter(scan, i, e)
  {
  }

  lemma ListIff(scan: seq<Token>, i: nat, e: nat)
    requires IsReadable(scan, i)
    ensures ComprehensionEnd(scan, i) == Some(e) <==> StartsComprehension(scan, i, e)
  {
    if OpensAt(scan, i, Delimiters.Square) {
      if IsPair(scan, i, e) {
        ComprehensionIff(scan, i, e);
      }
      if close: nat :| IsPair(scan, i, close) {
        ComprehensionIff(scan, i, close);
      } else {
        UnclosedListFoldsNothing(scan, i);
      }
    }
  }

  lemma PatternIff(scan: seq<Token>, i: nat, e: nat)
    requires IsReadable(scan, i) && OpensAt(scan, i, Delimiters.Round)
    ensures PatternEnd(scan, i) == Some(e) <==> exists ends :: IsPattern(scan, i, ends, e)
  {
    var hi: nat :| IsWord(Word(scan, i, hi));
    PatternEndIff(Word(scan, i, hi), e);
  }

  lemma {:induction false} PipedIff(scan: seq<Token>, lo: nat, hi: nat)
    requires lo <= hi <= |scan|
    ensures Labels.PipedNames(Labels.Marks(scan), lo, hi) <==> IsPipedChain(scan, lo, hi)
    decreases hi - lo
  {
    var marks := Labels.Marks(scan);
    if lo + 3 < hi {
      PipedIff(scan, lo + 3, hi);
      ChainHead(scan, lo, hi);
    } else if lo < hi {
      assert IsPipedChain(scan, lo, hi) ==> ChainToken(scan, lo, lo);
    }
  }

  lemma ChainHead(scan: seq<Token>, lo: nat, hi: nat)
    requires lo + 3 < hi <= |scan|
    ensures IsPipedChain(scan, lo, hi)
       <==> && Labels.IsSymbolicName(scan[lo].kind) && scan[lo + 1].kind.Pipe? && scan[lo + 2].kind.Colon?
            && IsPipedChain(scan, lo + 3, hi)
  {
    var next := lo + 3;
    if IsPipedChain(scan, lo, hi) {
      assert ChainToken(scan, lo, lo) && ChainToken(scan, lo, lo + 1) && ChainToken(scan, lo, lo + 2);
      forall k: nat | next <= k < hi ensures ChainToken(scan, next, k) {
        assert ChainToken(scan, lo, k);
      }
    } else if IsPipedChain(scan, next, hi) {
      var k: nat :| lo <= k < hi && !ChainToken(scan, lo, k);
      assert next <= k ==> ChainToken(scan, next, k);
    }
  }

  lemma RelationshipIff(full: seq<Token>, limit: nat, i: nat, e: nat)
    requires i < limit <= |full|
    ensures RelationshipScan(full, limit, i) == Some(e) <==> StartsRelationship(full, full[..limit], i, e)
  {
    RelationshipEndIff(full[..limit], i, e);
  }

  lemma RelationshipEndIff(scan: seq<Token>, i: nat, e: nat)
    ensures Labels.RelationshipEnd(scan, i) == Some(e)
       <==> && Labels.IsMarker(scan, i) && Labels.IsLast(Labels.Marks(scan), i + 1, e)
            && (HasInnerColon(scan, i + 1, e + 1) ==> IsPipedChain(scan, i + 1, e + 1))
  {
    Labels.PredicateEndIff(scan, i, e);
    if i <= e < |scan| {
      InnerColonIff(scan, i + 1, e + 1);
    }
  }

  /** The rule for colons inside a relationship type. */
  lemma InnerColonIff(scan: seq<Token>, lo: nat, hi: nat)
    requires lo <= hi <= |scan|
    ensures Labels.IsPiped(Labels.Marks(scan), lo, hi) <==> (HasInnerColon(scan, lo, hi) ==> IsPipedChain(scan, lo, hi))
  {
    PipedIff(scan, lo, hi);
    assert HasInnerColon(scan, lo, hi) <==> Labels.HasColon(Labels.Marks(scan), lo, hi);
  }

  lemma PredicateIff(h: Heuristics, full: seq<Token>, limit: nat, i: nat, e: nat)
    requires i < limit <= |full|
    ensures PredicateScan(h, full, limit, i) == Some(e) <==> StartsPredicate(h, full, full[..limit], i, e)
  {
    Labels.PredicateEndIff(full[..limit], i, e);
  }

  lemma NameIff(full: seq<Token>, limit: nat, i: nat, e: nat)
    requires i < limit <= |full|
    ensures QualifiedScan(full, limit, i) == Some(e) <==> StartsName(full, full[..limit], i, e)
  {
    QualifiedEndIff(full[..limit], i, e);
    ProcedureNameIff(full, i);
  }

  // ---------- runs ----------

  /** Each scan begins at a token of its own kind, but for `IS`, which is a name as well. */
  lemma ScanKinds(h: Heuristics, full: seq<Token>, limit: nat, i: nat)
    requires i < limit <= |full|
    ensures ParameterScan(full, limit, i).Some? ==> full[i].kind.Dollar?
    ensures ComprehensionScan(full, limit, i).Some? ==> full[i].kind.LeftBracket?
    ensures PatternScan(h, full, limit, i).Some? ==> full[i].kind.LeftParen?
    ensures RelationshipScan(full, limit, i).Some? ==> full[i].kind.Colon?
    ensures PredicateScan(h, full, limit, i).Some? ==> full[i].kind.Colon? || full[i].kind.Is?
    ensures QualifiedScan(full, limit, i).Some? ==> Labels.IsSymbolicName(full[i].kind)
  {
  }

  /** What the scans find at a token. */
  datatype Scans = Scans(parameter: Option<nat>, list: Option<nat>, pattern: Option<nat>, relationship: Option<nat>,
                         label_: Option<nat>, name: Option<nat>)

  function ScansAt(h: Heuristics, full: seq<Token>, limit: nat, i: nat): Scans {
    Scans(ParameterScan(full, limit, i), ComprehensionScan(full, limit, i), PatternScan(h, full, limit, i),
          RelationshipScan(full, limit, i), PredicateScan(h, full, limit, i), QualifiedScan(full, limit, i))
  }

  /** At most one scan finds something, but for the two label scans and the two scans at `IS`. */
  predicate AreApart(s: Scans) {
    && (s.parameter.Some? ==> s.list.None? && s.pattern.None? && s.relationship.None? && s.label_.None? && s.name.None?)
    && (s.list.Some? ==> s.pattern.None? && s.relationship.None? && s.label_.None? && s.name.None?)
    && (s.pattern.Some? ==> s.relationship.None? && s.label_.None? && s.name.None?)
    && (s.relationship.Some? ==> s.name.None?)
  }

  /** What the scans and their order make of a token. */
  predicate Chooses(s: Scans, isFirst: bool, kind: Kind, e: nat) {
    if kind.Parameter? then s.parameter == Some(e)
    else if kind.PatternComprehension? then !isFirst && s.list == Some(e)
    else if kind.PatternExpression? then !isFirst && s.pattern == Some(e)
    else if kind.RelationshipLabelExpression? then !isFirst && s.relationship == Some(e)
    else if kind.LabelPredicate? then !isFirst && s.label_ == Some(e) && s.relationship.None?
    else if kind.QualifiedFunctionName? then s.name == Some(e) && (isFirst || s.label_.None?)
    else false
  }

  /** The order of the scans. */
  function RunOf(s: Scans, i: nat, isFirst: bool): Option<Run> {
    OrElse(RunTo(s.parameter, i, Parameter),
           OrElse(if isFirst then None else FragmentOf(s, i), RunTo(s.name, i, QualifiedFunctionName)))
  }

  function FragmentOf(s: Scans, i: nat): Option<Run> {
    OrElse(OrElse(RunTo(s.list, i, PatternComprehension), RunTo(s.pattern, i, PatternExpression)),
           OrElse(RunTo(s.relationship, i, RelationshipLabelExpression), RunTo(s.label_, i, LabelPredicate)))
  }

  lemma FoldIsRunOf(h: Heuristics, full: seq<Token>, limit: nat, i: nat, isNested: bool)
    requires i < limit <= |full|
    ensures var run := RunOf(ScansAt(h, full, limit, i), i, isNested && i == 0);
            Fold(h, full, limit, i, isNested) == if run.Some? then run.value else Run(i, i + 1, PlainKind(full, i))
  {
  }

  lemma FragmentChooses(s: Scans, i: nat, kind: Kind, e: nat)
    requires AreApart(s)
    ensures FragmentOf(s, i) == Some(Run(i, e + 1, kind))
       <==> || (kind.PatternComprehension? && s.list == Some(e))
            || (kind.PatternExpression? && s.pattern == Some(e))
            || (kind.RelationshipLabelExpression? && s.relationship == Some(e))
            || (kind.LabelPredicate? && s.label_ == Some(e) && s.relationship.None?)
    ensures FragmentOf(s, i).None? <==> s.list.None? && s.pattern.None? && s.relationship.None? && s.label_.None?
  {
  }

  lemma RunChooses(s: Scans, i: nat, isFirst: bool, kind: Kind, e: nat)
    requires AreApart(s)
    ensures RunOf(s, i, isFirst) == Some(Run(i, e + 1, kind)) <==> Chooses(s, isFirst, kind, e)
  {
    FragmentChooses(s, i, kind, e);
  }

  lemma FoldChooses(h: Heuristics, full: seq<Token>, limit: nat, i: nat, isNested: bool, kind: Kind, e: nat)
    requires i < limit <= |full| && AreApart(ScansAt(h, full, limit, i)) && i < e
    ensures Fold(h, full, limit, i, isNested) == Run(i, e + 1, kind)
       <==> Chooses(ScansAt(h, full, limit, i), isNested && i == 0, kind, e)
  {
    FoldIsRunOf(h, full, limit, i, isNested);
    RunChooses(ScansAt(h, full, limit, i), i, isNested && i == 0, kind, e);
  }

  lemma ScansApart(h: Heuristics, full: seq<Token>, limit: nat, i: nat)
    requires i < limit <= |full|
    ensures AreApart(ScansAt(h, full, limit, i))
  {
    ScanKinds(h, full, limit, i);
  }

  /** A label scan finds nothing exactly if nothing starts. */
  lemma NothingStarts(h: Heuristics, full: seq<Token>, limit: nat, i: nat)
    requires i < limit <= |full|
    ensures RelationshipScan(full, limit, i).None?
       <==> !exists e: nat :: StartsRelationship(full, full[..limit], i, e)
    ensures PredicateScan(h, full, limit, i).None?
       <==> !exists e: nat :: StartsPredicate(h, full, full[..limit], i, e)
  {
    var scan := full[..limit];
    forall e: nat
      ensures RelationshipScan(full, limit, i) == Some(e) <==> StartsRelationship(full, scan, i, e)
      ensures PredicateScan(h, full, limit, i) == Some(e) <==> StartsPredicate(h, full, scan, i, e)
    {
      RelationshipIff(full, limit, i, e);
      PredicateIff(h, full, limit, i, e);
    }
  }

  lemma ChoosesIffStarts(h: Heuristics, full: seq<Token>, limit: nat, i: nat, isFirst: bool, kind: Kind, e: nat)
    requires i < limit <= |full| && IsReadable(full[..limit], i)
    ensures Chooses(ScansAt(h, full, limit, i), isFirst, kind, e)
       <==> Starts(h, full, full[..limit], i, isFirst, kind, e)
  {
    var scan := full[..limit];
    NothingStarts(h, full, limit, i);
    ParameterIff(scan, i, e);
    ListIff(scan, i, e);
    if OpensAt(scan, i, Delimiters.Round) {
      PatternIff(scan, i, e);
    }
    RelationshipIff(full, limit, i, e);
    PredicateIff(h, full, limit, i, e);
    NameIff(full, limit, i, e);
  }

  /** A run of several tokens is a construct that starts there, and a construct that starts there
      is the run. */
  lemma RunIff(h: Heuristics, full: seq<Token>, limit: nat, i: nat, isNested: bool, kind: Kind, e: nat)
    requires i < limit <= |full| && IsReadable(full[..limit], i) && i < e
    ensures Fold(h, full, limit, i, isNested) == Run(i, e + 1, kind)
       <==> Starts(h, full, full[..limit], i, isNested && i == 0, kind, e)
  {
    ScansApart(h, full, limit, i);
    FoldChooses(h, full, limit, i, isNested, kind, e);
    ChoosesIffStarts(h, full, limit, i, isNested && i == 0, kind, e);
  }

  lemma StartsAhead(h: Heuristics, full: seq<Token>, limit: nat, i: nat, isFirst: bool, kind: Kind, e: nat)
    requires i < limit <= |full| && IsReadable(full[..limit], i)
    requires Starts(h, full, full[..limit], i, isFirst, kind, e)
    ensures i < e < limit
  {
    ChoosesIffStarts(h, full, limit, i, isFirst, kind, e);
    ScansAhead(h, full, limit, i);
  }

  lemma ScansAhead(h: Heuristics, full: seq<Token>, limit: nat, i: nat)
    requires i < limit <= |full|
    ensures var s := ScansAt(h, full, limit, i);
            && IsAhead(s.parameter, i, limit) && IsAhead(s.list, i, limit) && IsAhead(s.pattern, i, limit)
            && IsAhead(s.relationship, i, limit) && IsAhead(s.label_, i, limit) && IsAhead(s.name, i, limit)
  {
  }

  predicate IsAhead(end: Option<nat>, i: nat, limit: nat) {
    end.Some? ==> i < end.value < limit
  }

  /** `ALL` behind RETURN or WITH, or behind the parenthesis of an aggregate, and in front of no
      parenthesis. */
  predicate IsSetAllAt(full: seq<Token>, i: nat)
    requires i < |full|
  {
    && full[i].kind.All? && i > 0 && !IsOpenAt(full, i + 1)
    && (|| full[i - 1].kind.Return? || full[i - 1].kind.With?
        || (i > 1 && full[i - 1].kind.LeftParen?
            && (|| full[i - 2].kind.Identifier? || full[i - 2].kind.EscapedIdentifier?
                || full[i - 2].kind == Keyword("COUNT") || full[i - 2].kind.Match?
                || full[i - 2].kind.Path? || full[i - 2].kind.Return?)))
  }

  ghost predicate StartsNothing(h: Heuristics, full: seq<Token>, scan: seq<Token>, i: nat, isFirst: bool) {
    forall kind, e: nat :: !Starts(h, full, scan, i, isFirst, kind, e)
  }

  /** A token is a run of its own exactly if no construct starts there, and then keeps its kind,
      but for `ALL` as a quantifier. */
  lemma PlainIff(h: Heuristics, full: seq<Token>, limit: nat, i: nat, isNested: bool)
    requires i < limit <= |full| && IsReadable(full[..limit], i)
    ensures Fold(h, full, limit, i, isNested).hi == i + 1
       <==> StartsNothing(h, full, full[..limit], i, isNested && i == 0)
    ensures var run := Fold(h, full, limit, i, isNested);
            run.hi == i + 1 ==> run == Run(i, i + 1, if IsSetAllAt(full, i) then SetAll else full[i].kind)
  {
    var run := Fold(h, full, limit, i, isNested);
    FoldConfined(h, full, limit, i, isNested);
    ScansAhead(h, full, limit, i);
    if run.hi > i + 1 {
      RunIff(h, full, limit, i, isNested, run.kind, run.hi - 1);
    } else {
      var isFirst := isNested && i == 0;
      forall kind, e: nat
        ensures !Starts(h, full, full[..limit], i, isFirst, kind, e)
      {
        if Starts(h, full, full[..limit], i, isFirst, kind, e) {
          StartsAhead(h, full, limit, i, isFirst, kind, e);
          RunIff(h, full, limit, i, isNested, kind, e);
        }
      }
      PlainRun(h, full, limit, i, isNested);
    }
  }

  lemma PlainRun(h: Heuristics, full: seq<Token>, limit: nat, i: nat, isNested: bool)
    requires i < limit <= |full| && Fold(h, full, limit, i, isNested).hi == i + 1
    ensures Fold(h, full, limit, i, isNested)
         == Run(i, i + 1, if IsSetAllAt(full, i) then SetAll else full[i].kind)
  {
    ScansAhead(h, full, limit, i);
  }

  // ---------- whole token lists ----------

  /** Every emitted token is the run at its first token, read up to a reserved separator ahead. */
  lemma {:induction false} RunIsFold(fold: Folder, boundary: Option<nat>, n: nat, i: nat, k: nat)
    requires Advances(fold, boundary, n) && i <= n && k < |Runs(fold, boundary, n, i)|
    ensures var run := Runs(fold, boundary, n, i)[k]; run.lo < n && run == fold(run.lo)
    decreases n - i
  {
    assert RunsWithin(fold(i), i, Folding.Limit(boundary, i, n));
    if k > 0 {
      RunIsFold(fold, boundary, n, fold(i).hi, k - 1);
    }
  }

  /** The k-th emitted token: its span, and what it is. */
  lemma EmittedIs(h: Heuristics, lexemes: seq<Lexeme>, base: nat, reserved: Option<nat>, isNested: bool,
                  result: seq<Token>, k: nat)
    returns (lo: nat, hi: nat)
    requires reserved.Some? ==> reserved.value <= |lexemes|
    requires IsFoldOf(base, Significant(lexemes), AllRuns(h, lexemes, reserved, isNested), result) && k < |result|
    ensures IsEmitted(h, Significant(lexemes), Boundary(lexemes, reserved), base, isNested, result[k], lo, hi)
  {
    var full, boundary := Significant(lexemes), Boundary(lexemes, reserved);
    FolderAdvances(h, full, boundary, isNested);
    lo, hi := EmittedRun(h, full, boundary, base, isNested, FolderOf(h, full, boundary, isNested), result, k);
  }

  /** The token has the extent of lo..hi, and is the run at lo read up to the boundary ahead. */
  ghost predicate IsEmitted(h: Heuristics, full: seq<Token>, boundary: Option<nat>, base: nat, isNested: bool,
                            token: Token, lo: nat, hi: nat)
  {
    && lo < hi <= |full| && token.start == base + full[lo].start && token.end == base + full[hi - 1].end
    && Fold(h, full, Folding.Limit(boundary, lo, |full|), lo, isNested) == Run(lo, hi, token.kind)
  }

  lemma EmittedRun(h: Heuristics, full: seq<Token>, boundary: Option<nat>, base: nat, isNested: bool, fold: Folder,
                   result: seq<Token>, k: nat)
    returns (lo: nat, hi: nat)
    requires IsFolder(h, full, boundary, isNested, fold) && Advances(fold, boundary, |full|)
    requires IsFoldOf(base, full, Runs(fold, boundary, |full|, 0), result) && k < |result|
    ensures IsEmitted(h, full, boundary, base, isNested, result[k], lo, hi)
  {
    RunIsFold(fold, boundary, |full|, 0, k);
    var run := Runs(fold, boundary, |full|, 0)[k];
    lo, hi := run.lo, run.hi;
    assert FoldsAt(h, full, boundary, isNested, fold, lo);
  }
}
