/** The label recogniser, proved against parse trees of the label grammar, and the two
    recognisers of legacy relationship types. */
module Labels {
  import opened Tokens

  // ---------- the grammar ----------

  /** What the recogniser distinguishes. */
  datatype Mark = Bar | Amp | Col | Neg | AnyLabel | LabelName | Open | Close | Other

  predicate IsSymbolicName(kind: Kind) {
    kind.Identifier? || kind.EscapedIdentifier? || (IsContextualNameCandidate(kind) && !kind.SetAll?)
  }

  function MarkOf(kind: Kind): (m: Mark)
    ensures m.Col? <==> kind.Colon?
    ensures m.Bar? <==> kind.Pipe?
    ensures m.LabelName? <==> IsSymbolicName(kind)
    ensures (m.Amp? <==> kind.Ampersand?) && (m.Neg? <==> kind.Bang?) && (m.AnyLabel? <==> kind.Percent?)
    ensures (m.Open? <==> kind.LeftParen?) && (m.Close? <==> kind.RightParen?)
  {
    if kind.Pipe? then Bar
    else if kind.Ampersand? then Amp
    else if kind.Colon? then Col
    else if kind.Bang? then Neg
    else if kind.Percent? then AnyLabel
    else if kind.LeftParen? then Open
    else if kind.RightParen? then Close
    else if IsSymbolicName(kind) then LabelName
    else Other
  }

  function Marks(tokens: seq<Token>): (m: seq<Mark>)
    ensures |m| == |tokens| && forall i :: 0 <= i < |m| ==> m[i] == MarkOf(tokens[i].kind)
  {
    seq(|tokens|, i requires 0 <= i < |tokens| => MarkOf(tokens[i].kind))
  }

  /** Or = And ('|' ':'? And)* */
  datatype Or = OnlyAnd(and: And) | MoreOr(and: And, colon: bool, rest: Or)

  /** And = Primary (('&' | ':') Primary)* */
  datatype And = OnlyPrimary(primary: Primary) | MoreAnd(primary: Primary, colon: bool, rest: And)

  /** Primary = '!'? ('%' | name | '(' Or ')') */
  datatype Primary = Primary(negated: bool, atom: Atom)
  datatype Atom = Wildcard | Name | Group(or: Or)

  /** The word that a tree derives. */
  function OrWord(or: Or): (w: seq<Mark>)
    ensures w != [] && !w[0].Col?
  {
    match or
    case OnlyAnd(and) => AndWord(and)
    case MoreOr(and, colon, rest) => AndWord(and) + BarWord(colon) + OrWord(rest)
  }

  function BarWord(colon: bool): seq<Mark> {
    if colon then [Bar, Col] else [Bar]
  }

  function AndWord(and: And): (w: seq<Mark>)
    ensures w != [] && !w[0].Col?
  {
    match and
    case OnlyPrimary(primary) => PrimaryWord(primary)
    case MoreAnd(primary, colon, rest) => PrimaryWord(primary) + [if colon then Col else Amp] + AndWord(rest)
  }

  function PrimaryWord(primary: Primary): (w: seq<Mark>)
    ensures w != [] && !w[0].Col?
  {
    (if primary.negated then [Neg] else []) + AtomWord(primary.atom)
  }

  function AtomWord(atom: Atom): (w: seq<Mark>)
    ensures w != [] && !w[0].Col? && !w[0].Neg?
  {
    match atom
    case Wildcard => [AnyLabel]
    case Name => [LabelName]
    case Group(or) => [Open] + OrWord(or) + [Close]
  }

  // ---------- scanning ----------

  predicate Is(marks: seq<Mark>, i: nat, mark: Mark) {
    i < |marks| && marks[i] == mark
  }

  predicate ContinuesAnd(marks: seq<Mark>, i: nat) {
    Is(marks, i, Amp) || Is(marks, i, Col)
  }

  /** Where the right operand of the `|` at i starts. */
  function AfterPipe(marks: seq<Mark>, i: nat): nat {
    if Is(marks, i + 1, Col) then i + 2 else i + 1
  }

  function OrEnd(marks: seq<Mark>, start: nat): (r: Option<nat>)
    requires start <= |marks|
    ensures r.Some? ==> start < r.value <= |marks|
    decreases |marks| - start, 2
  {
    match AndEnd(marks, start)
    case None => None
    case Some(cursor) => if Is(marks, cursor, Bar) then OrEnd(marks, AfterPipe(marks, cursor)) else Some(cursor)
  }

  function AndEnd(marks: seq<Mark>, start: nat): (r: Option<nat>)
    requires start <= |marks|
    ensures r.Some? ==> start < r.value <= |marks|
    decreases |marks| - start, 1
  {
    match PrimaryEnd(marks, start)
    case None => None
    case Some(cursor) => if ContinuesAnd(marks, cursor) then AndEnd(marks, cursor + 1) else Some(cursor)
  }

  function PrimaryEnd(marks: seq<Mark>, start: nat): (r: Option<nat>)
    requires start <= |marks|
    ensures r.Some? ==> start < r.value <= |marks|
    decreases |marks| - start, 0
  {
    var cursor := if Is(marks, start, Neg) then start + 1 else start;
    if Is(marks, cursor, AnyLabel) || Is(marks, cursor, LabelName) then Some(cursor + 1)
    else if Is(marks, cursor, Open) then
      match OrEnd(marks, cursor + 1)
      case None => None
      case Some(end) => if Is(marks, end, Close) then Some(end + 1) else None
    else None
  }

  /** `label_or_end`. */
  method LabelOrEnd(marks: seq<Mark>, start: nat) returns (r: Option<nat>)
    requires start <= |marks|
    ensures r == OrEnd(marks, start)
    decreases |marks| - start, 2
  {
    r := LabelAndEnd(marks, start);
    if r.None? {
      return;
    }
    ghost var answer := OrEnd(marks, start);
    var cursor := r.value;
    while Is(marks, cursor, Bar)
      invariant start < cursor <= |marks|
      invariant answer == if Is(marks, cursor, Bar) then OrEnd(marks, AfterPipe(marks, cursor)) else Some(cursor)
      decreases |marks| - cursor
    {
      cursor := cursor + 1;
      if Is(marks, cursor, Col) {
        cursor := cursor + 1;
      }
      r := LabelAndEnd(marks, cursor);
      if r.None? {
        return;
      }
      cursor := r.value;
    }
    r := Some(cursor);
  }

  /** `label_and_end`. */
  method LabelAndEnd(marks: seq<Mark>, start: nat) returns (r: Option<nat>)
    requires start <= |marks|
    ensures r == AndEnd(marks, start)
    decreases |marks| - start, 1
  {
    r := LabelPrimaryEnd(marks, start);
    if r.None? {
      return;
    }
    ghost var answer := AndEnd(marks, start);
    var cursor := r.value;
    while ContinuesAnd(marks, cursor)
      invariant start < cursor <= |marks|
      invariant answer == if ContinuesAnd(marks, cursor) then AndEnd(marks, cursor + 1) else Some(cursor)
      decreases |marks| - cursor
    {
      r := LabelPrimaryEnd(marks, cursor + 1);
      if r.None? {
        return;
      }
      cursor := r.value;
    }
    r := Some(cursor);
  }

  /** `label_primary_end`. */
  method LabelPrimaryEnd(marks: seq<Mark>, start: nat) returns (r: Option<nat>)
    requires start <= |marks|
    ensures r == PrimaryEnd(marks, start)
    decreases |marks| - start, 0
  {
    var cursor := start;
    if Is(marks, cursor, Neg) {
      cursor := cursor + 1;
    }
    if cursor >= |marks| {
      return None;
    }
    match marks[cursor] {
      case AnyLabel => r := Some(cursor + 1);
      case LabelName => r := Some(cursor + 1);
      case Open =>
        var end := LabelOrEnd(marks, cursor + 1);
        r := if end.Some? && Is(marks, end.value, Close) then Some(end.value + 1) else None;
      case _ => r := None;
    }
  }

  // ---------- the scanner is sound and complete ----------

  /** The marks from `start` on spell the word. */
  ghost predicate Spells(marks: seq<Mark>, start: nat, word: seq<Mark>) {
    start + |word| <= |marks| && forall k :: 0 <= k < |word| ==> marks[start + k] == word[k]
  }

  lemma SpellsConcat(marks: seq<Mark>, start: nat, u: seq<Mark>, v: seq<Mark>)
    ensures Spells(marks, start, u + v) <==> Spells(marks, start, u) && Spells(marks, start + |u|, v)
  {
    if Spells(marks, start, u + v) {
      assert forall k :: 0 <= k < |u| ==> u[k] == (u + v)[k];
      forall k | 0 <= k < |v| ensures marks[start + |u| + k] == v[k] {
        assert marks[start + (|u| + k)] == (u + v)[|u| + k];
      }
    }
  }

  lemma SpellsFirst(marks: seq<Mark>, start: nat, word: seq<Mark>)
    requires Spells(marks, start, word) && word != []
    ensures Is(marks, start, word[0])
  {
    assert marks[start + 0] == word[0];
  }

  /** marks[start..end) is the word. */
  ghost predicate Covers(marks: seq<Mark>, start: nat, end: nat, word: seq<Mark>) {
    Spells(marks, start, word) && end == start + |word|
  }

  /** marks[start..end) is a label expression. */
  ghost predicate Derives(marks: seq<Mark>, start: nat, end: nat) {
    exists or :: Covers(marks, start, end, OrWord(or))
  }

  /** A token after which the scan goes on. */
  predicate Continues(marks: seq<Mark>, i: nat) {
    Is(marks, i, Bar) || ContinuesAnd(marks, i)
  }

  lemma {:induction false} OrComplete(marks: seq<Mark>, start: nat, end: nat, or: Or)
    requires Covers(marks, start, end, OrWord(or)) && !Continues(marks, end)
    ensures OrEnd(marks, start) == Some(end)
    decreases or, 0
  {
    match or
    case OnlyAnd(and) =>
      AndComplete(marks, start, end, and);
    case MoreOr(and, colon, rest) =>
      var middle := start + |AndWord(and)|;
      SplitWord(marks, start, AndWord(and), BarWord(colon), OrWord(rest));
      AndComplete(marks, start, middle, and);
      OrComplete(marks, middle + |BarWord(colon)|, end, rest);
      assert colon ==> marks[middle + 1] == BarWord(colon)[1];
  }

  /** The three parts of a word, and what each begins with. */
  lemma SplitWord(marks: seq<Mark>, start: nat, u: seq<Mark>, v: seq<Mark>, w: seq<Mark>)
    requires Spells(marks, start, u + v + w) && v != [] && w != []
    ensures Spells(marks, start, u) && Spells(marks, start + |u|, v) && Spells(marks, start + |u| + |v|, w)
    ensures Is(marks, start + |u|, v[0]) && Is(marks, start + |u| + |v|, w[0])
  {
    SpellsConcat(marks, start, u + v, w);
    SpellsConcat(marks, start, u, v);
    SpellsFirst(marks, start + |u|, v);
    SpellsFirst(marks, start + |u| + |v|, w);
  }

  lemma {:induction false} AndComplete(marks: seq<Mark>, start: nat, end: nat, and: And)
    requires Covers(marks, start, end, AndWord(and)) && !ContinuesAnd(marks, end)
    ensures AndEnd(marks, start) == Some(end)
    decreases and, 0
  {
    match and
    case OnlyPrimary(primary) =>
      PrimaryComplete(marks, start, end, primary);
    case MoreAnd(primary, colon, rest) =>
      var middle := start + |PrimaryWord(primary)|;
      SplitWord(marks, start, PrimaryWord(primary), [if colon then Col else Amp], AndWord(rest));
      PrimaryComplete(marks, start, middle, primary);
      AndComplete(marks, middle + 1, end, rest);
  }

  lemma {:induction false} PrimaryComplete(marks: seq<Mark>, start: nat, end: nat, primary: Primary)
    requires Covers(marks, start, end, PrimaryWord(primary))
    ensures PrimaryEnd(marks, start) == Some(end)
    decreases primary, 0
  {
    var sign := if primary.negated then [Neg] else [];
    var cursor := start + |sign|;
    SpellsConcat(marks, start, sign, AtomWord(primary.atom));
    SpellsFirst(marks, start, PrimaryWord(primary));
    SpellsFirst(marks, cursor, AtomWord(primary.atom));
    if primary.atom.Group? {
      GroupComplete(marks, cursor, primary.atom.or);
    }
  }

  lemma {:induction false} GroupComplete(marks: seq<Mark>, cursor: nat, or: Or)
    requires Spells(marks, cursor, AtomWord(Group(or)))
    ensures Is(marks, cursor, Open) && Is(marks, cursor + 1 + |OrWord(or)|, Close)
    ensures cursor < |marks| && OrEnd(marks, cursor + 1) == Some(cursor + 1 + |OrWord(or)|)
    decreases or, 1
  {
    SplitWord(marks, cursor, [Open], OrWord(or), [Close]);
    OrComplete(marks, cursor + 1, cursor + 1 + |OrWord(or)|, or);
  }

  lemma {:induction false} OrSound(marks: seq<Mark>, start: nat) returns (or: Or)
    requires start <= |marks| && OrEnd(marks, start).Some?
    ensures Covers(marks, start, OrEnd(marks, start).value, OrWord(or)) && !Continues(marks, OrEnd(marks, start).value)
    decreases |marks| - start, 2
  {
    var and := AndSound(marks, start);
    var cursor := AndEnd(marks, start).value;
    or := OnlyAnd(and);
    if Is(marks, cursor, Bar) {
      var rest := OrSound(marks, AfterPipe(marks, cursor));
      or := MoreOr(and, Is(marks, cursor + 1, Col), rest);
      MoreOrSpelled(marks, start, and, Is(marks, cursor + 1, Col), rest);
    }
  }

  lemma MoreOrSpelled(marks: seq<Mark>, start: nat, and: And, colon: bool, rest: Or)
    requires Spells(marks, start, AndWord(and)) && Spells(marks, start + |AndWord(and)|, BarWord(colon))
    requires Spells(marks, start + |AndWord(and)| + |BarWord(colon)|, OrWord(rest))
    ensures Spells(marks, start, OrWord(MoreOr(and, colon, rest)))
    ensures |OrWord(MoreOr(and, colon, rest))| == |AndWord(and)| + |BarWord(colon)| + |OrWord(rest)|
  {
    SpellsConcat(marks, start, AndWord(and), BarWord(colon));
    SpellsConcat(marks, start, AndWord(and) + BarWord(colon), OrWord(rest));
  }

  lemma {:induction false} AndSound(marks: seq<Mark>, start: nat) returns (and: And)
    requires start <= |marks| && AndEnd(marks, start).Some?
    ensures Covers(marks, start, AndEnd(marks, start).value, AndWord(and))
        && !ContinuesAnd(marks, AndEnd(marks, start).value)
    decreases |marks| - start, 1
  {
    var primary := PrimarySound(marks, start);
    var cursor := PrimaryEnd(marks, start).value;
    and := OnlyPrimary(primary);
    if ContinuesAnd(marks, cursor) {
      var rest := AndSound(marks, cursor + 1);
      and := MoreAnd(primary, Is(marks, cursor, Col), rest);
      assert Spells(marks, cursor, [marks[cursor]]);
      SpellsConcat(marks, start, PrimaryWord(primary), [marks[cursor]]);
      SpellsConcat(marks, start, PrimaryWord(primary) + [marks[cursor]], AndWord(rest));
    }
  }

  lemma {:induction false} PrimarySound(marks: seq<Mark>, start: nat) returns (primary: Primary)
    requires start <= |marks| && PrimaryEnd(marks, start).Some?
    ensures Covers(marks, start, PrimaryEnd(marks, start).value, PrimaryWord(primary))
    decreases |marks| - start, 0
  {
    var negated := Is(marks, start, Neg);
    var cursor := if negated then start + 1 else start;
    if Is(marks, cursor, Open) {
      var or := OrSound(marks, cursor + 1);
      GroupSpelled(marks, cursor, or);
      primary := Primary(negated, Group(or));
    } else {
      primary := Primary(negated, if Is(marks, cursor, AnyLabel) then Wildcard else Name);
    }
    NegationSpelled(marks, start, primary);
  }

  lemma GroupSpelled(marks: seq<Mark>, start: nat, or: Or)
    requires Is(marks, start, Open) && Spells(marks, start + 1, OrWord(or))
        && Is(marks, start + 1 + |OrWord(or)|, Close)
    ensures Covers(marks, start, start + 2 + |OrWord(or)|, AtomWord(Group(or)))
  {
    SpellsConcat(marks, start, [Open], OrWord(or));
    SpellsConcat(marks, start, [Open] + OrWord(or), [Close]);
  }

  lemma NegationSpelled(marks: seq<Mark>, start: nat, primary: Primary)
    requires primary.negated ==> Is(marks, start, Neg)
    requires Spells(marks, if primary.negated then start + 1 else start, AtomWord(primary.atom))
    ensures Spells(marks, start, PrimaryWord(primary))
    ensures |PrimaryWord(primary)| == |AtomWord(primary.atom)| + if primary.negated then 1 else 0
  {
    SpellsConcat(marks, start, if primary.negated then [Neg] else [], AtomWord(primary.atom));
  }

  /** The scanner ends at `end` exactly when the marks up to there are a label expression
      and the next token does not continue one. */
  lemma OrEndIff(marks: seq<Mark>, start: nat, end: nat)
    requires start <= |marks|
    ensures OrEnd(marks, start) == Some(end) <==> Derives(marks, start, end) && !Continues(marks, end)
  {
    if OrEnd(marks, start) == Some(end) {
      var or := OrSound(marks, start);
    } else if Derives(marks, start, end) && !Continues(marks, end) {
      var or :| Covers(marks, start, end, OrWord(or));
      OrComplete(marks, start, end, or);
    }
  }

  /** At most one end qualifies, so an expression cannot be cut short or overrun. */
  lemma EndIsUnique(marks: seq<Mark>, start: nat, e: nat, f: nat)
    requires start <= |marks| && Derives(marks, start, e) && !Continues(marks, e)
    requires Derives(marks, start, f) && !Continues(marks, f)
    ensures e == f
  {
    OrEndIff(marks, start, e);
    OrEndIff(marks, start, f);
  }

  // ---------- label predicates ----------

  predicate IsNullAt(tokens: seq<Token>, i: nat) {
    i < |tokens| && tokens[i].kind.Null?
  }

  predicate IsOperatorAt(tokens: seq<Token>, i: nat) {
    i < |tokens| && (tokens[i].kind.Pipe? || tokens[i].kind.Ampersand?)
  }

  /** `IS NULL` (unless an operator follows) and `IS NOT NULL` are null checks, not labels. */
  predicate IsNullCheck(tokens: seq<Token>, start: nat) {
    || (IsNullAt(tokens, start + 1) && !IsOperatorAt(tokens, start + 2))
    || (start + 1 < |tokens| && tokens[start + 1].kind.Not? && IsNullAt(tokens, start + 2))
  }

  predicate IsColonAt(tokens: seq<Token>, i: nat) {
    i < |tokens| && tokens[i].kind.Colon?
  }

  /** `:` or `IS`, unless that begins a null check. */
  predicate IsMarker(tokens: seq<Token>, start: nat) {
    IsColonAt(tokens, start) || (start < |tokens| && tokens[start].kind.Is? && !IsNullCheck(tokens, start))
  }

  /** The index of the last token of the label predicate at `start`. */
  function PredicateEnd(tokens: seq<Token>, start: nat): (r: Option<nat>)
    ensures r.Some? ==> start < r.value < |tokens|
  {
    if IsMarker(tokens, start) then LastOfOr(Marks(tokens), start + 1) else None
  }

  function LastOfOr(marks: seq<Mark>, start: nat): (r: Option<nat>)
    requires start <= |marks|
    ensures r.Some? ==> start <= r.value < |marks|
  {
    match OrEnd(marks, start)
    case None => None
    case Some(end) => Some(end - 1)
  }

  /** `label_predicate_end`. */
  method LabelPredicateEnd(tokens: seq<Token>, start: nat) returns (r: Option<nat>)
    ensures r == PredicateEnd(tokens, start)
  {
    if start >= |tokens| {
      return None;
    }
    if tokens[start].kind.Is? {
      if IsNullCheck(tokens, start) {
        return None;
      }
    } else if !tokens[start].kind.Colon? {
      return None;
    }
    var end := LabelOrEnd(Marks(tokens), start + 1);
    r := if end.None? then None else Some(end.value - 1);
  }

  /** The last token of the expression that starts at `start`. */
  ghost predicate IsLast(marks: seq<Mark>, start: nat, last: nat) {
    Derives(marks, start, last + 1) && !Continues(marks, last + 1)
  }

  lemma LastOfOrIff(marks: seq<Mark>, start: nat, last: nat)
    requires start <= |marks|
    ensures LastOfOr(marks, start) == Some(last) <==> IsLast(marks, start, last)
  {
    OrEndIff(marks, start, last + 1);
  }

  /** A label predicate is a marker and a label expression that ends at its last token. */
  lemma PredicateEndIff(tokens: seq<Token>, start: nat, last: nat)
    ensures PredicateEnd(tokens, start) == Some(last)
        <==> IsMarker(tokens, start) && IsLast(Marks(tokens), start + 1, last)
  {
    var marks := Marks(tokens);
    if IsMarker(tokens, start) {
      LastOfOrIff(marks, start + 1, last);
    }
  }

  // ---------- legacy relationship types ----------

  predicate HasColon(marks: seq<Mark>, lo: nat, hi: nat) {
    exists i :: lo <= i < hi && i < |marks| && marks[i].Col?
  }

  /** name ('|' ':' name)* on the range lo..hi */
  predicate PipedNames(marks: seq<Mark>, lo: nat, hi: nat)
    decreases hi - lo
  {
    && lo < hi && Is(marks, lo, LabelName)
    && (|| lo + 1 == hi
        || (lo + 2 < hi && Is(marks, lo + 1, Bar) && Is(marks, lo + 2, Col) && PipedNames(marks, lo + 3, hi)))
  }

  /** name (':' name)* on the range lo..hi */
  predicate ColonNames(marks: seq<Mark>, lo: nat, hi: nat)
    decreases hi - lo
  {
    && lo < hi && Is(marks, lo, LabelName)
    && (lo + 1 == hi || (lo + 1 < hi && Is(marks, lo + 1, Col) && ColonNames(marks, lo + 2, hi)))
  }

  /** An expression with inner colons must be `:A|:B|...`. */
  function RelationshipEnd(tokens: seq<Token>, start: nat): (r: Option<nat>)
    ensures r.Some? ==> start < r.value < |tokens|
  {
    var end := PredicateEnd(tokens, start);
    if end.Some? && IsPiped(Marks(tokens), start + 1, end.value + 1) then end else None
  }

  predicate IsPiped(marks: seq<Mark>, lo: nat, hi: nat) {
    !HasColon(marks, lo, hi) || PipedNames(marks, lo, hi)
  }

  method FindColon(marks: seq<Mark>, lo: nat, hi: nat) returns (found: bool)
    requires lo <= hi <= |marks|
    ensures found == HasColon(marks, lo, hi)
  {
    for index := lo to hi
      invariant !HasColon(marks, lo, index)
    {
      if marks[index].Col? {
        return true;
      }
    }
    found := false;
  }

  /** `relationship_label_end`. */
  method RelationshipLabelEnd(tokens: seq<Token>, start: nat) returns (r: Option<nat>)
    ensures r == RelationshipEnd(tokens, start)
  {
    r := LabelPredicateEnd(tokens, start);
    if r.Some? {
      var piped := CheckPiped(Marks(tokens), start + 1, r.value);
      r := if piped then r else None;
    }
  }

  /** The colon rule on the marks from lo to end. */
  method CheckPiped(marks: seq<Mark>, lo: nat, end: nat) returns (r: bool)
    requires lo <= end < |marks|
    ensures r == IsPiped(marks, lo, end + 1)
  {
    var found := FindColon(marks, lo, end + 1);
    if !found {
      return true;
    }
    ghost var piped := PipedNames(marks, lo, end + 1);
    var cursor := lo;
    while true
      invariant lo <= cursor
      invariant piped == PipedNames(marks, cursor, end + 1)
      decreases end + 3 - cursor
    {
      if cursor > end || !marks[cursor].LabelName? {
        return false;
      }
      cursor := cursor + 1;
      if cursor > end {
        return true;
      }
      if !marks[cursor].Bar? || !Is(marks, cursor + 1, Col) {
        return false;
      }
      cursor := cursor + 2;
    }
  }

  /** What a fragment must look like to be normalised. */
  predicate Consistent(marks: seq<Mark>) {
    || !HasColon(marks, 1, |marks|)
    || (marks[0].Col? && (PipedNames(marks, 1, |marks|) || ColonNames(marks, 1, |marks|)))
  }

  /** `legacy_label_tokens_are_consistent`. */
  method LegacyLabelTokensAreConsistent(marks: seq<Mark>) returns (r: bool)
    ensures r == Consistent(marks)
  {
    var hasInternalColon := false;
    if |marks| > 1 {
      hasInternalColon := FindColon(marks, 1, |marks|);
    }
    if !hasInternalColon {
      return true;
    }
    if !marks[0].Col? || !Is(marks, 1, LabelName) {
      return false;
    }
    r := CheckNames(marks, Is(marks, 2, Bar));
  }

  /** The names after the first, each behind `|:` or each behind `:`. */
  method CheckNames(marks: seq<Mark>, pipeSeparated: bool) returns (r: bool)
    requires |marks| > 1 && marks[1].LabelName?
    ensures r == if pipeSeparated then PipedNames(marks, 1, |marks|) else ColonNames(marks, 1, |marks|)
  {
    var cursor := 2;
    ghost var answer := if pipeSeparated then PipedNames(marks, 1, |marks|) else ColonNames(marks, 1, |marks|);
    while cursor < |marks|
      invariant 2 <= cursor <= |marks| && marks[cursor - 1].LabelName?
      invariant answer == if pipeSeparated then PipedNames(marks, cursor - 1, |marks|)
          else ColonNames(marks, cursor - 1, |marks|)
    {
      if pipeSeparated {
        if !Is(marks, cursor, Bar) || !Is(marks, cursor + 1, Col) {
          return false;
        }
        cursor := cursor + 2;
      } else {
        if !Is(marks, cursor, Col) {
          return false;
        }
        cursor := cursor + 1;
      }
      if !Is(marks, cursor, LabelName) {
        return false;
      }
      cursor := cursor + 1;
    }
    r := true;
  }

  /** The fragment check accepts the parser's name tokens and candidates: the symbolic names. */
  lemma FragmentNamesAreSymbolic(kind: Kind)
    requires !kind.SetAll?
    ensures IsSymbolicName(kind)
       <==> || kind.Identifier? || kind.EscapedIdentifier? || kind.Match? || kind.Path? || kind.Return?
            || IsContextualNameCandidate(kind)
  {
  }

  lemma {:induction false} PipedNamesShift(marks: seq<Mark>, lo: nat, hi: nat, start: nat)
    requires start <= lo && hi <= |marks| && start <= hi
    ensures PipedNames(marks, lo, hi) == PipedNames(marks[start..hi], lo - start, hi - start)
    decreases hi - lo
  {
    if lo + 3 < hi {
      PipedNamesShift(marks, lo + 3, hi, start);
    }
  }

  lemma HasColonShift(marks: seq<Mark>, start: nat, hi: nat)
    requires start < hi <= |marks|
    ensures HasColon(marks, start + 1, hi) <==> HasColon(marks[start..hi], 1, hi - start)
  {
    var slice := marks[start..hi];
    if HasColon(marks, start + 1, hi) {
      var i :| start + 1 <= i < hi && i < |marks| && marks[i].Col?;
      assert slice[i - start] == marks[i];
    }
  }

  /** A slice that the folding recogniser accepts passes the fragment's check exactly when it
      starts with a colon or has no inner colon. */
  lemma RelationshipSliceConsistent(tokens: seq<Token>, start: nat, end: nat)
    requires RelationshipEnd(tokens, start) == Some(end)
    ensures Consistent(Marks(tokens[start..end + 1]))
       <==> IsColonAt(tokens, start) || !HasColon(Marks(tokens), start + 1, end + 1)
  {
    var marks := Marks(tokens);
    assert Marks(tokens[start..end + 1]) == marks[start..end + 1];
    HasColonShift(marks, start, end + 1);
    PipedNamesShift(marks, start + 1, end + 1, start);
  }

  predicate IsRelationshipLabelStart(tokens: seq<Token>, start: nat) {
    && IsColonAt(tokens, start) && start > 0
    && (|| tokens[start - 1].kind.LeftBracket?
        || (IsSymbolicName(tokens[start - 1].kind) && start >= 2 && tokens[start - 2].kind.LeftBracket?))
  }

  /** Where folding uses the recogniser, the fragment's check never rejects its slice. */
  lemma FoldedRelationshipIsConsistent(tokens: seq<Token>, start: nat, end: nat)
    requires IsRelationshipLabelStart(tokens, start) && RelationshipEnd(tokens, start) == Some(end)
    ensures Consistent(Marks(tokens[start..end + 1]))
  {
    RelationshipSliceConsistent(tokens, start, end);
  }
}
