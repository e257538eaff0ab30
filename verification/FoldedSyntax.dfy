/** What the folding scanners for names and patterns find, against the brackets that are partners. */
module FoldedSyntax {
  import opened Tokens
  import opened Folding
  import Delimiters

  /** Tokens i and j are partners. */
  ghost predicate IsPair(scan: seq<Token>, i: nat, j: nat) {
    Delimiters.Pairs(Delimiters.Shapes(scan), i, j)
  }

  predicate OpensAt(scan: seq<Token>, i: nat, bracket: Delimiters.Bracket) {
    i < |scan| && Delimiters.ShapeOf(scan[i].kind) == Delimiters.Opening(bracket)
  }

  // ---------- the syntax of a pattern chain ----------

  /** `-`, `←` or `<-`. */
  predicate IsTail(scan: seq<Token>, lo: nat, hi: nat) {
    || (hi == lo + 1 <= |scan| && (scan[lo].kind.Minus? || scan[lo].kind.LeftArrow?))
    || (hi == lo + 2 <= |scan| && scan[lo].kind.Less? && scan[lo + 1].kind.Minus?)
  }

  /** `->`, `-` or `→`. */
  predicate IsHead(scan: seq<Token>, lo: nat, hi: nat) {
    || (hi == lo + 2 <= |scan| && scan[lo].kind.Minus? && scan[lo + 1].kind.Greater?)
    || (hi == lo + 1 <= |scan| && (scan[lo].kind.Minus? || scan[lo].kind.RightArrow?))
  }

  /** Nothing, or a bracket up to its partner. */
  ghost predicate IsPart(scan: seq<Token>, lo: nat, hi: nat, bracket: Delimiters.Bracket) {
    hi == lo || (lo < hi && OpensAt(scan, lo, bracket) && IsPair(scan, lo, hi - 1))
  }

  /** `*`, `+`, `?`, a pair of braces, or nothing. */
  ghost predicate IsQuantifier(scan: seq<Token>, lo: nat, hi: nat) {
    || (hi == lo + 1 <= |scan| && IsMark(scan[lo].kind))
    || IsPart(scan, lo, hi, Delimiters.Curly)
  }

  predicate IsMark(kind: Kind) {
    kind.Star? || kind.Plus? || kind.Question?
  }

  ghost predicate IsArrow(scan: seq<Token>, lo: nat, a: nat, b: nat, c: nat, hi: nat) {
    && IsTail(scan, lo, a) && IsPart(scan, a, b, Delimiters.Square)
    && IsHead(scan, b, c) && IsQuantifier(scan, c, hi)
  }

  /** Tail, optional details in square brackets, head, optional quantifier. */
  ghost predicate IsRelationship(scan: seq<Token>, lo: nat, hi: nat) {
    exists a: nat, b: nat, c: nat :: IsArrow(scan, lo, a, b, c, hi)
  }

  ghost predicate IsNode(scan: seq<Token>, lo: nat, end: nat) {
    OpensAt(scan, lo, Delimiters.Round) && IsPair(scan, lo, end)
  }

  /** Behind the node that ends at `end` stand a relationship and a node that ends at `next`. */
  ghost predicate IsLink(scan: seq<Token>, end: nat, next: nat) {
    exists node: nat :: IsLinkBy(scan, end, node, next)
  }

  ghost predicate IsLinkBy(scan: seq<Token>, end: nat, node: nat, next: nat) {
    IsRelationship(scan, end + 1, node) && IsNode(scan, node, next)
  }

  ghost predicate AreLinked(scan: seq<Token>, ends: seq<nat>) {
    forall i, j :: 0 <= i && j == i + 1 && j < |ends| ==> IsLink(scan, ends[i], ends[j])
  }

  ghost predicate IsLast(scan: seq<Token>, end: nat) {
    forall next: nat :: !IsLink(scan, end, next)
  }

  /** node (relationship node)+, and no relationship and node behind it. The nodes end at `ends`. */
  ghost predicate IsPattern(scan: seq<Token>, start: nat, ends: seq<nat>, end: nat) {
    && |ends| >= 2 && IsNode(scan, start, ends[0]) && AreLinked(scan, ends)
    && ends[|ends| - 1] == end && IsLast(scan, end)
  }

  // ---------- words that a chain does not leave ----------

  /** The tokens of `scan` from `start` to `hi`. */
  datatype Word = Word(scan: seq<Token>, start: nat, hi: nat)

  /** What a part of a relationship, other than `<`, may end with. */
  predicate IsConnective(kind: Kind) {
    || kind.Minus? || kind.LeftArrow? || kind.RightArrow? || kind.Greater? || IsMark(kind)
    || kind.RightBracket? || kind.RightBrace?
  }

  /** The word is well nested. It ends where the tokens end, at a closing bracket, or at an
      opening one that does not stand directly behind a part of a relationship. */
  ghost predicate IsWord(w: Word) {
    && w.start <= w.hi <= |w.scan|
    && Delimiters.Nested(Delimiters.Shapes(w.scan), w.start, w.hi)
    && (|| w.hi == |w.scan| || IsCloser(w.scan[w.hi].kind)
        || (w.start < w.hi && IsOpener(w.scan[w.hi].kind) && !IsConnective(w.scan[w.hi - 1].kind)))
  }

  /** Inside the word, and if at its end, then not at an opening bracket. */
  ghost predicate Reaches(w: Word, i: nat) {
    w.start <= i <= w.hi <= |w.scan| && (i == w.hi < |w.scan| ==> IsCloser(w.scan[i].kind))
  }

  lemma PartnerIffPair(w: Word, i: nat, bracket: Delimiters.Bracket)
    requires IsWord(w) && OpensAt(w.scan, i, bracket) && w.start <= i < w.hi
    ensures Partner(w.scan, i, bracket).Some? && Partner(w.scan, i, bracket).value < w.hi
    ensures forall j: nat :: Partner(w.scan, i, bracket) == Some(j) <==> IsPair(w.scan, i, j)
  {
    var shapes := Delimiters.Shapes(w.scan);
    Delimiters.MatchIffPairs(shapes, w.start, w.hi, i, 0);
    assert Delimiters.HasPartner(shapes, i, w.hi);
    forall j: nat ensures Partner(w.scan, i, bracket) == Some(j) <==> IsPair(w.scan, i, j) {
      Delimiters.MatchIffPairs(shapes, w.start, w.hi, i, j);
    }
    var j: nat :| j < w.hi && Delimiters.Pairs(shapes, i, j);
    assert IsPair(w.scan, i, j);
  }

  /** A closing bracket behind which the relationship goes on is a connective. */
  lemma ClosesReach(w: Word, i: nat, bracket: Delimiters.Bracket)
    requires IsWord(w) && w.start < i <= w.hi && !bracket.Round?
    requires Delimiters.ShapeOf(w.scan[i - 1].kind) == Delimiters.Closing(bracket)
    ensures Reaches(w, i)
  {
  }

  lemma BracketedIsPart(w: Word, lo: nat, bracket: Delimiters.Bracket)
    requires IsWord(w) && Reaches(w, lo) && !bracket.Round?
    ensures Bracketed(w.scan, lo, bracket).Some?
    ensures var hi := Bracketed(w.scan, lo, bracket).value; IsPart(w.scan, lo, hi, bracket) && Reaches(w, hi)
  {
    if OpensAt(w.scan, lo, bracket) {
      PartnerIffPair(w, lo, bracket);
      var close := Partner(w.scan, lo, bracket).value;
      assert IsPair(w.scan, lo, close);
      ClosesReach(w, close + 1, bracket);
    }
  }

  lemma PartIsBracketed(w: Word, lo: nat, hi: nat, bracket: Delimiters.Bracket)
    requires IsWord(w) && Reaches(w, lo) && !bracket.Round?
    requires IsPart(w.scan, lo, hi, bracket) && !OpensAt(w.scan, hi, bracket)
    ensures Bracketed(w.scan, lo, bracket) == Some(hi) && Reaches(w, hi)
  {
    BracketedIsPart(w, lo, bracket);
    if OpensAt(w.scan, lo, bracket) {
      PartnerIffPair(w, lo, bracket);
    }
  }

  // ---------- the scanner's steps ----------

  lemma QuantifiedIsQuantifier(w: Word, lo: nat)
    requires IsWord(w) && Reaches(w, lo)
    ensures Quantified(w.scan, lo).Some?
    ensures var hi := Quantified(w.scan, lo).value; IsQuantifier(w.scan, lo, hi) && Reaches(w, hi)
  {
    if lo == |w.scan| || !IsMark(w.scan[lo].kind) {
      BracketedIsPart(w, lo, Delimiters.Curly);
    }
  }

  lemma QuantifierIsQuantified(w: Word, lo: nat, hi: nat)
    requires IsWord(w) && Reaches(w, lo) && IsQuantifier(w.scan, lo, hi) && IsOpenAt(w.scan, hi)
    ensures Quantified(w.scan, lo) == Some(hi) && Reaches(w, hi)
  {
    if lo == |w.scan| || !IsMark(w.scan[lo].kind) {
      PartIsBracketed(w, lo, hi, Delimiters.Curly);
    }
  }

  lemma TailIff(scan: seq<Token>, lo: nat, hi: nat)
    ensures ArrowTail(scan, lo) == Some(hi) <==> IsTail(scan, lo, hi)
  {
  }

  lemma TailReaches(w: Word, lo: nat, hi: nat)
    requires IsWord(w) && w.start <= lo <= w.hi && IsTail(w.scan, lo, hi)
    ensures Reaches(w, hi)
  {
  }

  lemma HeadReaches(w: Word, lo: nat, hi: nat)
    requires IsWord(w) && Reaches(w, lo) && IsHead(w.scan, lo, hi)
    ensures Reaches(w, hi)
  {
  }

  /** The longer arrow head is the right one, for neither a quantifier nor a node begins with `>`. */
  lemma HeadIsRead(scan: seq<Token>, lo: nat, hi: nat, node: nat)
    requires IsHead(scan, lo, hi) && IsQuantifier(scan, hi, node) && IsOpenAt(scan, node)
    ensures ArrowHead(scan, lo) == Some(hi)
  {
  }

  lemma HeadIsHead(scan: seq<Token>, lo: nat)
    ensures ArrowHead(scan, lo).Some? ==> IsHead(scan, lo, ArrowHead(scan, lo).value)
  {
  }

  lemma HeadOpensNothing(scan: seq<Token>, lo: nat, hi: nat)
    requires IsHead(scan, lo, hi)
    ensures !OpensAt(scan, lo, Delimiters.Square)
  {
  }

  /** What is read as a relationship without its quantifier is one. */
  lemma SyntaxIsRead(w: Word, lo: nat) returns (a: nat, b: nat, c: nat)
    requires IsWord(w) && w.start <= lo <= w.hi && RelationshipSyntaxEnd(w.scan, lo).Some?
    ensures IsTail(w.scan, lo, a) && IsPart(w.scan, a, b, Delimiters.Square) && IsHead(w.scan, b, c)
    ensures RelationshipSyntaxEnd(w.scan, lo) == Some(c) && Reaches(w, c)
  {
    a := ArrowTail(w.scan, lo).value;
    TailIff(w.scan, lo, a);
    TailReaches(w, lo, a);
    BracketedIsPart(w, a, Delimiters.Square);
    b := Bracketed(w.scan, a, Delimiters.Square).value;
    c := ArrowHead(w.scan, b).value;
    HeadIsHead(w.scan, b);
    HeadReaches(w, b, c);
  }

  /** The node behind the relationship at lo. */
  function NodeAfter(scan: seq<Token>, lo: nat): (r: Option<nat>)
    ensures r.Some? ==> lo < r.value
  {
    match RelationshipSyntaxEnd(scan, lo)
    case None => None
    case Some(after) => Quantified(scan, after)
  }

  lemma RelationshipIsRead(w: Word, lo: nat, a: nat, b: nat, c: nat, node: nat)
    requires IsWord(w) && w.start <= lo <= w.hi
    requires IsArrow(w.scan, lo, a, b, c, node) && IsOpenAt(w.scan, node)
    ensures NodeAfter(w.scan, lo) == Some(node)
  {
    TailIff(w.scan, lo, a);
    TailReaches(w, lo, a);
    HeadOpensNothing(w.scan, b, c);
    PartIsBracketed(w, a, b, Delimiters.Square);
    HeadIsRead(w.scan, b, c, node);
    HeadReaches(w, b, c);
    assert RelationshipSyntaxEnd(w.scan, lo) == Some(c);
    QuantifierIsQuantified(w, c, node);
  }

  lemma ReadIsRelationship(w: Word, lo: nat)
    requires IsWord(w) && w.start <= lo <= w.hi && NodeAfter(w.scan, lo).Some?
    ensures var node := NodeAfter(w.scan, lo).value; IsRelationship(w.scan, lo, node) && Reaches(w, node)
  {
    var a, b, c := SyntaxIsRead(w, lo);
    QuantifiedIsQuantifier(w, c);
    assert IsArrow(w.scan, lo, a, b, c, NodeAfter(w.scan, lo).value);
  }

  lemma NodeAfterIff(w: Word, lo: nat, node: nat)
    requires IsWord(w) && w.start <= lo <= w.hi && IsOpenAt(w.scan, node)
    ensures NodeAfter(w.scan, lo) == Some(node) <==> IsRelationship(w.scan, lo, node)
    ensures NodeAfter(w.scan, lo) == Some(node) ==> Reaches(w, node)
  {
    if NodeAfter(w.scan, lo) == Some(node) {
      ReadIsRelationship(w, lo);
    }
    forall a: nat, b: nat, c: nat | IsArrow(w.scan, lo, a, b, c, node)
      ensures NodeAfter(w.scan, lo) == Some(node)
    {
      RelationshipIsRead(w, lo, a, b, c, node);
    }
  }

  lemma NodeIff(w: Word, node: nat, end: nat)
    requires IsWord(w) && Reaches(w, node) && IsOpenAt(w.scan, node)
    ensures Partner(w.scan, node, Delimiters.Round) == Some(end) <==> IsNode(w.scan, node, end)
    ensures Partner(w.scan, node, Delimiters.Round).Some?
    ensures Partner(w.scan, node, Delimiters.Round).value < w.hi
  {
    PartnerIffPair(w, node, Delimiters.Round);
  }

  /** The end of the next node. */
  function NextEnd(scan: seq<Token>, end: nat): (r: Option<nat>)
    ensures r.Some? ==> end < r.value < |scan|
  {
    match NodeAfter(scan, end + 1)
    case None => None
    case Some(node) => if IsOpenAt(scan, node) then Partner(scan, node, Delimiters.Round) else None
  }

  lemma NextIsLink(w: Word, end: nat)
    requires IsWord(w) && w.start <= end < w.hi && NextEnd(w.scan, end).Some?
    ensures IsLink(w.scan, end, NextEnd(w.scan, end).value) && NextEnd(w.scan, end).value < w.hi
  {
    var node, next := NodeAfter(w.scan, end + 1).value, NextEnd(w.scan, end).value;
    NodeAfterIff(w, end + 1, node);
    NodeIff(w, node, next);
    assert IsLinkBy(w.scan, end, node, next);
  }

  lemma LinkIsNext(w: Word, end: nat, node: nat, next: nat)
    requires IsWord(w) && w.start <= end < w.hi && IsLinkBy(w.scan, end, node, next)
    ensures NextEnd(w.scan, end) == Some(next)
  {
    assert IsOpenAt(w.scan, node);
    assert NodeAfter(w.scan, end + 1) == Some(node) && Reaches(w, node) by {
      NodeAfterIff(w, end + 1, node);
    }
    assert Partner(w.scan, node, Delimiters.Round) == Some(next) by {
      NodeIff(w, node, next);
    }
  }

  /** One turn of the loop: the next node, or the end of the chain. */
  lemma ChainStep(w: Word, end: nat, isChain: bool)
    requires IsWord(w) && w.start <= end < w.hi
    ensures ChainFrom(w.scan, end, isChain)
         == if NextEnd(w.scan, end).Some? then ChainFrom(w.scan, NextEnd(w.scan, end).value, true)
            else if isChain then Some(end) else None
  {
    if RelationshipSyntaxEnd(w.scan, end + 1).Some? {
      var a, b, c := SyntaxIsRead(w, end + 1);
      QuantifiedIsQuantifier(w, c);
      var node := Quantified(w.scan, c).value;
      if IsOpenAt(w.scan, node) {
        NodeIff(w, node, 0);
      }
    }
  }

  lemma StepsToLink(w: Word, end: nat)
    requires IsWord(w) && w.start <= end < w.hi
    ensures forall next: nat :: NextEnd(w.scan, end) == Some(next) <==> IsLink(w.scan, end, next)
    ensures NextEnd(w.scan, end).None? <==> IsLast(w.scan, end)
    ensures NextEnd(w.scan, end).Some? ==> NextEnd(w.scan, end).value < w.hi
  {
    if NextEnd(w.scan, end).Some? {
      NextIsLink(w, end);
    }
    forall next: nat, node: nat | IsLinkBy(w.scan, end, node, next)
      ensures NextEnd(w.scan, end) == Some(next)
    {
      LinkIsNext(w, end, node, next);
    }
  }

  // ---------- whole chains ----------

  lemma {:induction false} ChainIsLinked(w: Word, end: nat, isChain: bool) returns (ends: seq<nat>)
    requires IsWord(w) && w.start <= end < w.hi && ChainFrom(w.scan, end, isChain).Some?
    ensures ends != [] && ends[0] == end && (isChain || |ends| >= 2) && AreLinked(w.scan, ends)
    ensures ChainFrom(w.scan, end, isChain) == Some(ends[|ends| - 1]) && IsLast(w.scan, ends[|ends| - 1])
    decreases w.hi - end
  {
    ChainStep(w, end, isChain);
    StepsToLink(w, end);
    ends := [end];
    if NextEnd(w.scan, end).Some? {
      var rest := ChainIsLinked(w, NextEnd(w.scan, end).value, true);
      ends := [end] + rest;
    }
  }

  lemma {:induction false} LinkedIsChain(w: Word, ends: seq<nat>, isChain: bool)
    requires IsWord(w) && ends != [] && w.start <= ends[0] < w.hi && (isChain || |ends| >= 2)
    requires AreLinked(w.scan, ends) && IsLast(w.scan, ends[|ends| - 1])
    ensures ChainFrom(w.scan, ends[0], isChain) == Some(ends[|ends| - 1])
    decreases |ends|
  {
    ChainStep(w, ends[0], isChain);
    StepsToLink(w, ends[0]);
    if |ends| > 1 {
      assert IsLink(w.scan, ends[0], ends[1]);
      LinkedIsChain(w, ends[1..], true);
    }
  }

  /** In a well-nested word the scanner ends exactly the longest chain of nodes and relationships. */
  lemma PatternEndIff(w: Word, end: nat)
    requires IsWord(w)
    ensures PatternEnd(w.scan, w.start) == Some(end) <==> exists ends :: IsPattern(w.scan, w.start, ends, end)
  {
    if IsOpenAt(w.scan, w.start) {
      PartnerIffPair(w, w.start, Delimiters.Round);
      var first := Partner(w.scan, w.start, Delimiters.Round).value;
      if PatternEnd(w.scan, w.start) == Some(end) {
        var ends := ChainIsLinked(w, first, false);
        assert IsPattern(w.scan, w.start, ends, end);
      }
      forall ends | IsPattern(w.scan, w.start, ends, end)
        ensures PatternEnd(w.scan, w.start) == Some(end)
      {
        LinkedIsChain(w, ends, false);
      }
    }
  }

  // ---------- dotted names ----------

  predicate NameOrDot(tokens: seq<Token>, first: nat, k: nat)
    requires first <= k
  {
    if (k - first) % 2 == 0 then IsNameAt(tokens, k) else IsDotAt(tokens, k)
  }

  /** Names and dots in turn, from a name at `first` up to a dot directly in front of `end`. */
  ghost predicate IsDotted(tokens: seq<Token>, first: nat, end: nat) {
    && first <= end && (end - first) % 2 == 0
    && forall k: nat :: first <= k < end ==> NameOrDot(tokens, first, k)
  }

  lemma DottedHead(tokens: seq<Token>, first: nat, end: nat)
    requires first < end
    ensures IsDotted(tokens, first, end)
       <==> && first + 2 <= end && IsNameAt(tokens, first) && IsDotAt(tokens, first + 1)
            && IsDotted(tokens, first + 2, end)
  {
    if IsDotted(tokens, first, end) {
      var second := first + 2;
      assert NameOrDot(tokens, first, first) && NameOrDot(tokens, first, first + 1);
      forall k: nat | second <= k < end ensures NameOrDot(tokens, second, k) {
        assert NameOrDot(tokens, first, k);
      }
    } else if first + 2 <= end && IsDotted(tokens, first + 2, end) {
      var k: nat :| (end - first) % 2 == 0 ==> first <= k < end && !NameOrDot(tokens, first, k);
      assert first + 2 <= k ==> NameOrDot(tokens, first + 2, k);
    }
  }

  lemma DottedLast(tokens: seq<Token>, first: nat, end: nat)
    requires first < end && IsDotted(tokens, first, end)
    ensures first + 2 <= end && IsNameAt(tokens, end - 2) && IsDotAt(tokens, end - 1)
    ensures IsDotted(tokens, first, end - 2)
  {
    assert NameOrDot(tokens, first, end - 1) && NameOrDot(tokens, first, end - 2);
  }

  lemma {:induction false} PathIsDotted(tokens: seq<Token>, start: nat)
    requires IsNameAt(tokens, start)
    ensures IsDotted(tokens, start, PathEnd(tokens, start)) && IsNameAt(tokens, PathEnd(tokens, start))
    decreases |tokens| - start
  {
    if IsDotAt(tokens, start + 1) && IsNameAt(tokens, start + 2) {
      PathIsDotted(tokens, start + 2);
      DottedHead(tokens, start, PathEnd(tokens, start));
    }
  }

  lemma {:induction false} DottedIsPath(tokens: seq<Token>, start: nat, end: nat)
    requires IsDotted(tokens, start, end) && IsNameAt(tokens, end) && start < |tokens|
    ensures PathEnd(tokens, start) == PathEnd(tokens, end)
    decreases end - start
  {
    if start < end {
      DottedHead(tokens, start, end);
      if start + 2 < end {
        DottedHead(tokens, start + 2, end);
      }
      DottedIsPath(tokens, start + 2, end);
    }
  }

  /** A qualified function name: names and dots in turn, two names at least, and a
      parenthesis directly behind the last one. */
  lemma QualifiedEndIff(tokens: seq<Token>, start: nat, end: nat)
    ensures QualifiedEnd(tokens, start) == Some(end)
       <==> start < end && IsDotted(tokens, start, end) && IsNameAt(tokens, end) && IsOpenAt(tokens, end + 1)
  {
    if QualifiedEnd(tokens, start) == Some(end) {
      PathIsDotted(tokens, start);
    }
    if start < end && IsDotted(tokens, start, end) && IsNameAt(tokens, end) && IsOpenAt(tokens, end + 1) {
      DottedHead(tokens, start, end);
      DottedIsPath(tokens, start, end);
    }
  }

  lemma {:induction false} PathStartsDotted(tokens: seq<Token>, i: nat)
    ensures IsDotted(tokens, PathStart(tokens, i), i)
    decreases i
  {
    if i >= 2 && IsDotAt(tokens, i - 1) && IsNameAt(tokens, i - 2) {
      PathStartsDotted(tokens, i - 2);
      var first := PathStart(tokens, i);
      forall k: nat | first <= k < i ensures NameOrDot(tokens, first, k) {
        assert k < i - 2 ==> NameOrDot(tokens, first, k);
      }
    }
  }

  lemma {:induction false} DottedStarts(tokens: seq<Token>, first: nat, i: nat)
    requires IsDotted(tokens, first, i)
    ensures PathStart(tokens, i) == PathStart(tokens, first)
    decreases i
  {
    if first < i {
      DottedLast(tokens, first, i);
      DottedStarts(tokens, first, i - 2);
    }
  }

  /** A name belongs to a procedure call exactly when `CALL` stands in front of names and dots
      in turn that lead up to it. */
  lemma ProcedureNameIff(tokens: seq<Token>, start: nat)
    ensures IsProcedureName(tokens, start)
       <==> exists first: nat :: 0 < first <= |tokens| && IsDotted(tokens, first, start) && tokens[first - 1].kind.Call?
  {
    PathStartsDotted(tokens, start);
    forall first: nat | 0 < first <= |tokens| && IsDotted(tokens, first, start) && tokens[first - 1].kind.Call?
      ensures IsProcedureName(tokens, start)
    {
      DottedStarts(tokens, first, start);
    }
  }
}
