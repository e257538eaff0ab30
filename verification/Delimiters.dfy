/** Bracket checking, bracket matching and top-level positions, against well-nested words. */
module Delimiters {
  import opened Tokens
  import opened StrictQuery

  datatype Bracket = Round | Square | Curly

  /** What the bracket scanners see of a token. */
  datatype Shape = Opening(bracket: Bracket) | Closing(bracket: Bracket) | Ordinary

  function ShapeOf(kind: Kind): (s: Shape)
    ensures s.Opening? <==> IsOpener(kind)
    ensures s.Closing? <==> IsCloser(kind)
    ensures kind.LeftParen? <==> s == Opening(Round)
    ensures kind.LeftBracket? <==> s == Opening(Square)
    ensures kind.RightParen? <==> s == Closing(Round)
    ensures kind.RightBracket? <==> s == Closing(Square)
  {
    match kind
    case LeftParen => Opening(Round)
    case LeftBracket => Opening(Square)
    case LeftBrace => Opening(Curly)
    case RightParen => Closing(Round)
    case RightBracket => Closing(Square)
    case RightBrace => Closing(Curly)
    case _ => Ordinary
  }

  function Shapes(tokens: seq<Token>): (s: seq<Shape>)
    ensures |s| == |tokens| && forall i :: 0 <= i < |s| ==> s[i] == ShapeOf(tokens[i].kind)
  {
    seq(|tokens|, i requires 0 <= i < |tokens| => ShapeOf(tokens[i].kind))
  }

  predicate Partners(open: Shape, close: Shape) {
    open.Opening? && close.Closing? && open.bracket == close.bracket
  }

  // ---------- well-nested words ----------

  /** W = empty | plain | open W close | W W */
  datatype Nesting = Empty | Plain | Wrap(inside: Nesting) | Join(left: Nesting, right: Nesting)

  function Width(t: Nesting): nat {
    match t
    case Empty => 0
    case Plain => 1
    case Wrap(inside) => 2 + Width(inside)
    case Join(left, right) => Width(left) + Width(right)
  }

  /** The shapes from lo on are a word with this nesting. */
  ghost predicate Fits(shapes: seq<Shape>, lo: nat, t: Nesting)
    decreases t
  {
    match t
    case Empty => true
    case Plain => lo < |shapes| && shapes[lo].Ordinary?
    case Wrap(inside) => Encloses(shapes, lo, lo + 1 + Width(inside)) && Fits(shapes, lo + 1, inside)
    case Join(left, right) => Fits(shapes, lo, left) && Fits(shapes, lo + Width(left), right)
  }

  /** Tokens i and j are brackets of the same shape. */
  ghost predicate Encloses(shapes: seq<Shape>, i: nat, j: nat) {
    i < j < |shapes| && Partners(shapes[i], shapes[j])
  }

  ghost predicate NestedBy(shapes: seq<Shape>, lo: nat, hi: nat, t: Nesting) {
    Fits(shapes, lo, t) && hi == lo + Width(t) <= |shapes|
  }

  /** The shapes from lo to hi are a well-nested word. */
  ghost predicate Nested(shapes: seq<Shape>, lo: nat, hi: nat) {
    exists t :: NestedBy(shapes, lo, hi, t)
  }

  /** Tokens i and j are a pair of brackets around a well-nested word. */
  ghost predicate Pairs(shapes: seq<Shape>, i: nat, j: nat) {
    Encloses(shapes, i, j) && Nested(shapes, i + 1, j)
  }

  lemma NestedConcat(shapes: seq<Shape>, lo: nat, mid: nat, hi: nat)
    requires Nested(shapes, lo, mid) && Nested(shapes, mid, hi)
    ensures Nested(shapes, lo, hi)
  {
    var t :| NestedBy(shapes, lo, mid, t);
    var u :| NestedBy(shapes, mid, hi, u);
    assert NestedBy(shapes, lo, hi, Join(t, u));
  }

  lemma NestedOne(shapes: seq<Shape>, i: nat)
    requires i < |shapes| && shapes[i].Ordinary?
    ensures Nested(shapes, i, i + 1)
  {
    assert NestedBy(shapes, i, i + 1, Plain);
  }

  lemma NestedPair(shapes: seq<Shape>, i: nat, j: nat)
    requires Pairs(shapes, i, j)
    ensures Nested(shapes, i, j + 1)
  {
    var t :| NestedBy(shapes, i + 1, j, t);
    assert NestedBy(shapes, i, j + 1, Wrap(t));
  }

  lemma NestedNone(shapes: seq<Shape>, i: nat)
    requires i <= |shapes|
    ensures Nested(shapes, i, i)
  {
    assert NestedBy(shapes, i, i, Empty);
  }

  ghost predicate KeepsOne(shapes: seq<Shape>, rel: (nat, nat) -> bool, i: nat) {
    && (i <= |shapes| ==> rel(i, i))
    && (i < |shapes| && shapes[i].Ordinary? ==> rel(i, i + 1))
  }

  ghost predicate KeepsWrap(shapes: seq<Shape>, rel: (nat, nat) -> bool, i: nat, j: nat) {
    Encloses(shapes, i, j) && rel(i + 1, j) ==> rel(i, j + 1)
  }

  ghost predicate KeepsJoin(shapes: seq<Shape>, rel: (nat, nat) -> bool, a: nat, b: nat, c: nat) {
    a <= b <= c <= |shapes| && rel(a, b) && rel(b, c) ==> rel(a, c)
  }

  /** A relation between positions that the four ways to form a word keep. */
  ghost predicate IsKept(shapes: seq<Shape>, rel: (nat, nat) -> bool) {
    && (forall i: nat :: KeepsOne(shapes, rel, i))
    && (forall i: nat, j: nat :: KeepsWrap(shapes, rel, i, j))
    && (forall a: nat, b: nat, c: nat :: KeepsJoin(shapes, rel, a, b, c))
  }

  lemma WrapKept(shapes: seq<Shape>, rel: (nat, nat) -> bool, i: nat, j: nat)
    requires IsKept(shapes, rel) && Encloses(shapes, i, j) && rel(i + 1, j)
    ensures rel(i, j + 1)
  {
    assert KeepsWrap(shapes, rel, i, j);
  }

  lemma JoinKept(shapes: seq<Shape>, rel: (nat, nat) -> bool, a: nat, b: nat, c: nat)
    requires IsKept(shapes, rel) && a <= b <= c <= |shapes| && rel(a, b) && rel(b, c)
    ensures rel(a, c)
  {
    assert KeepsJoin(shapes, rel, a, b, c);
  }

  lemma OneKept(shapes: seq<Shape>, rel: (nat, nat) -> bool, i: nat)
    requires IsKept(shapes, rel) && i <= |shapes|
    ensures rel(i, i)
    ensures i < |shapes| && shapes[i].Ordinary? ==> rel(i, i + 1)
  {
    assert KeepsOne(shapes, rel, i);
  }

  lemma {:induction false} KeptByTree(shapes: seq<Shape>, rel: (nat, nat) -> bool, lo: nat, hi: nat, t: Nesting)
    requires IsKept(shapes, rel) && NestedBy(shapes, lo, hi, t)
    ensures rel(lo, hi)
    decreases t, 1
  {
    if t.Wrap? {
      KeptByWrap(shapes, rel, lo, hi, t);
    } else if t.Join? {
      KeptByJoin(shapes, rel, lo, hi, t);
    } else {
      OneKept(shapes, rel, lo);
    }
  }

  lemma {:induction false} KeptByWrap(shapes: seq<Shape>, rel: (nat, nat) -> bool, lo: nat, hi: nat, t: Nesting)
    requires IsKept(shapes, rel) && t.Wrap? && NestedBy(shapes, lo, hi, t)
    ensures rel(lo, hi)
    decreases t, 0
  {
    KeptByTree(shapes, rel, lo + 1, hi - 1, t.inside);
    WrapKept(shapes, rel, lo, hi - 1);
  }

  lemma {:induction false} KeptByJoin(shapes: seq<Shape>, rel: (nat, nat) -> bool, lo: nat, hi: nat, t: Nesting)
    requires IsKept(shapes, rel) && t.Join? && NestedBy(shapes, lo, hi, t)
    ensures rel(lo, hi)
    decreases t, 0
  {
    var middle := lo + Width(t.left);
    KeptByTree(shapes, rel, lo, middle, t.left);
    KeptByTree(shapes, rel, middle, hi, t.right);
    JoinKept(shapes, rel, lo, middle, hi);
  }

  /** Induction over well-nested words. */
  lemma Kept(shapes: seq<Shape>, rel: (nat, nat) -> bool, lo: nat, hi: nat)
    requires IsKept(shapes, rel) && Nested(shapes, lo, hi)
    ensures rel(lo, hi)
  {
    var t :| NestedBy(shapes, lo, hi, t);
    KeptByTree(shapes, rel, lo, hi, t);
  }

  // ---------- the checker ----------

  /** What becomes of a bracket. The last three are diagnostics. */
  datatype Event =
    | Matched(open: nat, close: nat)
    | Mismatched(open: nat, close: nat)
    | Unexpected(close: nat)
    | Unclosed(open: nat)

  datatype Open = Open(at: nat, shape: Shape)

  datatype Check = Check(stack: seq<Open>, events: seq<Event>)

  function Close(c: Check, i: nat, shape: Shape): Check {
    if c.stack == [] then c.(events := c.events + [Unexpected(i)])
    else
      var top := c.stack[|c.stack| - 1];
      Check(c.stack[..|c.stack| - 1],
            c.events + [if Partners(top.shape, shape) then Matched(top.at, i) else Mismatched(top.at, i)])
  }

  function Advance(c: Check, i: nat, shape: Shape): Check {
    if shape.Opening? then c.(stack := c.stack + [Open(i, shape)])
    else if shape.Closing? then Close(c, i, shape)
    else c
  }

  function CheckUpTo(shapes: seq<Shape>, n: nat): Check
    requires n <= |shapes|
  {
    if n == 0 then Check([], []) else Advance(CheckUpTo(shapes, n - 1), n - 1, shapes[n - 1])
  }

  function Leftovers(stack: seq<Open>): (r: seq<Event>)
    ensures |r| == |stack| && forall k :: 0 <= k < |r| ==> r[k] == Unclosed(stack[k].at)
  {
    if stack == [] then [] else Leftovers(stack[..|stack| - 1]) + [Unclosed(stack[|stack| - 1].at)]
  }

  /** The fate of every bracket. */
  function Events(shapes: seq<Shape>): seq<Event> {
    var c := CheckUpTo(shapes, |shapes|);
    c.events + Leftovers(c.stack)
  }

  /** The events that are diagnostics. */
  function Diagnostics(events: seq<Event>): seq<Event> {
    if events == [] then []
    else
      var last := events[|events| - 1];
      Diagnostics(events[..|events| - 1]) + if last.Matched? then [] else [last]
  }

  lemma DiagnosticsAppend(events: seq<Event>, event: Event)
    ensures Diagnostics(events + [event]) == Diagnostics(events) + if event.Matched? then [] else [event]
  {
    assert (events + [event])[..|events|] == events;
  }

  /** `collect_delimiter_diagnostics`. */
  method CollectDelimiterDiagnostics(tokens: seq<Token>) returns (diagnostics: seq<Event>)
    ensures diagnostics == Diagnostics(Events(Shapes(tokens)))
  {
    var shapes := Shapes(tokens);
    diagnostics := [];
    var stack: seq<Open> := [];
    ghost var c := CheckUpTo(shapes, 0);
    for index := 0 to |shapes|
      invariant c == CheckUpTo(shapes, index) && stack == c.stack && diagnostics == Diagnostics(c.events)
    {
      var shape := shapes[index];
      c := Advance(c, index, shape);
      if shape.Opening? {
        stack := stack + [Open(index, shape)];
      } else if shape.Closing? {
        ghost var before := CheckUpTo(shapes, index);
        stack, diagnostics := CloseTop(stack, diagnostics, index, shape, before);
      }
    }
    diagnostics := ReportUnclosed(stack, diagnostics, c.events);
  }

  /** Whatever is still open is reported, from the outside in. */
  method ReportUnclosed(stack: seq<Open>, diagnostics: seq<Event>, ghost events: seq<Event>) returns (r: seq<Event>)
    requires diagnostics == Diagnostics(events)
    ensures r == Diagnostics(events + Leftovers(stack))
  {
    r := diagnostics;
    ghost var reported := events;
    for k := 0 to |stack|
      invariant r == Diagnostics(reported) && reported == events + Leftovers(stack)[..k]
    {
      DiagnosticsAppend(reported, Unclosed(stack[k].at));
      r := r + [Unclosed(stack[k].at)];
      reported := reported + [Unclosed(stack[k].at)];
    }
    assert Leftovers(stack)[..|stack|] == Leftovers(stack);
  }

  method CloseTop(stack: seq<Open>, diagnostics: seq<Event>, i: nat, shape: Shape, ghost c: Check)
    returns (stack': seq<Open>, diagnostics': seq<Event>)
    requires stack == c.stack && diagnostics == Diagnostics(c.events)
    ensures stack' == Close(c, i, shape).stack && diagnostics' == Diagnostics(Close(c, i, shape).events)
  {
    DiagnosticsAppend(c.events, Close(c, i, shape).events[|c.events|]);
    if stack == [] {
      return stack, diagnostics + [Unexpected(i)];
    }
    var top := stack[|stack| - 1];
    stack', diagnostics' := stack[..|stack| - 1], diagnostics;
    if !Partners(top.shape, shape) {
      diagnostics' := diagnostics + [Mismatched(top.at, i)];
    }
  }

  // ---------- silence means well nested ----------

  /** Every open bracket is followed by a well-nested word up to the next one, or to n. */
  ghost predicate Stacked(shapes: seq<Shape>, stack: seq<Open>, n: nat) {
    if stack == [] then Nested(shapes, 0, n)
    else
      var top := stack[|stack| - 1];
      && top.at < |shapes| && shapes[top.at] == top.shape && top.shape.Opening?
      && Nested(shapes, top.at + 1, n) && Stacked(shapes, stack[..|stack| - 1], top.at)
  }

  ghost predicate IsSilent(events: seq<Event>) {
    forall k :: 0 <= k < |events| ==> events[k].Matched?
  }

  lemma {:induction false} SilentDiagnostics(events: seq<Event>)
    ensures Diagnostics(events) == [] <==> IsSilent(events)
  {
    if events != [] {
      SilentDiagnostics(events[..|events| - 1]);
      assert forall k :: 0 <= k < |events| - 1 ==> events[k] == events[..|events| - 1][k];
    }
  }

  /** A well-nested word may follow in the top segment. */
  lemma StackedGrows(shapes: seq<Shape>, stack: seq<Open>, n: nat, m: nat)
    requires Stacked(shapes, stack, n) && Nested(shapes, n, m)
    ensures Stacked(shapes, stack, m)
  {
    NestedConcat(shapes, if stack == [] then 0 else stack[|stack| - 1].at + 1, n, m);
  }

  lemma StackedPush(shapes: seq<Shape>, stack: seq<Open>, n: nat)
    requires n < |shapes| && Stacked(shapes, stack, n) && shapes[n].Opening?
    ensures Stacked(shapes, stack + [Open(n, shapes[n])], n + 1)
  {
    var pushed := stack + [Open(n, shapes[n])];
    assert pushed[..|pushed| - 1] == stack;
    NestedNone(shapes, n + 1);
  }

  lemma StackedPop(shapes: seq<Shape>, stack: seq<Open>, n: nat)
    requires n < |shapes| && stack != [] && Stacked(shapes, stack, n) && Partners(stack[|stack| - 1].shape, shapes[n])
    ensures Stacked(shapes, stack[..|stack| - 1], n + 1)
  {
    var top := stack[|stack| - 1];
    assert Nested(shapes, top.at + 1, n);
    assert top.at < n by {
      var t :| NestedBy(shapes, top.at + 1, n, t);
    }
    assert Pairs(shapes, top.at, n);
    NestedPair(shapes, top.at, n);
    StackedGrows(shapes, stack[..|stack| - 1], top.at, n + 1);
  }

  lemma {:induction false} SilentIsStacked(shapes: seq<Shape>, n: nat)
    requires n <= |shapes| && IsSilent(CheckUpTo(shapes, n).events)
    ensures Stacked(shapes, CheckUpTo(shapes, n).stack, n)
  {
    if n == 0 {
      NestedNone(shapes, 0);
    } else {
      var c, shape := CheckUpTo(shapes, n - 1), shapes[n - 1];
      var d := CheckUpTo(shapes, n);
      assert forall k :: 0 <= k < |c.events| ==> c.events[k] == d.events[k];
      SilentIsStacked(shapes, n - 1);
      if shape.Opening? {
        StackedPush(shapes, c.stack, n - 1);
      } else if shape.Closing? {
        assert d.events[|c.events|].Matched?;
        StackedPop(shapes, c.stack, n - 1);
      } else {
        NestedOne(shapes, n - 1);
        StackedGrows(shapes, c.stack, n - 1, n);
      }
    }
  }

  /** From c on, the checker reaches d without a diagnostic and with the same stack. */
  ghost predicate PassesSilently(c: Check, d: Check) {
    c.stack == d.stack && (IsSilent(c.events) ==> IsSilent(d.events))
  }

  /** A step-by-step record of the checker. */
  ghost predicate IsRun(shapes: seq<Shape>, run: nat -> Check) {
    forall i: nat :: i < |shapes| ==> RunsTo(shapes, run, i)
  }

  ghost predicate RunsTo(shapes: seq<Shape>, run: nat -> Check, i: nat)
    requires i < |shapes|
  {
    run(i + 1) == Advance(run(i), i, shapes[i])
  }

  /** An opener, a silent passage and its partner are a silent passage. */
  lemma PairPasses(shapes: seq<Shape>, i: nat, j: nat, run: nat -> Check)
    requires IsRun(shapes, run) && Encloses(shapes, i, j) && PassesSilently(run(i + 1), run(j))
    ensures PassesSilently(run(i), run(j + 1))
  {
    assert RunsTo(shapes, run, i) && RunsTo(shapes, run, j);
  }

  lemma PlainPasses(shapes: seq<Shape>, i: nat, run: nat -> Check)
    requires IsRun(shapes, run) && i < |shapes| && shapes[i].Ordinary?
    ensures PassesSilently(run(i), run(i + 1))
  {
    assert RunsTo(shapes, run, i);
  }

  lemma PassesJoin(a: Check, b: Check, c: Check)
    ensures PassesSilently(a, a)
    ensures PassesSilently(a, b) && PassesSilently(b, c) ==> PassesSilently(a, c)
  {
  }

  /** Reading a well-nested word leaves the stack as it was and reports nothing. */
  lemma NestedPasses(shapes: seq<Shape>, run: nat -> Check, lo: nat, hi: nat)
    requires IsRun(shapes, run) && Nested(shapes, lo, hi)
    ensures PassesSilently(run(lo), run(hi))
  {
    var rel := (i: nat, j: nat) => PassesSilently(run(i), run(j));
    forall i: nat ensures KeepsOne(shapes, rel, i) {
      PassesJoin(run(i), run(i), run(i));
      if i < |shapes| && shapes[i].Ordinary? {
        PlainPasses(shapes, i, run);
      }
    }
    forall i: nat, j: nat ensures KeepsWrap(shapes, rel, i, j) {
      if Encloses(shapes, i, j) && rel(i + 1, j) {
        PairPasses(shapes, i, j, run);
      }
    }
    forall a: nat, b: nat, c: nat ensures KeepsJoin(shapes, rel, a, b, c) {
      PassesJoin(run(a), run(b), run(c));
    }
    Kept(shapes, rel, lo, hi);
  }

  function RunOf(shapes: seq<Shape>): nat -> Check {
    (i: nat) => if i <= |shapes| then CheckUpTo(shapes, i) else Check([], [])
  }

  lemma RunOfIsRun(shapes: seq<Shape>)
    ensures IsRun(shapes, RunOf(shapes))
  {
    var run := RunOf(shapes);
    forall i: nat | i < |shapes| ensures RunsTo(shapes, run, i) {
      assert run(i) == CheckUpTo(shapes, i) && run(i + 1) == CheckUpTo(shapes, i + 1);
    }
  }

  lemma NestedIsSilent(shapes: seq<Shape>)
    requires Nested(shapes, 0, |shapes|)
    ensures CheckUpTo(shapes, |shapes|).stack == [] && IsSilent(CheckUpTo(shapes, |shapes|).events)
  {
    RunOfIsRun(shapes);
    NestedPasses(shapes, RunOf(shapes), 0, |shapes|);
  }

  lemma SilentLeftovers(events: seq<Event>, stack: seq<Open>)
    ensures IsSilent(events + Leftovers(stack)) <==> IsSilent(events) && stack == []
  {
    var all := events + Leftovers(stack);
    assert forall k :: 0 <= k < |events| ==> events[k] == all[k];
    if stack != [] {
      assert all[|events|] == Unclosed(stack[0].at);
    }
  }

  /** No diagnostic is reported exactly when the brackets are well nested. */
  lemma SilentIffNested(shapes: seq<Shape>)
    ensures Diagnostics(Events(shapes)) == [] <==> Nested(shapes, 0, |shapes|)
  {
    var c := CheckUpTo(shapes, |shapes|);
    SilentDiagnostics(Events(shapes));
    SilentLeftovers(c.events, c.stack);
    if IsSilent(c.events) && c.stack == [] {
      SilentIsStacked(shapes, |shapes|);
    }
    if Nested(shapes, 0, |shapes|) {
      NestedIsSilent(shapes);
    }
  }

  // ---------- every bracket meets one fate ----------

  function One(b: bool): nat {
    if b then 1 else 0
  }

  /** How many events concern the opener at i. */
  function OpenCount(events: seq<Event>, i: nat): nat {
    if events == [] then 0
    else
      var last := events[|events| - 1];
      OpenCount(events[..|events| - 1], i) + One(!last.Unexpected? && last.open == i)
  }

  /** How many events concern the closer at i. */
  function CloseCount(events: seq<Event>, i: nat): nat {
    if events == [] then 0
    else
      var last := events[|events| - 1];
      CloseCount(events[..|events| - 1], i) + One(!last.Unclosed? && last.close == i)
  }

  function StackCount(stack: seq<Open>, i: nat): nat {
    if stack == [] then 0
    else StackCount(stack[..|stack| - 1], i) + One(stack[|stack| - 1].at == i)
  }

  lemma EventCounts(events: seq<Event>, event: Event, i: nat)
    ensures OpenCount(events + [event], i) == OpenCount(events, i) + One(!event.Unexpected? && event.open == i)
    ensures CloseCount(events + [event], i) == CloseCount(events, i) + One(!event.Unclosed? && event.close == i)
  {
    assert (events + [event])[..|events|] == events;
  }

  lemma StackCounts(stack: seq<Open>, open: Open, i: nat)
    ensures StackCount(stack + [open], i) == StackCount(stack, i) + One(open.at == i)
  {
    assert (stack + [open])[..|stack|] == stack;
  }

  /** The openers at i on the stack and in events. */
  function Opens(c: Check, i: nat): nat {
    StackCount(c.stack, i) + OpenCount(c.events, i)
  }

  lemma PushCounts(c: Check, at: nat, shape: Shape, i: nat)
    requires shape.Opening?
    ensures Opens(Advance(c, at, shape), i) == Opens(c, i) + One(at == i)
  {
    StackCounts(c.stack, Open(at, shape), i);
  }

  lemma CloseCounts(c: Check, at: nat, shape: Shape, i: nat)
    ensures Opens(Close(c, at, shape), i) == Opens(c, i)
    ensures CloseCount(Close(c, at, shape).events, i) == CloseCount(c.events, i) + One(at == i)
  {
    EventCounts(c.events, Close(c, at, shape).events[|c.events|], i);
  }

  /** A tally that grows by one at index i, if wanted there, and nowhere else. */
  lemma {:induction false} TallyOnce(tally: nat -> nat, wanted: nat -> bool, n: nat, i: nat)
    requires tally(0) == 0
    requires forall k: nat :: k < n ==> tally(k + 1) == tally(k) + One(wanted(k) && k == i)
    ensures tally(n) == One(i < n && wanted(i))
  {
    if n > 0 {
      TallyOnce(tally, wanted, n - 1, i);
    }
  }

  function OpensUpTo(shapes: seq<Shape>, i: nat, n: nat): nat {
    if n <= |shapes| then Opens(CheckUpTo(shapes, n), i) else 0
  }

  function ClosesUpTo(shapes: seq<Shape>, i: nat, n: nat): nat {
    if n <= |shapes| then CloseCount(CheckUpTo(shapes, n).events, i) else 0
  }

  lemma CountsStep(shapes: seq<Shape>, i: nat, n: nat)
    requires n < |shapes|
    ensures OpensUpTo(shapes, i, n + 1) == OpensUpTo(shapes, i, n) + One(shapes[n].Opening? && n == i)
    ensures ClosesUpTo(shapes, i, n + 1) == ClosesUpTo(shapes, i, n) + One(shapes[n].Closing? && n == i)
  {
    var c := CheckUpTo(shapes, n);
    if shapes[n].Opening? {
      PushCounts(c, n, shapes[n], i);
    } else if shapes[n].Closing? {
      CloseCounts(c, n, shapes[n], i);
    }
  }

  /** An opener read is on the stack or in an event, once. */
  lemma OpensOnce(shapes: seq<Shape>, i: nat)
    requires i < |shapes|
    ensures OpensUpTo(shapes, i, |shapes|) == One(shapes[i].Opening?)
  {
    var opens := (n: nat) => OpensUpTo(shapes, i, n);
    var isOpening := (n: nat) => n < |shapes| && shapes[n].Opening?;
    forall n: nat | n < |shapes| ensures opens(n + 1) == opens(n) + One(isOpening(n) && n == i) {
      CountsStep(shapes, i, n);
    }
    TallyOnce(opens, isOpening, |shapes|, i);
  }

  /** A closer read is in an event, once. */
  lemma ClosesOnce(shapes: seq<Shape>, i: nat)
    requires i < |shapes|
    ensures ClosesUpTo(shapes, i, |shapes|) == One(shapes[i].Closing?)
  {
    var closes := (n: nat) => ClosesUpTo(shapes, i, n);
    var isClosing := (n: nat) => n < |shapes| && shapes[n].Closing?;
    forall n: nat | n < |shapes| ensures closes(n + 1) == closes(n) + One(isClosing(n) && n == i) {
      CountsStep(shapes, i, n);
    }
    TallyOnce(closes, isClosing, |shapes|, i);
  }

  lemma {:induction false} LeftoversCount(events: seq<Event>, stack: seq<Open>, i: nat)
    ensures OpenCount(events + Leftovers(stack), i) == OpenCount(events, i) + StackCount(stack, i)
    ensures CloseCount(events + Leftovers(stack), i) == CloseCount(events, i)
    decreases |stack|
  {
    if stack == [] {
      assert events + Leftovers(stack) == events;
    } else {
      var shorter, event := Leftovers(stack[..|stack| - 1]), Unclosed(stack[|stack| - 1].at);
      LeftoversCount(events, stack[..|stack| - 1], i);
      AppendOne(events, shorter, event);
      EventCounts(events + shorter, event, i);
    }
  }

  lemma AppendOne(events: seq<Event>, more: seq<Event>, event: Event)
    ensures events + (more + [event]) == (events + more) + [event]
  {
  }

  /** On every input each opener is matched, mismatched or unclosed exactly once, each closer
      is matched, mismatched or unexpected exactly once, and nothing else is. */
  lemma EveryBracketOnce(shapes: seq<Shape>, i: nat)
    requires i < |shapes|
    ensures OpenCount(Events(shapes), i) == One(shapes[i].Opening?)
    ensures CloseCount(Events(shapes), i) == One(shapes[i].Closing?)
  {
    var c := CheckUpTo(shapes, |shapes|);
    OpensOnce(shapes, i);
    ClosesOnce(shapes, i);
    LeftoversCount(c.events, c.stack, i);
  }

  // ---------- matching one bracket ----------

  /** Counting one kind of bracket from index i on. */
  function MatchFrom(shapes: seq<Shape>, bracket: Bracket, i: nat, depth: nat): (r: Option<nat>)
    requires i <= |shapes|
    ensures r.Some? ==> i <= r.value < |shapes|
    decreases |shapes| - i
  {
    if i == |shapes| then None
    else if shapes[i] == Opening(bracket) then MatchFrom(shapes, bracket, i + 1, depth + 1)
    else if shapes[i] == Closing(bracket) then
      if depth <= 1 then Some(i) else MatchFrom(shapes, bracket, i + 1, depth - 1)
    else MatchFrom(shapes, bracket, i + 1, depth)
  }

  function Match(shapes: seq<Shape>, start: nat, bracket: Bracket): (r: Option<nat>)
    ensures r.Some? ==> start <= r.value < |shapes|
  {
    if start < |shapes| && shapes[start] == Opening(bracket) then MatchFrom(shapes, bracket, start, 0) else None
  }

  /** `matching_delimiter`. */
  method MatchingDelimiter(shapes: seq<Shape>, start: nat, bracket: Bracket) returns (r: Option<nat>)
    ensures r == Match(shapes, start, bracket)
  {
    if start >= |shapes| || shapes[start] != Opening(bracket) {
      return None;
    }
    var depth: nat := 0;
    for index := start to |shapes|
      invariant Match(shapes, start, bracket) == MatchFrom(shapes, bracket, index, depth)
    {
      if shapes[index] == Opening(bracket) {
        depth := depth + 1;
      } else if shapes[index] == Closing(bracket) {
        depth := if depth > 0 then depth - 1 else 0;
        if depth == 0 {
          return Some(index);
        }
      }
    }
    r := None;
  }

  /** A counter of one kind of bracket: index and depth give where it stops. */
  type Counter = (nat, nat) -> Option<nat>

  /** Plain tokens and other brackets are skipped, and the brackets counted go up and down. */
  ghost predicate Counts(shapes: seq<Shape>, bracket: Bracket, counter: Counter, i: nat, depth: nat)
    requires i < |shapes|
  {
    counter(i, depth)
    == if shapes[i] == Opening(bracket) then counter(i + 1, depth + 1)
       else if shapes[i] == Closing(bracket) then (if depth <= 1 then Some(i) else counter(i + 1, depth - 1))
       else counter(i + 1, depth)
  }

  ghost predicate IsCounter(shapes: seq<Shape>, bracket: Bracket, counter: Counter) {
    forall i: nat, depth: nat :: i < |shapes| ==> Counts(shapes, bracket, counter, i, depth)
  }

  lemma CounterOfMatch(shapes: seq<Shape>, bracket: Bracket) returns (counter: Counter)
    ensures IsCounter(shapes, bracket, counter)
    ensures forall i: nat, depth: nat :: i <= |shapes| ==> counter(i, depth) == MatchFrom(shapes, bracket, i, depth)
  {
    counter := (i: nat, depth: nat) => if i <= |shapes| then MatchFrom(shapes, bracket, i, depth) else None;
    forall i: nat, depth: nat | i < |shapes| ensures Counts(shapes, bracket, counter, i, depth) {
    }
  }

  /** The depth inside a pair of brackets, and what happens at its end. */
  lemma PairCounts(shapes: seq<Shape>, bracket: Bracket, counter: Counter, i: nat, j: nat, depth: nat)
    returns (inner: nat)
    requires IsCounter(shapes, bracket, counter) && Encloses(shapes, i, j)
    ensures inner == if shapes[i].bracket == bracket then depth + 1 else depth
    ensures counter(i, depth) == counter(i + 1, inner)
    ensures depth > 0 ==> counter(j, inner) == counter(j + 1, depth)
    ensures depth == 0 && shapes[i].bracket == bracket ==> counter(j, inner) == Some(j)
  {
    inner := if shapes[i].bracket == bracket then depth + 1 else depth;
    assert Counts(shapes, bracket, counter, i, depth) && Counts(shapes, bracket, counter, j, inner);
  }

  /** The counter stops at the same place from i and from j, at any depth above zero. */
  ghost predicate Levels(counter: Counter, i: nat, j: nat) {
    forall depth: nat :: depth > 0 ==> counter(i, depth) == counter(j, depth)
  }

  /** Counting one kind passes over a well-nested word of all kinds. */
  lemma CountPassesNested(shapes: seq<Shape>, bracket: Bracket, counter: Counter, lo: nat, hi: nat)
    requires IsCounter(shapes, bracket, counter) && Nested(shapes, lo, hi)
    ensures Levels(counter, lo, hi)
  {
    var rel := (i: nat, j: nat) => Levels(counter, i, j);
    forall i: nat | i < |shapes| && shapes[i].Ordinary? ensures rel(i, i + 1) {
      PlainLevels(shapes, bracket, counter, i);
    }
    forall i: nat, j: nat | Encloses(shapes, i, j) && rel(i + 1, j) ensures rel(i, j + 1) {
      PairLevels(shapes, bracket, counter, i, j);
    }
    Kept(shapes, rel, lo, hi);
  }

  lemma PlainLevels(shapes: seq<Shape>, bracket: Bracket, counter: Counter, i: nat)
    requires IsCounter(shapes, bracket, counter) && i < |shapes| && shapes[i].Ordinary?
    ensures Levels(counter, i, i + 1)
  {
    forall depth: nat | depth > 0 ensures counter(i, depth) == counter(i + 1, depth) {
      assert Counts(shapes, bracket, counter, i, depth);
    }
  }

  lemma PairLevels(shapes: seq<Shape>, bracket: Bracket, counter: Counter, i: nat, j: nat)
    requires IsCounter(shapes, bracket, counter) && Encloses(shapes, i, j) && Levels(counter, i + 1, j)
    ensures Levels(counter, i, j + 1)
  {
    forall depth: nat | depth > 0 ensures counter(i, depth) == counter(j + 1, depth) {
      var inner := PairCounts(shapes, bracket, counter, i, j, depth);
    }
  }

  /** A bracket's partner is found by counting its own kind. */
  lemma MatchFindsPartner(shapes: seq<Shape>, i: nat, j: nat)
    requires Pairs(shapes, i, j)
    ensures Match(shapes, i, shapes[i].bracket) == Some(j)
  {
    var bracket := shapes[i].bracket;
    var counter := CounterOfMatch(shapes, bracket);
    var inner := PairCounts(shapes, bracket, counter, i, j, 0);
    CountPassesNested(shapes, bracket, counter, i + 1, j);
    assert counter(i, 0) == MatchFrom(shapes, bracket, i, 0);
  }

  ghost predicate HasPartner(shapes: seq<Shape>, i: nat, hi: nat) {
    exists j: nat :: j < hi && Pairs(shapes, i, j)
  }

  /** The word is well nested, and all its openers have partners in it. */
  ghost predicate Paired(shapes: seq<Shape>, lo: nat, hi: nat) {
    && Nested(shapes, lo, hi)
    && forall i: nat :: lo <= i < hi && i < |shapes| && shapes[i].Opening? ==> HasPartner(shapes, i, hi)
  }

  lemma PairedWrap(shapes: seq<Shape>, i: nat, j: nat)
    requires Encloses(shapes, i, j) && Paired(shapes, i + 1, j)
    ensures Paired(shapes, i, j + 1)
  {
    assert Pairs(shapes, i, j);
    NestedPair(shapes, i, j);
    PartnersStay(shapes, i + 1, j, j + 1);
  }

  lemma PartnersStay(shapes: seq<Shape>, lo: nat, hi: nat, hi': nat)
    requires Paired(shapes, lo, hi) && hi <= hi'
    ensures forall i: nat :: lo <= i < hi && i < |shapes| && shapes[i].Opening? ==> HasPartner(shapes, i, hi')
  {
    forall i: nat | lo <= i < hi && i < |shapes| && shapes[i].Opening?
      ensures HasPartner(shapes, i, hi')
    {
      assert HasPartner(shapes, i, hi);
      var j: nat :| j < hi && Pairs(shapes, i, j);
    }
  }

  lemma PairedJoin(shapes: seq<Shape>, a: nat, b: nat, c: nat)
    requires a <= b <= c && Paired(shapes, a, b) && Paired(shapes, b, c)
    ensures Paired(shapes, a, c)
  {
    NestedConcat(shapes, a, b, c);
    PartnersStay(shapes, a, b, c);
  }

  lemma OpenersHavePartners(shapes: seq<Shape>, lo: nat, hi: nat)
    requires Nested(shapes, lo, hi)
    ensures Paired(shapes, lo, hi)
  {
    var rel := (i: nat, j: nat) => Paired(shapes, i, j);
    forall i: nat | i <= |shapes| ensures rel(i, i) {
      NestedNone(shapes, i);
    }
    forall i: nat | i < |shapes| && shapes[i].Ordinary? ensures rel(i, i + 1) {
      NestedOne(shapes, i);
    }
    forall i: nat, j: nat | Encloses(shapes, i, j) && rel(i + 1, j) ensures rel(i, j + 1) {
      PairedWrap(shapes, i, j);
    }
    forall a: nat, b: nat, c: nat | a <= b <= c <= |shapes| && rel(a, b) && rel(b, c) ensures rel(a, c) {
      PairedJoin(shapes, a, b, c);
    }
    Kept(shapes, rel, lo, hi);
  }

  /** For an opener of a well-nested word, counting finds j exactly when the two are a pair. */
  lemma MatchIffPairs(shapes: seq<Shape>, lo: nat, hi: nat, i: nat, j: nat)
    requires Nested(shapes, lo, hi) && lo <= i < hi && i < |shapes| && shapes[i].Opening?
    ensures Match(shapes, i, shapes[i].bracket) == Some(j) <==> Pairs(shapes, i, j)
    ensures Pairs(shapes, i, j) ==> j < hi
    ensures HasPartner(shapes, i, hi)
  {
    OpenersHavePartners(shapes, lo, hi);
    assert HasPartner(shapes, i, hi);
    var partner: nat :| partner < hi && Pairs(shapes, i, partner);
    MatchFindsPartner(shapes, i, partner);
    if Pairs(shapes, i, j) {
      MatchFindsPartner(shapes, i, j);
    }
  }

  // ---------- top level ----------

  /** A counter of some kinds of brackets, from an index on. */
  datatype Depth = Depth(counted: Bracket -> bool, depth: nat -> nat, from: nat)

  ghost predicate StepsTo(shapes: seq<Shape>, d: Depth, i: nat)
    requires i < |shapes|
  {
    d.depth(i + 1)
    == match shapes[i]
       case Opening(bracket) => if d.counted(bracket) then d.depth(i) + 1 else d.depth(i)
       case Closing(bracket) => if d.counted(bracket) && d.depth(i) > 0 then d.depth(i) - 1 else d.depth(i)
       case Ordinary => d.depth(i)
  }

  ghost predicate IsDepth(shapes: seq<Shape>, d: Depth) {
    forall i: nat :: d.from <= i < |shapes| ==> StepsTo(shapes, d, i)
  }

  lemma PlainDepth(shapes: seq<Shape>, d: Depth, i: nat)
    requires IsDepth(shapes, d) && d.from <= i < |shapes| && shapes[i].Ordinary?
    ensures d.depth(i + 1) == d.depth(i)
  {
    assert StepsTo(shapes, d, i);
  }

  lemma PairDepth(shapes: seq<Shape>, d: Depth, i: nat, j: nat)
    requires IsDepth(shapes, d) && Encloses(shapes, i, j) && d.from <= i
    ensures d.depth(i + 1) == d.depth(i) + if d.counted(shapes[i].bracket) then 1 else 0
    ensures d.depth(j) == d.depth(i + 1) ==> d.depth(j + 1) == d.depth(i)
  {
    assert StepsTo(shapes, d, i) && StepsTo(shapes, d, j);
  }

  /** From i to j the depth never falls below where it starts, and returns there. */
  ghost predicate IsHill(d: Depth, i: nat, j: nat) {
    d.from <= i ==> d.depth(i) == d.depth(j) && forall k: nat :: i <= k <= j ==> d.depth(i) <= d.depth(k)
  }

  lemma NestedIsHill(shapes: seq<Shape>, d: Depth, lo: nat, hi: nat)
    requires IsDepth(shapes, d) && Nested(shapes, lo, hi)
    ensures IsHill(d, lo, hi)
  {
    var rel := (i: nat, j: nat) => IsHill(d, i, j);
    forall i: nat | i < |shapes| && shapes[i].Ordinary? ensures rel(i, i + 1) {
      if d.from <= i {
        PlainDepth(shapes, d, i);
      }
    }
    forall i: nat, j: nat | Encloses(shapes, i, j) && rel(i + 1, j) ensures rel(i, j + 1) {
      if d.from <= i {
        PairDepth(shapes, d, i, j);
      }
    }
    Kept(shapes, rel, lo, hi);
  }

  /** Between lo and hi, the brackets j and k are a pair of a counted kind, around token i. */
  ghost predicate IsAround(shapes: seq<Shape>, counted: Bracket -> bool, lo: nat, hi: nat, j: nat, k: nat, i: nat) {
    lo <= j < i < k < hi && Pairs(shapes, j, k) && counted(shapes[j].bracket)
  }

  ghost predicate IsEnclosed(shapes: seq<Shape>, counted: Bracket -> bool, lo: nat, hi: nat, i: nat) {
    exists j, k :: IsAround(shapes, counted, lo, hi, j, k, i)
  }

  lemma EnclosedStays(shapes: seq<Shape>, counted: Bracket -> bool, lo: nat, hi: nat, lo': nat, hi': nat, i: nat)
    requires lo' <= lo && hi <= hi' && IsEnclosed(shapes, counted, lo, hi, i)
    ensures IsEnclosed(shapes, counted, lo', hi', i)
  {
    var j, k :| IsAround(shapes, counted, lo, hi, j, k, i);
    assert IsAround(shapes, counted, lo', hi', j, k, i);
  }

  lemma EnclosedIsDeep(shapes: seq<Shape>, d: Depth, lo: nat, hi: nat, j: nat, k: nat, i: nat)
    requires Nested(shapes, lo, hi) && IsDepth(shapes, d) && d.from <= lo
    requires IsAround(shapes, d.counted, lo, hi, j, k, i)
    ensures d.depth(i) > d.depth(lo)
  {
    NestedIsHill(shapes, d, lo, hi);
    PairDepth(shapes, d, j, k);
    NestedIsHill(shapes, d, j + 1, k);
  }

  ghost predicate IsLevel(shapes: seq<Shape>, d: Depth, lo: nat, hi: nat, i: nat) {
    d.depth(i) == d.depth(lo) || IsEnclosed(shapes, d.counted, lo, hi, i)
  }

  /** In a well-nested word a position above its depth is enclosed, closing brackets aside. */
  ghost predicate Shelters(shapes: seq<Shape>, d: Depth, lo: nat, hi: nat) {
    && Nested(shapes, lo, hi)
    && (d.from <= lo ==>
          && d.depth(lo) == d.depth(hi)
          && forall i: nat :: lo <= i < hi && i < |shapes| && !shapes[i].Closing? ==> IsLevel(shapes, d, lo, hi, i))
  }

  lemma DeepIsEnclosed(shapes: seq<Shape>, d: Depth, lo: nat, hi: nat)
    requires IsDepth(shapes, d) && Nested(shapes, lo, hi)
    ensures Shelters(shapes, d, lo, hi)
  {
    var rel := (i: nat, j: nat) => Shelters(shapes, d, i, j);
    forall i: nat | i <= |shapes| ensures rel(i, i) {
      NestedNone(shapes, i);
    }
    forall i: nat | i < |shapes| && shapes[i].Ordinary? ensures rel(i, i + 1) {
      NestedOne(shapes, i);
      if d.from <= i {
        PlainDepth(shapes, d, i);
      }
    }
    forall i: nat, j: nat | Encloses(shapes, i, j) && rel(i + 1, j) ensures rel(i, j + 1) {
      PairShelters(shapes, d, i, j);
    }
    forall a: nat, b: nat, c: nat | a <= b <= c <= |shapes| && rel(a, b) && rel(b, c) ensures rel(a, c) {
      JoinShelters(shapes, d, a, b, c);
    }
    Kept(shapes, rel, lo, hi);
  }

  lemma PairShelters(shapes: seq<Shape>, d: Depth, i: nat, j: nat)
    requires IsDepth(shapes, d) && Encloses(shapes, i, j) && Shelters(shapes, d, i + 1, j)
    ensures Shelters(shapes, d, i, j + 1)
  {
    assert Pairs(shapes, i, j);
    NestedPair(shapes, i, j);
    if d.from <= i {
      PairDepth(shapes, d, i, j);
      var hi := j + 1;
      forall k: nat | i <= k < hi && !shapes[k].Closing?
        ensures IsLevel(shapes, d, i, hi, k)
      {
        if k != i {
          InsidePair(shapes, d, i, j, k);
        }
      }
    }
  }

  lemma InsidePair(shapes: seq<Shape>, d: Depth, i: nat, j: nat, k: nat)
    requires Pairs(shapes, i, j) && i < k < j && IsLevel(shapes, d, i + 1, j, k)
    requires d.counted(shapes[i].bracket) || d.depth(i + 1) == d.depth(i)
    ensures IsLevel(shapes, d, i, j + 1, k)
  {
    if d.counted(shapes[i].bracket) {
      assert IsAround(shapes, d.counted, i, j + 1, i, j, k);
    } else if IsEnclosed(shapes, d.counted, i + 1, j, k) {
      EnclosedStays(shapes, d.counted, i + 1, j, i, j + 1, k);
    }
  }

  lemma JoinShelters(shapes: seq<Shape>, d: Depth, a: nat, b: nat, c: nat)
    requires a <= b <= c && Shelters(shapes, d, a, b) && Shelters(shapes, d, b, c)
    ensures Shelters(shapes, d, a, c)
  {
    NestedConcat(shapes, a, b, c);
    if d.from <= a {
      forall i: nat | a <= i < c && i < |shapes| && !shapes[i].Closing?
        ensures IsLevel(shapes, d, a, c, i)
      {
        var lo, hi := if i < b then a else b, if i < b then b else c;
        assert IsLevel(shapes, d, lo, hi, i);
        if IsEnclosed(shapes, d.counted, lo, hi, i) {
          EnclosedStays(shapes, d.counted, lo, hi, a, c, i);
        }
      }
    }
  }

  /** In a well-nested word the depth is that of its beginning exactly where no counted pair encloses. */
  lemma ShallowIffUnenclosed(shapes: seq<Shape>, d: Depth, lo: nat, hi: nat, i: nat)
    requires Nested(shapes, lo, hi) && lo <= i < hi && i < |shapes| && !shapes[i].Closing?
    requires IsDepth(shapes, d) && d.from <= lo
    ensures d.depth(i) == d.depth(lo) <==> !IsEnclosed(shapes, d.counted, lo, hi, i)
  {
    DeepIsEnclosed(shapes, d, lo, hi);
    assert IsLevel(shapes, d, lo, hi, i);
    if IsEnclosed(shapes, d.counted, lo, hi, i) {
      var j, k :| IsAround(shapes, d.counted, lo, hi, j, k, i);
      EnclosedIsDeep(shapes, d, lo, hi, j, k, i);
    }
  }

  const ALL_KINDS: Bracket -> bool := bracket => true

  function DepthOf(tokens: seq<Token>): Depth {
    Depth(ALL_KINDS, (i: nat) => if i <= |tokens| then DepthFrom(tokens, 0, i) else 0, 0)
  }

  lemma DepthOfIsDepth(tokens: seq<Token>)
    ensures IsDepth(Shapes(tokens), DepthOf(tokens))
  {
    forall i: nat | i < |tokens| ensures StepsTo(Shapes(tokens), DepthOf(tokens), i) {
      assert DepthFrom(tokens, 0, i + 1) == Nest(DepthFrom(tokens, 0, i), tokens[i].kind);
    }
  }

  /** In a well-nested word, the reported positions are those of the wanted tokens that no
      pair of brackets encloses. A closing bracket counts as enclosed by its own pair. */
  lemma TopLevelIffUnenclosed(tokens: seq<Token>, wanted: Kind -> bool, i: nat)
    requires Nested(Shapes(tokens), 0, |tokens|) && i < |tokens| && !IsCloser(tokens[i].kind)
    ensures i in TopLevel(tokens, 0, |tokens|, wanted)
       <==> wanted(tokens[i].kind) && !IsEnclosed(Shapes(tokens), ALL_KINDS, 0, |tokens|, i)
  {
    DepthOfIsDepth(tokens);
    ShallowIffUnenclosed(Shapes(tokens), DepthOf(tokens), 0, |tokens|, i);
    assert DepthOf(tokens).depth(i) == DepthFrom(tokens, 0, i);
  }
}
