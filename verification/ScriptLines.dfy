/** The line that the splitter reports for a statement, against the line on which it begins. */
module ScriptLines {
  import opened Tokens
  import opened Quoting
  import opened ScriptSplit

  /** The line breaks from index a up to b. */
  function Breaks(text: string, a: nat, b: nat): nat
    requires a <= b <= |text|
    decreases b - a
  {
    if a == b then 0 else One(text[a] == '\n') + Breaks(text, a + 1, b)
  }

  /** The line on which index k lies. */
  function LineOf(text: string, k: nat): nat
    requires k <= |text|
  {
    1 + Breaks(text, 0, k)
  }

  lemma {:induction false} BreaksJoin(text: string, a: nat, b: nat, c: nat)
    requires a <= b <= c <= |text|
    ensures Breaks(text, a, c) == Breaks(text, a, b) + Breaks(text, b, c)
    decreases b - a
  {
    if a < b {
      BreaksJoin(text, a + 1, b, c);
    }
  }

  ghost predicate HasBreak(text: string, a: nat, b: nat) {
    exists j: nat :: a <= j < b && j < |text| && text[j] == '\n'
  }

  lemma {:induction false} NoBreaks(text: string, a: nat, b: nat)
    requires a <= b <= |text|
    ensures Breaks(text, a, b) == 0 <==> !HasBreak(text, a, b)
    decreases b - a
  {
    if a < b {
      NoBreaks(text, a + 1, b);
      if HasBreak(text, a, b) {
        var j: nat :| a <= j < b && j < |text| && text[j] == '\n';
        assert j > a ==> HasBreak(text, a + 1, b);
      }
    }
  }

  // ---------- what the run looks at ----------

  /** The run from i in a mode gets to index k. */
  predicate Visits(text: string, mode: Mode, i: nat, k: nat)
    requires i <= |text|
    decreases |text| - i
  {
    i == k || (i < |text| && var move := MoveAt(text, mode, i); Visits(text, move.mode, i + move.width, k))
  }

  lemma {:induction false} VisitsAhead(text: string, mode: Mode, i: nat, k: nat)
    requires i <= |text| && Visits(text, mode, i, k)
    ensures i <= k <= |text|
    decreases |text| - i
  {
    if i != k {
      var move := MoveAt(text, mode, i);
      VisitsAhead(text, move.mode, i + move.width, k);
    }
  }

  /** A line break that the run from i jumps over on its way to k. */
  ghost predicate Jumps(text: string, mode: Mode, i: nat, k: nat, j: nat)
    requires i <= |text|
  {
    i <= j < k && j < |text| && text[j] == '\n' && !Visits(text, mode, i, j)
  }

  ghost predicate JumpsOver(text: string, mode: Mode, i: nat, k: nat)
    requires i <= |text|
  {
    exists j: nat :: Jumps(text, mode, i, k, j)
  }

  /** Only the character behind a backslash is jumped over, if it is a line break. */
  lemma WidthOfMove(text: string, mode: Mode, i: nat)
    requires i < |text|
    ensures MoveAt(text, mode, i).width <= 2
    ensures text[i] == '\n' ==> MoveAt(text, mode, i).width == 1
    ensures MoveAt(text, mode, i).width == 2 && text[i + 1] == '\n' ==> text[i] == '\\'
  {
  }

  lemma BreaksOfMove(text: string, mode: Mode, i: nat)
    requires i < |text|
    ensures var width := MoveAt(text, mode, i).width;
            Breaks(text, i, i + width)
            == One(text[i] == '\n') + if width == 2 then One(text[i + 1] == '\n') else 0
  {
    WidthOfMove(text, mode, i);
    var width := MoveAt(text, mode, i).width;
    assert Breaks(text, i + 1, i + width) == if width == 2 then One(text[i + 1] == '\n') else 0;
  }

  /** Behind a move, the run jumps over what it jumped over before, or over the break in the move. */
  lemma JumpsOfMove(text: string, mode: Mode, i: nat, k: nat)
    requires i < |text| && i + MoveAt(text, mode, i).width <= k <= |text|
    ensures var move := MoveAt(text, mode, i);
            JumpsOver(text, mode, i, k)
            <==> (move.width == 2 && text[i + 1] == '\n') || JumpsOver(text, move.mode, i + move.width, k)
  {
    WidthOfMove(text, mode, i);
    var move := MoveAt(text, mode, i);
    var next := i + move.width;
    if move.width == 2 && text[i + 1] == '\n' {
      NotVisited(text, mode, i);
      assert Jumps(text, mode, i, k, i + 1);
    }
    forall j: nat | next <= j
      ensures Jumps(text, mode, i, k, j) <==> Jumps(text, move.mode, next, k, j)
    {
    }
    if JumpsOver(text, move.mode, next, k) {
      var j: nat :| Jumps(text, move.mode, next, k, j);
      assert Jumps(text, mode, i, k, j);
    }
    if JumpsOver(text, mode, i, k) {
      var j: nat :| Jumps(text, mode, i, k, j);
      assert Visits(text, mode, i, i);
      assert next <= j ==> Jumps(text, move.mode, next, k, j);
    }
  }

  lemma NotVisited(text: string, mode: Mode, i: nat)
    requires i < |text| && MoveAt(text, mode, i).width == 2
    ensures !Visits(text, mode, i, i + 1)
  {
    var move := MoveAt(text, mode, i);
    if Visits(text, move.mode, i + 2, i + 1) {
      VisitsAhead(text, move.mode, i + 2, i + 1);
    }
  }

  /** The counter misses exactly the breaks that are jumped over. */
  lemma {:induction false} CountedBreaks(text: string, mode: Mode, i: nat, k: nat)
    requires i <= |text| && Visits(text, mode, i, k)
    ensures i <= k <= |text| && Counted(text, mode, i, k) <= Breaks(text, i, k)
    ensures Counted(text, mode, i, k) == Breaks(text, i, k) <==> !JumpsOver(text, mode, i, k)
    decreases |text| - i
  {
    VisitsAhead(text, mode, i, k);
    if i < k {
      var move := MoveAt(text, mode, i);
      VisitsAhead(text, move.mode, i + move.width, k);
      CountedBreaks(text, move.mode, i + move.width, k);
      BreaksOfMove(text, mode, i);
      BreaksJoin(text, i, i + move.width, k);
      JumpsOfMove(text, mode, i, k);
    }
  }

  /** What is jumped over stands behind a backslash. */
  lemma {:induction false} JumpedIsEscaped(text: string, mode: Mode, i: nat, k: nat, j: nat)
    requires i <= |text| && Visits(text, mode, i, k) && Jumps(text, mode, i, k, j)
    ensures i < j && text[j - 1] == '\\'
    decreases |text| - i
  {
    WidthOfMove(text, mode, i);
    var move := MoveAt(text, mode, i);
    assert Visits(text, mode, i, i);
    if j >= i + move.width {
      JumpedIsEscaped(text, move.mode, i + move.width, k, j);
    }
  }

  // ---------- the statements of a script ----------

  /** The cut is the semicolon here, or one that the run meets behind this move. */
  lemma CutStep(text: string, mode: Mode, i: nat, c: nat) returns (isHere: bool, mode': Mode, i': nat)
    requires i < |text| && Split(text, mode, i).Cuts? && c in Split(text, mode, i).at
    ensures isHere ==> c == i && text[c] == ';' && Visits(text, mode, i, c + 1)
    ensures !isHere ==> i < i' <= |text| && Split(text, mode', i').Cuts? && c in Split(text, mode', i').at
    ensures !isHere ==> forall k: nat :: Visits(text, mode', i', k) ==> Visits(text, mode, i, k)
  {
    var move := MoveAt(text, mode, i);
    isHere, mode', i' := move.isCut && c == i, move.mode, i + move.width;
    SplitMove(text, mode, i);
    if move.isCut {
      CutsAtSemicolons(text, mode, i);
      assert Visits(text, Normal, i + 1, i + 1);
    }
  }

  lemma {:induction false} CutIsVisited(text: string, mode: Mode, i: nat, c: nat)
    requires i <= |text| && Split(text, mode, i).Cuts? && c in Split(text, mode, i).at
    ensures c < |text| && text[c] == ';' && Visits(text, mode, i, c + 1)
    decreases |text| - i
  {
    var isHere, mode', i' := CutStep(text, mode, i, c);
    if !isHere {
      CutIsVisited(text, mode', i', c);
    }
  }

  /** The piece from s to e gives the statement. */
  ghost predicate Gives(text: string, isSpace: char -> bool, s: nat, e: nat, st: Statement) {
    s <= e <= |text| && st in Keep(LineAt(text, s), text[s..e], isSpace)
  }

  lemma PieceCases(text: string, isSpace: char -> bool, start: nat, at: seq<nat>, st: Statement)
    requires start <= |text| && Ascending(at, start, |text|) && st in Pieces(text, isSpace, start, at)
    ensures at == [] ==> Gives(text, isSpace, start, |text|, st)
    ensures at != [] ==> Gives(text, isSpace, start, at[0], st) || st in Pieces(text, isSpace, at[0] + 1, at[1..])
  {
    assert text[start..|text|] == text[start..];
  }

  lemma {:induction false} StatementHasPiece(text: string, isSpace: char -> bool, start: nat, at: seq<nat>,
                                             st: Statement)
    returns (s: nat, e: nat)
    requires start <= |text| && Ascending(at, start, |text|) && st in Pieces(text, isSpace, start, at)
    ensures Gives(text, isSpace, s, e, st) && (s == start || (s > 0 && s - 1 in at))
    decreases |at|
  {
    PieceCases(text, isSpace, start, at, st);
    s, e := start, if at == [] then |text| else at[0];
    if at != [] && !Gives(text, isSpace, s, e, st) {
      s, e := StatementHasPiece(text, isSpace, at[0] + 1, at[1..], st);
    }
  }

  /** How many characters the trimming removes in front. */
  function Lead(text: string, isSpace: char -> bool): (n: nat)
    ensures n <= |text| && forall j :: 0 <= j < n ==> isSpace(text[j])
  {
    if text == "" || !isSpace(text[0]) then 0 else 1 + Lead(text[1..], isSpace)
  }

  lemma {:induction false} TrimIsSlice(text: string, isSpace: char -> bool)
    requires Trim(text, isSpace) != ""
    ensures Lead(text, isSpace) + |Trim(text, isSpace)| <= |text|
    ensures Trim(text, isSpace) == text[Lead(text, isSpace)..Lead(text, isSpace) + |Trim(text, isSpace)|]
    decreases |text|
  {
    if isSpace(text[0]) {
      var rest := text[1..];
      TrimIsSlice(rest, isSpace);
      var n := Lead(rest, isSpace);
      assert rest == text[1..|text|];
      SliceOfSlice(text, 1, |text|, n, n + |Trim(rest, isSpace)|);
    } else if isSpace(text[|text| - 1]) {
      TrimIsSlice(text[..|text| - 1], isSpace);
    }
  }

  /** The line breaks counted up to s are those in front of `first` exactly if none stands
      between the two and none is jumped over. */
  lemma LineIff(text: string, s: nat, first: nat)
    requires s <= first <= |text| && Visits(text, Normal, 0, s)
    ensures LineAt(text, s) <= LineOf(text, first)
    ensures LineAt(text, s) == LineOf(text, first) <==> !HasBreak(text, s, first) && !JumpsOver(text, Normal, 0, s)
  {
    CountedBreaks(text, Normal, 0, s);
    BreaksJoin(text, 0, s, first);
    NoBreaks(text, s, first);
  }

  /** A statement stands from `first` on, behind blanks and the semicolon at which the script is
      cut in front of it. The line reported for it is never too large. It is the line of
      `first` exactly if no line break stands among these blanks and no string literal in
      front of them holds a line break behind a backslash. */
  lemma ReportedLine(source: string, isSpace: char -> bool, st: Statement) returns (s: nat, first: nat)
    requires var script := SplitScript(source, isSpace); script.Statements? && st in script.all
    ensures var text := Normalize(source);
            && s <= first && first + |st.text| <= |text| && st.text == text[first..first + |st.text|] != ""
            && (s == 0 || s - 1 in Split(text, Normal, 0).at) && (forall j :: s <= j < first ==> isSpace(text[j]))
            && Visits(text, Normal, 0, s)
            && st.line <= LineOf(text, first)
            && (st.line == LineOf(text, first) <==> !HasBreak(text, s, first) && !JumpsOver(text, Normal, 0, s))
  {
    var text := Normalize(source);
    var e;
    s, e := StatementHasPiece(text, isSpace, 0, Split(text, Normal, 0).at, st);
    if s > 0 {
      CutIsVisited(text, Normal, 0, s - 1);
    }
    first := PieceFirst(text, isSpace, s, e, st);
    LineIff(text, s, first);
  }

  lemma SliceOfSlice(text: string, s: nat, e: nat, a: nat, b: nat)
    requires s <= e <= |text| && a <= b <= e - s
    ensures text[s..e][a..b] == text[s + a..s + b]
  {
    var piece := text[s..e];
    forall k | 0 <= k < b - a ensures piece[a..b][k] == text[s + a..s + b][k] {
      assert piece[a + k] == text[s + (a + k)];
    }
  }

  lemma PieceFirst(text: string, isSpace: char -> bool, s: nat, e: nat, st: Statement) returns (first: nat)
    requires Gives(text, isSpace, s, e, st)
    ensures s <= first && first + |st.text| <= |text| && st.text == text[first..first + |st.text|] != ""
    ensures forall j :: s <= j < first ==> isSpace(text[j])
    ensures st.line == LineAt(text, s)
  {
    var piece := text[s..e];
    var blanks := Lead(piece, isSpace);
    assert st == Statement(LineAt(text, s), Trim(piece, isSpace)) && st.text != "";
    TrimIsSlice(piece, isSpace);
    first := s + blanks;
    SliceOfSlice(text, s, e, blanks, blanks + |st.text|);
    BlanksOfPiece(text, isSpace, s, e);
  }

  lemma BlanksOfPiece(text: string, isSpace: char -> bool, s: nat, e: nat)
    requires s <= e <= |text|
    ensures s + Lead(text[s..e], isSpace) <= |text|
    ensures forall j :: s <= j < s + Lead(text[s..e], isSpace) ==> isSpace(text[j])
  {
    var piece := text[s..e];
    forall j | s <= j < s + Lead(piece, isSpace) ensures isSpace(text[j]) {
      assert text[j] == piece[j - s];
    }
  }

  // ---------- in the terms of the lexer's regions ----------

  /** From i on, the run gets to `next` in normal mode, and on the way jumps over a line break or not. */
  ghost predicate Leads(text: string, mode: Mode, i: nat, next: nat, jumps: bool) {
    && i <= next <= |text|
    && forall k: nat :: next <= k <= |text| ==> LeadsUpTo(text, mode, i, next, jumps, k)
  }

  ghost predicate LeadsUpTo(text: string, mode: Mode, i: nat, next: nat, jumps: bool, k: nat)
    requires i <= |text| && next <= |text|
  {
    JumpsOver(text, mode, i, k) <==> jumps || JumpsOver(text, Normal, next, k)
  }

  lemma MoveLeads(text: string, mode: Mode, i: nat, next: nat, jumps: bool)
    requires i < |text|
    requires var move := MoveAt(text, mode, i); Leads(text, move.mode, i + move.width, next, jumps)
    ensures Leads(text, mode, i, next, jumps || (MoveAt(text, mode, i).width == 2 && text[i + 1] == '\n'))
  {
    var move := MoveAt(text, mode, i);
    var all := jumps || (move.width == 2 && text[i + 1] == '\n');
    forall k: nat | next <= k <= |text|
      ensures LeadsUpTo(text, mode, i, next, all, k)
    {
      assert LeadsUpTo(text, move.mode, i + move.width, next, jumps, k);
      JumpsOfMove(text, mode, i, k);
    }
  }

  lemma LeadsNowhere(text: string, i: nat)
    requires i <= |text|
    ensures Leads(text, Normal, i, i, false)
  {
  }

  /** The walk over a string from i meets a backslash with a line break behind it. */
  predicate EscapesBreak(text: string, d: char, i: nat)
    requires i <= |text|
    decreases |text| - i
  {
    if i == |text| then false
    else if text[i] == '\\' then i + 1 < |text| && (text[i + 1] == '\n' || EscapesBreak(text, d, i + 2))
    else if IsDoubled(text, d, i) then EscapesBreak(text, d, i + 2)
    else text[i] != d && EscapesBreak(text, d, i + 1)
  }

  lemma {:induction false} StringLeads(text: string, d: char, i: nat)
    requires i <= |text| && (d == '\'' || d == '"') && SimpleEnd(text, d, i).Some?
    ensures Leads(text, StringMode(d), i, SimpleEnd(text, d, i).value, EscapesBreak(text, d, i))
    decreases |text| - i
  {
    var next := SimpleEnd(text, d, i).value;
    if text[i] == '\\' {
      StringLeads(text, d, i + 2);
      MoveLeads(text, StringMode(d), i, next, EscapesBreak(text, d, i + 2));
    } else if IsDoubled(text, d, i) {
      StringLeads(text, d, i + 2);
      assert NormalMove(text, i + 1) == Move(StringMode(d), 1, false);
      MoveLeads(text, Normal, i + 1, next, EscapesBreak(text, d, i + 2));
      MoveLeads(text, StringMode(d), i, next, EscapesBreak(text, d, i + 2));
    } else if text[i] == d {
      LeadsNowhere(text, i + 1);
      MoveLeads(text, StringMode(d), i, next, false);
    } else {
      StringLeads(text, d, i + 1);
      MoveLeads(text, StringMode(d), i, next, EscapesBreak(text, d, i + 1));
    }
  }

  lemma {:induction false} BacktickLeads(text: string, i: nat)
    requires i <= |text| && BacktickEnd(text, i).Some?
    ensures Leads(text, Backtick, i, BacktickEnd(text, i).value, false)
    decreases |text| - i
  {
    var next := BacktickEnd(text, i).value;
    if IsDoubled(text, '`', i) {
      BacktickLeads(text, i + 2);
    } else if text[i] == '`' {
      LeadsNowhere(text, i + 1);
    } else {
      BacktickLeads(text, i + 1);
    }
    MoveLeads(text, Backtick, i, next, false);
  }

  lemma {:induction false} CommentLeads(text: string, i: nat, depth: nat)
    requires i <= |text| && depth > 0 && CommentEnd(text, i, depth).Some?
    ensures Leads(text, BlockComment(depth), i, CommentEnd(text, i, depth).value, false)
    decreases |text| - i
  {
    var next := CommentEnd(text, i, depth).value;
    if IsPair(text, i, '/', '*') {
      CommentLeads(text, i + 2, depth + 1);
    } else if !IsPair(text, i, '*', '/') {
      CommentLeads(text, i + 1, depth);
    } else if depth == 1 {
      LeadsNowhere(text, i + 2);
    } else {
      CommentLeads(text, i + 2, depth - 1);
    }
    MoveLeads(text, BlockComment(depth), i, next, false);
  }

  lemma {:induction false} LineLeads(text: string, i: nat)
    requires i <= |text|
    ensures Leads(text, LineComment, i, LineEnd(text, i), false)
    decreases |text| - i
  {
    if i < |text| && text[i] != '\n' {
      LineLeads(text, i + 1);
      MoveLeads(text, LineComment, i, LineEnd(text, i), false);
    } else {
      LineStops(text, i);
    }
  }

  /** At a line break, and at the end of the text, a line comment goes on as normal text does. */
  lemma LineStops(text: string, i: nat)
    requires i <= |text| && (i < |text| ==> text[i] == '\n')
    ensures Leads(text, LineComment, i, i, false)
  {
    forall k: nat | i <= k <= |text|
      ensures LeadsUpTo(text, LineComment, i, i, false, k)
    {
      if i < k {
        JumpsOfMove(text, LineComment, i, k);
        JumpsOfMove(text, Normal, i, k);
      }
    }
  }

  /** The string that begins at i holds an escape of a line break. */
  predicate HidesBreak(text: string, i: nat)
    requires i < |text|
  {
    (text[i] == '\'' || text[i] == '"') && EscapesBreak(text, text[i], i + 1)
  }

  /** One region or character of the lexer. */
  lemma RegionLeads(text: string, i: nat)
    requires i < |text| && (text[i] == '`' ==> !EscapesBacktick(text, i + 1)) && After(text, i).Reach?
    ensures Leads(text, Normal, i, After(text, i).next, HidesBreak(text, i))
  {
    var next := After(text, i).next;
    if IsPair(text, i, '/', '/') {
      LineLeads(text, i + 2);
      MoveLeads(text, Normal, i, next, false);
    } else if IsPair(text, i, '/', '*') {
      CommentLeads(text, i + 2, 1);
      MoveLeads(text, Normal, i, next, false);
    } else if text[i] == '`' {
      BackticksAgreeIff(text, i + 1);
      BacktickLeads(text, i + 1);
      MoveLeads(text, Normal, i, next, false);
    } else if IsDelimiter(text[i]) {
      StringLeads(text, text[i], i + 1);
      MoveLeads(text, Normal, i, next, HidesBreak(text, i));
    } else {
      LeadsNowhere(text, i + 1);
      MoveLeads(text, Normal, i, next, false);
    }
  }

  /** A string region between i and k that holds an escape of a line break. */
  ghost predicate HidesBetween(text: string, i: nat, k: nat, r: nat)
    requires i <= |text|
  {
    r < k && r < |text| && IsOutside(text, i, r) && HidesBreak(text, r)
  }

  /** What the splitter jumps over, in the lexer's terms. */
  lemma {:induction false} JumpsIffHidden(text: string, i: nat, k: nat)
    requires i <= |text| && k <= |text| && IsOutside(text, i, k) && NoEscapedBacktick(text, i)
    ensures JumpsOver(text, Normal, i, k) <==> exists r: nat :: HidesBetween(text, i, k, r)
    decreases |text| - i
  {
    if i < k {
      var next := After(text, i).next;
      RegionLeads(text, i);
      OutsideIsAhead(text, next, k);
      assert LeadsUpTo(text, Normal, i, next, HidesBreak(text, i), k);
      JumpsIffHidden(text, next, k);
      HiddenFirst(text, i, k);
    }
  }

  lemma HiddenFirst(text: string, i: nat, k: nat)
    requires i < k && i < |text| && After(text, i).Reach?
    ensures var next := After(text, i).next;
            (exists r: nat :: HidesBetween(text, i, k, r))
            <==> HidesBreak(text, i) || exists r: nat :: HidesBetween(text, next, k, r)
  {
    var next := After(text, i).next;
    if HidesBreak(text, i) {
      assert HidesBetween(text, i, k, i);
    }
    forall r: nat | HidesBetween(text, next, k, r)
      ensures HidesBetween(text, i, k, r)
    {
      OutsideGrows(text, i, r);
    }
    forall r: nat | HidesBetween(text, i, k, r) && r != i
      ensures HidesBetween(text, next, k, r)
    {
    }
  }

  lemma {:induction false} OutsideNext(text: string, i: nat, k: nat)
    requires i <= |text| && k < |text| && IsOutside(text, i, k) && After(text, k).Reach?
    ensures IsOutside(text, i, After(text, k).next)
    decreases |text| - i
  {
    if i < k {
      OutsideNext(text, After(text, i).next, k);
      OutsideIsAhead(text, After(text, i).next, k);
    }
  }

  /** Without escaped backticks, the line of a statement is reported exactly if no line break
      stands among the blanks in front of it and no string in front of those holds an escape
      of a line break. */
  lemma ReportedLineByRegions(source: string, isSpace: char -> bool, st: Statement) returns (s: nat, first: nat)
    requires var script := SplitScript(source, isSpace); script.Statements? && st in script.all
    requires NoEscapedBacktick(Normalize(source), 0)
    ensures var text := Normalize(source);
            && s <= first && first + |st.text| <= |text| && st.text == text[first..first + |st.text|] != ""
            && (s == 0 || (text[s - 1] == ';' && IsOutside(text, 0, s - 1)))
            && (forall j :: s <= j < first ==> isSpace(text[j]))
            && (st.line == LineOf(text, first)
                <==> !HasBreak(text, s, first) && !exists r: nat :: HidesBetween(text, 0, s, r))
  {
    var text := Normalize(source);
    s, first := ReportedLine(source, isSpace, st);
    if s > 0 {
      CutIsOutside(text, s - 1);
    }
    JumpsIffHidden(text, 0, s);
  }

  /** A cut is a semicolon outside all regions, and the next region begins behind it. */
  lemma CutIsOutside(text: string, c: nat)
    requires NoEscapedBacktick(text, 0) && Split(text, Normal, 0).Cuts? && c in Split(text, Normal, 0).at
    ensures c < |text| && text[c] == ';' && IsOutside(text, 0, c) && IsOutside(text, 0, c + 1)
  {
    SplitIsReference(text, 0);
    ReferenceCuts(text, 0, c);
    assert After(text, c) == Reach(c + 1);
    OutsideNext(text, 0, c);
  }

  // ---------- a statement on the next line ----------

  /** `1;` and, on the next line, `2`. */
  ghost predicate IsTwoLines(text: string) {
    |text| == 4 && text[0] == '1' && text[1] == ';' && text[2] == '\n' && text[3] == '2'
  }

  /** The second statement begins on line 2 and is reported on line 1: when the line break
      behind the semicolon is read, its index has passed the one the first line is set for. */
  lemma SecondLineIsLate(source: string, isSpace: char -> bool)
    requires IsTwoLines(source) && isSpace('\n') && !isSpace('1') && !isSpace('2')
    ensures Normalize(source) == source
    ensures SplitScript(source, isSpace) == Statements([Statement(1, source[..1]), Statement(1, source[3..])])
    ensures LineOf(source, 3) == 2
  {
    Unchanged(source);
    TwoLinesCut(source);
    TwoLinesCounted(source);
    assert source[0..1] == source[..1];
    TrimOne(source[..1], isSpace);
    TrimOne(source[3..], isSpace);
    assert source[2..][1..] == source[3..];
    assert Keep(1, source[2..], isSpace) == [Statement(1, source[3..])];
    assert Pieces(source, isSpace, 2, []) == [Statement(1, source[3..])];
  }

  lemma {:induction false} Unchanged(text: string)
    requires '\r' !in text
    ensures Normalize(text) == text
  {
    if text != "" {
      Unchanged(text[1..]);
    }
  }

  lemma TrimOne(text: string, isSpace: char -> bool)
    requires |text| == 1 && !isSpace(text[0])
    ensures Trim(text, isSpace) == text
  {
  }

  lemma TwoLinesCut(text: string)
    requires IsTwoLines(text)
    ensures Split(text, Normal, 0) == Cuts([1])
  {
    SplitMove(text, Normal, 3);
    SplitMove(text, Normal, 2);
    SplitMove(text, Normal, 1);
    SplitMove(text, Normal, 0);
  }

  lemma TwoLinesCounted(text: string)
    requires IsTwoLines(text)
    ensures LineAt(text, 0) == 1 && LineAt(text, 2) == 1 && LineOf(text, 3) == 2
  {
    assert Counted(text, Normal, 2, 2) == 0;
    assert Counted(text, Normal, 1, 2) == 0;
    assert Breaks(text, 2, 3) == 1 && Breaks(text, 1, 3) == 1;
  }

  // ---------- all statements ----------

  function PieceStart(at: seq<nat>, start: nat, k: nat): nat {
    if 0 < k <= |at| then at[k - 1] + 1 else start
  }

  function PieceEnd(text: string, at: seq<nat>, k: nat): nat {
    if k < |at| then at[k] else |text|
  }

  /** The statement of the k-th piece between the cuts. */
  ghost predicate IsPiece(text: string, isSpace: char -> bool, start: nat, at: seq<nat>, k: nat, st: Statement) {
    var s, e := PieceStart(at, start, k), PieceEnd(text, at, k);
    k <= |at| && s <= e <= |text| && st == Statement(LineAt(text, s), Trim(text[s..e], isSpace)) && st.text != ""
  }

  /** The k-th piece holds nothing but blanks. */
  ghost predicate IsBlank(text: string, isSpace: char -> bool, start: nat, at: seq<nat>, k: nat) {
    var s, e := PieceStart(at, start, k), PieceEnd(text, at, k);
    s <= e <= |text| && forall j :: s <= j < e ==> isSpace(text[j])
  }

  /** The pieces ks, in order, are the statements, and the others are blank. */
  ghost predicate AreStatements(text: string, isSpace: char -> bool, start: nat, at: seq<nat>, all: seq<Statement>,
                                ks: seq<nat>)
  {
    && (forall i, j :: 0 <= i < j < |ks| ==> ks[i] < ks[j])
    && ArePieces(text, isSpace, start, at, all, ks) && OthersBlank(text, isSpace, start, at, ks)
  }

  ghost predicate ArePieces(text: string, isSpace: char -> bool, start: nat, at: seq<nat>, all: seq<Statement>,
                            ks: seq<nat>)
  {
    |ks| == |all| && forall j: nat :: j < |ks| ==> IsPiece(text, isSpace, start, at, ks[j], all[j])
  }

  ghost predicate OthersBlank(text: string, isSpace: char -> bool, start: nat, at: seq<nat>, ks: seq<nat>) {
    forall k: nat :: k <= |at| && k !in ks ==> IsBlank(text, isSpace, start, at, k)
  }

  lemma {:induction false} BlankIff(text: string, isSpace: char -> bool)
    ensures Trim(text, isSpace) == "" <==> AllBlank(text, isSpace)
    decreases |text|
  {
    if text != "" {
      if isSpace(text[0]) {
        BlankIff(text[1..], isSpace);
        BlankHead(text, isSpace);
      } else if isSpace(text[|text| - 1]) {
        BlankIff(text[..|text| - 1], isSpace);
        assert text[..|text| - 1][0] == text[0];
      }
    }
  }

  ghost predicate AllBlank(text: string, isSpace: char -> bool) {
    forall j :: 0 <= j < |text| ==> isSpace(text[j])
  }

  lemma BlankHead(text: string, isSpace: char -> bool)
    requires text != "" && isSpace(text[0])
    ensures AllBlank(text, isSpace) <==> AllBlank(text[1..], isSpace)
  {
    var rest := text[1..];
    if AllBlank(rest, isSpace) {
      forall j | 0 <= j < |text| ensures isSpace(text[j]) {
        assert j > 0 ==> text[j] == rest[j - 1];
      }
    } else {
      var j :| 0 <= j < |rest| && !isSpace(rest[j]);
      assert text[j + 1] == rest[j];
    }
  }

  lemma BlankPiece(text: string, isSpace: char -> bool, start: nat, at: seq<nat>, k: nat)
    requires k <= |at| && PieceStart(at, start, k) <= PieceEnd(text, at, k) <= |text|
    ensures var s, e := PieceStart(at, start, k), PieceEnd(text, at, k);
            if Trim(text[s..e], isSpace) == "" then IsBlank(text, isSpace, start, at, k)
            else IsPiece(text, isSpace, start, at, k, Statement(LineAt(text, s), Trim(text[s..e], isSpace)))
  {
    var s, e := PieceStart(at, start, k), PieceEnd(text, at, k);
    BlankIff(text[s..e], isSpace);
    if AllBlank(text[s..e], isSpace) {
      forall j | s <= j < e ensures isSpace(text[j]) {
        assert text[j] == text[s..e][j - s];
      }
    }
  }

  function Shifted(ks: seq<nat>): (r: seq<nat>)
    ensures |r| == |ks| && forall j :: 0 <= j < |r| ==> r[j] == ks[j] + 1
  {
    seq(|ks|, j requires 0 <= j < |ks| => ks[j] + 1)
  }

  function FirstOf(first: seq<Statement>): seq<nat> {
    if first == [] then [] else [0]
  }

  /** The first piece, then the others. */
  lemma PiecesCons(text: string, isSpace: char -> bool, start: nat, at: seq<nat>, first: seq<Statement>,
                   rest: seq<Statement>, ks: seq<nat>)
    requires at != [] && |first| <= 1 && (first != [] ==> IsPiece(text, isSpace, start, at, 0, first[0]))
    requires ArePieces(text, isSpace, at[0] + 1, at[1..], rest, ks)
    ensures ArePieces(text, isSpace, start, at, first + rest, FirstOf(first) + Shifted(ks))
  {
    var here := (k: nat, st: Statement) => IsPiece(text, isSpace, start, at, k, st);
    var behind := (k: nat, st: Statement) => IsPiece(text, isSpace, at[0] + 1, at[1..], k, st);
    forall k: nat, st: Statement | behind(k, st)
      ensures here(k + 1, st)
    {
      PieceShifts(text, isSpace, start, at, k, st);
    }
    FitsCons(here, behind, first, rest, ks);
  }

  lemma FitsCons(here: (nat, Statement) -> bool, behind: (nat, Statement) -> bool, first: seq<Statement>,
                 rest: seq<Statement>, ks: seq<nat>)
    requires |first| <= 1 && (first != [] ==> here(0, first[0])) && |ks| == |rest|
    requires forall k: nat, st: Statement :: behind(k, st) ==> here(k + 1, st)
    requires forall j: nat :: j < |ks| ==> behind(ks[j], rest[j])
    ensures var all, ks' := first + rest, FirstOf(first) + Shifted(ks);
            |ks'| == |all| && forall j: nat :: j < |ks'| ==> here(ks'[j], all[j])
  {
    var all, ks' := first + rest, FirstOf(first) + Shifted(ks);
    forall j: nat | j < |ks'|
      ensures here(ks'[j], all[j])
    {
      if j >= |first| {
        assert behind(ks[j - |first|], rest[j - |first|]);
      }
    }
  }

  lemma PieceShifts(text: string, isSpace: char -> bool, start: nat, at: seq<nat>, k: nat, st: Statement)
    requires at != []
    ensures IsPiece(text, isSpace, at[0] + 1, at[1..], k, st) ==> IsPiece(text, isSpace, start, at, k + 1, st)
    ensures k < |at| && IsBlank(text, isSpace, at[0] + 1, at[1..], k) ==> IsBlank(text, isSpace, start, at, k + 1)
  {
    assert k < |at| ==> PieceStart(at, start, k + 1) == PieceStart(at[1..], at[0] + 1, k);
    assert PieceEnd(text, at, k + 1) == PieceEnd(text, at[1..], k);
  }

  lemma BlanksCons(text: string, isSpace: char -> bool, start: nat, at: seq<nat>, first: seq<Statement>, ks: seq<nat>)
    requires first == [] ==> IsBlank(text, isSpace, start, at, 0)
    requires at != [] && OthersBlank(text, isSpace, at[0] + 1, at[1..], ks)
    ensures OthersBlank(text, isSpace, start, at, FirstOf(first) + Shifted(ks))
  {
    var ks' := FirstOf(first) + Shifted(ks);
    forall k: nat | k <= |at| && k !in ks'
      ensures IsBlank(text, isSpace, start, at, k)
    {
      InShifted(first, ks, k);
      if k > 0 {
        PieceShifts(text, isSpace, start, at, k - 1, Statement(0, ""));
      }
    }
  }

  lemma InShifted(first: seq<Statement>, ks: seq<nat>, k: nat)
    ensures k == 0 && first != [] ==> k in FirstOf(first) + Shifted(ks)
    ensures k > 0 && k - 1 in ks ==> k in FirstOf(first) + Shifted(ks)
  {
    var ks' := FirstOf(first) + Shifted(ks);
    if first != [] {
      assert ks'[0] == 0;
    }
    if k > 0 && k - 1 in ks {
      var j :| 0 <= j < |ks| && ks[j] == k - 1;
      assert ks'[|FirstOf(first)| + j] == k;
    }
  }

  lemma {:induction false} PiecesAreStatements(text: string, isSpace: char -> bool, start: nat, at: seq<nat>)
    returns (ks: seq<nat>)
    requires start <= |text| && Ascending(at, start, |text|)
    ensures AreStatements(text, isSpace, start, at, Pieces(text, isSpace, start, at), ks)
    decreases |at|
  {
    if at == [] {
      ks := LastPiece(text, isSpace, start);
    } else {
      var rest := PiecesAreStatements(text, isSpace, at[0] + 1, at[1..]);
      var first := FirstPiece(text, isSpace, start, at);
      StatementsCons(text, isSpace, start, at, first, Pieces(text, isSpace, at[0] + 1, at[1..]), rest);
      ks := FirstOf(first) + Shifted(rest);
    }
  }

  lemma StatementsCons(text: string, isSpace: char -> bool, start: nat, at: seq<nat>, first: seq<Statement>,
                       rest: seq<Statement>, ks: seq<nat>)
    requires at != [] && |first| <= 1
    requires if first == [] then IsBlank(text, isSpace, start, at, 0)
             else IsPiece(text, isSpace, start, at, 0, first[0])
    requires AreStatements(text, isSpace, at[0] + 1, at[1..], rest, ks)
    ensures AreStatements(text, isSpace, start, at, first + rest, FirstOf(first) + Shifted(ks))
  {
    PiecesCons(text, isSpace, start, at, first, rest, ks);
    BlanksCons(text, isSpace, start, at, first, ks);
  }

  lemma FirstPiece(text: string, isSpace: char -> bool, start: nat, at: seq<nat>) returns (first: seq<Statement>)
    requires at != [] && start <= at[0] < |text|
    ensures first == Keep(LineAt(text, start), text[start..at[0]], isSpace) && |first| <= 1
    ensures if first == [] then IsBlank(text, isSpace, start, at, 0) else IsPiece(text, isSpace, start, at, 0, first[0])
  {
    first := Keep(LineAt(text, start), text[start..at[0]], isSpace);
    BlankPiece(text, isSpace, start, at, 0);
  }

  lemma LastPiece(text: string, isSpace: char -> bool, start: nat) returns (ks: seq<nat>)
    requires start <= |text|
    ensures AreStatements(text, isSpace, start, [], Pieces(text, isSpace, start, []), ks)
  {
    BlankPiece(text, isSpace, start, [], 0);
    assert text[start..|text|] == text[start..];
    ks := FirstOf(Keep(LineAt(text, start), text[start..], isSpace));
  }

  /** Every piece between two cuts that holds more than blanks is a statement, in order, and there
      are no others. */
  lemma AllPiecesKept(source: string, isSpace: char -> bool) returns (ks: seq<nat>)
    requires SplitScript(source, isSpace).Statements?
    ensures var text := Normalize(source);
            AreStatements(text, isSpace, 0, Split(text, Normal, 0).at, SplitScript(source, isSpace).all, ks)
  {
    var text := Normalize(source);
    ks := PiecesAreStatements(text, isSpace, 0, Split(text, Normal, 0).at);
  }

  // ---------- line breaks ----------

  lemma {:induction false} NoReturnLeft(text: string)
    ensures '\r' !in Normalize(text)
    decreases |text|
  {
    if text != "" {
      var next := if text[0] == '\r' && |text| > 1 && text[1] == '\n' then 2 else 1;
      NoReturnLeft(text[next..]);
    }
  }

  /** A text is normalised part by part, unless it is cut inside a `\r\n`. */
  lemma {:induction false} NormalizeConcat(a: string, b: string)
    requires a != "" && b != "" ==> !(a[|a| - 1] == '\r' && b[0] == '\n')
    ensures Normalize(a + b) == Normalize(a) + Normalize(b)
    decreases |a|
  {
    if a == "" {
      assert a + b == b;
    } else {
      var next := if a[0] == '\r' && |a| > 1 && a[1] == '\n' then 2 else 1;
      assert (a + b)[next..] == a[next..] + b;
      NormalizeConcat(a[next..], b);
    }
  }

  /** The three line breaks become one, and any other character stays. */
  lemma NormalizeOne(c: char)
    ensures Normalize("\r\n") == "\n"
    ensures Normalize([c]) == if c == '\r' then "\n" else [c]
  {
    assert Normalize("") == "" && "\r\n"[2..] == "";
  }
}
