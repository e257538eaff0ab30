/** The recovery state machine on token indices, for any clause parser. Offsets and spans
    are added in module Recovery. */
module RecoveryMachine {
  import opened Tokens

  const BUDGET: nat := 128

  /** What one cursor position yields, and what it cost. */
  datatype Trial<+V> = Trial(found: Option<(V, nat)>, left: nat, parses: nat, insertions: nat)

  /** The input as the machine sees it: marks up to `size`, operator widths, and a trial of the
      clauses that start at a cursor within a budget. */
  datatype Env<!V> = Env(
    size: nat,
    isUnion: nat -> bool,
    isBoundary: nat -> bool,
    width: nat -> nat,
    trial: (nat, nat) -> Trial<V>,
    isReturn: V -> bool)

  /** Tokens lo..hi, retained as a clause or lost in an error region. */
  datatype Piece<+V> = Kept(clause: V, lo: nat, hi: nat) | Gap(lo: nat, hi: nat)

  datatype Part<+V> = Part(pieces: seq<Piece<V>>, lo: nat, hi: nat)

  datatype Op = Op(lo: nat, hi: nat)

  /** `open` is where the current error region starts; `lo` is where the current branch starts.
      The last three fields count what the budget was spent on. */
  datatype State<+V> = State(
    cursor: nat, attempts: nat, open: Option<nat>, pieces: seq<Piece<V>>, lo: nat,
    parts: seq<Part<V>>, ops: seq<Op>, retained: bool, returned: bool,
    parses: nat, insertions: nat, splits: nat)

  datatype Layout<+V> = Layout(parts: seq<Part<V>>, ops: seq<Op>)

  /** What any clause parser promises: a found clause ends past the cursor and cost a parse. */
  ghost predicate PlausibleTrial<V>(env: Env<V>, cursor: nat, attempts: nat, t: Trial<V>) {
    && t.left + t.parses + t.insertions == attempts
    && (t.found.Some? ==> cursor < t.found.value.1 <= env.size && t.parses > 0)
  }

  ghost predicate Plausible<V(!new)>(env: Env<V>) {
    && (forall c: nat, a: nat :: c < env.size ==> PlausibleTrial(env, c, a, env.trial(c, a)))
    && (forall u: nat :: u < env.size && env.isUnion(u) ==> 0 < env.width(u) <= 2 && u + env.width(u) <= env.size)
  }

  function NextMark(mark: nat -> bool, from: nat, end: nat): (i: nat)
    requires from <= end
    ensures from <= i <= end && (i < end ==> mark(i))
    ensures forall k :: from <= k < i ==> !mark(k)
    decreases end - from
  {
    if from == end || mark(from) then from else NextMark(mark, from + 1, end)
  }

  // ---------- one step ----------

  /** The pieces with the open error region closed at `at`. */
  function Closed<V>(s: State<V>, at: nat): seq<Piece<V>> {
    if s.open.Some? then s.pieces + [Gap(s.open.value, at)] else s.pieces
  }

  function Split<V>(env: Env<V>, s: State<V>): State<V>
    requires s.attempts > 0
  {
    var next := s.cursor + env.width(s.cursor);
    s.(cursor := next, attempts := s.attempts - 1, open := None, pieces := [], lo := next,
       parts := s.parts + [Part(Closed(s, s.cursor), s.lo, s.cursor)], ops := s.ops + [Op(s.cursor, next)],
       returned := false, splits := s.splits + 1)
  }

  function Retain<V>(env: Env<V>, s: State<V>, t: Trial<V>): State<V>
    requires t.found.Some?
  {
    var (clause, end) := t.found.value;
    s.(cursor := end, attempts := t.left, open := None,
       pieces := Closed(s, s.cursor) + [Kept(clause, s.cursor, end)],
       retained := true, returned := env.isReturn(clause),
       parses := s.parses + t.parses, insertions := s.insertions + t.insertions)
  }

  function PassOver<V>(env: Env<V>, s: State<V>, t: Trial<V>): State<V>
    requires s.cursor < env.size
  {
    var next :=
      if t.left == 0 then env.size
      else if s.returned then NextMark(env.isUnion, s.cursor + 1, env.size)
      else NextMark(env.isBoundary, s.cursor + 1, env.size);
    s.(cursor := next, attempts := t.left, open := if s.open.Some? then s.open else Some(s.cursor),
       parses := s.parses + t.parses, insertions := s.insertions + t.insertions)
  }

  function TrialAt<V>(env: Env<V>, s: State<V>): Trial<V> {
    if s.returned then Trial(None, s.attempts, 0, 0) else env.trial(s.cursor, s.attempts)
  }

  function Step<V>(env: Env<V>, s: State<V>): State<V>
    requires s.cursor < env.size
  {
    if s.attempts > 0 && env.isUnion(s.cursor) then Split(env, s)
    else
      var t := TrialAt(env, s);
      if t.found.Some? then Retain(env, s, t) else PassOver(env, s, t)
  }

  function Initial<V>(): State<V> {
    State(0, BUDGET, None, [], 0, [], [], false, false, 0, 0, 0)
  }

  /** Every step moves the cursor forward inside the input. */
  lemma StepAdvances<V(!new)>(env: Env<V>, s: State<V>)
    requires Plausible(env) && s.cursor < env.size
    ensures s.cursor < Step(env, s).cursor <= env.size
  {
    if !s.returned {
      assert PlausibleTrial(env, s.cursor, s.attempts, env.trial(s.cursor, s.attempts));
    }
  }

  ghost function Run<V(!new)>(env: Env<V>, s: State<V>): State<V>
    requires Plausible(env) && s.cursor <= env.size
    decreases env.size - s.cursor
  {
    if s.cursor == env.size then s
    else
      StepAdvances(env, s);
      Run(env, Step(env, s))
  }

  /** The recovered layout, unless nothing was retained. */
  function Finish<V>(env: Env<V>, s: State<V>): Option<Layout<V>> {
    if s.retained then Some(Layout(s.parts + [Part(Closed(s, env.size), s.lo, env.size)], s.ops)) else None
  }

  // ---------- what every step keeps ----------

  ghost predicate Tiled<V>(pieces: seq<Piece<V>>, lo: nat, hi: nat) {
    && (pieces == [] ==> lo == hi)
    && (pieces != [] ==> pieces[0].lo == lo && pieces[|pieces| - 1].hi == hi)
    && (forall i :: 0 <= i < |pieces| ==> pieces[i].lo < pieces[i].hi)
    && (forall i, j :: 0 <= i && j == i + 1 && j < |pieces| ==> pieces[i].hi == pieces[j].lo)
  }

  predicate IsReturnPiece<V>(env: Env<V>, piece: Piece<V>) {
    piece.Kept? && env.isReturn(piece.clause)
  }

  ghost predicate NoAdjacentGaps<V>(pieces: seq<Piece<V>>) {
    forall i, j :: 0 <= i && j == i + 1 && j < |pieces| && pieces[i].Gap? ==> pieces[j].Kept?
  }

  /** No two adjacent error regions, and a RETURN is last or followed by one error region only. */
  ghost predicate Shaped<V>(env: Env<V>, pieces: seq<Piece<V>>) {
    && NoAdjacentGaps(pieces)
    && (forall i, j :: 0 <= i < j < |pieces| && IsReturnPiece(env, pieces[i]) ==>
        j == i + 1 == |pieces| - 1 && pieces[j].Gap?)
  }

  lemma TiledAppend<V>(pieces: seq<Piece<V>>, lo: nat, at: nat, piece: Piece<V>)
    requires Tiled(pieces, lo, at) && piece.lo == at < piece.hi
    ensures Tiled(pieces + [piece], lo, piece.hi)
  {
  }

  /** The current branch. */
  ghost predicate OpenBranch<V>(env: Env<V>, s: State<V>) {
    && s.cursor <= env.size
    && Tiled(s.pieces, s.lo, if s.open.Some? then s.open.value else s.cursor)
    && (s.open.Some? ==> s.open.value < s.cursor)
    && (s.pieces != [] ==> s.pieces[|s.pieces| - 1].Kept?)
    && Shaped(env, s.pieces)
    && (s.returned ==> s.pieces != [] && IsReturnPiece(env, s.pieces[|s.pieces| - 1]))
    && (!s.returned ==> forall i :: 0 <= i < |s.pieces| ==> !IsReturnPiece(env, s.pieces[i]))
  }

  /** Closing the error region of an open branch gives a finished one. */
  lemma ClosedBranch<V>(env: Env<V>, s: State<V>, at: nat)
    requires OpenBranch(env, s) && at == s.cursor
    ensures Tiled(Closed(s, at), s.lo, at) && Shaped(env, Closed(s, at))
  {
    if s.open.Some? {
      TiledAppend(s.pieces, s.lo, s.open.value, Gap(s.open.value, at));
    }
  }

  lemma RetainKeepsBranch<V>(env: Env<V>, s: State<V>, t: Trial<V>)
    requires OpenBranch(env, s) && s.cursor < env.size && !s.returned
    requires PlausibleTrial(env, s.cursor, s.attempts, t) && t.found.Some?
    ensures OpenBranch(env, Retain(env, s, t))
  {
    var (clause, end) := t.found.value;
    ClosedBranch(env, s, s.cursor);
    var pieces := Closed(s, s.cursor);
    TiledAppend(pieces, s.lo, s.cursor, Kept(clause, s.cursor, end));
    KeptShaped(env, pieces, Kept(clause, s.cursor, end));
  }

  lemma KeptShaped<V>(env: Env<V>, pieces: seq<Piece<V>>, piece: Piece<V>)
    requires Shaped(env, pieces) && piece.Kept? && forall i :: 0 <= i < |pieces| ==> !IsReturnPiece(env, pieces[i])
    ensures Shaped(env, pieces + [piece])
  {
  }

  lemma StepKeepsBranch<V(!new)>(env: Env<V>, s: State<V>)
    requires Plausible(env) && OpenBranch(env, s) && s.cursor < env.size
    ensures OpenBranch(env, Step(env, s))
  {
    StepAdvances(env, s);
    if !(s.attempts > 0 && env.isUnion(s.cursor)) {
      var t := TrialAt(env, s);
      if t.found.Some? {
        assert PlausibleTrial(env, s.cursor, s.attempts, env.trial(s.cursor, s.attempts));
        RetainKeepsBranch(env, s, t);
      }
    }
  }

  // ---------- finished branches and operators ----------

  ghost predicate GoodPart<V>(env: Env<V>, part: Part<V>) {
    Tiled(part.pieces, part.lo, part.hi) && Shaped(env, part.pieces)
  }

  ghost predicate GoodOp<V>(env: Env<V>, op: Op) {
    op.lo < env.size && env.isUnion(op.lo) && op.hi == op.lo + env.width(op.lo) && op.lo < op.hi <= env.size
  }

  /** Branches and operators alternate without leaving a token out. */
  ghost predicate Alternating<V>(env: Env<V>, parts: seq<Part<V>>, ops: seq<Op>) {
    && |ops| <= |parts| <= |ops| + 1
    && (parts != [] ==> parts[0].lo == 0)
    && (forall i :: 0 <= i < |parts| ==> GoodPart(env, parts[i]))
    && (forall i :: 0 <= i < |ops| ==> GoodOp(env, ops[i]) && parts[i].hi == ops[i].lo)
    && (forall i, j :: 0 <= i && j == i + 1 && j < |parts| ==> ops[i].hi == parts[j].lo)
  }

  ghost predicate Branches<V>(env: Env<V>, s: State<V>) {
    && |s.parts| == |s.ops| && Alternating(env, s.parts, s.ops)
    && s.lo == NextBranch(s.ops)
  }

  function NextBranch(ops: seq<Op>): nat {
    if ops == [] then 0 else ops[|ops| - 1].hi
  }

  lemma ClosedIsGood<V>(env: Env<V>, s: State<V>)
    requires OpenBranch(env, s)
    ensures GoodPart(env, Part(Closed(s, s.cursor), s.lo, s.cursor))
  {
    ClosedBranch(env, s, s.cursor);
  }

  lemma SplitKeepsBranches<V(!new)>(env: Env<V>, s: State<V>)
    requires Plausible(env) && OpenBranch(env, s) && Branches(env, s) && s.cursor < env.size
    requires s.attempts > 0 && env.isUnion(s.cursor)
    ensures Branches(env, Split(env, s))
  {
    var part := Part(Closed(s, s.cursor), s.lo, s.cursor);
    var op := Op(s.cursor, s.cursor + env.width(s.cursor));
    ClosedIsGood(env, s);
    assert GoodOp(env, op);
    AppendBranch(env, s.parts, s.ops, part, op);
  }

  lemma AppendBranch<V>(env: Env<V>, parts: seq<Part<V>>, ops: seq<Op>, part: Part<V>, op: Op)
    requires |parts| == |ops| && Alternating(env, parts, ops) && GoodPart(env, part) && part.lo == NextBranch(ops)
    requires GoodOp(env, op) && part.hi == op.lo
    ensures Alternating(env, parts + [part], ops + [op]) && NextBranch(ops + [op]) == op.hi
  {
    PartAppends(env, parts, ops, part);
    OpAppends(env, parts + [part], ops, op);
  }

  lemma PartAppends<V>(env: Env<V>, parts: seq<Part<V>>, ops: seq<Op>, part: Part<V>)
    requires |parts| == |ops| && Alternating(env, parts, ops) && GoodPart(env, part) && part.lo == NextBranch(ops)
    ensures Alternating(env, parts + [part], ops)
  {
  }

  lemma OpAppends<V>(env: Env<V>, parts: seq<Part<V>>, ops: seq<Op>, op: Op)
    requires |parts| == |ops| + 1 && Alternating(env, parts, ops)
    requires GoodOp(env, op) && parts[|ops|].hi == op.lo
    ensures Alternating(env, parts, ops + [op])
  {
  }

  // ---------- the budget ----------

  function KeptCount<V>(pieces: seq<Piece<V>>): nat {
    if pieces == [] then 0
    else KeptCount(pieces[..|pieces| - 1]) + (if pieces[|pieces| - 1].Kept? then 1 else 0)
  }

  function TotalKept<V>(parts: seq<Part<V>>): nat {
    if parts == [] then 0 else TotalKept(parts[..|parts| - 1]) + KeptCount(parts[|parts| - 1].pieces)
  }

  lemma KeptAppend<V>(pieces: seq<Piece<V>>, piece: Piece<V>)
    ensures KeptCount(pieces + [piece]) == KeptCount(pieces) + if piece.Kept? then 1 else 0
  {
    assert (pieces + [piece])[..|pieces|] == pieces;
  }

  lemma TotalAppend<V>(parts: seq<Part<V>>, part: Part<V>)
    ensures TotalKept(parts + [part]) == TotalKept(parts) + KeptCount(part.pieces)
  {
    assert (parts + [part])[..|parts|] == parts;
  }

  lemma ClosedKept<V>(s: State<V>, at: nat)
    ensures KeptCount(Closed(s, at)) == KeptCount(s.pieces)
  {
    if s.open.Some? {
      KeptAppend(s.pieces, Gap(s.open.value, at));
    }
  }

  /** Candidate parses, operand insertions, UNION splits and what is left make up the budget,
      and every retained clause cost a parse. */
  ghost predicate Budgeted<V>(s: State<V>) {
    && s.parses + s.insertions + s.splits + s.attempts == BUDGET
    && s.splits == |s.ops|
    && TotalKept(s.parts) + KeptCount(s.pieces) <= s.parses
    && (s.retained <==> TotalKept(s.parts) + KeptCount(s.pieces) > 0)
  }

  lemma StepKeepsBudget<V(!new)>(env: Env<V>, s: State<V>)
    requires Plausible(env) && Budgeted(s) && s.cursor < env.size
    ensures Budgeted(Step(env, s))
  {
    ClosedKept(s, s.cursor);
    if s.attempts > 0 && env.isUnion(s.cursor) {
      TotalAppend(s.parts, Part(Closed(s, s.cursor), s.lo, s.cursor));
    } else if !s.returned {
      var t := env.trial(s.cursor, s.attempts);
      assert PlausibleTrial(env, s.cursor, s.attempts, t);
      if t.found.Some? {
        KeptAppend(Closed(s, s.cursor), Kept(t.found.value.0, s.cursor, t.found.value.1));
      }
    }
  }

  // ---------- whole runs ----------

  ghost predicate Reachable<V>(env: Env<V>, s: State<V>) {
    OpenBranch(env, s) && Branches(env, s) && Budgeted(s)
  }

  lemma StepKeeps<V(!new)>(env: Env<V>, s: State<V>)
    requires Plausible(env) && Reachable(env, s) && s.cursor < env.size
    ensures Reachable(env, Step(env, s))
  {
    StepKeepsBranch(env, s);
    StepKeepsBudget(env, s);
    if s.attempts > 0 && env.isUnion(s.cursor) {
      SplitKeepsBranches(env, s);
    }
  }

  lemma {:induction false} RunKeeps<V(!new)>(env: Env<V>, s: State<V>)
    requires Plausible(env) && Reachable(env, s)
    ensures Reachable(env, Run(env, s)) && Run(env, s).cursor == env.size
    decreases env.size - s.cursor
  {
    if s.cursor < env.size {
      StepAdvances(env, s);
      StepKeeps(env, s);
      RunKeeps(env, Step(env, s));
    }
  }

  // ---------- the recovered layout ----------

  /** Consecutive non-empty ranges from lo to hi. */
  ghost predicate Tiles(ranges: seq<Op>, lo: nat, hi: nat) {
    && (ranges == [] ==> lo == hi)
    && (ranges != [] ==> ranges[0].lo == lo && ranges[|ranges| - 1].hi == hi)
    && (forall i :: 0 <= i < |ranges| ==> ranges[i].lo < ranges[i].hi)
    && (forall i, j :: 0 <= i && j == i + 1 && j < |ranges| ==> ranges[i].hi == ranges[j].lo)
  }

  function Ranges<V>(pieces: seq<Piece<V>>): (r: seq<Op>)
    ensures |r| == |pieces| && forall i :: 0 <= i < |r| ==> r[i] == Op(pieces[i].lo, pieces[i].hi)
  {
    seq(|pieces|, i requires 0 <= i < |pieces| => Op(pieces[i].lo, pieces[i].hi))
  }

  /** The clauses and operators of the query in order, as token ranges, from branch k on. */
  function Flat<V>(parts: seq<Part<V>>, ops: seq<Op>, k: nat): seq<Op>
    requires k <= |parts|
    decreases |parts| - k
  {
    if k == |parts| then []
    else Ranges(parts[k].pieces) + (if k < |ops| then [ops[k]] else []) + Flat(parts, ops, k + 1)
  }

  lemma TilesConcat(a: seq<Op>, b: seq<Op>, lo: nat, middle: nat, hi: nat)
    requires Tiles(a, lo, middle) && Tiles(b, middle, hi)
    ensures Tiles(a + b, lo, hi)
  {
    if a == [] {
      assert a + b == b;
    } else if b == [] {
      assert a + b == a;
    }
  }

  ghost predicate Complete<V>(env: Env<V>, layout: Layout<V>) {
    && |layout.parts| == |layout.ops| + 1 && Alternating(env, layout.parts, layout.ops)
    && layout.parts[|layout.ops|].hi == env.size
  }

  lemma {:induction false} FlatTiles<V>(env: Env<V>, layout: Layout<V>, k: nat)
    requires Complete(env, layout) && k < |layout.parts|
    ensures Tiles(Flat(layout.parts, layout.ops, k), layout.parts[k].lo, env.size)
    decreases |layout.parts| - k
  {
    var part := layout.parts[k];
    var clauses := Ranges(part.pieces);
    CompleteAt(env, layout, k);
    PartTiles(env, part);
    if k < |layout.ops| {
      var op := layout.ops[k];
      var rest := Flat(layout.parts, layout.ops, k + 1);
      FlatTiles(env, layout, k + 1);
      TilesAround(clauses, op, rest, part.lo, env.size);
      assert Flat(layout.parts, layout.ops, k) == clauses + [op] + rest;
    } else {
      LastFlat(layout.parts, layout.ops, k);
    }
  }

  lemma TilesAround(before: seq<Op>, op: Op, rest: seq<Op>, lo: nat, hi: nat)
    requires Tiles(before, lo, op.lo) && op.lo < op.hi && Tiles(rest, op.hi, hi)
    ensures Tiles(before + [op] + rest, lo, hi)
  {
    TilesConcat(before, [op], lo, op.lo, op.hi);
    TilesConcat(before + [op], rest, lo, op.hi, hi);
  }

  lemma CompleteAt<V>(env: Env<V>, layout: Layout<V>, k: nat)
    requires Complete(env, layout) && k < |layout.parts|
    ensures GoodPart(env, layout.parts[k])
    ensures k == |layout.ops| ==> layout.parts[k].hi == env.size
    ensures k < |layout.ops| ==> GoodOp(env, layout.ops[k]) && layout.parts[k].hi == layout.ops[k].lo
                                 && layout.ops[k].hi == layout.parts[k + 1].lo
  {
    var next := k + 1;
  }

  lemma PartTiles<V>(env: Env<V>, part: Part<V>)
    requires GoodPart(env, part)
    ensures Tiles(Ranges(part.pieces), part.lo, part.hi)
  {
  }

  lemma LastFlat<V>(parts: seq<Part<V>>, ops: seq<Op>, k: nat)
    requires k + 1 == |parts| && |ops| <= k
    ensures Flat(parts, ops, k) == Ranges(parts[k].pieces)
  {
    assert Flat(parts, ops, k + 1) == [];
  }

  /** In a tiling every index lies in exactly one range. */
  lemma {:induction false} TileOf(ranges: seq<Op>, lo: nat, hi: nat, i: nat) returns (j: nat)
    requires Tiles(ranges, lo, hi) && lo <= i < hi
    ensures j < |ranges| && ranges[j].lo <= i < ranges[j].hi
    ensures forall k :: 0 <= k < |ranges| && ranges[k].lo <= i < ranges[k].hi ==> k == j
    decreases |ranges|
  {
    var rest := ranges[1..];
    if i < ranges[0].hi {
      j := 0;
      forall k | 1 <= k < |ranges|
        ensures i < ranges[k].lo
      {
        TileStarts(ranges, lo, hi, k);
      }
    } else {
      var j' := TileOf(rest, ranges[0].hi, hi, i);
      j := j' + 1;
      forall k | 0 <= k < |ranges| && ranges[k].lo <= i < ranges[k].hi
        ensures k == j
      {
        assert k >= 1 && rest[k - 1] == ranges[k];
      }
    }
  }

  lemma {:induction false} TileStarts(ranges: seq<Op>, lo: nat, hi: nat, k: nat)
    requires Tiles(ranges, lo, hi) && 1 <= k < |ranges|
    ensures ranges[0].hi <= ranges[k].lo
  {
    if k > 1 {
      TileStarts(ranges, lo, hi, k - 1);
    }
  }

  // ---------- the size of the output ----------

  lemma {:induction false} PiecesBounded<V>(pieces: seq<Piece<V>>)
    requires NoAdjacentGaps(pieces)
    ensures |pieces| <= 2 * KeptCount(pieces) + 1
    ensures pieces != [] && pieces[|pieces| - 1].Kept? ==> |pieces| <= 2 * KeptCount(pieces)
  {
    if pieces != [] {
      PiecesBounded(pieces[..|pieces| - 1]);
    }
  }

  /** A branch without a clause shows a single error clause. */
  function ShownClauses<V>(part: Part<V>): nat {
    if part.pieces == [] then 1 else |part.pieces|
  }

  function TotalShown<V>(parts: seq<Part<V>>): nat {
    if parts == [] then 0 else TotalShown(parts[..|parts| - 1]) + ShownClauses(parts[|parts| - 1])
  }

  lemma {:induction false} ShownBounded<V>(env: Env<V>, parts: seq<Part<V>>)
    requires forall i :: 0 <= i < |parts| ==> GoodPart(env, parts[i])
    ensures TotalShown(parts) <= 2 * TotalKept(parts) + |parts|
  {
    if parts != [] {
      var last := parts[|parts| - 1];
      assert GoodPart(env, last);
      ShownBounded(env, parts[..|parts| - 1]);
      PiecesBounded(last.pieces);
    }
  }

  // ---------- the theorem ----------

  ghost function Recover<V(!new)>(env: Env<V>): Option<Layout<V>>
    requires Plausible(env)
  {
    Finish(env, Run(env, Initial()))
  }

  lemma FinishIsComplete<V(!new)>(env: Env<V>, s: State<V>)
    requires Plausible(env) && Reachable(env, s) && s.cursor == env.size && s.retained
    ensures var layout := Finish(env, s).value;
            && Complete(env, layout)
            && TotalKept(layout.parts) == TotalKept(s.parts) + KeptCount(s.pieces)
  {
    var part := Part(Closed(s, env.size), s.lo, env.size);
    ClosedBranch(env, s, env.size);
    assert GoodPart(env, part);
    PartAppends(env, s.parts, s.ops, part);
    ClosedKept(s, env.size);
    TotalAppend(s.parts, part);
  }

  /** Whatever the clause parser does: the clauses, error clauses and operators of a recovered
      query tile the input, at least one clause is retained, and the output has at most 129
      branches and 257 clauses. */
  lemma RecoveryLosesNothing<V(!new)>(env: Env<V>)
    requires Plausible(env)
    ensures var s := Run(env, Initial());
            s.cursor == env.size && s.parses + s.insertions + s.splits + s.attempts == BUDGET
    ensures Recover(env).Some? ==>
      var layout := Recover(env).value;
      && Complete(env, layout)
      && Tiles(Flat(layout.parts, layout.ops, 0), 0, env.size)
      && TotalKept(layout.parts) > 0
      && |layout.parts| <= 129 && TotalShown(layout.parts) <= 257
  {
    var s := Run(env, Initial());
    assert Reachable(env, Initial<V>());
    RunKeeps(env, Initial<V>());
    if s.retained {
      FinishIsComplete(env, s);
      var layout := Finish(env, s).value;
      FlatTiles(env, layout, 0);
      ShownBounded(env, layout.parts);
    }
  }
}
