/** Binary expressions: the stratified levels of the grammar and their folds, against the
    trees that precedence and associativity describe. */
module ExpressionFold {
  import opened Tokens

  datatype Operator =
    | Or | Xor | And
    | Equal | NotEqual | Less | LessEqual | Greater | GreaterEqual
    | RegexMatch | In | Contains | StartsWith | EndsWith
    | Concat | Add | Subtract | Multiply | Divide | Remainder | Power

  /** An operand of the tightest level, taken as a whole. */
  datatype Leaf = Leaf(id: nat, span: RawSpan)

  datatype IsPredicate = NullCheck | LabelCheck(id: nat)

  /** What follows the first operand: an operator with its operand, or an `IS` check. */
  datatype Item =
    | Link(op: Operator, opSpan: RawSpan, leaf: Leaf)
    | IsLink(negated: bool, predicate_: IsPredicate, end: nat)

  datatype Expr =
    | Operand(leaf: Leaf)
    | Binary(left: Expr, op: Operator, opSpan: RawSpan, right: Expr, span: RawSpan)
    | Is(expr: Expr, negated: bool, predicate_: IsPredicate, span: RawSpan)

  // ---------- levels ----------

  const ADVANCED: nat := 4
  const TIGHTEST: nat := 9

  /** The grammar's levels, from `OrExpr` to `PowerExpr`. */
  function Level(op: Operator): (r: nat)
    ensures r < TIGHTEST
  {
    match op
    case Or => 0
    case Xor => 1
    case And => 2
    case Equal | NotEqual | Less | LessEqual | Greater | GreaterEqual => 3
    case RegexMatch | In | Contains | StartsWith | EndsWith => ADVANCED
    case Concat => 5
    case Add | Subtract => 6
    case Multiply | Divide | Remainder => 7
    case Power => 8
  }

  function ItemLevel(item: Item): (r: nat)
    ensures r < TIGHTEST
  {
    if item.Link? then Level(item.op) else ADVANCED
  }

  function RootLevel(e: Expr): (r: nat)
    ensures r <= TIGHTEST
  {
    match e
    case Operand(_) => TIGHTEST
    case Binary(_, op, _, _, _) => Level(op)
    case Is(_, _, _, _) => ADVANCED
  }

  // ---------- folds ----------

  function SpanOf(e: Expr): RawSpan {
    if e.Operand? then e.leaf.span else e.span
  }

  datatype Suffix =
    | BinarySuffix(op: Operator, opSpan: RawSpan, right: Expr)
    | IsSuffix(negated: bool, predicate_: IsPredicate, end: nat)

  function Apply(e: Expr, s: Suffix): Expr {
    match s
    case BinarySuffix(op, opSpan, right) => Binary(e, op, opSpan, right, CoverOf(SpanOf(e), SpanOf(right)))
    case IsSuffix(negated, predicate_, end) => Expr.Is(e, negated, predicate_, RawSpan(SpanOf(e).start, end))
  }

  function FoldAll(e: Expr, tail: seq<Suffix>): Expr
    decreases |tail|
  {
    if tail == [] then e else FoldAll(Apply(e, tail[0]), tail[1..])
  }

  /** `fold_comparison`. */
  method FoldComparison(expression: Expr, tail: seq<Suffix>) returns (r: Expr)
    ensures r == FoldAll(expression, tail)
  {
    r := expression;
    for i := 0 to |tail|
      invariant FoldAll(expression, tail) == FoldAll(r, tail[i..])
    {
      assert tail[i..][1..] == tail[i + 1..];
      match tail[i] {
        case BinarySuffix(op, opSpan, right) =>
          var span := CoverOf(SpanOf(r), SpanOf(right));
          r := Binary(r, op, opSpan, right, span);
        case IsSuffix(negated, predicate_, end) =>
          var span := RawSpan(SpanOf(r).start, end);
          r := Expr.Is(r, negated, predicate_, span);
      }
    }
  }

  function AsSuffixes(tail: seq<(Operator, RawSpan, Expr)>): (r: seq<Suffix>)
    ensures |r| == |tail|
    ensures forall i :: 0 <= i < |r| ==> r[i] == BinarySuffix(tail[i].0, tail[i].1, tail[i].2)
  {
    seq(|tail|, i requires 0 <= i < |tail| => BinarySuffix(tail[i].0, tail[i].1, tail[i].2))
  }

  /** `fold_binary`. */
  method FoldBinary(expression: Expr, tail: seq<(Operator, RawSpan, Expr)>) returns (r: Expr)
    ensures r == FoldAll(expression, AsSuffixes(tail))
  {
    r := expression;
    ghost var suffixes := AsSuffixes(tail);
    for i := 0 to |tail|
      invariant FoldAll(expression, suffixes) == FoldAll(r, suffixes[i..])
    {
      assert suffixes[i..][1..] == suffixes[i + 1..];
      var (operator, opSpan, right) := tail[i];
      var span := CoverOf(SpanOf(r), SpanOf(right));
      r := Binary(r, operator, opSpan, right, span);
    }
  }

  // ---------- the grammar ----------

  /** How many items in a row bind tighter than level k. */
  function Tighter(items: seq<Item>, k: nat): (n: nat)
    ensures n <= |items|
    ensures forall i :: 0 <= i < n ==> ItemLevel(items[i]) > k
    ensures n < |items| ==> ItemLevel(items[n]) <= k
  {
    if items != [] && ItemLevel(items[0]) > k then 1 + Tighter(items[1..], k) else 0
  }

  /** A level's expression: one of the next level, and a tail that `fold` combines. The advanced
      comparison level takes at most one suffix. */
  function Combine(k: nat, left: Option<Expr>, tail: Option<seq<Suffix>>): Option<Expr> {
    if left.None? || tail.None? || (k == ADVANCED && |tail.value| > 1) then None
    else Some(FoldAll(left.value, tail.value))
  }

  function Cons(first: Option<Suffix>, rest: Option<seq<Suffix>>): Option<seq<Suffix>> {
    if first.None? || rest.None? then None else Some([first.value] + rest.value)
  }

  /** The expression of level k that the operand and the items form, if they do. */
  function Parse(k: nat, head: Leaf, items: seq<Item>): Option<Expr>
    requires k <= TIGHTEST
    decreases |items|, TIGHTEST - k, 1
  {
    if k == TIGHTEST then if items == [] then Some(Operand(head)) else None
    else
      var n := Tighter(items, k);
      Combine(k, Parse(k + 1, head, items[..n]), ParseTail(k, items[n..]))
  }

  /** Operators of level k, each with an operand of the next level. */
  function ParseTail(k: nat, items: seq<Item>): Option<seq<Suffix>>
    requires k < TIGHTEST
    decreases |items|, TIGHTEST - k, 0
  {
    if items == [] then Some([])
    else if ItemLevel(items[0]) != k then None
    else
      var n := Tighter(items[1..], k);
      Cons(ParseSuffix(k, items[0], items[1..1 + n]), ParseTail(k, items[1 + n..]))
  }

  /** One operator and its right operand. An `IS` check takes no operand. */
  function ParseSuffix(k: nat, item: Item, items: seq<Item>): Option<Suffix>
    requires k < TIGHTEST
    decreases |items|, TIGHTEST - k, 2
  {
    match item
    case IsLink(negated, predicate_, end) => if items == [] then Some(IsSuffix(negated, predicate_, end)) else None
    case Link(op, opSpan, leaf) => Attach(op, opSpan, Parse(k + 1, leaf, items))
  }

  function Attach(op: Operator, opSpan: RawSpan, right: Option<Expr>): Option<Suffix> {
    if right.None? then None else Some(BinarySuffix(op, opSpan, right.value))
  }

  // ---------- the productions as equations ----------

  /** The three functions by name. */
  datatype Grammar = Grammar(
    parse: (nat, Leaf, seq<Item>) -> Option<Expr>,
    tail: (nat, seq<Item>) -> Option<seq<Suffix>>,
    suffix: (nat, Item, seq<Item>) -> Option<Suffix>)

  ghost predicate ParsesAt(g: Grammar, k: nat, head: Leaf, items: seq<Item>) {
    if k >= TIGHTEST then g.parse(k, head, items) == if items == [] && k == TIGHTEST then Some(Operand(head)) else None
    else
      var n := Tighter(items, k);
      g.parse(k, head, items) == Combine(k, g.parse(k + 1, head, items[..n]), g.tail(k, items[n..]))
  }

  ghost predicate TailsAt(g: Grammar, k: nat, items: seq<Item>) {
    g.tail(k, items)
    == if k >= TIGHTEST then None
       else if items == [] then Some([])
       else if ItemLevel(items[0]) != k then None
       else
         var n := Tighter(items[1..], k);
         Cons(g.suffix(k, items[0], items[1..1 + n]), g.tail(k, items[1 + n..]))
  }

  ghost predicate SuffixesAt(g: Grammar, k: nat, item: Item, items: seq<Item>) {
    g.suffix(k, item, items)
    == if k >= TIGHTEST then None
       else if item.Link? then Attach(item.op, item.opSpan, g.parse(k + 1, item.leaf, items))
       else if items == [] then Some(IsSuffix(item.negated, item.predicate_, item.end)) else None
  }

  ghost predicate IsGrammar(g: Grammar) {
    && (forall k: nat, head: Leaf, items: seq<Item> :: ParsesAt(g, k, head, items))
    && (forall k: nat, items: seq<Item> :: TailsAt(g, k, items))
    && (forall k: nat, item: Item, items: seq<Item> :: SuffixesAt(g, k, item, items))
  }

  function TheGrammar(): Grammar {
    Grammar(
      (k: nat, head: Leaf, items: seq<Item>) => if k <= TIGHTEST then Parse(k, head, items) else None,
      (k: nat, items: seq<Item>) => if k < TIGHTEST then ParseTail(k, items) else None,
      (k: nat, item: Item, items: seq<Item>) => if k < TIGHTEST then ParseSuffix(k, item, items) else None)
  }

  lemma TheGrammarIsGrammar()
    ensures IsGrammar(TheGrammar())
  {
    var g := TheGrammar();
    forall k: nat, head: Leaf, items: seq<Item> ensures ParsesAt(g, k, head, items) {
    }
    forall k: nat, items: seq<Item> ensures TailsAt(g, k, items) {
    }
    forall k: nat, item: Item, items: seq<Item> ensures SuffixesAt(g, k, item, items) {
    }
  }

  // ---------- the trees of a level ----------

  /** No looser operator beneath a tighter one, left-associative at each level, and at most one
      advanced comparison. */
  ghost predicate Shaped(e: Expr) {
    match e
    case Operand(_) => true
    case Binary(left, op, _, right, _) =>
      && Shaped(left) && Shaped(right)
      && RootLevel(left) >= (if Level(op) == ADVANCED then ADVANCED + 1 else Level(op))
      && RootLevel(right) > Level(op)
    case Is(inner, _, _, _) => Shaped(inner) && RootLevel(inner) > ADVANCED
  }

  /** Each node spans what the folds give it. */
  ghost predicate Spanned(e: Expr) {
    match e
    case Operand(_) => true
    case Binary(left, _, _, right, span) =>
      Spanned(left) && Spanned(right) && span == CoverOf(SpanOf(left), SpanOf(right))
    case Is(inner, _, _, span) => Spanned(inner) && span == RawSpan(SpanOf(inner).start, span.end)
  }

  function HeadOf(e: Expr): Leaf {
    match e
    case Operand(leaf) => leaf
    case Binary(left, _, _, _, _) => HeadOf(left)
    case Is(inner, _, _, _) => HeadOf(inner)
  }

  /** The in-order yield after the first operand. */
  function ItemsOf(e: Expr): seq<Item> {
    match e
    case Operand(_) => []
    case Binary(left, op, opSpan, right, _) => ItemsOf(left) + [Link(op, opSpan, HeadOf(right))] + ItemsOf(right)
    case Is(inner, negated, predicate_, span) => ItemsOf(inner) + [IsLink(negated, predicate_, span.end)]
  }

  /** A tree of level k or tighter. */
  ghost predicate IsTree(e: Expr, k: nat) {
    Shaped(e) && Spanned(e) && RootLevel(e) >= k
  }

  /** The tree reads as the operand and the items. */
  ghost predicate Reads(e: Expr, head: Leaf, items: seq<Item>) {
    HeadOf(e) == head && ItemsOf(e) == items
  }

  predicate AllTighter(items: seq<Item>, k: int) {
    forall i :: 0 <= i < |items| ==> ItemLevel(items[i]) > k
  }

  // ---------- what is parsed is such a tree ----------

  function SuffixItems(s: Suffix): seq<Item> {
    match s
    case BinarySuffix(op, opSpan, right) => [Link(op, opSpan, HeadOf(right))] + ItemsOf(right)
    case IsSuffix(negated, predicate_, end) => [IsLink(negated, predicate_, end)]
  }

  function TailItems(tail: seq<Suffix>): seq<Item> {
    if tail == [] then [] else SuffixItems(tail[0]) + TailItems(tail[1..])
  }

  ghost predicate IsSuffixOf(s: Suffix, k: nat) {
    match s
    case BinarySuffix(op, _, right) => Level(op) == k && IsTree(right, k + 1)
    case IsSuffix(_, _, _) => k == ADVANCED
  }

  ghost predicate AreSuffixesOf(tail: seq<Suffix>, k: nat) {
    forall i :: 0 <= i < |tail| ==> IsSuffixOf(tail[i], k)
  }

  /** One more suffix on a tree. */
  lemma ApplyIsTree(e: Expr, s: Suffix, k: nat)
    requires IsSuffixOf(s, k) && IsTree(e, if k == ADVANCED then k + 1 else k)
    ensures IsTree(Apply(e, s), k)
    ensures Reads(Apply(e, s), HeadOf(e), ItemsOf(e) + SuffixItems(s))
  {
    if s.BinarySuffix? {
      assert ItemsOf(e) + ([Link(s.op, s.opSpan, HeadOf(s.right))] + ItemsOf(s.right))
          == ItemsOf(e) + [Link(s.op, s.opSpan, HeadOf(s.right))] + ItemsOf(s.right);
    }
  }

  lemma {:induction false} FoldIsTree(e: Expr, tail: seq<Suffix>, k: nat)
    requires AreSuffixesOf(tail, k) && k < TIGHTEST && k != ADVANCED && IsTree(e, k)
    ensures IsTree(FoldAll(e, tail), k)
    ensures Reads(FoldAll(e, tail), HeadOf(e), ItemsOf(e) + TailItems(tail))
    decreases |tail|
  {
    if tail == [] {
      assert ItemsOf(e) + [] == ItemsOf(e);
    } else {
      ApplyIsTree(e, tail[0], k);
      FoldIsTree(Apply(e, tail[0]), tail[1..], k);
      AppendThree(ItemsOf(e), SuffixItems(tail[0]), TailItems(tail[1..]));
    }
  }

  lemma AppendThree(a: seq<Item>, b: seq<Item>, c: seq<Item>)
    ensures a + (b + c) == a + b + c
  {
  }

  lemma FoldAdvancedIsTree(e: Expr, tail: seq<Suffix>)
    requires AreSuffixesOf(tail, ADVANCED) && |tail| <= 1 && IsTree(e, ADVANCED + 1)
    ensures IsTree(FoldAll(e, tail), ADVANCED)
    ensures Reads(FoldAll(e, tail), HeadOf(e), ItemsOf(e) + TailItems(tail))
  {
    if tail == [] {
      assert ItemsOf(e) + [] == ItemsOf(e);
    } else {
      ApplyIsTree(e, tail[0], ADVANCED);
      assert tail[1..] == [] && FoldAll(e, tail) == Apply(e, tail[0]);
      assert TailItems(tail) == SuffixItems(tail[0]) + [] == SuffixItems(tail[0]);
    }
  }

  /** The two parts of an expression of level k. */
  lemma ParseParts(g: Grammar, k: nat, head: Leaf, items: seq<Item>) returns (n: nat, left: Expr, tail: seq<Suffix>)
    requires IsGrammar(g) && k < TIGHTEST && g.parse(k, head, items).Some?
    ensures n == Tighter(items, k) <= |items| && items[..n] + items[n..] == items
    ensures g.parse(k + 1, head, items[..n]) == Some(left) && g.tail(k, items[n..]) == Some(tail)
    ensures (k == ADVANCED ==> |tail| <= 1) && g.parse(k, head, items) == Some(FoldAll(left, tail))
  {
    assert ParsesAt(g, k, head, items);
    n := Tighter(items, k);
    left, tail := g.parse(k + 1, head, items[..n]).value, g.tail(k, items[n..]).value;
  }

  /** The parts of a tail. */
  lemma TailParts(g: Grammar, k: nat, items: seq<Item>) returns (n: nat, suffix: Suffix, rest: seq<Suffix>)
    requires IsGrammar(g) && items != [] && g.tail(k, items).Some?
    ensures n == Tighter(items[1..], k) < |items| && ItemLevel(items[0]) == k
    ensures items == ([items[0]] + items[1..1 + n]) + items[1 + n..]
    ensures g.suffix(k, items[0], items[1..1 + n]) == Some(suffix)
    ensures g.tail(k, items[1 + n..]) == Some(rest) && g.tail(k, items) == Some([suffix] + rest)
  {
    assert TailsAt(g, k, items);
    n := Tighter(items[1..], k);
    suffix, rest := g.suffix(k, items[0], items[1..1 + n]).value, g.tail(k, items[1 + n..]).value;
  }

  lemma {:induction false} ParseSound(g: Grammar, k: nat, head: Leaf, items: seq<Item>)
    requires IsGrammar(g) && k <= TIGHTEST && g.parse(k, head, items).Some?
    ensures IsTree(g.parse(k, head, items).value, k) && Reads(g.parse(k, head, items).value, head, items)
    decreases |items|, TIGHTEST - k, 1
  {
    if k == TIGHTEST {
      assert ParsesAt(g, k, head, items);
    } else {
      var n, left, tail := ParseParts(g, k, head, items);
      ParseSound(g, k + 1, head, items[..n]);
      TailSound(g, k, items[n..]);
      if k == ADVANCED {
        FoldAdvancedIsTree(left, tail);
      } else {
        FoldIsTree(left, tail, k);
      }
    }
  }

  lemma {:induction false} TailSound(g: Grammar, k: nat, items: seq<Item>)
    requires IsGrammar(g) && k < TIGHTEST && g.tail(k, items).Some?
    ensures AreSuffixesOf(g.tail(k, items).value, k) && TailItems(g.tail(k, items).value) == items
    decreases |items|, TIGHTEST - k, 0
  {
    if items == [] {
      assert TailsAt(g, k, items);
    } else {
      var n, suffix, rest := TailParts(g, k, items);
      SuffixSound(g, k, items[0], items[1..1 + n]);
      TailSound(g, k, items[1 + n..]);
      assert ([suffix] + rest)[1..] == rest;
    }
  }

  lemma {:induction false} SuffixSound(g: Grammar, k: nat, item: Item, items: seq<Item>)
    requires IsGrammar(g) && k < TIGHTEST && ItemLevel(item) == k && g.suffix(k, item, items).Some?
    ensures IsSuffixOf(g.suffix(k, item, items).value, k)
    ensures SuffixItems(g.suffix(k, item, items).value) == [item] + items
    decreases |items|, TIGHTEST - k, 2
  {
    assert SuffixesAt(g, k, item, items);
    if item.Link? {
      ParseSound(g, k + 1, item.leaf, items);
    }
  }

  // ---------- every such tree is parsed ----------

  lemma {:induction false} ItemsAreTight(e: Expr, k: nat)
    requires IsTree(e, k)
    ensures AllTighter(ItemsOf(e), k - 1)
    decreases e
  {
    match e
    case Operand(_) =>
    case Binary(left, op, _, right, _) =>
      ItemsAreTight(left, k);
      ItemsAreTight(right, k);
    case Is(inner, _, _, _) =>
      ItemsAreTight(inner, k);
  }

  lemma {:induction false} TighterStops(items: seq<Item>, k: nat, item: Item, rest: seq<Item>)
    requires ItemLevel(item) <= k
    ensures Tighter(items + [item] + rest, k) == Tighter(items, k)
    decreases |items|
  {
    if items != [] && ItemLevel(items[0]) > k {
      assert (items + [item] + rest)[1..] == items[1..] + [item] + rest;
      TighterStops(items[1..], k, item, rest);
    }
  }

  lemma {:induction false} TighterAll(items: seq<Item>, k: nat)
    requires AllTighter(items, k)
    ensures Tighter(items, k) == |items|
  {
    if items != [] {
      TighterAll(items[1..], k);
    }
  }

  lemma {:induction false} FoldLast(e: Expr, tail: seq<Suffix>, s: Suffix)
    ensures FoldAll(e, tail + [s]) == Apply(FoldAll(e, tail), s)
    decreases |tail|
  {
    if tail == [] {
      assert tail + [s] == [s] && [s][1..] == [];
    } else {
      assert (tail + [s])[1..] == tail[1..] + [s];
      FoldLast(Apply(e, tail[0]), tail[1..], s);
    }
  }

  lemma TailOf(g: Grammar, k: nat, items: seq<Item>, n: nat, suffix: Suffix, rest: seq<Suffix>)
    requires IsGrammar(g) && k < TIGHTEST && items != [] && n == Tighter(items[1..], k) && ItemLevel(items[0]) == k
    requires g.suffix(k, items[0], items[1..1 + n]) == Some(suffix) && g.tail(k, items[1 + n..]) == Some(rest)
    ensures g.tail(k, items) == Some([suffix] + rest)
  {
    assert TailsAt(g, k, items);
  }

  /** A tail of one operator. */
  lemma TailOne(g: Grammar, k: nat, item: Item, rest: seq<Item>, last: Suffix)
    requires IsGrammar(g) && k < TIGHTEST && ItemLevel(item) == k && AllTighter(rest, k)
        && g.suffix(k, item, rest) == Some(last)
    ensures g.tail(k, [item] + rest) == Some([last])
  {
    var all := [item] + rest;
    TighterAll(rest, k);
    assert all[1..] == rest && all[1..1 + |rest|] == rest && all[1 + |rest|..] == [];
    assert TailsAt(g, k, []);
    TailOf(g, k, all, |rest|, last, []);
    assert [last] + [] == [last];
  }

  /** One more operator of the level, with tighter items after it. */
  lemma {:induction false} TailLast(g: Grammar, k: nat, items: seq<Item>, item: Item, rest: seq<Item>,
                                    tail: seq<Suffix>, last: Suffix)
    requires IsGrammar(g) && k < TIGHTEST && ItemLevel(item) == k && AllTighter(rest, k)
    requires g.tail(k, items) == Some(tail) && g.suffix(k, item, rest) == Some(last)
    ensures g.tail(k, items + [item] + rest) == Some(tail + [last])
    decreases |items|
  {
    if items == [] {
      assert TailsAt(g, k, items);
      TailOne(g, k, item, rest, last);
      assert items + [item] + rest == [item] + rest && tail + [last] == [last];
    } else {
      var n, suffix, tail' := TailParts(g, k, items);
      TailLast(g, k, items[1 + n..], item, rest, tail', last);
      TailMore(g, k, items, n, item, rest, suffix, tail' + [last]);
      assert [suffix] + (tail' + [last]) == [suffix] + tail' + [last];
    }
  }

  lemma TailMore(g: Grammar, k: nat, items: seq<Item>, n: nat, item: Item, rest: seq<Item>, suffix: Suffix,
                 more: seq<Suffix>)
    requires IsGrammar(g) && k < TIGHTEST && items != [] && ItemLevel(items[0]) == k && ItemLevel(item) == k
    requires n == Tighter(items[1..], k) && g.suffix(k, items[0], items[1..1 + n]) == Some(suffix)
    requires g.tail(k, items[1 + n..] + [item] + rest) == Some(more)
    ensures g.tail(k, items + [item] + rest) == Some([suffix] + more)
  {
    var all := items + [item] + rest;
    assert all[1..] == items[1..] + [item] + rest;
    TighterStops(items[1..], k, item, rest);
    assert all[1..1 + n] == items[1..1 + n] && all[1 + n..] == items[1 + n..] + [item] + rest;
    TailOf(g, k, all, n, suffix, more);
  }

  lemma ParseLast(g: Grammar, k: nat, head: Leaf, items: seq<Item>, item: Item, rest: seq<Item>, e: Expr, last: Suffix)
    requires IsGrammar(g) && k < TIGHTEST && ItemLevel(item) == k && AllTighter(rest, k)
    requires g.parse(k, head, items) == Some(e) && g.suffix(k, item, rest) == Some(last)
    requires k == ADVANCED ==> AllTighter(items, k)
    ensures g.parse(k, head, items + [item] + rest) == Some(Apply(e, last))
  {
    var n, left, tail := ParseParts(g, k, head, items);
    var all := items + [item] + rest;
    TighterStops(items, k, item, rest);
    assert all[..n] == items[..n] && all[n..] == items[n..] + [item] + rest;
    TailLast(g, k, items[n..], item, rest, tail, last);
    if k == ADVANCED {
      TighterAll(items, k);
      assert items[n..] == [];
      assert TailsAt(g, k, []);
    }
    FoldLast(left, tail, last);
    ParseOf(g, k, head, all, n, left, tail + [last]);
  }

  lemma ParseOf(g: Grammar, k: nat, head: Leaf, items: seq<Item>, n: nat, left: Expr, tail: seq<Suffix>)
    requires IsGrammar(g) && k < TIGHTEST && n == Tighter(items, k) && (k == ADVANCED ==> |tail| <= 1)
    requires g.parse(k + 1, head, items[..n]) == Some(left) && g.tail(k, items[n..]) == Some(tail)
    ensures g.parse(k, head, items) == Some(FoldAll(left, tail))
  {
    assert ParsesAt(g, k, head, items);
  }

  lemma {:induction false} ParseComplete(g: Grammar, k: nat, e: Expr)
    requires IsGrammar(g) && k <= TIGHTEST && IsTree(e, k)
    ensures g.parse(k, HeadOf(e), ItemsOf(e)) == Some(e)
    decreases e, TIGHTEST - k, 0
  {
    if RootLevel(e) > k {
      ParseLooser(g, k, e);
    } else if e.Binary? {
      CompleteBinary(g, k, e);
    } else if e.Is? {
      CompleteIs(g, e);
    } else {
      assert ParsesAt(g, k, HeadOf(e), ItemsOf(e));
    }
  }

  /** A tree without an operator of the level is one of the next level. */
  lemma {:induction false} ParseLooser(g: Grammar, k: nat, e: Expr)
    requires IsGrammar(g) && k < TIGHTEST && IsTree(e, k + 1)
    ensures g.parse(k, HeadOf(e), ItemsOf(e)) == Some(e)
    decreases e, TIGHTEST - k - 1, 1
  {
    var items := ItemsOf(e);
    ItemsAreTight(e, k + 1);
    TighterAll(items, k);
    assert items[..|items|] == items && items[|items|..] == [];
    ParseComplete(g, k + 1, e);
    assert TailsAt(g, k, []);
    ParseOf(g, k, HeadOf(e), items, |items|, e, []);
  }

  lemma {:induction false} CompleteBinary(g: Grammar, k: nat, e: Expr)
    requires IsGrammar(g) && k < TIGHTEST && IsTree(e, k) && e.Binary? && Level(e.op) == k
    ensures g.parse(k, HeadOf(e), ItemsOf(e)) == Some(e)
    decreases e, 0, 0
  {
    ParseComplete(g, k, e.left);
    ParseComplete(g, k + 1, e.right);
    ItemsAreTight(e.left, if k == ADVANCED then k + 1 else k);
    ItemsAreTight(e.right, k + 1);
    var item := Link(e.op, e.opSpan, HeadOf(e.right));
    assert SuffixesAt(g, k, item, ItemsOf(e.right));
    ParseLast(g, k, HeadOf(e), ItemsOf(e.left), item, ItemsOf(e.right), e.left, BinarySuffix(e.op, e.opSpan, e.right));
  }

  lemma {:induction false} CompleteIs(g: Grammar, e: Expr)
    requires IsGrammar(g) && IsTree(e, ADVANCED) && e.Is?
    ensures g.parse(ADVANCED, HeadOf(e), ItemsOf(e)) == Some(e)
    decreases e, 0, 0
  {
    ParseComplete(g, ADVANCED, e.expr);
    ItemsAreTight(e.expr, ADVANCED + 1);
    var item := IsLink(e.negated, e.predicate_, e.span.end);
    assert ItemsOf(e.expr) + [item] + [] == ItemsOf(e);
    assert SuffixesAt(g, ADVANCED, item, []);
    ParseLast(g, ADVANCED, HeadOf(e), ItemsOf(e.expr), item, [], e.expr, IsSuffix(e.negated, e.predicate_, e.span.end));
  }

  /** The folds build the one tree that reads as the chain, and reject a chain without one. */
  lemma ParseIffTree(k: nat, head: Leaf, items: seq<Item>, e: Expr)
    requires k <= TIGHTEST
    ensures Parse(k, head, items) == Some(e) <==> IsTree(e, k) && Reads(e, head, items)
  {
    var g := TheGrammar();
    TheGrammarIsGrammar();
    assert g.parse(k, head, items) == Parse(k, head, items);
    if Parse(k, head, items) == Some(e) {
      ParseSound(g, k, head, items);
    } else if IsTree(e, k) && Reads(e, head, items) {
      ParseComplete(g, k, e);
    }
  }

  // ---------- which chains are rejected ----------

  /** Two advanced comparisons with only tighter operators between them, or an operator right
      after an `IS` check that binds as tightly or tighter. */
  predicate ClashAt(items: seq<Item>, i: nat, j: nat) {
    && i < j < |items| && ItemLevel(items[i]) == ADVANCED
    && (ItemLevel(items[j]) == ADVANCED || (items[i].IsLink? && j == i + 1 && ItemLevel(items[j]) > ADVANCED))
    && forall m :: i < m < j ==> ItemLevel(items[m]) > ADVANCED
  }

  ghost predicate HasClash(items: seq<Item>) {
    exists i: nat, j: nat :: ClashAt(items, i, j)
  }

  /** A looser operator separates. */
  lemma ClashSplit(a: seq<Item>, b: seq<Item>)
    requires b != [] ==> ItemLevel(b[0]) < ADVANCED
    ensures HasClash(a + b) <==> HasClash(a) || HasClash(b)
  {
    var c := a + b;
    if i: nat, j: nat :| ClashAt(c, i, j) {
      if j < |a| {
        forall m: nat | i < m < j ensures ItemLevel(a[m]) > ADVANCED {
          assert c[m] == a[m];
        }
        assert ClashAt(a, i, j);
      } else {
        assert c[|a|] == b[0];
        assert i >= |a|;
        forall m: nat | i - |a| < m < j - |a| ensures ItemLevel(b[m]) > ADVANCED {
          assert c[m + |a|] == b[m];
        }
        assert ClashAt(b, i - |a|, j - |a|);
      }
    }
    if i: nat, j: nat :| ClashAt(a, i, j) {
      forall m: nat | i < m < j ensures ItemLevel(c[m]) > ADVANCED {
        assert c[m] == a[m];
      }
      assert ClashAt(c, i, j);
    }
    if i: nat, j: nat :| ClashAt(b, i, j) {
      forall m: nat | i + |a| < m < j + |a| ensures ItemLevel(c[m]) > ADVANCED {
        assert c[m] == b[m - |a|];
      }
      assert ClashAt(c, i + |a|, j + |a|);
    }
  }

  /** Nor does a first operator of another level clash. */
  lemma ClashCons(item: Item, items: seq<Item>)
    requires ItemLevel(item) != ADVANCED
    ensures HasClash([item] + items) <==> HasClash(items)
  {
    var c := [item] + items;
    if i: nat, j: nat :| ClashAt(c, i, j) {
      assert i > 0;
      forall m: nat | i - 1 < m < j - 1 ensures ItemLevel(items[m]) > ADVANCED {
        assert c[m + 1] == items[m];
      }
      assert ClashAt(items, i - 1, j - 1);
    }
    if i: nat, j: nat :| ClashAt(items, i, j) {
      forall m: nat | i + 1 < m < j + 1 ensures ItemLevel(c[m]) > ADVANCED {
        assert c[m] == items[m - 1];
      }
      assert ClashAt(c, i + 1, j + 1);
    }
  }

  lemma NoClashWhenTight(items: seq<Item>)
    requires AllTighter(items, ADVANCED)
    ensures !HasClash(items)
  {
  }

  /** The advanced level accepts at most one suffix, and nothing after an `IS` check. */
  lemma {:induction false} AdvancedIff(g: Grammar, head: Leaf, items: seq<Item>)
    requires IsGrammar(g) && AllTighter(items, ADVANCED - 1)
    ensures g.parse(ADVANCED, head, items).Some? <==> !HasClash(items)
    decreases |items|, TIGHTEST - ADVANCED, 1
  {
    assert ParsesAt(g, ADVANCED, head, items);
    var n := Tighter(items, ADVANCED);
    ParseIffNoClash(g, ADVANCED + 1, head, items[..n]);
    NoClashWhenTight(items[..n]);
    assert TailsAt(g, ADVANCED, items[n..]);
    if n < |items| {
      AdvancedTail(g, items, n);
    } else {
      assert items[..n] == items;
    }
  }

  /** A tail is accepted when its first suffix and the rest are. */
  lemma TailSplit(g: Grammar, k: nat, items: seq<Item>) returns (operand: seq<Item>, rest: seq<Item>)
    requires IsGrammar(g) && k < TIGHTEST && items != [] && ItemLevel(items[0]) == k
    ensures |operand| == Tighter(items[1..], k) && AllTighter(operand, k) && items == [items[0]] + (operand + rest)
    ensures rest != [] ==> ItemLevel(rest[0]) <= k
    ensures g.tail(k, items) == Cons(g.suffix(k, items[0], operand), g.tail(k, rest))
  {
    var n := Tighter(items[1..], k);
    operand, rest := items[1..1 + n], items[1 + n..];
    assert TailsAt(g, k, items);
    assert forall i :: 0 <= i < n ==> operand[i] == items[1..][i];
    assert rest != [] ==> rest[0] == items[1..][n];
  }

  lemma EmptyTail(g: Grammar, k: nat)
    requires IsGrammar(g) && k < TIGHTEST
    ensures g.tail(k, []) == Some([])
  {
    assert TailsAt(g, k, []);
  }

  lemma TailNotEmpty(g: Grammar, k: nat, items: seq<Item>)
    requires IsGrammar(g) && items != []
    ensures g.tail(k, items).Some? ==> |g.tail(k, items).value| > 0
  {
    assert TailsAt(g, k, items);
  }

  /** A suffix is accepted when its operand is, and an `IS` check when nothing follows. */
  lemma {:induction false} SuffixIff(g: Grammar, k: nat, item: Item, operand: seq<Item>)
    requires IsGrammar(g) && k < TIGHTEST && AllTighter(operand, k)
    ensures g.suffix(k, item, operand).Some? <==> if item.IsLink? then operand == [] else !HasClash(operand)
    decreases |operand|, TIGHTEST - k, 1
  {
    assert SuffixesAt(g, k, item, operand);
    if item.Link? {
      ParseIffNoClash(g, k + 1, item.leaf, operand);
    }
  }

  lemma {:induction false} AdvancedTail(g: Grammar, items: seq<Item>, n: nat)
    requires IsGrammar(g) && n < |items| && AllTighter(items, ADVANCED - 1) && AllTighter(items[..n], ADVANCED)
    requires ItemLevel(items[n]) == ADVANCED
    ensures (g.tail(ADVANCED, items[n..]).Some? && |g.tail(ADVANCED, items[n..]).value| <= 1) <==> !HasClash(items)
    decreases |items|, TIGHTEST - ADVANCED, 0
  {
    var operand, rest := TailSplit(g, ADVANCED, items[n..]);
    assert items[n..][1..] == items[n + 1..];
    SuffixIff(g, ADVANCED, items[n], operand);
    NoClashWhenTight(operand);
    EmptyTail(g, ADVANCED);
    if rest != [] {
      TailNotEmpty(g, ADVANCED, rest);
    }
    AdvancedClash(items, n, |operand|);
  }

  /** Where the clash is, if any. */
  lemma AdvancedClash(items: seq<Item>, n: nat, m: nat)
    requires n < |items| && AllTighter(items, ADVANCED - 1) && AllTighter(items[..n], ADVANCED)
        && ItemLevel(items[n]) == ADVANCED
    requires m == Tighter(items[n + 1..], ADVANCED)
    ensures HasClash(items) <==> n + 1 + m < |items| || (items[n].IsLink? && m > 0)
  {
    assert forall i :: 0 <= i < n ==> ItemLevel(items[i]) == ItemLevel(items[..n][i]);
    forall i | n < i < n + 1 + m ensures ItemLevel(items[i]) > ADVANCED {
      assert items[i] == items[n + 1..][i - n - 1];
    }
    if n + 1 + m < |items| {
      assert items[n + 1 + m] == items[n + 1..][m];
      assert ClashAt(items, n, n + 1 + m);
    } else if items[n].IsLink? && m > 0 {
      assert ClashAt(items, n, n + 1);
    } else {
      forall i: nat, j: nat ensures !ClashAt(items, i, j) {
        assert n < j < |items| ==> items[j] == items[n + 1..][j - n - 1];
        assert n < i < |items| ==> items[i] == items[n + 1..][i - n - 1];
      }
    }
  }

  lemma TightestIsEmpty(items: seq<Item>)
    requires AllTighter(items, TIGHTEST - 1)
    ensures items == []
  {
    TighterAll(items, TIGHTEST - 1);
    if items != [] {
      assert false;
    }
  }

  lemma {:induction false} ParseIffNoClash(g: Grammar, k: nat, head: Leaf, items: seq<Item>)
    requires IsGrammar(g) && k <= TIGHTEST && AllTighter(items, k - 1)
    ensures g.parse(k, head, items).Some? <==> !HasClash(items)
    decreases |items|, TIGHTEST - k, 2
  {
    if k == TIGHTEST {
      assert ParsesAt(g, k, head, items);
      TightestIsEmpty(items);
    } else if k == ADVANCED {
      AdvancedIff(g, head, items);
    } else {
      var n := Tighter(items, k);
      assert ParsesAt(g, k, head, items);
      assert items[..n] + items[n..] == items;
      ParseIffNoClash(g, k + 1, head, items[..n]);
      TailIffNoClash(g, k, items[n..]);
      ClashParts(k, items[..n], items[n..]);
    }
  }

  /** Parts at a level other than the advanced one. */
  lemma ClashParts(k: nat, a: seq<Item>, b: seq<Item>)
    requires k != ADVANCED && AllTighter(a, k) && AllTighter(b, k - 1) && (b != [] ==> ItemLevel(b[0]) == k)
    ensures HasClash(a + b) <==> HasClash(a) || HasClash(b)
  {
    if k < ADVANCED {
      ClashSplit(a, b);
    } else {
      NoClashWhenTight(a);
      NoClashWhenTight(b);
      NoClashWhenTight(a + b);
    }
  }

  lemma {:induction false} TailIffNoClash(g: Grammar, k: nat, items: seq<Item>)
    requires IsGrammar(g) && k < TIGHTEST && k != ADVANCED && AllTighter(items, k - 1)
    requires items != [] ==> ItemLevel(items[0]) == k
    ensures g.tail(k, items).Some? <==> !HasClash(items)
    decreases |items|, TIGHTEST - k, 0
  {
    if items == [] {
      EmptyTail(g, k);
    } else {
      var operand, rest := TailSplit(g, k, items);
      assert forall i :: 0 <= i < |rest| ==> rest[i] == items[1 + |operand| + i];
      SuffixIff(g, k, items[0], operand);
      TailIffNoClash(g, k, rest);
      ClashParts(k, operand, rest);
      ClashCons(items[0], operand + rest);
    }
  }

  /** A chain of operands and operators is rejected exactly when it clashes. */
  lemma RejectedIffClash(head: Leaf, items: seq<Item>)
    ensures Parse(0, head, items).None? <==> HasClash(items)
  {
    var g := TheGrammar();
    TheGrammarIsGrammar();
    assert g.parse(0, head, items) == Parse(0, head, items);
    ParseIffNoClash(g, 0, head, items);
  }

  // ---------- spans ----------

  function ItemEnd(item: Item): nat {
    if item.Link? then item.leaf.span.end else item.end
  }

  /** Where the chain ends. */
  function ChainEnd(head: Leaf, items: seq<Item>): nat {
    if items == [] then head.span.end else ItemEnd(items[|items| - 1])
  }

  /** The operands and checks follow each other in the text. */
  ghost predicate OrderedChain(head: Leaf, items: seq<Item>) {
    && head.span.start <= head.span.end
    && (forall i :: 0 <= i < |items| && items[i].Link? ==>
          ChainEnd(head, items[..i]) <= items[i].leaf.span.start <= items[i].leaf.span.end)
    && (forall i :: 0 <= i < |items| && items[i].IsLink? ==> ChainEnd(head, items[..i]) <= items[i].end)
  }

  /** Every node spans from its first operand to the end of its last one. */
  ghost predicate SpansYield(e: Expr) {
    && SpanOf(e) == RawSpan(HeadOf(e).span.start, ChainEnd(HeadOf(e), ItemsOf(e)))
    && SpanOf(e).start <= SpanOf(e).end
    && match e
       case Operand(_) => true
       case Binary(left, _, _, right, _) => SpansYield(left) && SpansYield(right)
       case Is(inner, _, _, _) => SpansYield(inner)
  }

  lemma OrderedPrefix(head: Leaf, a: seq<Item>, b: seq<Item>)
    requires OrderedChain(head, a + b)
    ensures OrderedChain(head, a)
  {
    var all := a + b;
    forall i | 0 <= i < |a| ensures all[i] == a[i] && all[..i] == a[..i] {
    }
  }

  lemma OrderedSuffix(head: Leaf, a: seq<Item>, link: Item, b: seq<Item>)
    requires link.Link? && OrderedChain(head, a + [link] + b)
    ensures OrderedChain(link.leaf, b) && ChainEnd(head, a) <= link.leaf.span.start
  {
    var all := a + [link] + b;
    assert all[..|a|] == a && all[|a|] == link;
    forall i | 0 <= i < |b|
      ensures all[|a| + 1 + i] == b[i] && ChainEnd(head, all[..|a| + 1 + i]) == ChainEnd(link.leaf, b[..i])
    {
      LastOfChain(head, a, link, b, i);
    }
  }

  lemma LastOfChain(head: Leaf, a: seq<Item>, link: Item, b: seq<Item>, i: nat)
    requires link.Link? && i <= |b|
    ensures ChainEnd(head, (a + [link] + b)[..|a| + 1 + i]) == ChainEnd(link.leaf, b[..i])
  {
    var part := (a + [link] + b)[..|a| + 1 + i];
    assert part[|a| + i] == if i == 0 then link else b[..i][i - 1];
  }

  lemma OrderedParts(head: Leaf, a: seq<Item>, link: Item, b: seq<Item>)
    requires link.Link? && OrderedChain(head, a + [link] + b)
    ensures OrderedChain(head, a) && OrderedChain(link.leaf, b)
    ensures ChainEnd(head, a) <= link.leaf.span.start
    ensures ChainEnd(head, a + [link] + b) == ChainEnd(link.leaf, b)
  {
    assert a + ([link] + b) == a + [link] + b;
    OrderedPrefix(head, a, [link] + b);
    OrderedSuffix(head, a, link, b);
    LastOfChain(head, a, link, b, |b|);
    assert (a + [link] + b)[..|a| + 1 + |b|] == a + [link] + b && b[..|b|] == b;
  }

  lemma OrderedInner(head: Leaf, a: seq<Item>, check: Item)
    requires check.IsLink? && OrderedChain(head, a + [check])
    ensures OrderedChain(head, a) && ChainEnd(head, a) <= check.end && ChainEnd(head, a + [check]) == check.end
  {
    var all := a + [check];
    assert all[..|a|] == a && all[|a|] == check;
    forall i | 0 <= i < |a| ensures all[i] == a[i] && all[..i] == a[..i] {
    }
  }

  lemma {:induction false} SpansCover(e: Expr)
    requires Spanned(e) && OrderedChain(HeadOf(e), ItemsOf(e))
    ensures SpansYield(e)
    decreases e
  {
    match e
    case Operand(_) =>
    case Binary(left, op, opSpan, right, _) =>
      OrderedParts(HeadOf(e), ItemsOf(left), Link(op, opSpan, HeadOf(right)), ItemsOf(right));
      SpansCover(left);
      SpansCover(right);
    case Is(inner, negated, predicate_, span) =>
      OrderedInner(HeadOf(e), ItemsOf(inner), IsLink(negated, predicate_, span.end));
      SpansCover(inner);
  }

  /** What `Expr` builds from an ordered chain spans exactly the text of each part, so no span
      constructor is called with its ends swapped. */
  lemma ParsedSpansCover(head: Leaf, items: seq<Item>)
    requires OrderedChain(head, items) && Parse(0, head, items).Some?
    ensures SpansYield(Parse(0, head, items).value)
  {
    ParseIffTree(0, head, items, Parse(0, head, items).value);
    SpansCover(Parse(0, head, items).value);
  }

  // ---------- two operators ----------

  /** The operators from the loosest to the tightest. */
  const PRECEDENCE: seq<set<Operator>> := [
    {Operator.Or}, {Operator.Xor}, {Operator.And},
    {Operator.Equal, Operator.NotEqual, Operator.Less, Operator.LessEqual, Operator.Greater, Operator.GreaterEqual},
    {RegexMatch, In, Contains, StartsWith, EndsWith},
    {Concat}, {Add, Subtract}, {Multiply, Divide, Remainder}, {Power}]

  predicate IsAdvanced(op: Operator) {
    op.RegexMatch? || op.In? || op.Contains? || op.StartsWith? || op.EndsWith?
  }

  /** The first operator stands in front of the second in the list. */
  ghost predicate IsLooser(p: Operator, q: Operator) {
    exists i, j :: 0 <= i < j < |PRECEDENCE| && p in PRECEDENCE[i] && q in PRECEDENCE[j]
  }

  lemma LevelIsPlace(op: Operator)
    ensures |PRECEDENCE| == TIGHTEST && op in PRECEDENCE[Level(op)]
    ensures forall i :: 0 <= i < |PRECEDENCE| && op in PRECEDENCE[i] ==> i == Level(op)
    ensures IsAdvanced(op) <==> Level(op) == ADVANCED
  {
  }

  lemma LooserIff(p: Operator, q: Operator)
    ensures IsLooser(p, q) <==> Level(p) < Level(q)
  {
    LevelIsPlace(p);
    LevelIsPlace(q);
  }

  /** A node from the start of its left part to the end of its right part. */
  function NodeOf(left: Expr, op: Operator, opSpan: RawSpan, right: Expr): Expr {
    Binary(left, op, opSpan, right, CoverOf(SpanOf(left), SpanOf(right)))
  }

  /** The tree reads as the chain, and no other does. */
  lemma ParsesTo(a: Leaf, items: seq<Item>, e: Expr)
    requires IsTree(e, 0) && Reads(e, a, items)
    ensures Parse(0, a, items) == Some(e)
  {
    ParseIffTree(0, a, items, e);
  }

  lemma RightTree(a: Leaf, p: Operator, ps: RawSpan, right: Expr)
    requires IsTree(right, Level(p) + 1)
    ensures var e := NodeOf(Operand(a), p, ps, right);
            IsTree(e, 0) && Reads(e, a, [Link(p, ps, HeadOf(right))] + ItemsOf(right))
  {
  }

  lemma LeftTree(left: Expr, q: Operator, qs: RawSpan, c: Leaf)
    requires IsTree(left, if Level(q) == ADVANCED then ADVANCED + 1 else Level(q))
    ensures var e := NodeOf(left, q, qs, Operand(c));
            IsTree(e, 0) && Reads(e, HeadOf(left), ItemsOf(left) + [Link(q, qs, c)])
  {
  }

  lemma CheckTree(inner: Expr, negated: bool, check: IsPredicate, end: nat)
    requires IsTree(inner, ADVANCED + 1)
    ensures var e := Expr.Is(inner, negated, check, RawSpan(SpanOf(inner).start, end));
            IsTree(e, ADVANCED) && Reads(e, HeadOf(inner), ItemsOf(inner) + [IsLink(negated, check, end)])
  {
  }

  lemma PairTree(a: Leaf, p: Operator, ps: RawSpan, b: Leaf)
    ensures var e := NodeOf(Operand(a), p, ps, Operand(b));
            IsTree(e, Level(p)) && Reads(e, a, [Link(p, ps, b)])
  {
  }

  lemma AdvancedClashes(a: Leaf, p: Operator, ps: RawSpan, b: Leaf, item: Item)
    requires Level(p) == ADVANCED == ItemLevel(item)
    ensures Parse(0, a, [Link(p, ps, b), item]).None?
  {
    var items := [Link(p, ps, b), item];
    assert ClashAt(items, 0, 1);
    RejectedIffClash(a, items);
  }

  /** Two operators in a row: the tighter one takes the operand between them, the left one if they
      stand together in the list, and two advanced comparisons do not follow each other. */
  lemma TwoOperators(a: Leaf, p: Operator, ps: RawSpan, b: Leaf, q: Operator, qs: RawSpan, c: Leaf)
    ensures Parse(0, a, [Link(p, ps, b), Link(q, qs, c)])
         == if IsLooser(p, q) then Some(NodeOf(Operand(a), p, ps, NodeOf(Operand(b), q, qs, Operand(c))))
            else if IsAdvanced(p) && IsAdvanced(q) then None
            else Some(NodeOf(NodeOf(Operand(a), p, ps, Operand(b)), q, qs, Operand(c)))
  {
    LooserIff(p, q);
    LevelIsPlace(p);
    LevelIsPlace(q);
    if IsLooser(p, q) {
      TighterRight(a, p, ps, b, q, qs, c);
    } else if IsAdvanced(p) && IsAdvanced(q) {
      AdvancedClashes(a, p, ps, b, Link(q, qs, c));
    } else {
      TighterLeft(a, p, ps, b, q, qs, c);
    }
  }

  lemma TighterRight(a: Leaf, p: Operator, ps: RawSpan, b: Leaf, q: Operator, qs: RawSpan, c: Leaf)
    requires Level(p) < Level(q)
    ensures Parse(0, a, [Link(p, ps, b), Link(q, qs, c)])
         == Some(NodeOf(Operand(a), p, ps, NodeOf(Operand(b), q, qs, Operand(c))))
  {
    var right := NodeOf(Operand(b), q, qs, Operand(c));
    PairTree(b, q, qs, c);
    RightTree(a, p, ps, right);
    ParsesTo(a, [Link(p, ps, b)] + [Link(q, qs, c)], NodeOf(Operand(a), p, ps, right));
    assert [Link(p, ps, b)] + [Link(q, qs, c)] == [Link(p, ps, b), Link(q, qs, c)];
  }

  lemma TighterLeft(a: Leaf, p: Operator, ps: RawSpan, b: Leaf, q: Operator, qs: RawSpan, c: Leaf)
    requires Level(p) >= Level(q) && !(Level(p) == ADVANCED == Level(q))
    ensures Parse(0, a, [Link(p, ps, b), Link(q, qs, c)])
         == Some(NodeOf(NodeOf(Operand(a), p, ps, Operand(b)), q, qs, Operand(c)))
  {
    var left := NodeOf(Operand(a), p, ps, Operand(b));
    PairTree(a, p, ps, b);
    LeftTree(left, q, qs, c);
    ParsesTo(a, [Link(p, ps, b)] + [Link(q, qs, c)], NodeOf(left, q, qs, Operand(c)));
    assert [Link(p, ps, b)] + [Link(q, qs, c)] == [Link(p, ps, b), Link(q, qs, c)];
  }

  /** An `IS` check behind an operator takes its right operand if the operator is looser than the
      advanced comparisons, and the whole if it is tighter. */
  lemma OperatorThenCheck(a: Leaf, p: Operator, ps: RawSpan, b: Leaf, negated: bool, check: IsPredicate, end: nat)
    ensures Parse(0, a, [Link(p, ps, b), IsLink(negated, check, end)])
         == if IsAdvanced(p) then None
            else if IsLooser(p, Operator.In)
            then Some(NodeOf(Operand(a), p, ps, Expr.Is(Operand(b), negated, check, RawSpan(b.span.start, end))))
            else
              var left := NodeOf(Operand(a), p, ps, Operand(b));
              Some(Expr.Is(left, negated, check, RawSpan(SpanOf(left).start, end)))
  {
    LooserIff(p, Operator.In);
    LevelIsPlace(p);
    if IsAdvanced(p) {
      AdvancedClashes(a, p, ps, b, IsLink(negated, check, end));
    } else if IsLooser(p, Operator.In) {
      CheckRight(a, p, ps, b, negated, check, end);
    } else {
      CheckWhole(a, p, ps, b, negated, check, end);
    }
  }

  lemma CheckRight(a: Leaf, p: Operator, ps: RawSpan, b: Leaf, negated: bool, check: IsPredicate, end: nat)
    requires Level(p) < ADVANCED
    ensures Parse(0, a, [Link(p, ps, b), IsLink(negated, check, end)])
         == Some(NodeOf(Operand(a), p, ps, Expr.Is(Operand(b), negated, check, RawSpan(b.span.start, end))))
  {
    var right := Expr.Is(Operand(b), negated, check, RawSpan(b.span.start, end));
    CheckTree(Operand(b), negated, check, end);
    RightTree(a, p, ps, right);
    ParsesTo(a, [Link(p, ps, b)] + [IsLink(negated, check, end)], NodeOf(Operand(a), p, ps, right));
    assert [Link(p, ps, b)] + [IsLink(negated, check, end)] == [Link(p, ps, b), IsLink(negated, check, end)];
  }

  lemma CheckWhole(a: Leaf, p: Operator, ps: RawSpan, b: Leaf, negated: bool, check: IsPredicate, end: nat)
    requires Level(p) > ADVANCED
    ensures var left := NodeOf(Operand(a), p, ps, Operand(b));
            Parse(0, a, [Link(p, ps, b), IsLink(negated, check, end)])
            == Some(Expr.Is(left, negated, check, RawSpan(SpanOf(left).start, end)))
  {
    var left := NodeOf(Operand(a), p, ps, Operand(b));
    PairTree(a, p, ps, b);
    CheckTree(left, negated, check, end);
    ParsesTo(a, [Link(p, ps, b)] + [IsLink(negated, check, end)],
             Expr.Is(left, negated, check, RawSpan(SpanOf(left).start, end)));
    assert [Link(p, ps, b)] + [IsLink(negated, check, end)] == [Link(p, ps, b), IsLink(negated, check, end)];
  }
}
