/** The generated LR driver over abstract tables, with the identifier fallback
    that the grammar generator patches into the action function. */
module LrMachine {
  import opened Tokens

  /** The high bit of a 64-bit terminal index. Setting it on an index below it adds it,
      and clearing it subtracts it. */
  const CONTEXTUAL_MASK := 0x8000_0000_0000_0000

  newtype usize = x: int | 0 <= x < 0x1_0000_0000_0000_0000

  datatype Sym<+V> = Sym(start: nat, value: V, end: nat)

  datatype Frame<+V> = Frame(state: nat, sym: Sym<V>)

  datatype Reduced<+V> = Value(value: V) | Raise(error: Error)

  /** One generated parser. `candidate` marks the contextual keywords. Actions use the
      generator's encoding: a positive entry n shifts to state n - 1, a negative entry n
      reduces by production -n - 1, and zero is an immediate error. */
  datatype Tables<!V> = Tables(
    integer: Kind -> Option<usize>,
    identifier: usize,
    candidate: Kind -> bool,
    action: (nat, usize) -> int,
    eofAction: nat -> int,
    goto: (nat, nat) -> nat,
    arity: nat -> nat,
    accepts: nat -> bool,
    symbol: (usize, Token) -> V,
    reduce: (nat, seq<Sym<V>>, Option<nat>) -> Reduced<V>,
    expected: seq<Frame<V>> -> seq<string>
  )

  datatype Driver = Native | Contextual

  /** The stack above state 0, and the number of tokens shifted. */
  datatype Config<+V> = Config(frames: seq<Frame<V>>, next: nat)

  /** `byDriver` separates a missing table entry from a stop inside a reduction. */
  datatype Progress<+V> =
    | Running(config: Config<V>)
    | Stopped(outcome: Outcome<V>, at: nat, byDriver: bool)

  datatype Decision<+V> = Reject | ShiftTo(state: nat, value: V) | ReduceBy(production: nat)

  ghost predicate WellFormed<V(!new)>(t: Tables<V>) {
    && t.integer(Identifier) == Some(t.identifier)
    && (forall k :: t.integer(k).Some? ==> !IsMarked(t.integer(k).value))
  }

  // ---------- the generated definition ----------

  predicate IsMarked(integer: usize) {
    integer as int >= CONTEXTUAL_MASK
  }

  function Mark(integer: usize): usize {
    if IsMarked(integer) then integer else (integer as int + CONTEXTUAL_MASK) as usize
  }

  function RawIndex(integer: usize): usize {
    if IsMarked(integer) then (integer as int - CONTEXTUAL_MASK) as usize else integer
  }

  function TokenIndex<V>(t: Tables<V>, d: Driver, kind: Kind): Option<usize> {
    match t.integer(kind)
    case None => None
    case Some(integer) =>
      if d.Contextual? && t.candidate(kind) then Some(Mark(integer)) else Some(integer)
  }

  function Action<V>(t: Tables<V>, d: Driver, state: nat, integer: usize): int {
    if d.Native? then t.action(state, integer)
    else
      var action := t.action(state, RawIndex(integer));
      if IsMarked(integer) && action == 0 then t.action(state, t.identifier) else action
  }

  function TokenSymbol<V>(t: Tables<V>, d: Driver, integer: usize, token: Token): V {
    t.symbol(if d.Native? then integer else RawIndex(integer), token)
  }

  /** An undeclared terminal is an immediate error. */
  function Decide<V>(t: Tables<V>, d: Driver, state: nat, token: Token): Decision<V> {
    match TokenIndex(t, d, token.kind)
    case None => Reject
    case Some(integer) =>
      var action := Action(t, d, state, integer);
      if action > 0 then ShiftTo(action - 1, TokenSymbol(t, d, integer, token))
      else if action < 0 then ReduceBy(-action - 1)
      else Reject
  }

  function DecideEof<V>(t: Tables<V>, state: nat): Decision<V> {
    if t.eofAction(state) < 0 then ReduceBy(-t.eofAction(state) - 1) else Reject
  }

  function Top<V>(c: Config<V>): nat {
    if c.frames == [] then 0 else c.frames[|c.frames| - 1].state
  }

  function TopSym<V>(c: Config<V>): Sym<V>
    requires c.frames != []
  {
    c.frames[|c.frames| - 1].sym
  }

  function Symbols<V>(frames: seq<Frame<V>>): (s: seq<Sym<V>>)
    ensures |s| == |frames|
    ensures forall i :: 0 <= i < |s| ==> s[i] == frames[i].sym
  {
    seq(|frames|, i requires 0 <= i < |frames| => frames[i].sym)
  }

  /** How many frames stay below a reduction. */
  function Kept<V>(t: Tables<V>, c: Config<V>, production: nat): (k: nat)
    ensures k <= |c.frames|
  {
    if t.arity(production) <= |c.frames| then |c.frames| - t.arity(production) else 0
  }

  function StartOf(lookahead: Option<Token>): Option<nat> {
    if lookahead.Some? then Some(lookahead.value.start) else None
  }

  /** Pops the production's symbols, runs its action and pushes the nonterminal. An
      empty production sits at the lookahead, or else where the stack ends. */
  function Reduce<V>(t: Tables<V>, lookahead: Option<Token>, c: Config<V>, production: nat): Progress<V> {
    var k := Kept(t, c, production);
    var popped := Symbols(c.frames[k..]);
    match t.reduce(production, popped, StartOf(lookahead))
    case Raise(error) => Stopped(Failed(error), c.next, false)
    case Value(value) =>
      if t.accepts(production) then
        if lookahead.Some? then Stopped(Failed(ExtraToken(lookahead.value)), c.next, false)
        else Stopped(Parsed(value), c.next, false)
      else
        var below := if k == 0 then 0 else c.frames[k - 1].state;
        var here :=
          if lookahead.Some? then lookahead.value.start else if k == 0 then 0 else c.frames[k - 1].sym.end;
        var start := if popped == [] then here else popped[0].start;
        var end := if popped == [] then here else popped[|popped| - 1].end;
        Running(Config(c.frames[..k] + [Frame(t.goto(below, production), Sym(start, value, end))], c.next))
  }

  // ---------- the driver loop ----------

  /** The parser definition the driver loop runs. */
  datatype Machine<!V> = Machine(
    decide: (nat, Token) -> Decision<V>,
    decideEof: nat -> Decision<V>,
    reduce: (Option<Token>, Config<V>, nat) -> Progress<V>,
    expected: seq<Frame<V>> -> seq<string>
  )

  function ReducerOf<V>(t: Tables<V>): (Option<Token>, Config<V>, nat) -> Progress<V> {
    (lookahead, c, production: nat) => Reduce(t, lookahead, c, production)
  }

  function EofOf<V>(t: Tables<V>): nat -> Decision<V> {
    (state: nat) => DecideEof(t, state)
  }

  function MachineOf<V>(t: Tables<V>, d: Driver): Machine<V> {
    Machine((state: nat, token) => Decide(t, d, state, token), EofOf(t), ReducerOf(t), t.expected)
  }

  function LastLocation(tokens: seq<Token>, next: nat): nat {
    if 0 < next <= |tokens| then tokens[next - 1].end else 0
  }

  function Shift<V>(c: Config<V>, token: Token, state: nat, value: V): Config<V> {
    Config(c.frames + [Frame(state, Sym(token.start, value, token.end))], c.next + 1)
  }

  function Step<V>(m: Machine<V>, tokens: seq<Token>, c: Config<V>): Progress<V> {
    if c.next < |tokens| then
      match m.decide(Top(c), tokens[c.next])
      case ShiftTo(state, value) => Running(Shift(c, tokens[c.next], state, value))
      case ReduceBy(production) => m.reduce(Some(tokens[c.next]), c, production)
      case Reject => Stopped(Failed(UnrecognizedToken(tokens[c.next], m.expected(c.frames))), c.next, true)
    else
      match m.decideEof(Top(c))
      case ReduceBy(production) => m.reduce(None, c, production)
      case _ => Stopped(Failed(UnrecognizedEof(LastLocation(tokens, c.next), m.expected(c.frames))), c.next, true)
  }

  // ---------- the contextual fallback ----------

  /** The marker is invisible to the table lookup and to the symbol conversion. */
  lemma MarkerDecodes(integer: usize)
    requires !IsMarked(integer)
    ensures IsMarked(Mark(integer)) && RawIndex(Mark(integer)) == integer
    ensures RawIndex(integer) == integer
  {
  }

  /** The patched decision is the native one, except that a contextual keyword whose native
      entry is an error takes the entry of an identifier and keeps its own symbol. */
  lemma FallbackOnlyOnError<V(!new)>(t: Tables<V>, state: nat, token: Token)
    requires WellFormed(t)
    ensures var native := Decide(t, Native, state, token);
            var asName := Decide(t, Native, state, token.(kind := Identifier));
            var patched := Decide(t, Contextual, state, token);
            if native.Reject? && t.candidate(token.kind) && t.integer(token.kind).Some? then
              if asName.ShiftTo?
              then patched == ShiftTo(asName.state, t.symbol(t.integer(token.kind).value, token))
              else patched == asName
            else patched == native
  {
    if t.integer(token.kind).Some? {
      MarkerDecodes(t.integer(token.kind).value);
    }
  }

  lemma ConservativeStep<V(!new)>(t: Tables<V>, tokens: seq<Token>, c: Config<V>)
    requires WellFormed(t)
    requires var native := Step(MachineOf(t, Native), tokens, c); native.Running? || !native.byDriver
    ensures Step(MachineOf(t, Contextual), tokens, c) == Step(MachineOf(t, Native), tokens, c)
  {
    if c.next < |tokens| {
      FallbackOnlyOnError(t, Top(c), tokens[c.next]);
    }
  }

  // ---------- what one step promises ----------

  /** Only shifts advance. The driver itself never accepts: acceptance comes from a reduction
      at the end of input. A missing entry on a token blames that token. */
  ghost predicate Advances<V>(tokens: seq<Token>, c: Config<V>, p: Progress<V>) {
    match p
    case Running(after) => c.next <= after.next <= c.next + 1
    case Stopped(outcome, at, byDriver) =>
      && at == c.next
      && (outcome.Parsed? ==> !byDriver && |tokens| <= at)
      && (byDriver && at < |tokens| ==>
            outcome.Failed? && outcome.error.UnrecognizedToken? && outcome.error.token == tokens[at])
      && (byDriver && |tokens| <= at ==> outcome.Failed? && outcome.error.UnrecognizedEof?)
  }

  ghost predicate ReducesInPlace<V(!new)>(m: Machine<V>) {
    forall lookahead, c, production ::
      match m.reduce(lookahead, c, production)
      case Running(after) => after.next == c.next
      case Stopped(outcome, at, byDriver) => at == c.next && !byDriver && (outcome.Parsed? ==> lookahead.None?)
  }

  lemma TablesReduceInPlace<V(!new)>(t: Tables<V>, d: Driver)
    ensures ReducesInPlace(MachineOf(t, d))
  {
  }

  lemma StepAdvances<V(!new)>(m: Machine<V>, tokens: seq<Token>, c: Config<V>)
    requires ReducesInPlace(m)
    ensures Advances(tokens, c, Step(m, tokens, c))
  {
  }

  /** A step looks at no token but its lookahead. */
  lemma StepDetermined<V>(m: Machine<V>, tokens: seq<Token>, longer: seq<Token>, c: Config<V>)
    requires c.next < |tokens| && c.next < |longer| && longer[c.next] == tokens[c.next]
    ensures Step(m, longer, c) == Step(m, tokens, c)
  {
  }

  type Stepper<!V> = (seq<Token>, Config<V>) -> Progress<V>

  function StepperOf<V>(m: Machine<V>): Stepper<V> {
    (tokens, c) => Step(m, tokens, c)
  }
}
