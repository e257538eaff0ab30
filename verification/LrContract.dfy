/** What the strict search relies on, derived from the driver. Fragment terminals stand
    for folded source text that a nested parser checks when they are reduced, so a
    rejected token may lie inside a fragment that the driver has already shifted. */
module LrContract {
  import opened Tokens
  import opened LrMachine
  import opened LrRuns

  // ---------- table hypotheses ----------

  predicate ReducesBy(action: int, production: int) {
    action == -production - 1
  }

  predicate ReducesOnlyBy(action: int, production: int) {
    action == 0 || ReducesBy(action, production)
  }

  predicate RaisesToken<V>(r: Reduced<V>) {
    r.Raise? && r.error.UnrecognizedToken?
  }

  ghost predicate IsFragmentProduction<V(!new)>(t: Tables<V>, production: nat) {
    exists popped, la :: RaisesToken(t.reduce(production, popped, la))
  }

  /** Every fragment terminal occurs only in a unit production. `owner` gives the production
      of a state entered by shifting such a terminal; all a state with an owner can do is
      reduce by it, and its action reads the shifted symbol and nothing else. */
  ghost predicate FragmentTables<V(!new)>(t: Tables<V>, owner: nat -> Option<nat>) {
    && owner(0).None?
    && (forall s, p :: owner(t.goto(s, p)).None?)
    && (forall s :: owner(s).Some? ==> t.arity(owner(s).value) == 1)
    && (forall s, i :: owner(s).Some? ==> ReducesOnlyBy(t.action(s, i), owner(s).value))
    && (forall s :: owner(s).Some? ==> ReducesOnlyBy(t.eofAction(s), owner(s).value))
    && (forall s, p: nat, i :: ReducesBy(t.action(s, i), p) && IsFragmentProduction(t, p) ==> owner(s) == Some(p))
    && (forall s, p: nat :: ReducesBy(t.eofAction(s), p) && IsFragmentProduction(t, p) ==> owner(s) == Some(p))
    && (forall p, sym, la, la' :: IsFragmentProduction(t, p) ==> t.reduce(p, [sym], la) == t.reduce(p, [sym], la'))
    && (forall p, sym, la :: var r := t.reduce(p, [sym], la); RaisesToken(r) ==> sym.start <= r.error.token.start)
  }

  /** Before a keyword that starts a clause, a state with an owner does what it does at the
      end of input. */
  ghost predicate UniformTables<V(!new)>(t: Tables<V>, owner: nat -> Option<nat>) {
    forall s, token: Token :: owner(s).Some? && ClauseStarts(token.kind) ==> UniformAt(t, s, token)
  }

  ghost predicate UniformAt<V>(t: Tables<V>, s: nat, token: Token) {
    Decide(t, Contextual, s, token) == DecideEof(t, s)
  }

  /** Any other error an action raises lies within the symbols it reduces. */
  ghost predicate ErrorsInside<V(!new)>(t: Tables<V>) {
    forall p, popped: seq<Sym<V>>, la :: var r := t.reduce(p, popped, la);
      r.Raise? && !RaisesToken(r) ==> popped != [] && r.error.Location() <= popped[|popped| - 1].end
  }

  // ---------- the contract, stated on the parser alone ----------

  /** Nothing that keeps tokens 0..k parses. */
  ghost predicate RejectsFrom<V(!new)>(parse: seq<Token> -> Outcome<V>, tokens: seq<Token>, k: nat) {
    k < |tokens| && forall longer :: Extends(longer, tokens, k + 1) ==> parse(longer).Failed?
  }

  predicate IsTokenError<V>(outcome: Outcome<V>) {
    outcome.Failed? && outcome.error.UnrecognizedToken?
  }

  /** Token i is rejected as a lookahead, and so again, identically, by any continuation. */
  ghost predicate RejectsLookahead<V(!new)>(parse: seq<Token> -> Outcome<V>, tokens: seq<Token>, i: nat) {
    && i < |tokens|
    && IsTokenError(parse(tokens)) && parse(tokens).error.token == tokens[i]
    && forall longer :: Extends(longer, tokens, i + 1) ==> parse(longer) == parse(tokens)
  }

  /** A token error, wherever it comes from, blames a token no later than where it points. */
  ghost predicate BlamesPrefix<V(!new)>(parse: seq<Token> -> Outcome<V>) {
    forall tokens: seq<Token> {:trigger Ordered(tokens), parse(tokens)} ::
      Ordered(tokens) && IsTokenError(parse(tokens)) ==>
      exists k: nat :: RejectsFrom(parse, tokens, k) && tokens[k].start <= parse(tokens).error.token.start
  }

  /** A longer stream that goes on with a clause keyword. */
  ghost predicate Continues(longer: seq<Token>, tokens: seq<Token>) {
    |tokens| < |longer| && Extends(longer, tokens, |tokens|) && ClauseStarts(longer[|tokens|].kind)
  }

  /** A token error is repeated, the very same, by every stream that goes on with a clause keyword. */
  ghost predicate RepeatsErrors<V(!new)>(parse: seq<Token> -> Outcome<V>) {
    forall tokens: seq<Token>, longer: seq<Token> {:trigger Continues(longer, tokens)} ::
      Continues(longer, tokens) && IsTokenError(parse(tokens)) ==> parse(longer) == parse(tokens)
  }

  /** A token error that the stream before a clause keyword does not have is not in front of
      that keyword. */
  ghost predicate ErrorsMoveOn<V(!new)>(parse: seq<Token> -> Outcome<V>) {
    forall tokens: seq<Token>, longer: seq<Token> {:trigger Continues(longer, tokens)} ::
      Ordered(longer) && Continues(longer, tokens) && IsTokenError(parse(longer)) && !IsTokenError(parse(tokens))
      ==> longer[|tokens|].start <= parse(longer).error.token.start
  }

  ghost predicate ErrorsWithinInput<V(!new)>(parse: seq<Token> -> Outcome<V>) {
    forall tokens: seq<Token> {:trigger Ordered(tokens), parse(tokens)} ::
      Ordered(tokens) && tokens != [] && parse(tokens).Failed? && !IsTokenError(parse(tokens))
      ==> parse(tokens).error.Location() <= tokens[|tokens| - 1].end
  }

  // ---------- single steps around fragments ----------

  ghost predicate Owned<V>(owner: nat -> Option<nat>, c: Config<V>) {
    owner(Top(c)).Some?
  }

  /** No continuation of this configuration parses. */
  ghost predicate Doomed<V(!new)>(step: Stepper<V>, c: Config<V>) {
    forall tokens :: step(tokens, c).Stopped? && step(tokens, c).outcome.Failed?
  }

  /** An action that raises a token error does so from an owned state, whatever follows. */
  ghost predicate Raising<V(!new)>(step: Stepper<V>, owner: nat -> Option<nat>, c: Config<V>, p: Progress<V>) {
    p.Stopped? && !p.byDriver && IsTokenError(p.outcome) ==>
      && Owned(owner, c)
      && (c.frames != [] ==>
            Doomed(step, c) && TopSym(c).start <= p.outcome.error.token.start)
  }

  /** Owned states are entered by a shift. */
  ghost predicate Entering<V>(owner: nat -> Option<nat>, tokens: seq<Token>, c: Config<V>, p: Progress<V>) {
    p.Running? && Owned(owner, p.config) ==>
      && c.next < |tokens| && p.config.next == c.next + 1
      && p.config.frames != []
      && TopSym(p.config).start == tokens[c.next].start
  }

  /** The tables' facts, on the machine. */
  ghost predicate FragmentMachine<V(!new)>(m: Machine<V>, owner: nat -> Option<nat>) {
    && owner(0).None?
    && (forall s, token :: owner(s).Some? ==> OwnDecision(owner(s).value, m.decide(s, token)))
    && (forall s :: owner(s).Some? ==> OwnDecision(owner(s).value, m.decideEof(s)))
    && (forall s, token, la, c :: RaisingReduction(m, m.decide(s, token), la, c)
          ==> owner(s) == Some(m.decide(s, token).production))
    && (forall s, la, c :: RaisingReduction(m, m.decideEof(s), la, c)
          ==> owner(s) == Some(m.decideEof(s).production))
    && (forall la, la', c, p :: OwnReductionRepeats(m, owner, la, la', c, p))
    && (forall la, c, p :: var after := m.reduce(la, c, p); after.Running? ==> !Owned(owner, after.config))
  }

  predicate OwnDecision<V>(production: nat, decision: Decision<V>) {
    !decision.ShiftTo? && (decision.ReduceBy? ==> decision.production == production)
  }

  predicate RaisingReduction<V>(m: Machine<V>, decision: Decision<V>, la: Option<Token>, c: Config<V>) {
    decision.ReduceBy? && StopsWithToken(m.reduce(la, c, decision.production))
  }

  predicate StopsWithToken<V>(p: Progress<V>) {
    p.Stopped? && IsTokenError(p.outcome)
  }

  /** An owned reduction that raises a token error under one lookahead raises it under any. */
  ghost predicate OwnReductionRepeats<V>(m: Machine<V>, owner: nat -> Option<nat>,
                                         la: Option<Token>, la': Option<Token>,
                                         c: Config<V>, p: nat)
  {
    owner(Top(c)) == Some(p) && c.frames != [] && StopsWithToken(m.reduce(la, c, p)) ==>
      && m.reduce(la', c, p) == m.reduce(la, c, p)
      && TopSym(c).start <= m.reduce(la, c, p).outcome.error.token.start
  }

  lemma RaisingIsFragment<V(!new)>(t: Tables<V>, la: Option<Token>, c: Config<V>, p: nat)
    requires StopsWithToken(Reduce(t, la, c, p))
    ensures IsFragmentProduction(t, p)
  {
    assert RaisesToken(t.reduce(p, Symbols(c.frames[Kept(t, c, p)..]), StartOf(la)));
  }

  lemma OwnReduction<V(!new)>(t: Tables<V>, d: Driver, owner: nat -> Option<nat>, la: Option<Token>, la': Option<Token>,
                              c: Config<V>, p: nat)
    requires FragmentTables(t, owner)
    ensures OwnReductionRepeats(MachineOf(t, d), owner, la, la', c, p)
  {
    if owner(Top(c)) == Some(p) && c.frames != [] && StopsWithToken(Reduce(t, la, c, p)) {
      RaisingIsFragment(t, la, c, p);
      assert Symbols(c.frames[Kept(t, c, p)..]) == [TopSym(c)];
      assert t.reduce(p, [TopSym(c)], StartOf(la)) == t.reduce(p, [TopSym(c)], StartOf(la'));
    }
  }

  lemma OwnDecisions<V(!new)>(t: Tables<V>, d: Driver, owner: nat -> Option<nat>, s: nat, token: Token)
    requires FragmentTables(t, owner)
    ensures owner(s).Some? ==> OwnDecision(owner(s).value, Decide(t, d, s, token))
    ensures owner(s).Some? ==> OwnDecision(owner(s).value, DecideEof(t, s))
  {
  }

  lemma RaisingOwners<V(!new)>(t: Tables<V>, d: Driver, owner: nat -> Option<nat>, s: nat, token: Token,
                               la: Option<Token>, c: Config<V>)
    requires FragmentTables(t, owner)
    ensures var decision := Decide(t, d, s, token);
            RaisingReduction(MachineOf(t, d), decision, la, c) ==> owner(s) == Some(decision.production)
    ensures var decision := DecideEof(t, s);
            RaisingReduction(MachineOf(t, d), decision, la, c) ==> owner(s) == Some(decision.production)
  {
    var decision := Decide(t, d, s, token);
    if RaisingReduction(MachineOf(t, d), decision, la, c) {
      RaisingIsFragment(t, la, c, decision.production);
      assert exists i :: ReducesBy(t.action(s, i), decision.production);
    }
    if RaisingReduction(MachineOf(t, d), DecideEof(t, s), la, c) {
      RaisingIsFragment(t, la, c, DecideEof(t, s).production);
      assert ReducesBy(t.eofAction(s), DecideEof(t, s).production);
    }
  }

  lemma GotoNotOwned<V(!new)>(t: Tables<V>, owner: nat -> Option<nat>, la: Option<Token>, c: Config<V>, p: nat)
    requires FragmentTables(t, owner)
    ensures var after := Reduce(t, la, c, p); after.Running? ==> !Owned(owner, after.config)
  {
  }

  lemma TablesAreFragmented<V(!new)>(t: Tables<V>, d: Driver, owner: nat -> Option<nat>)
    requires FragmentTables(t, owner)
    ensures FragmentMachine(MachineOf(t, d), owner)
  {
    var m := MachineOf(t, d);
    forall s, token
      ensures owner(s).Some? ==> OwnDecision(owner(s).value, m.decide(s, token))
    {
      OwnDecisions(t, d, owner, s, token);
    }
    forall s
      ensures owner(s).Some? ==> OwnDecision(owner(s).value, m.decideEof(s))
    {
      OwnDecisions(t, d, owner, s, Token(0, Identifier, 0));
    }
    forall s, token, la, c
      ensures RaisingReduction(m, m.decide(s, token), la, c) ==> owner(s) == Some(m.decide(s, token).production)
    {
      RaisingOwners(t, d, owner, s, token, la, c);
    }
    forall s, la, c
      ensures RaisingReduction(m, m.decideEof(s), la, c) ==> owner(s) == Some(m.decideEof(s).production)
    {
      RaisingOwners(t, d, owner, s, Token(0, Identifier, 0), la, c);
    }
    forall la, la', c, p
      ensures OwnReductionRepeats(m, owner, la, la', c, p)
    {
      OwnReduction(t, d, owner, la, la', c, p);
    }
    forall la, c, p
      ensures var after := m.reduce(la, c, p); after.Running? ==> !Owned(owner, after.config)
    {
      GotoNotOwned(t, owner, la, c, p);
    }
  }

  lemma StepRaising<V(!new)>(m: Machine<V>, owner: nat -> Option<nat>, tokens: seq<Token>, c: Config<V>)
    requires FragmentMachine(m, owner)
    ensures Raising(StepperOf(m), owner, c, Step(m, tokens, c))
  {
    var stop := Step(m, tokens, c);
    if StopsWithToken(stop) && !stop.byDriver {
      var la := if c.next < |tokens| then Some(tokens[c.next]) else None;
      var decision := if c.next < |tokens| then m.decide(Top(c), tokens[c.next]) else m.decideEof(Top(c));
      assert RaisingReduction(m, decision, la, c);
      var p := decision.production;
      assert owner(Top(c)) == Some(p);
      if c.frames != [] {
        assert OwnReductionRepeats(m, owner, la, la, c, p);
        forall tokens'
          ensures StepperOf(m)(tokens', c).Stopped? && StepperOf(m)(tokens', c).outcome.Failed?
        {
          var la' := if c.next < |tokens'| then Some(tokens'[c.next]) else None;
          assert OwnReductionRepeats(m, owner, la, la', c, p);
        }
      }
    }
  }

  lemma StepEntering<V(!new)>(m: Machine<V>, owner: nat -> Option<nat>, tokens: seq<Token>, c: Config<V>)
    requires FragmentMachine(m, owner)
    ensures Entering(owner, tokens, c, Step(m, tokens, c))
  {
  }

  /** Fragments as the runs below see them. */
  ghost predicate Fragmented<V(!new)>(step: Stepper<V>, owner: nat -> Option<nat>) {
    && owner(0).None?
    && (forall tokens, c :: Raising(step, owner, c, step(tokens, c)))
    && (forall tokens, c :: Entering(owner, tokens, c, step(tokens, c)))
  }

  lemma MachineIsFragmented<V(!new)>(m: Machine<V>, owner: nat -> Option<nat>)
    requires FragmentMachine(m, owner)
    ensures Fragmented(StepperOf(m), owner)
  {
    forall tokens, c
      ensures Raising(StepperOf(m), owner, c, StepperOf(m)(tokens, c))
      ensures Entering(owner, tokens, c, StepperOf(m)(tokens, c))
    {
      StepRaising(m, owner, tokens, c);
      StepEntering(m, owner, tokens, c);
    }
  }

  ghost predicate UniformMachine<V(!new)>(m: Machine<V>, owner: nat -> Option<nat>) {
    forall s, token: Token :: owner(s).Some? && ClauseStarts(token.kind) ==> m.decide(s, token) == m.decideEof(s)
  }

  lemma TablesAreUniform<V(!new)>(t: Tables<V>, owner: nat -> Option<nat>)
    requires UniformTables(t, owner)
    ensures UniformMachine(MachineOf(t, Contextual), owner)
  {
    var m := MachineOf(t, Contextual);
    forall s, token: Token | owner(s).Some? && ClauseStarts(token.kind)
      ensures m.decide(s, token) == m.decideEof(s)
    {
      assert UniformAt(t, s, token);
    }
  }

  predicate RaisesHere<V>(p: Progress<V>) {
    StopsWithToken(p) && !p.byDriver
  }

  /** At the last token, an action raises the same token error whether a clause follows or nothing. */
  ghost predicate SameRaise<V>(step: Stepper<V>, owner: nat -> Option<nat>, tokens: seq<Token>,
                               longer: seq<Token>, c: Config<V>)
  {
    Owned(owner, c) && c.next == |tokens| && Continues(longer, tokens) ==>
      (RaisesHere(step(tokens, c)) || RaisesHere(step(longer, c)) ==> step(longer, c) == step(tokens, c))
  }

  lemma StepRaisesSame<V(!new)>(m: Machine<V>, owner: nat -> Option<nat>, tokens: seq<Token>, longer: seq<Token>,
                                c: Config<V>)
    requires FragmentMachine(m, owner) && UniformMachine(m, owner)
    ensures SameRaise(StepperOf(m), owner, tokens, longer, c)
  {
    if Owned(owner, c) && c.next == |tokens| && Continues(longer, tokens) {
      var decision, la := m.decideEof(Top(c)), Some(longer[c.next]);
      assert m.decide(Top(c), longer[c.next]) == decision;
      assert OwnDecision(owner(Top(c)).value, decision);
      if decision.ReduceBy? {
        assert OwnReductionRepeats(m, owner, la, None, c, decision.production);
        assert OwnReductionRepeats(m, owner, None, la, c, decision.production);
      }
    }
  }

  ghost predicate Uniform<V(!new)>(step: Stepper<V>, owner: nat -> Option<nat>) {
    forall tokens, longer, c :: SameRaise(step, owner, tokens, longer, c)
  }

  lemma MachineIsUniform<V(!new)>(m: Machine<V>, owner: nat -> Option<nat>)
    requires FragmentMachine(m, owner) && UniformMachine(m, owner)
    ensures Uniform(StepperOf(m), owner)
  {
    forall tokens, longer, c ensures SameRaise(StepperOf(m), owner, tokens, longer, c) {
      StepRaisesSame(m, owner, tokens, longer, c);
    }
  }

  // ---------- whole parses ----------

  /** A lookahead rejection repeats, identically, under every continuation. */
  lemma DriverRejection<V(!new)>(step: Stepper<V>, parse: seq<Token> -> Outcome<V>, tokens: seq<Token>, n: nat)
    requires Local(step) && Drives(step, parse)
    requires var stop := Run(step, tokens, n); stop.Stopped? && stop.byDriver && stop.at < |tokens|
    ensures RejectsLookahead(parse, tokens, Run(step, tokens, n).at)
  {
    StopAdvances(step, tokens, n);
    OutcomeIsUnique(step, parse, tokens, n);
    forall longer | Extends(longer, tokens, Run(step, tokens, n).at + 1)
      ensures parse(longer) == parse(tokens)
    {
      StopDetermined(step, tokens, longer, n);
      OutcomeIsUnique(step, parse, longer, n);
    }
  }

  /** Shifting the fragment at k leads to a configuration that nothing can complete. */
  lemma DoomedShift<V(!new)>(step: Stepper<V>, parse: seq<Token> -> Outcome<V>, tokens: seq<Token>, n: nat)
    requires Local(step) && Drives(step, parse)
    requires n > 0 && Run(step, tokens, n).Running? && Doomed(step, Run(step, tokens, n).config)
    requires 0 < Run(step, tokens, n).config.next == Run(step, tokens, n - 1).config.next + 1 <= |tokens|
    ensures RejectsFrom(parse, tokens, Run(step, tokens, n).config.next - 1)
  {
    var c := Run(step, tokens, n).config;
    forall longer | Extends(longer, tokens, c.next)
      ensures parse(longer).Failed?
    {
      ShiftDetermined(step, tokens, longer, n);
      assert Run(step, longer, n + 1) == step(longer, c);
      OutcomeIsUnique(step, parse, longer, n + 1);
    }
  }

  /** A fragment rejected in one parse is rejected in every stream that keeps it. */
  lemma {:induction false} FragmentRejection<V(!new)>(step: Stepper<V>, owner: nat -> Option<nat>,
                                                      parse: seq<Token> -> Outcome<V>, tokens: seq<Token>, n: nat)
    requires Local(step) && Fragmented(step, owner) && Drives(step, parse)
    requires StopsWithToken(Run(step, tokens, n)) && !Run(step, tokens, n).byDriver
    ensures exists k: nat :: RejectsFrom(parse, tokens, k)
                             && tokens[k].start <= Run(step, tokens, n).outcome.error.token.start
  {
    var before := Run(step, tokens, n - 1);
    if before.Stopped? {
      FragmentRejection(step, owner, parse, tokens, n - 1);
    } else {
      RaisedInside(step, owner, parse, tokens, n);
    }
  }

  /** After n steps the driver has just shifted a token. */
  ghost predicate JustShifted<V>(step: Stepper<V>, tokens: seq<Token>, n: nat) {
    && n > 0 && Run(step, tokens, n - 1).Running? && Run(step, tokens, n).Running?
    && var c := Run(step, tokens, n).config;
      && c.frames != [] && c.next == Run(step, tokens, n - 1).config.next + 1 <= |tokens|
      && TopSym(c).start == tokens[c.next - 1].start
  }

  /** An owned configuration has just shifted its fragment. */
  lemma EnteredByShift<V(!new)>(step: Stepper<V>, owner: nat -> Option<nat>, tokens: seq<Token>, n: nat)
    requires Fragmented(step, owner) && Run(step, tokens, n).Running? && Owned(owner, Run(step, tokens, n).config)
    ensures JustShifted(step, tokens, n)
  {
    assert n > 0 by { assert Run(step, tokens, 0) == Running(Config([], 0)); }
    var earlier := Run(step, tokens, n - 1).config;
    assert Entering(owner, tokens, earlier, step(tokens, earlier));
  }

  /** What raises an error is a fragment that was just shifted and that nothing completes. */
  lemma RaisedByFragment<V(!new)>(step: Stepper<V>, owner: nat -> Option<nat>, tokens: seq<Token>, n: nat)
    requires Fragmented(step, owner)
    requires n > 0 && Run(step, tokens, n - 1).Running? && RaisesHere(Run(step, tokens, n))
    ensures var c := Run(step, tokens, n - 1).config;
            && Owned(owner, c) && JustShifted(step, tokens, n - 1) && Doomed(step, c)
            && tokens[c.next - 1].start <= Run(step, tokens, n).outcome.error.token.start
  {
    var c := Run(step, tokens, n - 1).config;
    assert Raising(step, owner, c, step(tokens, c));
    EnteredByShift(step, owner, tokens, n - 1);
  }

  lemma RaisedInside<V(!new)>(step: Stepper<V>, owner: nat -> Option<nat>, parse: seq<Token> -> Outcome<V>,
                              tokens: seq<Token>, n: nat)
    requires Local(step) && Fragmented(step, owner) && Drives(step, parse)
    requires n > 0 && Run(step, tokens, n - 1).Running?
    requires StopsWithToken(Run(step, tokens, n)) && !Run(step, tokens, n).byDriver
    ensures exists k: nat :: RejectsFrom(parse, tokens, k)
                             && tokens[k].start <= Run(step, tokens, n).outcome.error.token.start
  {
    RaisedByFragment(step, owner, tokens, n);
    DoomedShift(step, parse, tokens, n - 1);
  }

  /** Every token error of a driven parser blames a prefix. */
  lemma DrivenBlamesPrefix<V(!new)>(step: Stepper<V>, owner: nat -> Option<nat>, parse: seq<Token> -> Outcome<V>)
    requires Local(step) && Fragmented(step, owner) && Drives(step, parse)
    ensures BlamesPrefix(parse)
  {
    forall tokens: seq<Token> | Ordered(tokens) && IsTokenError(parse(tokens))
      ensures exists k: nat :: RejectsFrom(parse, tokens, k) && tokens[k].start <= parse(tokens).error.token.start
    {
      assert Computes(step, tokens, parse(tokens));
      var n :| StopsWith(step, tokens, n, parse(tokens));
      var stop := Run(step, tokens, n);
      StopAdvances(step, tokens, n);
      if stop.byDriver {
        DriverRejection(step, parse, tokens, n);
        assert RejectsFrom(parse, tokens, stop.at);
      } else {
        FragmentRejection(step, owner, parse, tokens, n);
      }
    }
  }

  /** The table hypotheses give the patched parser the contract the search needs. */
  lemma DrivenParserBlamesPrefix<V(!new)>(t: Tables<V>, owner: nat -> Option<nat>, parse: seq<Token> -> Outcome<V>)
    requires FragmentTables(t, owner) && Drives(StepperOf(MachineOf(t, Contextual)), parse)
    ensures BlamesPrefix(parse)
  {
    var m := MachineOf(t, Contextual);
    TablesReduceInPlace(t, Contextual);
    MachineIsLocal(m);
    TablesAreFragmented(t, Contextual, owner);
    MachineIsFragmented(m, owner);
    DrivenBlamesPrefix(StepperOf(m), owner, parse);
  }

  // ---------- the same error before every clause keyword ----------

  /** The step that ends a parse. */
  lemma {:induction false} LastStep<V(!new)>(step: Stepper<V>, tokens: seq<Token>, n: nat) returns (last: nat)
    requires Run(step, tokens, n).Stopped?
    ensures last > 0 && Run(step, tokens, last - 1).Running? && Run(step, tokens, last) == Run(step, tokens, n)
  {
    last := n;
    if Run(step, tokens, n - 1).Stopped? {
      last := LastStep(step, tokens, n - 1);
    }
  }

  lemma ParseStops<V(!new)>(step: Stepper<V>, parse: seq<Token> -> Outcome<V>, tokens: seq<Token>) returns (n: nat)
    requires Local(step) && Drives(step, parse)
    ensures n > 0 && Run(step, tokens, n - 1).Running?
    ensures StopsWith(step, tokens, n, parse(tokens))
    ensures Advances(tokens, Run(step, tokens, n - 1).config, Run(step, tokens, n))
  {
    assert Computes(step, tokens, parse(tokens));
    n :| StopsWith(step, tokens, n, parse(tokens));
    n := LastStep(step, tokens, n);
    var before := Run(step, tokens, n - 1).config;
    assert Advances(tokens, before, step(tokens, before));
  }

  /** The action that raises an error at the last token of one stream raises it in the other. */
  lemma RaiseCarriesOver<V(!new)>(step: Stepper<V>, from: seq<Token>, other: seq<Token>, n: nat)
    requires Local(step) && n > 0 && JustShifted(step, from, n - 1)
    requires var c := Run(step, from, n - 1).config; Extends(other, from, c.next) && step(other, c) == step(from, c)
    ensures Run(step, other, n) == Run(step, from, n)
  {
    ShiftDetermined(step, from, other, n - 1);
  }

  /** Whoever rejects, the driver or a fragment: the same error stands before every clause keyword. */
  lemma ErrorRepeats<V(!new)>(step: Stepper<V>, owner: nat -> Option<nat>, parse: seq<Token> -> Outcome<V>,
                              tokens: seq<Token>, longer: seq<Token>)
    requires Local(step) && Fragmented(step, owner) && Uniform(step, owner) && Drives(step, parse)
    requires Continues(longer, tokens) && IsTokenError(parse(tokens))
    ensures parse(longer) == parse(tokens)
  {
    var n := ParseStops(step, parse, tokens);
    var c := Run(step, tokens, n - 1).config;
    if c.next < |tokens| {
      StopDetermined(step, tokens, longer, n);
    } else {
      RaisedByFragment(step, owner, tokens, n);
      assert SameRaise(step, owner, tokens, longer, c);
      RaiseCarriesOver(step, tokens, longer, n);
    }
    OutcomeIsUnique(step, parse, longer, n);
  }

  /** An error the shorter stream does not have starts at or behind the clause keyword. */
  lemma ErrorMovesOn<V(!new)>(step: Stepper<V>, owner: nat -> Option<nat>, parse: seq<Token> -> Outcome<V>,
                              tokens: seq<Token>, longer: seq<Token>)
    requires Local(step) && Fragmented(step, owner) && Uniform(step, owner) && Drives(step, parse)
    requires Ordered(longer) && Continues(longer, tokens)
    requires IsTokenError(parse(longer)) && !IsTokenError(parse(tokens))
    ensures longer[|tokens|].start <= parse(longer).error.token.start
  {
    var n := ParseStops(step, parse, longer);
    var c, stop := Run(step, longer, n - 1).config, Run(step, longer, n);
    if c.next < |tokens| {
      StopDetermined(step, longer, tokens, n);
      OutcomeIsUnique(step, parse, tokens, n);
    } else if !stop.byDriver {
      RaisedByFragment(step, owner, longer, n);
      if c.next == |tokens| {
        assert SameRaise(step, owner, tokens, longer, c);
        RaiseCarriesOver(step, longer, tokens, n);
        OutcomeIsUnique(step, parse, tokens, n);
      }
    }
  }

  /** The table hypotheses give the patched parser the same error before every clause keyword. */
  lemma DrivenParserRepeatsErrors<V(!new)>(t: Tables<V>, owner: nat -> Option<nat>, parse: seq<Token> -> Outcome<V>)
    requires FragmentTables(t, owner) && UniformTables(t, owner)
    requires Drives(StepperOf(MachineOf(t, Contextual)), parse)
    ensures RepeatsErrors(parse) && ErrorsMoveOn(parse)
  {
    var m := MachineOf(t, Contextual);
    var step := StepperOf(m);
    TablesReduceInPlace(t, Contextual);
    MachineIsLocal(m);
    TablesAreFragmented(t, Contextual, owner);
    MachineIsFragmented(m, owner);
    TablesAreUniform(t, owner);
    MachineIsUniform(m, owner);
    forall tokens, longer: seq<Token> | Continues(longer, tokens) && IsTokenError(parse(tokens))
      ensures parse(longer) == parse(tokens)
    {
      ErrorRepeats(step, owner, parse, tokens, longer);
    }
    forall tokens, longer: seq<Token> |
      Ordered(longer) && Continues(longer, tokens) && IsTokenError(parse(longer)) && !IsTokenError(parse(tokens))
      ensures longer[|tokens|].start <= parse(longer).error.token.start
    {
      ErrorMovesOn(step, owner, parse, tokens, longer);
    }
  }

  // ---------- error locations ----------

  ghost predicate EndsWithin<V>(c: Config<V>, bound: nat) {
    forall i :: 0 <= i < |c.frames| ==> c.frames[i].sym.end <= bound
  }

  ghost predicate Bounded<V>(p: Progress<V>, bound: nat) {
    match p
    case Running(c) => EndsWithin(c, bound)
    case Stopped(outcome, _, _) =>
      outcome.Parsed? || IsTokenError(outcome) || outcome.error.Location() <= bound
  }

  ghost predicate SymbolsWithin<V>(symbols: seq<Sym<V>>, bound: nat) {
    forall i :: 0 <= i < |symbols| ==> symbols[i].end <= bound
  }

  lemma RaisesWithin<V(!new)>(t: Tables<V>, production: nat, popped: seq<Sym<V>>, start: Option<nat>, bound: nat)
    requires ErrorsInside(t) && SymbolsWithin(popped, bound)
    ensures var r := t.reduce(production, popped, start);
            r.Raise? && !RaisesToken(r) ==> r.error.Location() <= bound
  {
  }

  lemma ReduceBounded<V(!new)>(t: Tables<V>, lookahead: Option<Token>, c: Config<V>, production: nat, bound: nat)
    requires ErrorsInside(t) && EndsWithin(c, bound)
    requires lookahead.Some? ==> lookahead.value.start <= bound
    ensures Bounded(Reduce(t, lookahead, c, production), bound)
  {
    var popped := Symbols(c.frames[Kept(t, c, production)..]);
    assert SymbolsWithin(popped, bound);
    RaisesWithin(t, production, popped, StartOf(lookahead), bound);
  }

  ghost predicate TokensWithin(tokens: seq<Token>, bound: nat) {
    forall i :: 0 <= i < |tokens| ==> tokens[i].start <= bound && tokens[i].end <= bound
  }

  ghost predicate ReducesBounded<V(!new)>(m: Machine<V>) {
    forall la: Option<Token>, c, p, bound :: EndsWithin(c, bound) && (la.Some? ==> la.value.start <= bound) ==>
      Bounded(m.reduce(la, c, p), bound)
  }

  lemma TablesReduceBounded<V(!new)>(t: Tables<V>, d: Driver)
    requires ErrorsInside(t)
    ensures ReducesBounded(MachineOf(t, d))
  {
    forall la: Option<Token>, c, p, bound | EndsWithin(c, bound) && (la.Some? ==> la.value.start <= bound)
      ensures Bounded(MachineOf(t, d).reduce(la, c, p), bound)
    {
      ReduceBounded(t, la, c, p, bound);
    }
  }

  lemma StepBounded<V(!new)>(m: Machine<V>, tokens: seq<Token>, c: Config<V>, bound: nat)
    requires ReducesBounded(m) && EndsWithin(c, bound) && TokensWithin(tokens, bound)
    ensures Bounded(Step(m, tokens, c), bound)
  {
  }

  lemma {:induction false} RunBounded<V(!new)>(m: Machine<V>, tokens: seq<Token>, n: nat, bound: nat)
    requires ReducesBounded(m) && TokensWithin(tokens, bound)
    ensures Bounded(Run(StepperOf(m), tokens, n), bound)
  {
    if n > 0 {
      var before := Run(StepperOf(m), tokens, n - 1);
      RunBounded(m, tokens, n - 1, bound);
      if before.Running? {
        StepBounded(m, tokens, before.config, bound);
      }
    }
  }

  lemma DrivenErrorsWithinInput<V(!new)>(m: Machine<V>, parse: seq<Token> -> Outcome<V>)
    requires ReducesBounded(m) && Drives(StepperOf(m), parse)
    ensures ErrorsWithinInput(parse)
  {
    forall tokens: seq<Token> | Ordered(tokens) && tokens != [] && parse(tokens).Failed? && !IsTokenError(parse(tokens))
      ensures parse(tokens).error.Location() <= tokens[|tokens| - 1].end
    {
      assert Computes(StepperOf(m), tokens, parse(tokens));
      var n :| StopsWith(StepperOf(m), tokens, n, parse(tokens));
      assert TokensWithin(tokens, tokens[|tokens| - 1].end);
      RunBounded(m, tokens, n, tokens[|tokens| - 1].end);
    }
  }

  /** Errors of a parser driven by the patched tables lie within its input. */
  lemma DrivenParserErrorsWithinInput<V(!new)>(t: Tables<V>, parse: seq<Token> -> Outcome<V>)
    requires ErrorsInside(t) && Drives(StepperOf(MachineOf(t, Contextual)), parse)
    ensures ErrorsWithinInput(parse)
  {
    TablesReduceBounded(t, Contextual);
    DrivenErrorsWithinInput(MachineOf(t, Contextual), parse);
  }
}
