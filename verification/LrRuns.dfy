/** Whole runs of a driver, reasoned about through what single steps promise. */
module LrRuns {
  import opened Tokens
  import opened LrMachine

  /** The state of a parse after n driver steps. */
  function Run<V>(step: Stepper<V>, tokens: seq<Token>, n: nat): Progress<V> {
    if n == 0 then Running(Config([], 0))
    else
      var before := Run(step, tokens, n - 1);
      if before.Running? then step(tokens, before.config) else before
  }

  /** The first k tokens are the same. */
  ghost predicate Extends(longer: seq<Token>, tokens: seq<Token>, k: nat) {
    k <= |tokens| && k <= |longer| && forall i :: 0 <= i < k ==> longer[i] == tokens[i]
  }

  ghost predicate Local<V(!new)>(step: Stepper<V>) {
    && (forall tokens, c :: Advances(tokens, c, step(tokens, c)))
    && (forall tokens, longer, c: Config<V> ::
          c.next < |tokens| && c.next < |longer| && longer[c.next] == tokens[c.next]
          ==> step(longer, c) == step(tokens, c))
  }

  lemma MachineIsLocal<V(!new)>(m: Machine<V>)
    requires ReducesInPlace(m)
    ensures Local(StepperOf(m))
  {
    var step := StepperOf(m);
    forall tokens, c
      ensures Advances(tokens, c, step(tokens, c))
    {
      StepAdvances(m, tokens, c);
    }
    forall tokens, longer, c: Config<V> |
      c.next < |tokens| && c.next < |longer| && longer[c.next] == tokens[c.next]
      ensures step(longer, c) == step(tokens, c)
    {
      StepDetermined(m, tokens, longer, c);
    }
  }

  // ---------- prefix determinism ----------

  /** A configuration waiting at lookahead i depends only on tokens 0..i. */
  lemma {:induction false} PrefixDetermined<V(!new)>(step: Stepper<V>, tokens: seq<Token>, longer: seq<Token>, n: nat)
    requires Local(step)
    requires Run(step, tokens, n).Running?
    requires Extends(longer, tokens, Run(step, tokens, n).config.next + 1)
    ensures Run(step, longer, n) == Run(step, tokens, n)
  {
    if n > 0 {
      var before := Run(step, tokens, n - 1);
      assert Advances(tokens, before.config, step(tokens, before.config));
      PrefixDetermined(step, tokens, longer, n - 1);
    }
  }

  /** Stopping at lookahead i, for whatever reason, depends only on tokens 0..i. */
  lemma {:induction false} StopDetermined<V(!new)>(step: Stepper<V>, tokens: seq<Token>, longer: seq<Token>, n: nat)
    requires Local(step)
    requires Run(step, tokens, n).Stopped?
    requires Extends(longer, tokens, Run(step, tokens, n).at + 1)
    ensures Run(step, longer, n) == Run(step, tokens, n)
  {
    var before := Run(step, tokens, n - 1);
    if before.Running? {
      assert Advances(tokens, before.config, step(tokens, before.config));
      PrefixDetermined(step, tokens, longer, n - 1);
    } else {
      StopDetermined(step, tokens, longer, n - 1);
    }
  }

  /** A configuration reached by shifting token i depends only on tokens 0..i, even when
      nothing follows. */
  lemma ShiftDetermined<V(!new)>(step: Stepper<V>, tokens: seq<Token>, longer: seq<Token>, n: nat)
    requires Local(step) && n > 0
    requires Run(step, tokens, n - 1).Running? && Run(step, tokens, n).Running?
    requires Run(step, tokens, n).config.next == Run(step, tokens, n - 1).config.next + 1
    requires Extends(longer, tokens, Run(step, tokens, n).config.next)
    ensures Run(step, longer, n) == Run(step, tokens, n)
  {
    PrefixDetermined(step, tokens, longer, n - 1);
  }

  lemma {:induction false} StopAdvances<V(!new)>(step: Stepper<V>, tokens: seq<Token>, n: nat)
    requires Local(step) && Run(step, tokens, n).Stopped?
    ensures n > 0 && Advances(tokens, Config([], Run(step, tokens, n).at), Run(step, tokens, n))
  {
    var before := Run(step, tokens, n - 1);
    if before.Running? {
      assert Advances(tokens, before.config, step(tokens, before.config));
    } else {
      StopAdvances(step, tokens, n - 1);
    }
  }

  // ---------- whole parses ----------

  /** The driver stops with this outcome after n steps. */
  ghost predicate StopsWith<V>(step: Stepper<V>, tokens: seq<Token>, n: nat, outcome: Outcome<V>) {
    Run(step, tokens, n).Stopped? && Run(step, tokens, n).outcome == outcome
  }

  /** `parse` computes what the driver eventually stops with, on every input. */
  ghost predicate Drives<V(!new)>(step: Stepper<V>, parse: seq<Token> -> Outcome<V>) {
    forall tokens :: Computes(step, tokens, parse(tokens))
  }

  ghost predicate Computes<V>(step: Stepper<V>, tokens: seq<Token>, outcome: Outcome<V>) {
    exists n :: StopsWith(step, tokens, n, outcome)
  }

  lemma {:induction false} StopIsFinal<V>(step: Stepper<V>, tokens: seq<Token>, m: nat, n: nat)
    requires Run(step, tokens, m).Stopped? && m <= n
    ensures Run(step, tokens, n) == Run(step, tokens, m)
  {
    if m < n {
      StopIsFinal(step, tokens, m, n - 1);
    }
  }

  lemma OutcomeIsUnique<V(!new)>(step: Stepper<V>, parse: seq<Token> -> Outcome<V>, tokens: seq<Token>, m: nat)
    requires Drives(step, parse) && Run(step, tokens, m).Stopped?
    ensures parse(tokens) == Run(step, tokens, m).outcome
  {
    assert Computes(step, tokens, parse(tokens));
    var n :| StopsWith(step, tokens, n, parse(tokens));
    if m <= n {
      StopIsFinal(step, tokens, m, n);
    } else {
      StopIsFinal(step, tokens, n, m);
    }
  }

  /** A driver whose steps shrink a measure stops on every input. */
  ghost predicate Shrinks<V(!new)>(step: Stepper<V>, measure: (seq<Token>, Config<V>) -> nat) {
    forall tokens, c :: step(tokens, c).Running? ==> measure(tokens, step(tokens, c).config) < measure(tokens, c)
  }

  lemma {:induction false} Halts<V(!new)>(step: Stepper<V>, measure: (seq<Token>, Config<V>) -> nat,
                                          tokens: seq<Token>, n: nat)
    requires Shrinks(step, measure) && Run(step, tokens, n).Running?
    ensures exists m :: Run(step, tokens, m).Stopped?
    decreases measure(tokens, Run(step, tokens, n).config)
  {
    assert Run(step, tokens, n + 1) == step(tokens, Run(step, tokens, n).config);
    if Run(step, tokens, n + 1).Running? {
      Halts(step, measure, tokens, n + 1);
    }
  }

  ghost function OutcomeOf<V(!new)>(step: Stepper<V>, measure: (seq<Token>, Config<V>) -> nat,
                                    tokens: seq<Token>): (outcome: Outcome<V>)
    requires Shrinks(step, measure)
    ensures Computes(step, tokens, outcome)
  {
    assert exists n :: Run(step, tokens, n).Stopped? by {
      Halts(step, measure, tokens, 0);
    }
    var n :| Run(step, tokens, n).Stopped?;
    assert StopsWith(step, tokens, n, Run(step, tokens, n).outcome);
    Run(step, tokens, n).outcome
  }

  /** What a driver that always stops computes. */
  ghost function ParseOf<V(!new)>(step: Stepper<V>, measure: (seq<Token>, Config<V>) -> nat): seq<Token> -> Outcome<V>
    requires Shrinks(step, measure)
  {
    tokens => OutcomeOf(step, measure, tokens)
  }

  lemma ParseOfDrives<V(!new)>(step: Stepper<V>, measure: (seq<Token>, Config<V>) -> nat)
    requires Shrinks(step, measure)
    ensures Drives(step, ParseOf(step, measure))
  {
  }

  // ---------- the identifier fallback over whole runs ----------

  /** Wherever the native step does not miss an entry, the patched step is the same. */
  ghost predicate Conserves<V(!new)>(native: Stepper<V>, patched: Stepper<V>) {
    forall tokens, c :: native(tokens, c).Running? || !native(tokens, c).byDriver ==>
        patched(tokens, c) == native(tokens, c)
  }

  lemma {:induction false} SameTrace<V(!new)>(native: Stepper<V>, patched: Stepper<V>, tokens: seq<Token>, n: nat)
    requires Conserves(native, patched)
    requires Run(native, tokens, n).Running? || !Run(native, tokens, n).byDriver
    ensures Run(patched, tokens, n) == Run(native, tokens, n)
  {
    if n > 0 {
      SameTrace(native, patched, tokens, n - 1);
    }
  }

  /** Until the native driver meets a missing entry, both drivers are in the same
      configuration after the same number of steps: the action traces coincide. */
  lemma Conservative<V(!new)>(t: Tables<V>, tokens: seq<Token>, n: nat)
    requires WellFormed(t)
    requires var native := Run(StepperOf(MachineOf(t, Native)), tokens, n); native.Running? || !native.byDriver
    ensures Run(StepperOf(MachineOf(t, Contextual)), tokens, n) == Run(StepperOf(MachineOf(t, Native)), tokens, n)
  {
    var native, patched := StepperOf(MachineOf(t, Native)), StepperOf(MachineOf(t, Contextual));
    forall tokens, c | native(tokens, c).Running? || !native(tokens, c).byDriver
      ensures patched(tokens, c) == native(tokens, c)
    {
      ConservativeStep(t, tokens, c);
    }
    SameTrace(native, patched, tokens, n);
  }

  /** Whatever the native tables accept, the patched parser accepts with the same value. */
  lemma NativeAcceptanceKept<V(!new)>(t: Tables<V>, native: seq<Token> -> Outcome<V>,
                                      patched: seq<Token> -> Outcome<V>, tokens: seq<Token>)
    requires WellFormed(t)
    requires Drives(StepperOf(MachineOf(t, Native)), native) && Drives(StepperOf(MachineOf(t, Contextual)), patched)
    requires native(tokens).Parsed?
    ensures patched(tokens) == native(tokens)
  {
    TablesReduceInPlace(t, Native);
    MachineIsLocal(MachineOf(t, Native));
    assert Computes(StepperOf(MachineOf(t, Native)), tokens, native(tokens));
    var n :| StopsWith(StepperOf(MachineOf(t, Native)), tokens, n, native(tokens));
    StopAdvances(StepperOf(MachineOf(t, Native)), tokens, n);
    Conservative(t, tokens, n);
    OutcomeIsUnique(StepperOf(MachineOf(t, Contextual)), patched, tokens, n);
  }
}
