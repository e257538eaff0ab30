/** The memoised search over production aliases, against paths in the alias graph. */
module AliasGraph {
  import opened Tokens

  datatype Mapping = Direct | Absent | Alias | Unmapped
  datatype Support = Full | Partial | Unsupported | Unassessed

  /** A catalog entry. Targets are names without their `production:` prefix. */
  datatype Production = Production(mapping: Mapping, targets: seq<string>, support: Support)

  type Catalog = map<string, Production>

  // ---------- the graph ----------

  predicate Edge(g: Catalog, a: string, b: string) {
    a in g && g[a].mapping.Alias? && b in g[a].targets
  }

  ghost predicate IsWalk(g: Catalog, p: seq<string>) {
    |p| > 0 && forall i, j :: 0 <= i && j == i + 1 && j < |p| ==> Edge(g, p[i], p[j])
  }

  ghost predicate Joins(g: Catalog, p: seq<string>, a: string, b: string) {
    IsWalk(g, p) && p[0] == a && p[|p| - 1] == b
  }

  ghost predicate OnCycle(g: Catalog, n: string) {
    exists p :: |p| > 1 && Joins(g, p, n, n)
  }

  /** A name that is unknown or on a cycle. */
  ghost predicate IsFault(g: Catalog, n: string) {
    n !in g || OnCycle(g, n)
  }

  /** An unknown name or a cycle can be reached. */
  ghost predicate ReachesFault(g: Catalog, n: string) {
    exists p, m :: Joins(g, p, n, m) && IsFault(g, m)
  }

  predicate IsDirect(g: Catalog, n: string) {
    n in g && g[n].mapping.Direct?
  }

  ghost predicate ReachesDirect(g: Catalog, n: string) {
    exists p, m :: Joins(g, p, n, m) && IsDirect(g, m)
  }

  lemma WalkCons(g: Catalog, a: string, p: seq<string>, b: string, c: string)
    requires Edge(g, a, b) && Joins(g, p, b, c)
    ensures Joins(g, [a] + p, a, c)
  {
    var q := [a] + p;
    forall i, j | 0 <= i && j == i + 1 && j < |q| ensures Edge(g, q[i], q[j]) {
      assert i > 0 ==> Edge(g, p[i - 1], p[j - 1]);
    }
  }

  lemma WalkTail(g: Catalog, p: seq<string>, a: string, c: string)
    requires Joins(g, p, a, c) && |p| > 1
    ensures Edge(g, a, p[1]) && Joins(g, p[1..], p[1], c)
  {
    var q := p[1..];
    forall i, j | 0 <= i && j == i + 1 && j < |q| ensures Edge(g, q[i], q[j]) {
      assert Edge(g, p[i + 1], p[j + 1]);
    }
  }

  lemma WalkOne(g: Catalog, a: string)
    ensures Joins(g, [a], a, a)
  {
  }

  // ---------- resolved names ----------

  /** What a name resolves to when its targets are resolved. */
  ghost predicate Value(g: Catalog, resolved: map<string, bool>, n: string) {
    IsDirect(g, n) || exists t :: Edge(g, n, t) && t in resolved && resolved[t]
  }

  /** The k-th name is known, comes after all its targets, and has its value. */
  ghost predicate SettledAt(g: Catalog, order: seq<string>, resolved: map<string, bool>, k: nat)
    requires k < |order|
  {
    && order[k] in g && order[k] in resolved && resolved[order[k]] == Value(g, resolved, order[k])
    && (forall t :: Edge(g, order[k], t) ==> exists j :: 0 <= j < k && order[j] == t)
  }

  /** The resolved names in the order in which they were resolved. */
  ghost predicate Settled(g: Catalog, order: seq<string>, resolved: map<string, bool>) {
    && (forall n :: n in resolved <==> n in order)
    && (forall j, k :: 0 <= j < k < |order| ==> order[j] != order[k])
    && (forall k: nat :: k < |order| ==> SettledAt(g, order, resolved, k))
  }

  /** A walk from a resolved name stays among names resolved earlier. */
  lemma {:induction false} WalkDescends(g: Catalog, order: seq<string>, resolved: map<string, bool>, p: seq<string>,
                                        k: nat, m: string)
    returns (j: nat)
    requires Settled(g, order, resolved) && k < |order| && Joins(g, p, order[k], m)
    ensures j <= k && order[j] == m && (|p| > 1 ==> j < k)
    decreases |p|
  {
    j := k;
    if |p| > 1 {
      WalkTail(g, p, order[k], m);
      assert SettledAt(g, order, resolved, k);
      var i: nat :| i < k && order[i] == p[1];
      j := WalkDescends(g, order, resolved, p[1..], i, m);
    }
  }

  /** A resolved name reaches neither an unknown name nor a cycle. */
  lemma SettledIsSound(g: Catalog, order: seq<string>, resolved: map<string, bool>, n: string)
    requires Settled(g, order, resolved) && n in resolved
    ensures !ReachesFault(g, n)
  {
    var k: nat :| k < |order| && order[k] == n;
    forall p, m | Joins(g, p, n, m) ensures !IsFault(g, m) {
      var j := WalkDescends(g, order, resolved, p, k, m);
      assert SettledAt(g, order, resolved, j);
      if c :| |c| > 1 && Joins(g, c, m, m) {
        var i := WalkDescends(g, order, resolved, c, j, m);
        assert false;
      }
    }
  }

  /** A resolved value tells whether a direct production can be reached. */
  lemma {:induction false} SettledValue(g: Catalog, order: seq<string>, resolved: map<string, bool>, k: nat)
    requires Settled(g, order, resolved) && k < |order|
    ensures order[k] in resolved && (resolved[order[k]] <==> ReachesDirect(g, order[k]))
  {
    var n := order[k];
    assert SettledAt(g, order, resolved, k);
    if resolved[n] {
      if IsDirect(g, n) {
        WalkOne(g, n);
      } else {
        var t :| Edge(g, n, t) && t in resolved && resolved[t];
        var j: nat :| j < k && order[j] == t;
        SettledValue(g, order, resolved, j);
        var p, m :| Joins(g, p, t, m) && IsDirect(g, m);
        WalkCons(g, n, p, t, m);
      }
    }
    if p, m :| Joins(g, p, n, m) && IsDirect(g, m) {
      if |p| > 1 {
        WalkTail(g, p, n, m);
        var j: nat :| j < k && order[j] == p[1];
        SettledValue(g, order, resolved, j);
      }
    }
  }

  lemma ResolvedValue(g: Catalog, order: seq<string>, resolved: map<string, bool>, n: string)
    requires Settled(g, order, resolved) && n in resolved
    ensures !ReachesFault(g, n) && (resolved[n] <==> ReachesDirect(g, n))
  {
    SettledIsSound(g, order, resolved, n);
    var k: nat :| k < |order| && order[k] == n;
    SettledValue(g, order, resolved, k);
  }

  /** One more name whose targets are all resolved. */
  lemma SettledGrows(g: Catalog, order: seq<string>, resolved: map<string, bool>, n: string, value: bool)
    requires Settled(g, order, resolved) && n in g && n !in resolved
    requires forall t :: Edge(g, n, t) ==> t in resolved
    requires value == Value(g, resolved, n)
    ensures Settled(g, order + [n], resolved[n := value])
  {
    var order', resolved' := order + [n], resolved[n := value];
    forall k: nat | k < |order'| ensures SettledAt(g, order', resolved', k) {
      if k < |order| {
        assert SettledAt(g, order, resolved, k);
        StaysSettled(g, order, resolved, n, value, k);
      } else {
        LastSettled(g, order, resolved, n, value);
      }
    }
  }

  lemma StaysSettled(g: Catalog, order: seq<string>, resolved: map<string, bool>, n: string, value: bool, k: nat)
    requires Settled(g, order, resolved) && n !in resolved && k < |order| && SettledAt(g, order, resolved, k)
    ensures SettledAt(g, order + [n], resolved[n := value], k)
  {
    var order', resolved' := order + [n], resolved[n := value];
    forall t | Edge(g, order[k], t) ensures t in resolved && t != n && exists j :: 0 <= j < k && order'[j] == t {
      var j :| 0 <= j < k && order[j] == t;
      assert order'[j] == t;
    }
  }

  lemma LastSettled(g: Catalog, order: seq<string>, resolved: map<string, bool>, n: string, value: bool)
    requires Settled(g, order, resolved) && n in g && n !in resolved
    requires forall t :: Edge(g, n, t) ==> t in resolved
    requires value == Value(g, resolved, n)
    ensures SettledAt(g, order + [n], resolved[n := value], |order|)
  {
    var order', resolved' := order + [n], resolved[n := value];
    forall t | Edge(g, n, t) ensures t != n && exists j :: 0 <= j < |order| && order'[j] == t {
      var j :| 0 <= j < |order| && order[j] == t;
      assert order'[j] == t;
    }
  }

  // ---------- the first fault ----------

  /** What the search reports: a name met again on its own path, or an unknown one. */
  datatype Fault = Cycle(name: string) | Unknown(name: string)

  ghost function Remaining(g: Catalog, stack: seq<string>): set<string> {
    g.Keys - (set x | x in stack)
  }

  lemma RemainingShrinks(g: Catalog, stack: seq<string>, name: string)
    requires name in g && name !in stack
    ensures Remaining(g, stack + [name]) < Remaining(g, stack)
  {
    assert name in Remaining(g, stack) && name !in Remaining(g, stack + [name]);
  }

  /** The first fault of a depth-first search without a memo, below the names on the stack. */
  ghost function FirstFault(g: Catalog, stack: seq<string>, name: string): Option<Fault>
    decreases Remaining(g, stack), 0, 0
  {
    if name in stack then Some(Cycle(name))
    else if name !in g then Some(Unknown(name))
    else if !g[name].mapping.Alias? then None
    else
      RemainingShrinks(g, stack, name);
      FirstAmong(g, stack + [name], g[name].targets)
  }

  ghost function FirstAmong(g: Catalog, path: seq<string>, targets: seq<string>): Option<Fault>
    decreases Remaining(g, path), 1, |targets|
  {
    if targets == [] then None
    else if FirstFault(g, path, targets[0]).Some? then FirstFault(g, path, targets[0])
    else FirstAmong(g, path, targets[1..])
  }

  lemma {:induction false} NoneAmong(g: Catalog, path: seq<string>, targets: seq<string>, k: nat)
    requires FirstAmong(g, path, targets).None? && k < |targets|
    ensures FirstFault(g, path, targets[k]).None?
    decreases |targets|
  {
    if k > 0 {
      NoneAmong(g, path, targets[1..], k - 1);
    }
  }

  lemma {:induction false} SomeAmong(g: Catalog, path: seq<string>, targets: seq<string>) returns (k: nat)
    requires FirstAmong(g, path, targets).Some?
    ensures k < |targets| && FirstAmong(g, path, targets) == FirstFault(g, path, targets[k])
    decreases |targets|
  {
    k := 0;
    if FirstFault(g, path, targets[0]).None? {
      var rest := SomeAmong(g, path, targets[1..]);
      k := rest + 1;
    }
  }

  /** The reported name is what the report says, and can be reached. */
  ghost predicate IsReachableFault(g: Catalog, n: string, fault: Fault) {
    && (exists p :: Joins(g, p, n, fault.name))
    && match fault
       case Cycle(name) => OnCycle(g, name)
       case Unknown(name) => name !in g
  }

  lemma {:induction false} FirstFaultHolds(g: Catalog, stack: seq<string>, n: string)
    requires IsWalk(g, stack + [n]) && FirstFault(g, stack, n).Some?
    ensures IsReachableFault(g, n, FirstFault(g, stack, n).value)
    decreases Remaining(g, stack)
  {
    WalkOne(g, n);
    if n in stack {
      StackIsCycle(g, stack, n);
    } else if n in g {
      RemainingShrinks(g, stack, n);
      var k := SomeAmong(g, stack + [n], g[n].targets);
      var t := g[n].targets[k];
      WalkSnoc(g, stack + [n], t);
      FirstFaultHolds(g, stack + [n], t);
      var p :| Joins(g, p, t, FirstFault(g, stack, n).value.name);
      WalkCons(g, n, p, t, FirstFault(g, stack, n).value.name);
    }
  }

  /** Without a fault, a walk never returns to the stack or to itself, and stays in the catalog. */
  lemma {:induction false} WalkWithoutFault(g: Catalog, stack: seq<string>, p: seq<string>, n: string, m: string)
    requires FirstFault(g, stack, n).None? && Joins(g, p, n, m)
    ensures FirstFault(g, stack + p[..|p| - 1], m).None?
    decreases |p|
  {
    if |p| > 1 {
      WalkTail(g, p, n, m);
      var k :| 0 <= k < |g[n].targets| && g[n].targets[k] == p[1];
      NoneAmong(g, stack + [n], g[n].targets, k);
      WalkWithoutFault(g, stack + [n], p[1..], p[1], m);
      assert stack + p[..|p| - 1] == stack + [n] + p[1..][..|p| - 2];
    } else {
      assert stack + p[..|p| - 1] == stack;
    }
  }

  lemma WalkJoin(g: Catalog, p: seq<string>, c: seq<string>, n: string, m: string)
    requires Joins(g, p, n, m) && Joins(g, c, m, m)
    ensures Joins(g, p + c[1..], n, m)
  {
    var q := p + c[1..];
    forall i, j | 0 <= i && j == i + 1 && j < |q|
      ensures Edge(g, q[i], q[j])
    {
      if j < |p| {
        assert Edge(g, p[i], p[j]);
      } else {
        assert Edge(g, c[i - |p| + 1], c[j - |p| + 1]);
      }
    }
  }

  /** The search without a memo reports something exactly if a fault can be reached. */
  lemma FirstFaultIff(g: Catalog, stack: seq<string>, n: string)
    requires IsWalk(g, stack + [n])
    ensures FirstFault(g, stack, n).Some? <==> ReachesFault(g, n)
  {
    if FirstFault(g, stack, n).Some? {
      FirstFaultHolds(g, stack, n);
      var name := FirstFault(g, stack, n).value.name;
      var p :| Joins(g, p, n, name);
      assert IsFault(g, name);
    } else {
      forall p, m | Joins(g, p, n, m)
        ensures !IsFault(g, m)
      {
        WalkWithoutFault(g, stack, p, n, m);
        if c :| |c| > 1 && Joins(g, c, m, m) {
          var q := p + c[1..];
          WalkJoin(g, p, c, n, m);
          assert q[..|q| - 1][|p| - 1] == m && m in stack + q[..|q| - 1];
          WalkWithoutFault(g, stack, q, n, m);
        }
      }
    }
  }

  // ---------- the search ----------

  datatype Result = Ok(value: bool) | Err(fault: Fault)

  function Reported(r: Result): Option<Fault> {
    if r.Err? then Some(r.fault) else None
  }

  /** The sets that one validation shares between its searches. */
  class Resolver {
    const productions: Catalog
    var visiting: set<string>
    var resolved: map<string, bool>
    ghost var order: seq<string>

    constructor (productions: Catalog)
      ensures this.productions == productions && visiting == {} && resolved == map[] && order == [] && Valid()
    {
      this.productions := productions;
      visiting, resolved, order := {}, map[], [];
    }

    ghost predicate Valid()
      reads this
    {
      Settled(productions, order, resolved)
    }

    /** The names being visited are a walk that ends just before `name`, none of them resolved. */
    ghost predicate Stacked(stack: seq<string>, name: string)
      reads this
    {
      && (forall n :: n in visiting <==> n in stack)
      && (forall n :: n in stack ==> n !in resolved)
      && IsWalk(productions, stack + [name])
    }

    /** `alias_reaches_direct`. On success the name is resolved and the visiting set restored. */
    method AliasReachesDirect(name: string, ghost stack: seq<string>) returns (r: Result)
      requires Valid() && Stacked(stack, name)
      modifies this`visiting, this`resolved, this`order
      ensures Valid()
      ensures forall n :: n in old(resolved) ==> n in resolved && resolved[n] == old(resolved)[n]
      ensures r.Ok? ==> visiting == old(visiting) && name in resolved && resolved[name] == r.value
      ensures r.Ok? ==> forall n :: n in stack ==> n !in resolved
      ensures Reported(r) == FirstFault(productions, stack, name)
      decreases productions.Keys - visiting, 0
    {
      if name in resolved {
        SettledIsSound(productions, order, resolved, name);
        FirstFaultIff(productions, stack, name);
        return Ok(resolved[name]);
      }
      if name in visiting {
        return Err(Cycle(name));
      }
      visiting := visiting + {name};
      if name !in productions {
        return Err(Unknown(name));
      }
      var production := productions[name];
      var result := false;
      match production.mapping {
        case Direct => result := true;
        case Alias =>
          var any := AnyTarget(name, production.targets, stack);
          if any.Err? {
            return any;
          }
          result := any.value;
        case _ =>
      }
      assert result == Value(productions, resolved, name);
      SettledGrows(productions, order, resolved, name, result);
      visiting := visiting - {name};
      resolved := resolved[name := result];
      order := order + [name];
      return Ok(result);
    }

    /** The loop over an alias's targets. It visits all of them, found or not. */
    method AnyTarget(name: string, targets: seq<string>, ghost stack: seq<string>) returns (r: Result)
      requires Valid() && name in productions && productions[name].mapping.Alias?
          && targets == productions[name].targets
      requires name in visiting && name !in resolved && (forall n :: n in visiting <==> n in stack + [name])
      requires (forall n :: n in stack ==> n !in resolved) && IsWalk(productions, stack + [name])
      modifies this`visiting, this`resolved, this`order
      ensures Valid()
      ensures forall n :: n in old(resolved) ==> n in resolved && resolved[n] == old(resolved)[n]
      ensures r.Ok? ==> visiting == old(visiting) && forall n :: n in stack + [name] ==> n !in resolved
      ensures r.Ok? ==> forall t :: t in targets ==> t in resolved
      ensures r.Ok? ==> (r.value <==> exists t :: t in targets && t in resolved && resolved[t])
      ensures Reported(r) == FirstAmong(productions, stack + [name], targets)
      decreases productions.Keys - visiting, 1
    {
      var any := false;
      ghost var path := stack + [name];
      for i := 0 to |targets|
        invariant Valid() && visiting == old(visiting)
        invariant forall n :: n in old(resolved) ==> n in resolved && resolved[n] == old(resolved)[n]
        invariant forall n :: n in path ==> n !in resolved
        invariant forall j :: 0 <= j < i ==> targets[j] in resolved
        invariant any <==> exists j :: 0 <= j < i && resolved[targets[j]]
        invariant FirstAmong(productions, path, targets) == FirstAmong(productions, path, targets[i..])
      {
        assert targets[i..][1..] == targets[i + 1..];
        assert Edge(productions, name, targets[i]);
        WalkSnoc(productions, path, targets[i]);
        ghost var before := resolved;
        var reached := AliasReachesDirect(targets[i], path);
        if reached.Err? {
          return reached;
        }
        assert forall j :: 0 <= j < i ==> resolved[targets[j]] == before[targets[j]];
        any := any || reached.value;
      }
      return Ok(any);
    }
  }

  /** A name met again while it is visited is on a cycle. */
  lemma StackIsCycle(g: Catalog, stack: seq<string>, name: string)
    requires IsWalk(g, stack + [name]) && name in stack
    ensures OnCycle(g, name) && ReachesFault(g, name)
  {
    var i :| 0 <= i < |stack| && stack[i] == name;
    var path, cycle := stack + [name], (stack + [name])[i..];
    forall j, k | 0 <= j && k == j + 1 && k < |cycle| ensures Edge(g, cycle[j], cycle[k]) {
      assert Edge(g, path[i + j], path[i + k]);
    }
    assert Joins(g, cycle, name, name);
    WalkOne(g, name);
  }

  lemma WalkSnoc(g: Catalog, path: seq<string>, t: string)
    requires IsWalk(g, path) && Edge(g, path[|path| - 1], t)
    ensures IsWalk(g, path + [t])
  {
  }

  /** The search from scratch: the first fault of a search without a memo, exactly if a fault
      can be reached, and otherwise whether a direct production can. */
  ghost predicate IsAnswer(g: Catalog, name: string, r: Result) {
    && Reported(r) == FirstFault(g, [], name)
    && (r.Err? <==> ReachesFault(g, name))
    && (r.Err? ==> IsReachableFault(g, name, r.fault))
    && (r.Ok? ==> (r.value <==> ReachesDirect(g, name)))
  }

  /** One search of a validation, whatever the memo holds. */
  method Search(resolver: Resolver, name: string) returns (r: Result)
    requires resolver.Valid()
    modifies resolver
    ensures resolver.Valid() && IsAnswer(resolver.productions, name, r)
    ensures r.Ok? ==> name in resolver.resolved
  {
    resolver.visiting := {};
    assert [] + [name] == [name];
    WalkOne(resolver.productions, name);
    r := resolver.AliasReachesDirect(name, []);
    FirstFaultIff(resolver.productions, [], name);
    if r.Err? {
      FirstFaultHolds(resolver.productions, [], name);
    } else {
      ResolvedValue(resolver.productions, resolver.order, resolver.resolved, name);
    }
  }

  // ---------- support ----------

  /** What the supports of an alias's targets demand of its own. */
  function Expected(children: seq<Support>): Support {
    if Unassessed in children then Unassessed
    else if forall k :: 0 <= k < |children| ==> children[k].Full? then Full
    else if forall k :: 0 <= k < |children| ==> children[k].Unsupported? then Unsupported
    else Partial
  }

  function ChildSupports(g: Catalog, targets: seq<string>): (r: seq<Support>)
    requires forall k :: 0 <= k < |targets| ==> targets[k] in g
    ensures |r| == |targets| && forall k :: 0 <= k < |r| ==> r[k] == g[targets[k]].support
  {
    seq(|targets|, k requires 0 <= k < |targets| => g[targets[k]].support)
  }

  datatype Problem = Faulty(fault: Fault) | NoEndpoint(name: string) | WrongSupport(name: string, expected: Support)

  lemma TargetsAreKnown(g: Catalog, n: string)
    requires !ReachesFault(g, n) && n in g && g[n].mapping.Alias?
    ensures forall k :: 0 <= k < |g[n].targets| ==> g[n].targets[k] in g
  {
    forall k | 0 <= k < |g[n].targets| ensures g[n].targets[k] in g {
      var t := g[n].targets[k];
      assert Edge(g, n, t);
      WalkOne(g, t);
      WalkCons(g, n, [t], t, t);
    }
  }

  lemma NoFirstFault(g: Catalog, n: string)
    ensures FirstFault(g, [], n).None? <==> !ReachesFault(g, n)
  {
    assert [] + [n] == [n];
    WalkOne(g, n);
    FirstFaultIff(g, [], n);
  }

  /** What is wrong with one production. */
  ghost function Judge(g: Catalog, n: string): Option<Problem>
    requires n in g
  {
    if !g[n].mapping.Alias? then None
    else if FirstFault(g, [], n).Some? then Some(Faulty(FirstFault(g, [], n).value))
    else if !ReachesDirect(g, n) then Some(NoEndpoint(n))
    else
      NoFirstFault(g, n);
      TargetsAreKnown(g, n);
      var expected := Expected(ChildSupports(g, g[n].targets));
      if g[n].support == expected then None else Some(WrongSupport(n, expected))
  }

  ghost function FirstProblem(g: Catalog, names: seq<string>): Option<Problem>
    requires forall k :: 0 <= k < |names| ==> names[k] in g
  {
    if names == [] then None
    else if Judge(g, names[0]).Some? then Judge(g, names[0])
    else FirstProblem(g, names[1..])
  }

  /** `validate_aliases` over the productions in some order. */
  method ValidateAliases(g: Catalog, names: seq<string>) returns (r: Option<Problem>)
    requires forall k :: 0 <= k < |names| ==> names[k] in g
    ensures r == FirstProblem(g, names)
  {
    var resolver := new Resolver(g);
    for i := 0 to |names|
      invariant resolver.Valid() && resolver.productions == g && fresh(resolver)
      invariant FirstProblem(g, names) == FirstProblem(g, names[i..])
    {
      assert names[i..][1..] == names[i + 1..];
      r := ValidateOne(resolver, names[i]);
      if r.Some? {
        return;
      }
    }
    r := None;
  }

  method ValidateOne(resolver: Resolver, name: string) returns (r: Option<Problem>)
    requires resolver.Valid() && name in resolver.productions
    modifies resolver
    ensures resolver.Valid() && r == Judge(resolver.productions, name)
  {
    var g := resolver.productions;
    var production := g[name];
    if !production.mapping.Alias? {
      return None;
    }
    var reached := Search(resolver, name);
    if reached.Err? {
      return Some(Faulty(reached.fault));
    }
    if !reached.value {
      return Some(NoEndpoint(name));
    }
    TargetsAreKnown(g, name);
    var expected := Expected(ChildSupports(g, production.targets));
    r := if production.support != expected then Some(WrongSupport(name, expected)) else None;
  }

  // ---------- the local rule gives the global one ----------

  /** A production that is no alias, with the given support, can be reached. */
  ghost predicate Shows(g: Catalog, n: string, s: Support) {
    exists p, m :: Joins(g, p, n, m) && IsEndpoint(g, m, s)
  }

  predicate IsEndpoint(g: Catalog, n: string, s: Support) {
    n in g && !g[n].mapping.Alias? && g[n].support == s
  }

  /** The support that the reachable endpoints demand. */
  ghost function Overall(g: Catalog, n: string): Support {
    if Shows(g, n, Unassessed) then Unassessed
    else if !Shows(g, n, Partial) && !Shows(g, n, Unsupported) then Full
    else if !Shows(g, n, Partial) && !Shows(g, n, Full) then Unsupported
    else Partial
  }

  lemma ShowsOfAlias(g: Catalog, n: string, s: Support)
    requires n in g && g[n].mapping.Alias?
    ensures Shows(g, n, s) <==> exists t :: Edge(g, n, t) && Shows(g, t, s)
  {
    if p, m :| Joins(g, p, n, m) && IsEndpoint(g, m, s) {
      assert |p| > 1;
      WalkTail(g, p, n, m);
      assert Edge(g, n, p[1]) && Shows(g, p[1], s);
    }
    if t :| Edge(g, n, t) && Shows(g, t, s) {
      var p, m :| Joins(g, p, t, m) && IsEndpoint(g, m, s);
      WalkCons(g, n, p, t, m);
    }
  }

  lemma ShowsOfEndpoint(g: Catalog, n: string, s: Support)
    requires n in g && !g[n].mapping.Alias?
    ensures Shows(g, n, s) <==> g[n].support == s
  {
    WalkOne(g, n);
    if p, m :| Joins(g, p, n, m) && IsEndpoint(g, m, s) {
      if |p| > 1 {
        WalkTail(g, p, n, m);
      }
    }
  }

  ghost predicate AllValid(g: Catalog) {
    forall n :: n in g ==> Judge(g, n).None?
  }

  ghost predicate ShowsSome(g: Catalog, n: string) {
    exists s :: Shows(g, n, s)
  }

  /** A target has the support that its own endpoints demand, and has an endpoint. */
  ghost predicate IsSummed(g: Catalog, t: string) {
    t in g && g[t].support == Overall(g, t) && ShowsSome(g, t)
  }

  lemma EndpointIsSummed(g: Catalog, n: string)
    requires n in g && !g[n].mapping.Alias?
    ensures IsSummed(g, n)
  {
    ShowsOfEndpoint(g, n, Full);
    ShowsOfEndpoint(g, n, Partial);
    ShowsOfEndpoint(g, n, Unsupported);
    ShowsOfEndpoint(g, n, Unassessed);
  }

  /** The rule on targets sums to the rule on endpoints. */
  lemma ExpectedIsOverall(g: Catalog, n: string)
    requires n in g && g[n].mapping.Alias? && ReachesDirect(g, n)
    requires forall t :: Edge(g, n, t) ==> IsSummed(g, t)
    requires forall k :: 0 <= k < |g[n].targets| ==> g[n].targets[k] in g
    ensures Expected(ChildSupports(g, g[n].targets)) == Overall(g, n) && ShowsSome(g, n)
  {
    var targets, children := g[n].targets, ChildSupports(g, g[n].targets);
    ShowsOfAlias(g, n, Full);
    ShowsOfAlias(g, n, Partial);
    ShowsOfAlias(g, n, Unsupported);
    ShowsOfAlias(g, n, Unassessed);
    forall k | 0 <= k < |targets| ensures IsSummed(g, targets[k]) && children[k] == Overall(g, targets[k]) {
      assert Edge(g, n, targets[k]);
    }
    DirectShows(g, n);
    if Unassessed in children {
      var k :| 0 <= k < |children| && children[k] == Unassessed;
      assert Edge(g, n, targets[k]) && Shows(g, targets[k], Unassessed);
    }
    forall s, t | Edge(g, n, t) && Shows(g, t, s) ensures exists k :: 0 <= k < |targets| && targets[k] == t {
    }
    SumOfTargets(g, targets, children);
  }

  /** A direct production is an endpoint. */
  lemma DirectShows(g: Catalog, n: string)
    requires ReachesDirect(g, n)
    ensures ShowsSome(g, n)
  {
    var p, m :| Joins(g, p, n, m) && IsDirect(g, m);
    assert IsEndpoint(g, m, g[m].support);
    assert Shows(g, n, g[m].support);
  }

  ghost predicate SomeShows(g: Catalog, targets: seq<string>, s: Support) {
    exists k :: 0 <= k < |targets| && Shows(g, targets[k], s)
  }

  /** What the supports of the targets say about their endpoints. */
  lemma SumOfTargets(g: Catalog, targets: seq<string>, children: seq<Support>)
    requires |targets| == |children| && forall k :: 0 <= k < |targets| ==>
        IsSummed(g, targets[k]) && children[k] == Overall(g, targets[k])
    ensures Unassessed in children <==> SomeShows(g, targets, Unassessed)
    ensures (forall k :: 0 <= k < |children| ==> children[k].Full?)
       <==> !SomeShows(g, targets, Unassessed) && !SomeShows(g, targets, Partial) && !SomeShows(g, targets, Unsupported)
    ensures (forall k :: 0 <= k < |children| ==> children[k].Unsupported?)
       <==> !SomeShows(g, targets, Unassessed) && !SomeShows(g, targets, Partial) && !SomeShows(g, targets, Full)
  {
    forall k | 0 <= k < |targets| ensures OverallMeans(g, targets[k]) {
      assert IsSummed(g, targets[k]);
      OverallIs(g, targets[k]);
    }
    if k :| 0 <= k < |targets| && Shows(g, targets[k], Unassessed) {
      assert children[k] == Unassessed;
    }
    forall k | 0 <= k < |targets| ensures OverallMeans(g, targets[k]) && children[k] == Overall(g, targets[k]) {
    }
  }

  ghost predicate OverallMeans(g: Catalog, t: string) {
    && (Overall(g, t).Unassessed? <==> Shows(g, t, Unassessed))
    && (Overall(g, t).Full? <==> !Shows(g, t, Unassessed) && !Shows(g, t, Partial) && !Shows(g, t, Unsupported))
    && (Overall(g, t).Unsupported? <==> !Shows(g, t, Unassessed) && !Shows(g, t, Partial) && !Shows(g, t, Full))
  }

  lemma OverallIs(g: Catalog, t: string)
    requires ShowsSome(g, t)
    ensures OverallMeans(g, t)
  {
    var s :| Shows(g, t, s);
  }

  /** In a valid catalog the support of each production is the one that its reachable endpoints
      demand: an alias is full exactly when all of them are. */
  lemma {:induction false} ValidIsSummed(g: Catalog, stack: seq<string>, n: string)
    requires AllValid(g) && n in g && IsWalk(g, stack + [n])
    ensures IsSummed(g, n)
    decreases g.Keys - (set x | x in stack)
  {
    if !g[n].mapping.Alias? {
      EndpointIsSummed(g, n);
    } else {
      assert Judge(g, n).None?;
      NoFirstFault(g, n);
      if n in stack {
        StackIsCycle(g, stack, n);
      }
      TargetsAreKnown(g, n);
      forall t | Edge(g, n, t) ensures IsSummed(g, t) {
        WalkSnoc(g, stack + [n], t);
        assert (set x | x in stack + [n]) == (set x | x in stack) + {n};
        assert n in g.Keys - (set x | x in stack);
        ValidIsSummed(g, stack + [n], t);
      }
      ExpectedIsOverall(g, n);
    }
  }

  /** The global fact that `validate_aliases` establishes by local checks. */
  lemma FullIffEndpointsFull(g: Catalog, names: seq<string>, n: string)
    requires forall k :: 0 <= k < |names| ==> names[k] in g
    requires forall m :: m in g ==> m in names
    requires FirstProblem(g, names).None? && n in g && g[n].mapping.Alias?
    ensures !ReachesFault(g, n) && ReachesDirect(g, n)
    ensures g[n].support == Overall(g, n)
    ensures g[n].support.Full? <==> forall s :: Shows(g, n, s) ==> s.Full?
  {
    NoProblemIsValid(g, names);
    assert Judge(g, n).None?;
    NoFirstFault(g, n);
    assert [] + [n] == [n];
    WalkOne(g, n);
    ValidIsSummed(g, [], n);
    OverallIs(g, n);
  }

  lemma {:induction false} NoProblemIsValid(g: Catalog, names: seq<string>)
    requires forall k :: 0 <= k < |names| ==> names[k] in g
    requires FirstProblem(g, names).None?
    ensures forall k :: 0 <= k < |names| ==> Judge(g, names[k]).None?
    decreases |names|
  {
    if names != [] {
      NoProblemIsValid(g, names[1..]);
      assert forall k :: 1 <= k < |names| ==> names[k] == names[1..][k - 1];
    }
  }
}
