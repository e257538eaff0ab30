/** The retry loop that reads keywords as identifiers, one lexical signature at a time. */
module ContextualNames {
  import opened Tokens

  /** A keyword with its two neighbours. */
  datatype Signature = Signature(previous: Option<Kind>, self: Kind, next: Option<Kind>)

  function SignatureAt(tokens: seq<Token>, i: nat): Signature
    requires i < |tokens|
  {
    Signature(if i > 0 then Some(tokens[i - 1].kind) else None,
              tokens[i].kind,
              if i + 1 < |tokens| then Some(tokens[i + 1].kind) else None)
  }

  // ---------- the initial scan ----------

  predicate FollowedByAs(tokens: seq<Token>, i: nat) {
    i + 1 < |tokens| && tokens[i + 1].kind.As?
  }

  predicate FollowsNameMarker(tokens: seq<Token>, i: nat)
    requires i < |tokens|
  {
    i > 0 && (tokens[i - 1].kind.As? || tokens[i - 1].kind.Dot?)
  }

  predicate IsAliasedBareExpression(tokens: seq<Token>, i: nat)
    requires i < |tokens|
  {
    && i > 0
    && (|| tokens[i - 1].kind.Return? || tokens[i - 1].kind.With?
        || tokens[i - 1].kind.Yield? || tokens[i - 1].kind.Comma?)
    && FollowedByAs(tokens, i)
  }

  predicate EndsProjectionItem(kind: Kind) {
    match kind
    case As | Comma | Order | Offset | Skip | Limit | Where | Union | Semicolon => true
    case _ => ClauseStarts(kind)
  }

  predicate IsSoloProjectionKeyword(tokens: seq<Token>, i: nat)
    requires i < |tokens|
  {
    && (tokens[i].kind.SetAll? || tokens[i].kind.Distinct?)
    && i > 0 && (tokens[i - 1].kind.Return? || tokens[i - 1].kind.With?)
    && (i + 1 < |tokens| ==> EndsProjectionItem(tokens[i + 1].kind))
  }

  /** An aliased `null`, `true`, ... keeps its literal meaning and is never retried. */
  predicate IsKeptLiteral(tokens: seq<Token>, i: nat)
    requires i < |tokens|
  {
    IsAliasedBareExpression(tokens, i) && IsKeywordLiteral(tokens[i].kind)
  }

  /** The candidates that the scan turns into names before the first parse. */
  predicate IsImmediateName(tokens: seq<Token>, i: nat)
    requires i < |tokens|
  {
    && !IsKeptLiteral(tokens, i)
    && IsContextualNameCandidate(tokens[i].kind)
    && (|| (FollowsNameMarker(tokens, i) && !(tokens[i].kind.As? && tokens[i - 1].kind.As?))
        || IsSoloProjectionKeyword(tokens, i)
        || IsAliasedBareExpression(tokens, i))
  }

  /** What the scan decides depends on the signature alone. */
  lemma ScanReadsSignatures(tokens: seq<Token>, i: nat, j: nat)
    requires i < |tokens| && j < |tokens| && SignatureAt(tokens, i) == SignatureAt(tokens, j)
    ensures IsKeptLiteral(tokens, i) == IsKeptLiteral(tokens, j)
    ensures IsImmediateName(tokens, i) == IsImmediateName(tokens, j)
  {
  }

  // ---------- readings ----------

  function CandidateSignatures(tokens: seq<Token>): set<Signature> {
    set i | 0 <= i < |tokens| && IsContextualNameCandidate(tokens[i].kind) :: SignatureAt(tokens, i)
  }

  function ImmediateNames(tokens: seq<Token>): set<Signature> {
    set i | 0 <= i < |tokens| && IsImmediateName(tokens, i) :: SignatureAt(tokens, i)
  }

  predicate IsName(tokens: seq<Token>, names: set<Signature>, i: nat)
    requires i < |tokens|
  {
    IsContextualNameCandidate(tokens[i].kind) && SignatureAt(tokens, i) in names
  }

  /** The stream that reads every candidate with a signature in `names` as an identifier. */
  function Reading(tokens: seq<Token>, names: set<Signature>): (r: seq<Token>)
    ensures |r| == |tokens|
    ensures forall i :: 0 <= i < |r| ==>
        r[i] == if IsName(tokens, names, i) then tokens[i].(kind := Identifier) else tokens[i]
  {
    seq(|tokens|, i requires 0 <= i < |tokens| =>
          if IsName(tokens, names, i) then tokens[i].(kind := Identifier) else tokens[i])
  }

  /** A candidate that is neither a name yet nor a kept literal. */
  predicate IsOpen(tokens: seq<Token>, names: set<Signature>, i: nat)
    requires i < |tokens|
  {
    IsContextualNameCandidate(tokens[i].kind) && SignatureAt(tokens, i) !in names && !IsKeptLiteral(tokens, i)
  }

  // ---------- the next candidate ----------

  predicate Touches(token: Token, location: nat) {
    token.start <= location < token.end
  }

  function Distance(token: Token, location: nat): nat {
    if location < token.start then token.start - location
    else if token.end <= location then location - token.end
    else 0
  }

  function Priority(tokens: seq<Token>, location: nat, i: nat): nat
    requires i < |tokens|
  {
    var exact := Touches(tokens[i], location);
    if exact && (!tokens[i].kind.As? || FollowedByAs(tokens, i)) then 0
    else if FollowedByAs(tokens, i) && !tokens[i].kind.As? then 1
    else if exact then 2
    else 3
  }

  /** Candidate i comes before candidate j in the order of (priority, distance, index). */
  predicate Before(tokens: seq<Token>, location: nat, i: nat, j: nat)
    requires i < |tokens| && j < |tokens|
  {
    var (p, q) := (Priority(tokens, location, i), Priority(tokens, location, j));
    var (d, e) := (Distance(tokens[i], location), Distance(tokens[j], location));
    p < q || (p == q && (d < e || (d == e && i < j)))
  }

  /** The first open candidate in that order among the first n tokens. */
  function Pick(tokens: seq<Token>, names: set<Signature>, location: nat, n: nat): (r: Option<nat>)
    requires n <= |tokens|
    ensures r.Some? ==> r.value < n && IsOpen(tokens, names, r.value)
  {
    if n == 0 then None
    else
      var best := Pick(tokens, names, location, n - 1);
      if IsOpen(tokens, names, n - 1) && (best.None? || Before(tokens, location, n - 1, best.value)) then Some(n - 1)
      else best
  }

  /** Every open candidate is at or after the picked one, so none is picked only if none is open. */
  lemma {:induction false} PickIsFirst(tokens: seq<Token>, names: set<Signature>, location: nat, n: nat, i: nat)
    requires i < n <= |tokens| && IsOpen(tokens, names, i)
    ensures Pick(tokens, names, location, n).Some?
    ensures var best := Pick(tokens, names, location, n).value;
            best == i || Before(tokens, location, best, i)
  {
    if i < n - 1 {
      PickIsFirst(tokens, names, location, n - 1, i);
    }
  }

  // ---------- the picked candidate is near the error ----------

  /** The error lies in the token. */
  predicate HoldsAt(tokens: seq<Token>, i: nat, l: nat)
    requires i < |tokens|
  {
    tokens[i].start <= l < tokens[i].end
  }

  /** The token is no `AS`, and an `AS` stands directly behind it. */
  predicate IsAliased(tokens: seq<Token>, i: nat)
    requires i < |tokens|
  {
    !tokens[i].kind.As? && i + 1 < |tokens| && tokens[i + 1].kind.As?
  }

  /** The error lies in the token, and if that is an `AS`, another one stands behind it. */
  predicate IsBlamed(tokens: seq<Token>, i: nat, l: nat)
    requires i < |tokens|
  {
    HoldsAt(tokens, i, l) && (tokens[i].kind.As? ==> i + 1 < |tokens| && tokens[i + 1].kind.As?)
  }

  /** The same as i in all three respects, as far as they count. */
  predicate IsAlike(tokens: seq<Token>, i: nat, j: nat, l: nat)
    requires i < |tokens| && j < |tokens|
  {
    && IsBlamed(tokens, i, l) == IsBlamed(tokens, j, l)
    && (!IsBlamed(tokens, i, l) ==>
          && IsAliased(tokens, i) == IsAliased(tokens, j)
          && (!IsAliased(tokens, i) ==> HoldsAt(tokens, i, l) == HoldsAt(tokens, j, l)))
  }

  /** Token a is at least as near to l as token b, and on the same side not behind it. Of two
      tokens as near on both sides, the one in front counts. */
  predicate IsNearer(a: Token, b: Token, l: nat) {
    && (a.end <= l && b.end <= l ==> b.end <= a.end)
    && (l < a.start && l < b.start ==> a.start <= b.start)
    && (a.end <= l < b.start ==> l - a.end <= b.start - l)
    && (b.end <= l < a.start ==> a.start - l < l - b.end)
    && (b.start <= l < b.end ==> a.start <= l <= a.end)
  }

  /** What a retry after an error at l commits: an open candidate that holds the error, if there
      is one; else one in front of an `AS`; and in any case the nearest of its sort. */
  lemma PickIsNear(tokens: seq<Token>, names: set<Signature>, l: nat)
    requires Ordered(tokens) && Pick(tokens, names, l, |tokens|).Some?
    ensures var i := Pick(tokens, names, l, |tokens|).value;
            && IsOpen(tokens, names, i)
            && (forall j: nat :: j < |tokens| && IsOpen(tokens, names, j) && IsBlamed(tokens, j, l) ==>
                  IsBlamed(tokens, i, l))
            && (forall j: nat :: j < |tokens| && IsOpen(tokens, names, j) && IsAliased(tokens, j) ==>
                  IsBlamed(tokens, i, l) || IsAliased(tokens, i))
            && (forall j: nat :: j < |tokens| && IsOpen(tokens, names, j) && HoldsAt(tokens, j, l) ==>
                  IsBlamed(tokens, i, l) || IsAliased(tokens, i) || HoldsAt(tokens, i, l))
            && (forall j: nat :: j < |tokens| && IsOpen(tokens, names, j) && IsAlike(tokens, i, j, l) ==>
                  IsNearer(tokens[i], tokens[j], l))
  {
    var i := Pick(tokens, names, l, |tokens|).value;
    forall j: nat | j < |tokens| && IsOpen(tokens, names, j)
      ensures IsBlamed(tokens, j, l) ==> IsBlamed(tokens, i, l)
      ensures IsAliased(tokens, j) ==> IsBlamed(tokens, i, l) || IsAliased(tokens, i)
      ensures HoldsAt(tokens, j, l) ==> IsBlamed(tokens, i, l) || IsAliased(tokens, i) || HoldsAt(tokens, i, l)
      ensures IsAlike(tokens, i, j, l) ==> IsNearer(tokens[i], tokens[j], l)
    {
      PickIsFirst(tokens, names, l, |tokens|, j);
      BeforeIsNear(tokens, l, i, j);
    }
  }

  lemma BeforeIsNear(tokens: seq<Token>, l: nat, i: nat, j: nat)
    requires Ordered(tokens) && i < |tokens| && j < |tokens| && (i == j || Before(tokens, l, i, j))
    ensures IsBlamed(tokens, j, l) ==> IsBlamed(tokens, i, l)
    ensures IsAliased(tokens, j) ==> IsBlamed(tokens, i, l) || IsAliased(tokens, i)
    ensures HoldsAt(tokens, j, l) ==> IsBlamed(tokens, i, l) || IsAliased(tokens, i) || HoldsAt(tokens, i, l)
    ensures IsAlike(tokens, i, j, l) ==> IsNearer(tokens[i], tokens[j], l)
  {
  }

  // ---------- the retries ----------

  /** A candidate with the given signature. */
  predicate IsPeer(tokens: seq<Token>, signature: Signature, i: nat)
    requires i < |tokens|
  {
    IsContextualNameCandidate(tokens[i].kind) && SignatureAt(tokens, i) == signature
  }

  /** A retry that fails farther along, and not on a token it has just turned into a name. */
  predicate Progresses(tokens: seq<Token>, signature: Signature, location: nat, next: nat) {
    location < next && !LandsOn(tokens, signature, next)
  }

  predicate LandsOn(tokens: seq<Token>, signature: Signature, location: nat) {
    exists i :: 0 <= i < |tokens| && IsPeer(tokens, signature, i) && Touches(tokens[i], location)
  }

  /** Each retry uses up one candidate signature. */
  lemma SignatureSpent(tokens: seq<Token>, names: set<Signature>, i: nat)
    requires i < |tokens| && IsOpen(tokens, names, i)
    ensures |CandidateSignatures(tokens) - (names + {SignatureAt(tokens, i)})| + 1
        == |CandidateSignatures(tokens) - names|
  {
    var rest := CandidateSignatures(tokens) - names;
    assert CandidateSignatures(tokens) - (names + {SignatureAt(tokens, i)}) == rest - {SignatureAt(tokens, i)};
    assert SignatureAt(tokens, i) in rest;
  }

  /** What the parser answers on the reading with the given names. */
  type Trial<V> = set<Signature> -> Outcome<V>

  function TrialOf<V>(tokens: seq<Token>, parse: seq<Token> -> Outcome<V>): Trial<V> {
    names => parse(Reading(tokens, names))
  }

  function PickAny(tokens: seq<Token>, names: set<Signature>, error: Error): (r: Option<nat>)
    ensures r.Some? ==> r.value < |tokens| && IsOpen(tokens, names, r.value)
  {
    Pick(tokens, names, error.Location(), |tokens|)
  }

  /** The sets of names tried after `error` was reported under `names`. */
  function Retries<V>(tokens: seq<Token>, trial: Trial<V>, names: set<Signature>, error: Error): seq<set<Signature>>
    decreases |CandidateSignatures(tokens) - names|
  {
    match PickAny(tokens, names, error)
    case None => []
    case Some(i) =>
      SignatureSpent(tokens, names, i);
      var next := names + {SignatureAt(tokens, i)};
      var outcome := trial(next);
      if outcome.Failed? && Progresses(tokens, SignatureAt(tokens, i), error.Location(), outcome.error.Location())
      then [next] + Retries(tokens, trial, next, outcome.error)
      else [next]
  }

  /** What the loop returns after `error` was reported under `names`. */
  function Settle<V>(tokens: seq<Token>, trial: Trial<V>, names: set<Signature>, error: Error): Outcome<V>
    decreases |CandidateSignatures(tokens) - names|
  {
    match PickAny(tokens, names, error)
    case None => Failed(error)
    case Some(i) =>
      SignatureSpent(tokens, names, i);
      var next := names + {SignatureAt(tokens, i)};
      var outcome := trial(next);
      if outcome.Parsed? then outcome
      else if Progresses(tokens, SignatureAt(tokens, i), error.Location(), outcome.error.Location())
      then Settle(tokens, trial, next, outcome.error)
      else Failed(error)
  }

  /** The sets of names of all parser calls, in order. */
  function Attempts<V>(tokens: seq<Token>, trial: Trial<V>): seq<set<Signature>> {
    var names := ImmediateNames(tokens);
    if trial(names).Parsed? then [names] else [names] + Retries(tokens, trial, names, trial(names).error)
  }

  function Answer<V>(tokens: seq<Token>, trial: Trial<V>): Outcome<V> {
    var names := ImmediateNames(tokens);
    if trial(names).Parsed? then trial(names) else Settle(tokens, trial, names, trial(names).error)
  }

  // ---------- the loop ----------

  /** What the vector `resolved` records. */
  ghost predicate Tracks(tokens: seq<Token>, resolved: seq<bool>, names: set<Signature>) {
    |resolved| == |tokens| && forall i :: 0 <= i < |tokens| ==>
      (resolved[i] <==> IsKeptLiteral(tokens, i) || IsName(tokens, names, i))
  }

  /** The first pass over the tokens. */
  method InitialScan(tokens: seq<Token>) returns (contextual: seq<Token>, resolved: seq<bool>)
    ensures contextual == Reading(tokens, ImmediateNames(tokens))
    ensures Tracks(tokens, resolved, ImmediateNames(tokens))
  {
    contextual := tokens;
    resolved := seq(|tokens|, i => false);
    for index := 0 to |tokens|
      invariant |contextual| == |resolved| == |tokens|
      invariant forall i :: 0 <= i < index ==>
                  contextual[i] == if IsImmediateName(tokens, i) then tokens[i].(kind := Identifier) else tokens[i]
      invariant forall i :: 0 <= i < index ==> (resolved[i] <==> IsKeptLiteral(tokens, i) || IsImmediateName(tokens, i))
      invariant forall i :: index <= i < |tokens| ==> contextual[i] == tokens[i] && !resolved[i]
    {
      var followsNameMarker := FollowsNameMarker(tokens, index);
      if IsAliasedBareExpression(tokens, index) && IsKeywordLiteral(tokens[index].kind) {
        resolved := resolved[index := true];
      } else if && IsContextualNameCandidate(tokens[index].kind)
                && (|| (followsNameMarker && !(tokens[index].kind.As? && tokens[index - 1].kind.As?))
                    || IsSoloProjectionKeyword(tokens, index)
                    || IsAliasedBareExpression(tokens, index)) {
        resolved := resolved[index := true];
        contextual := contextual[index := contextual[index].(kind := Identifier)];
      }
    }
    forall i | 0 <= i < |tokens|
      ensures IsName(tokens, ImmediateNames(tokens), i) <==> IsImmediateName(tokens, i)
    {
      ImmediateBySignature(tokens, i);
    }
  }

  /** A token shares its signature with an immediate name only if it is one itself. */
  lemma ImmediateBySignature(tokens: seq<Token>, i: nat)
    requires i < |tokens|
    ensures IsName(tokens, ImmediateNames(tokens), i) <==> IsImmediateName(tokens, i)
  {
    if SignatureAt(tokens, i) in ImmediateNames(tokens) {
      var j :| 0 <= j < |tokens| && IsImmediateName(tokens, j) && SignatureAt(tokens, j) == SignatureAt(tokens, i);
      ScanReadsSignatures(tokens, i, j);
    }
  }

  /** The minimum of (priority, distance, index) over the unresolved candidates. */
  method Nearest(tokens: seq<Token>, resolved: seq<bool>, location: nat, ghost names: set<Signature>)
    returns (best: Option<nat>)
    requires Tracks(tokens, resolved, names)
    ensures best == Pick(tokens, names, location, |tokens|)
  {
    best := None;
    for index := 0 to |tokens|
      invariant best == Pick(tokens, names, location, index)
    {
      if IsContextualNameCandidate(tokens[index].kind) && !resolved[index] {
        if best.None? || Before(tokens, location, index, best.value) {
          best := Some(index);
        }
      }
    }
  }

  /** The list holds the peers among the first n tokens. */
  ghost predicate Lists(tokens: seq<Token>, reclassified: seq<nat>, signature: Signature, n: nat)
    requires n <= |tokens|
  {
    && (forall k :: 0 <= k < |reclassified| ==> reclassified[k] < n && IsPeer(tokens, signature, reclassified[k]))
    && (forall i: nat :: i < n && IsPeer(tokens, signature, i) ==> i in reclassified)
  }

  /** One more name reads the peers of an open candidate as identifiers and nothing else. */
  lemma NextName(tokens: seq<Token>, names: set<Signature>, index: nat, i: nat)
    requires i < |tokens| && index < |tokens| && IsOpen(tokens, names, index)
    ensures var signature := SignatureAt(tokens, index);
            && IsName(tokens, names + {signature}, i) == (IsPeer(tokens, signature, i) || IsName(tokens, names, i))
            && (IsPeer(tokens, signature, i) ==> !IsName(tokens, names, i) && !IsKeptLiteral(tokens, i))
  {
    if SignatureAt(tokens, i) == SignatureAt(tokens, index) {
      ScanReadsSignatures(tokens, i, index);
    }
  }

  /** Turns every unresolved candidate with the signature at `index` into a name. */
  method Reclassify(tokens: seq<Token>, contextual: seq<Token>, resolved: seq<bool>, index: nat,
                    ghost names: set<Signature>)
    returns (contextual': seq<Token>, resolved': seq<bool>, reclassified: seq<nat>)
    requires Tracks(tokens, resolved, names) && contextual == Reading(tokens, names)
    requires index < |tokens| && IsOpen(tokens, names, index)
    ensures var signature := SignatureAt(tokens, index);
            && contextual' == Reading(tokens, names + {signature})
            && Tracks(tokens, resolved', names + {signature})
            && Lists(tokens, reclassified, signature, |tokens|)
  {
    forall i: nat | i < |tokens| ensures IsPeer(tokens, SignatureAt(tokens, index), i) ==> !resolved[i] {
      NextName(tokens, names, index, i);
    }
    contextual', resolved', reclassified := ReclassifyPeers(tokens, contextual, resolved, SignatureAt(tokens, index));
    forall i: nat | i < |tokens|
      ensures Agrees(tokens, contextual', resolved', names + {SignatureAt(tokens, index)}, i)
    {
      NextName(tokens, names, index, i);
    }
  }

  /** Position i of the two vectors agrees with the reading. */
  ghost predicate Agrees(tokens: seq<Token>, contextual: seq<Token>, resolved: seq<bool>, names: set<Signature>, i: nat)
    requires i < |tokens| == |contextual| == |resolved|
  {
    && contextual[i] == (if IsName(tokens, names, i) then tokens[i].(kind := Identifier) else tokens[i])
    && (resolved[i] <==> IsKeptLiteral(tokens, i) || IsName(tokens, names, i))
  }

  method ReclassifyPeers(tokens: seq<Token>, contextual: seq<Token>, resolved: seq<bool>, signature: Signature)
    returns (contextual': seq<Token>, resolved': seq<bool>, reclassified: seq<nat>)
    requires |tokens| == |contextual| == |resolved|
    requires forall i: nat :: i < |tokens| && IsPeer(tokens, signature, i) ==> !resolved[i]
    ensures |contextual'| == |resolved'| == |tokens|
    ensures forall i: nat :: i < |tokens| ==>
              && contextual'[i]
                  == (if IsPeer(tokens, signature, i) then contextual[i].(kind := Identifier) else contextual[i])
              && resolved'[i] == (resolved[i] || IsPeer(tokens, signature, i))
    ensures Lists(tokens, reclassified, signature, |tokens|)
  {
    contextual', resolved', reclassified := contextual, resolved, [];
    for peer := 0 to |tokens|
      invariant |contextual'| == |resolved'| == |tokens|
      invariant forall i: nat :: i < |tokens| ==>
                  && contextual'[i] == (if i < peer && IsPeer(tokens, signature, i)
                      then contextual[i].(kind := Identifier) else contextual[i])
                  && resolved'[i] == (resolved[i] || (i < peer && IsPeer(tokens, signature, i)))
      invariant Lists(tokens, reclassified, signature, peer)
    {
      if !resolved'[peer] && IsContextualNameCandidate(tokens[peer].kind) && SignatureAt(tokens, peer) == signature {
        resolved' := resolved'[peer := true];
        contextual' := contextual'[peer := contextual'[peer].(kind := Identifier)];
        reclassified := reclassified + [peer];
      }
    }
  }

  /** Whether the location falls inside one of the listed tokens. */
  method LandsOnReclassified(tokens: seq<Token>, reclassified: seq<nat>, location: nat, ghost signature: Signature)
    returns (lands: bool)
    requires Lists(tokens, reclassified, signature, |tokens|)
    ensures lands == LandsOn(tokens, signature, location)
  {
    lands := false;
    for k := 0 to |reclassified|
      invariant !lands
      invariant forall j :: 0 <= j < k ==> !Touches(tokens[reclassified[j]], location)
    {
      if Touches(tokens[reclassified[k]], location) {
        return true;
      }
    }
    forall i: nat | i < |tokens| && IsPeer(tokens, signature, i)
      ensures !Touches(tokens[i], location)
    {
      assert i in reclassified;
    }
  }

  /** `parse_tokens_with_contextual_names`. `calls` lists the streams given to the parser. */
  method ParseTokensWithContextualNames<V>(tokens: seq<Token>, parse: seq<Token> -> Outcome<V>)
    returns (result: Outcome<V>, ghost calls: seq<seq<Token>>)
    ensures result == Answer(tokens, TrialOf(tokens, parse))
    ensures calls == Readings(tokens, Attempts(tokens, TrialOf(tokens, parse)))
  {
    var contextual, resolved := InitialScan(tokens);
    ghost var trial := TrialOf(tokens, parse);
    ghost var names, tried := ImmediateNames(tokens), [ImmediateNames(tokens)];
    calls := [contextual];
    var first := parse(contextual);
    if first.Parsed? {
      return first, calls;
    }
    result, calls := RetryNames(tokens, parse, contextual, resolved, first.error, names, trial);
    calls := [contextual] + calls;
    ReadingsCons(tokens, names, Retries(tokens, trial, names, first.error));
  }

  function Readings(tokens: seq<Token>, tried: seq<set<Signature>>): (r: seq<seq<Token>>)
    ensures |r| == |tried| && forall k :: 0 <= k < |r| ==> r[k] == Reading(tokens, tried[k])
  {
    seq(|tried|, k requires 0 <= k < |tried| => Reading(tokens, tried[k]))
  }

  lemma ReadingsCons(tokens: seq<Token>, names: set<Signature>, rest: seq<set<Signature>>)
    ensures Readings(tokens, [names] + rest) == [Reading(tokens, names)] + Readings(tokens, rest)
  {
  }

  lemma ReadingsAppend(tokens: seq<Token>, tried: seq<set<Signature>>, names: set<Signature>)
    ensures Readings(tokens, tried + [names]) == Readings(tokens, tried) + [Reading(tokens, names)]
  {
  }

  /** The vectors show the reading under `names`, and what is left of the run completes it. */
  ghost predicate Pending(tokens: seq<Token>, contextual: seq<Token>, resolved: seq<bool>, run: Retrying) {
    Tracks(tokens, resolved, run.names) && contextual == Reading(tokens, run.names)
  }

  /** The loop's ghost state: the names now, the attempts made and the last error. */
  datatype Retrying = Retrying(names: set<Signature>, tried: seq<set<Signature>>, error: Error)

  /** The whole run that a state belongs to. */
  ghost function Outlook<V>(tokens: seq<Token>, trial: Trial<V>, run: Retrying): (Outcome<V>, seq<set<Signature>>) {
    (Settle(tokens, trial, run.names, run.error), run.tried + Retries(tokens, trial, run.names, run.error))
  }

  /** How one retry unfolds the rest of the run. */
  lemma OutlookStep<V>(tokens: seq<Token>, trial: Trial<V>, run: Retrying, i: nat)
    requires PickAny(tokens, run.names, run.error) == Some(i)
    ensures i < |tokens| && IsOpen(tokens, run.names, i)
    ensures |CandidateSignatures(tokens) - (run.names + {SignatureAt(tokens, i)})|
          < |CandidateSignatures(tokens) - run.names|
    ensures var next := run.names + {SignatureAt(tokens, i)};
            var outcome := trial(next);
            Outlook(tokens, trial, run)
            == if outcome.Parsed? then (outcome, run.tried + [next])
               else if Progresses(tokens, SignatureAt(tokens, i), run.error.Location(), outcome.error.Location())
               then Outlook(tokens, trial, Retrying(next, run.tried + [next], outcome.error))
               else (Failed(run.error), run.tried + [next])
  {
    SignatureSpent(tokens, run.names, i);
    var next := run.names + {SignatureAt(tokens, i)};
    var outcome := trial(next);
    if outcome.Failed? {
      var rest := Retries(tokens, trial, next, outcome.error);
      assert run.tried + ([next] + rest) == (run.tried + [next]) + rest;
    }
  }

  /** The retry loop. */
  method RetryNames<V>(tokens: seq<Token>, parse: seq<Token> -> Outcome<V>, contextual0: seq<Token>,
                       resolved0: seq<bool>, initialError: Error, ghost names0: set<Signature>, ghost trial: Trial<V>)
    returns (result: Outcome<V>, ghost calls: seq<seq<Token>>)
    requires Tracks(tokens, resolved0, names0) && contextual0 == Reading(tokens, names0)
    requires trial == TrialOf(tokens, parse)
    ensures result == Settle(tokens, trial, names0, initialError)
    ensures calls == Readings(tokens, Retries(tokens, trial, names0, initialError))
  {
    var contextual, resolved := contextual0, resolved0;
    var bestError, error := initialError, initialError;
    ghost var run: Retrying := Retrying(names0, [], initialError);
    ghost var outlook := Outlook(tokens, trial, run);
    assert outlook.1 == Retries(tokens, trial, names0, initialError);
    calls := [];
    while true
      invariant Pending(tokens, contextual, resolved, run) && error == run.error
      invariant bestError.Location() <= error.Location()
      invariant outlook == Outlook(tokens, trial, run)
      invariant calls == Readings(tokens, run.tried)
      decreases |CandidateSignatures(tokens) - run.names|
    {
      if error.Location() >= bestError.Location() {
        bestError := error;
      }
      var candidate := Nearest(tokens, resolved, error.Location(), run.names);
      if candidate.None? {
        break;
      }
      OutlookStep(tokens, trial, run, candidate.value);
      var outcome, progresses;
      ghost var next;
      contextual, resolved, outcome, progresses, next :=
        RetryOnce(tokens, parse, contextual, resolved, candidate.value, error.Location(), run, trial);
      ReadingsAppend(tokens, run.tried, next);
      calls := calls + [contextual];
      if outcome.Parsed? {
        return outcome, calls;
      }
      if !progresses {
        return Failed(bestError), calls;
      }
      error := outcome.error;
      run := Retrying(next, run.tried + [next], error);
    }
    result := Failed(bestError);
  }

  /** Commits the signature at `index` and parses again. */
  method RetryOnce<V>(tokens: seq<Token>, parse: seq<Token> -> Outcome<V>, contextual: seq<Token>, resolved: seq<bool>,
                      index: nat, location: nat, ghost run: Retrying, ghost trial: Trial<V>)
    returns (contextual': seq<Token>, resolved': seq<bool>, outcome: Outcome<V>, progresses: bool,
        ghost next: set<Signature>)
    requires Pending(tokens, contextual, resolved, run) && trial == TrialOf(tokens, parse)
    requires index < |tokens| && IsOpen(tokens, run.names, index)
    ensures next == run.names + {SignatureAt(tokens, index)}
    ensures Pending(tokens, contextual', resolved', run.(names := next))
    ensures outcome == trial(next)
    ensures outcome.Failed? ==>
        progresses == Progresses(tokens, SignatureAt(tokens, index), location, outcome.error.Location())
  {
    var reclassified;
    contextual', resolved', reclassified := Reclassify(tokens, contextual, resolved, index, run.names);
    next := run.names + {SignatureAt(tokens, index)};
    outcome := parse(contextual');
    progresses := false;
    if outcome.Failed? {
      var lands := LandsOnReclassified(tokens, reclassified, outcome.error.Location(), SignatureAt(tokens, index));
      progresses := outcome.error.Location() > location && !lands;
    }
  }

  // ---------- what the loop guarantees ----------

  /** `next` adds to `names` the signature of candidate i, the first open one after `error`. */
  ghost predicate Commits(tokens: seq<Token>, error: Error, names: set<Signature>, next: set<Signature>, i: nat) {
    && i < |tokens| && IsOpen(tokens, names, i) && next == names + {SignatureAt(tokens, i)}
    && forall j: nat :: j < |tokens| && IsOpen(tokens, names, j) ==> i == j || Before(tokens, error.Location(), i, j)
  }

  /** The trial under `names` failed and led to the one under `next`. */
  ghost predicate LeadsTo<V>(tokens: seq<Token>, trial: Trial<V>, names: set<Signature>, next: set<Signature>) {
    trial(names).Failed? && exists i :: Commits(tokens, trial(names).error, names, next, i)
  }

  /** The trial with these names fails before the location. */
  ghost predicate FailsBefore<V>(trial: Trial<V>, names: set<Signature>, location: nat) {
    trial(names).Failed? && trial(names).error.Location() < location
  }

  /** Every attempt but the last failed and led to the next one, past every earlier failure. */
  ghost predicate Climbs<V>(tokens: seq<Token>, trial: Trial<V>, tried: seq<set<Signature>>) {
    && (forall j, k :: 0 <= j && k == j + 1 && k < |tried| ==> LeadsTo(tokens, trial, tried[j], tried[k]))
    && (forall j, k :: 0 <= j < k < |tried| - 1 ==>
          trial(tried[k]).Failed? && FailsBefore(trial, tried[j], trial(tried[k]).error.Location()))
  }

  ghost predicate IsExhausted(tokens: seq<Token>, names: set<Signature>) {
    forall i: nat :: i < |tokens| ==> !IsOpen(tokens, names, i)
  }

  /** The answer is that of the last attempt, unless that failed without progress: then the one before.
      After a failure with progress nothing was left to try. */
  ghost predicate Reports<V>(tokens: seq<Token>, trial: Trial<V>, tried: seq<set<Signature>>, answer: Outcome<V>) {
    && |tried| > 0
    && if trial(tried[|tried| - 1]).Parsed? then answer == trial(tried[|tried| - 1])
       else if |tried| == 1 then answer == trial(tried[0]) && IsExhausted(tokens, tried[0])
       else ReportsFailure(tokens, trial, tried[|tried| - 2], tried[|tried| - 1], answer)
  }

  ghost predicate ReportsFailure<V>(tokens: seq<Token>, trial: Trial<V>, names: set<Signature>, next: set<Signature>,
                                    answer: Outcome<V>)
  {
    && trial(names).Failed? && trial(next).Failed?
    && exists i :: Commits(tokens, trial(names).error, names, next, i)
         && if Progresses(tokens, SignatureAt(tokens, i), trial(names).error.Location(), trial(next).error.Location())
            then answer == trial(next) && IsExhausted(tokens, next)
            else answer == trial(names)
  }

  /** What the pick commits. */
  lemma PickCommits(tokens: seq<Token>, names: set<Signature>, error: Error)
    ensures var pick := PickAny(tokens, names, error);
            if pick.None? then IsExhausted(tokens, names)
            else Commits(tokens, error, names, names + {SignatureAt(tokens, pick.value)}, pick.value)
  {
    forall j: nat | j < |tokens| && IsOpen(tokens, names, j)
      ensures var pick := PickAny(tokens, names, error);
              pick.Some? && (pick.value == j || Before(tokens, error.Location(), pick.value, j))
    {
      PickIsFirst(tokens, names, error.Location(), |tokens|, j);
    }
  }

  lemma {:induction false} RetriesClimb<V>(tokens: seq<Token>, trial: Trial<V>, names: set<Signature>, error: Error)
    requires trial(names) == Failed(error)
    ensures var tried := [names] + Retries(tokens, trial, names, error);
            && |tried| <= 1 + |CandidateSignatures(tokens) - names|
            && Reports(tokens, trial, tried, Settle(tokens, trial, names, error))
            && Climbs(tokens, trial, tried)
    decreases |CandidateSignatures(tokens) - names|
  {
    var pick := PickAny(tokens, names, error);
    PickCommits(tokens, names, error);
    if pick.Some? {
      SignatureSpent(tokens, names, pick.value);
      var next := names + {SignatureAt(tokens, pick.value)};
      var outcome := trial(next);
      var climbs := outcome.Failed?
                    && Progresses(tokens, SignatureAt(tokens, pick.value), error.Location(), outcome.error.Location());
      if climbs {
        RetriesClimb(tokens, trial, next, outcome.error);
        PickCommits(tokens, next, outcome.error);
        var tail := [next] + Retries(tokens, trial, next, outcome.error);
        ClimbsOn(tokens, trial, names, tail);
        ReportsOn(tokens, trial, names, tail, Settle(tokens, trial, next, outcome.error));
      }
    }
  }

  /** Putting one more failed attempt in front keeps the climb. */
  lemma ClimbsOn<V>(tokens: seq<Token>, trial: Trial<V>, names: set<Signature>, tail: seq<set<Signature>>)
    requires tail != [] && Climbs(tokens, trial, tail) && LeadsTo(tokens, trial, names, tail[0])
    requires trial(tail[0]).Failed? && FailsBefore(trial, names, trial(tail[0]).error.Location())
    ensures Climbs(tokens, trial, [names] + tail)
  {
    var tried := [names] + tail;
    assert forall k :: 1 <= k < |tried| ==> tried[k] == tail[k - 1];
    forall j, k | 0 <= j && k == j + 1 && k < |tried|
      ensures LeadsTo(tokens, trial, tried[j], tried[k])
    {
      assert j > 0 ==> LeadsTo(tokens, trial, tail[j - 1], tail[k - 1]);
    }
    forall j, k | 0 <= j < k < |tried| - 1
      ensures trial(tried[k]).Failed? && FailsBefore(trial, tried[j], trial(tried[k]).error.Location())
    {
      if j > 0 {
        assert FailsBefore(trial, tail[j - 1], trial(tail[k - 1]).error.Location());
      } else if k > 1 {
        assert FailsBefore(trial, tail[0], trial(tail[k - 1]).error.Location());
      }
    }
  }

  /** Progress past one more failed attempt keeps the report. */
  lemma ReportsOn<V>(tokens: seq<Token>, trial: Trial<V>, names: set<Signature>, tail: seq<set<Signature>>,
                     answer: Outcome<V>)
    requires tail != [] && Reports(tokens, trial, tail, answer) && LeadsTo(tokens, trial, names, tail[0])
        && trial(tail[0]).Failed?
    requires exists i :: Commits(tokens, trial(names).error, names, tail[0], i)
               && Progresses(tokens, SignatureAt(tokens, i), trial(names).error.Location(),
                   trial(tail[0]).error.Location())
    ensures Reports(tokens, trial, [names] + tail, answer)
  {
    var tried := [names] + tail;
    assert tried[|tried| - 1] == tail[|tail| - 1];
    assert |tail| > 1 ==> tried[|tried| - 2] == tail[|tail| - 2];
  }

  /** However the parser behaves, each retry commits the first open candidate's signature and all
      its peers, fails farther along, and the number of calls is bounded by the signatures. */
  lemma AttemptsClimb<V>(tokens: seq<Token>, trial: Trial<V>)
    ensures var tried := Attempts(tokens, trial);
            && tried != [] && tried[0] == ImmediateNames(tokens)
            && |tried| <= 1 + |CandidateSignatures(tokens) - ImmediateNames(tokens)|
            && Reports(tokens, trial, tried, Answer(tokens, trial))
            && Climbs(tokens, trial, tried)
  {
    var names := ImmediateNames(tokens);
    if trial(names).Failed? {
      RetriesClimb(tokens, trial, names, trial(names).error);
    }
  }

  // ---------- what the parser is given ----------

  /** No signature of a kept literal is a name. */
  ghost predicate KeepsLiterals(tokens: seq<Token>, names: set<Signature>) {
    forall i: nat :: i < |tokens| && IsKeptLiteral(tokens, i) ==> SignatureAt(tokens, i) !in names
  }

  lemma {:induction false} AttemptsKeepLiterals<V>(tokens: seq<Token>, trial: Trial<V>, tried: seq<set<Signature>>,
                                                   k: nat)
    requires k < |tried| && tried[0] == ImmediateNames(tokens) && Climbs(tokens, trial, tried)
    ensures KeepsLiterals(tokens, tried[k])
  {
    if k == 0 {
      forall i: nat | i < |tokens| && IsKeptLiteral(tokens, i)
        ensures SignatureAt(tokens, i) !in tried[0]
      {
        ImmediateBySignature(tokens, i);
        assert IsContextualNameCandidate(tokens[i].kind);
      }
    } else {
      AttemptsKeepLiterals(tokens, trial, tried, k - 1);
      assert LeadsTo(tokens, trial, tried[k - 1], tried[k]);
      CommitKeepsLiterals(tokens, trial, tried[k - 1], tried[k]);
    }
  }

  lemma CommitKeepsLiterals<V>(tokens: seq<Token>, trial: Trial<V>, names: set<Signature>, next: set<Signature>)
    requires KeepsLiterals(tokens, names) && LeadsTo(tokens, trial, names, next)
    ensures KeepsLiterals(tokens, next)
  {
    var c :| Commits(tokens, trial(names).error, names, next, c);
    forall i: nat | i < |tokens| && IsKeptLiteral(tokens, i)
      ensures SignatureAt(tokens, i) !in next
    {
      if SignatureAt(tokens, i) == SignatureAt(tokens, c) {
        ScanReadsSignatures(tokens, i, c);
      }
    }
  }

  /** A reading differs from the tokens only where a candidate has become an identifier. */
  ghost predicate IsReadingOf(tokens: seq<Token>, stream: seq<Token>) {
    && |stream| == |tokens|
    && (forall i: nat :: i < |tokens| ==> stream[i].start == tokens[i].start && stream[i].end == tokens[i].end)
    && (forall i: nat :: i < |tokens| && stream[i].kind != tokens[i].kind ==>
          stream[i].kind.Identifier? && IsContextualNameCandidate(tokens[i].kind) && !IsKeptLiteral(tokens, i))
    && (forall i: nat, j: nat :: i < |tokens| && j < |tokens| && SignatureAt(tokens, i) == SignatureAt(tokens, j) ==>
          stream[i].kind == stream[j].kind)
  }

  lemma ReadingKeeps(tokens: seq<Token>, names: set<Signature>)
    requires KeepsLiterals(tokens, names)
    ensures IsReadingOf(tokens, Reading(tokens, names))
    ensures Ordered(tokens) ==> Ordered(Reading(tokens, names))
  {
  }

  /** Every stream given to the parser keeps the spans and the aliased literals, changes only
      candidate keywords, and reads tokens with the same signature alike. */
  lemma EveryCallIsAReading<V>(tokens: seq<Token>, parse: seq<Token> -> Outcome<V>, k: nat)
    requires k < |Attempts(tokens, TrialOf(tokens, parse))|
    ensures var stream := Readings(tokens, Attempts(tokens, TrialOf(tokens, parse)))[k];
            IsReadingOf(tokens, stream) && (Ordered(tokens) ==> Ordered(stream))
  {
    var trial := TrialOf(tokens, parse);
    AttemptsClimb(tokens, trial);
    AttemptsKeepLiterals(tokens, trial, Attempts(tokens, trial), k);
    ReadingKeeps(tokens, Attempts(tokens, trial)[k]);
  }

  /** An accepted stream is the reading of the last attempt. */
  lemma AcceptedOnLastAttempt<V>(tokens: seq<Token>, parse: seq<Token> -> Outcome<V>)
    ensures var tried := Attempts(tokens, TrialOf(tokens, parse));
            && tried != []
            && (Answer(tokens, TrialOf(tokens, parse)).Parsed?
                <==> parse(Reading(tokens, tried[|tried| - 1])).Parsed?)
            && (Answer(tokens, TrialOf(tokens, parse)).Parsed?
                ==> Answer(tokens, TrialOf(tokens, parse)) == parse(Reading(tokens, tried[|tried| - 1])))
  {
    AttemptsClimb(tokens, TrialOf(tokens, parse));
  }

  // ---------- the rules on token kinds ----------

  function KindBefore(tokens: seq<Token>, i: nat): Option<Kind>
    requires i < |tokens|
  {
    if i == 0 then None else Some(tokens[i - 1].kind)
  }

  function KindBehind(tokens: seq<Token>, i: nat): Option<Kind>
    requires i < |tokens|
  {
    if i == |tokens| - 1 then None else Some(tokens[i + 1].kind)
  }

  /** The candidates that are names at once: behind `AS` or `.`, but for an `AS` behind `AS`; a
      projection item of one word in front of `AS`, but for a literal; and a quantifier that is
      the whole projection item. */
  lemma ImmediateIff(tokens: seq<Token>, i: nat)
    requires i < |tokens|
    ensures var before, self, behind := KindBefore(tokens, i), tokens[i].kind, KindBehind(tokens, i);
            var isItem := before in {Some(Return), Some(With), Some(Yield), Some(Comma)} && behind == Some(As);
            var isLiteral := self in {False, Inf, Infinity, Nan, Null, True};
            IsImmediateName(tokens, i)
            <==> && IsContextualNameCandidate(self) && !(isItem && isLiteral)
                 && (|| before == Some(Dot)
                     || (before == Some(As) && self != As)
                     || isItem
                     || (&& self in {SetAll, Distinct} && before in {Some(Return), Some(With)}
                         && (|| behind.None? || ClauseStarts(behind.value)
                             || behind.value in {As, Comma, Order, Offset, Skip, Limit, Where, Union, Semicolon})))
  {
    MarkerIff(tokens, i);
    ItemIff(tokens, i);
    SoloIff(tokens, i);
  }

  lemma MarkerIff(tokens: seq<Token>, i: nat)
    requires i < |tokens|
    ensures FollowsNameMarker(tokens, i) && !(tokens[i].kind.As? && tokens[i - 1].kind.As?)
       <==> || KindBefore(tokens, i) == Some(Dot)
            || (KindBefore(tokens, i) == Some(As) && tokens[i].kind != As)
  {
  }

  lemma ItemIff(tokens: seq<Token>, i: nat)
    requires i < |tokens|
    ensures IsAliasedBareExpression(tokens, i)
       <==> && KindBefore(tokens, i) in {Some(Return), Some(With), Some(Yield), Some(Comma)}
            && KindBehind(tokens, i) == Some(As)
    ensures IsKeptLiteral(tokens, i)
       <==> IsAliasedBareExpression(tokens, i) && tokens[i].kind in {False, Inf, Infinity, Nan, Null, True}
  {
  }

  lemma SoloIff(tokens: seq<Token>, i: nat)
    requires i < |tokens|
    ensures IsSoloProjectionKeyword(tokens, i)
       <==> && tokens[i].kind in {SetAll, Distinct}
            && KindBefore(tokens, i) in {Some(Return), Some(With)}
            && (|| KindBehind(tokens, i).None? || ClauseStarts(KindBehind(tokens, i).value)
                || KindBehind(tokens, i).value in {As, Comma, Order, Offset, Skip, Limit, Where, Union, Semicolon})
  {
    if i + 1 < |tokens| {
      EndsItemIff(tokens[i + 1].kind);
    }
  }

  lemma EndsItemIff(kind: Kind)
    ensures EndsProjectionItem(kind)
       <==> ClauseStarts(kind) || kind in {As, Comma, Order, Offset, Skip, Limit, Where, Union, Semicolon}
  {
  }

  /** A further retry follows exactly if the last one failed farther along, and in none of the
      candidates it committed: those of the same kind between the same neighbours. */
  lemma ProgressIff(tokens: seq<Token>, c: nat, l: nat, next: nat)
    requires c < |tokens|
    ensures Progresses(tokens, SignatureAt(tokens, c), l, next)
       <==> && l < next
            && forall i: nat :: i < |tokens| && IsCommittedWith(tokens, c, i) ==> !HoldsAt(tokens, i, next)
  {
    forall i: nat | i < |tokens|
      ensures IsCommittedWith(tokens, c, i) <==> IsPeer(tokens, SignatureAt(tokens, c), i)
    {
    }
  }

  predicate IsCommittedWith(tokens: seq<Token>, c: nat, i: nat)
    requires c < |tokens| && i < |tokens|
  {
    && IsContextualNameCandidate(tokens[i].kind) && tokens[i].kind == tokens[c].kind
    && KindBefore(tokens, i) == KindBefore(tokens, c) && KindBehind(tokens, i) == KindBehind(tokens, c)
  }
}
