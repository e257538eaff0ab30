# Verification of the openCypher parser

A Dafny model of the hand-written parts of an openCypher 2024.3 parser: the strict query
search, the recovery of broken queries, the retry loop for contextual names, token folding,
label and bracket scanning, quoted literals, the script splitter, the alias checks of the
grammar catalog, and the folds of the expression levels. `dafny verify dfyconfig.toml`
checks it.

Each loop of the source is a method with the same branches, proved equal to a function, and
the theorems are about the function. Where a Rust slice `&tokens[lo..hi]` is passed on, the
model passes a window `lo..hi` of one token list.

| file | what it models |
|---|---|
| `Tokens.dfy` | tokens, spans, parse errors |
| `LrMachine.dfy`, `LrRuns.dfy`, `LrContract.dfy` | the generated LR driver over abstract tables, with the identifier fallback; prefix determinism; what a rejection rules out |
| `StrictQuery.dfy`, `StrictTheorems.dfy`, `StrictParser.dfy`, `StrictTree.dfy` | the search for clauses and UNION branches, its early exits, the parser as it runs, and the tree it returns |
| `UnionChain.dfy`, `MiniGrammar.dfy` | the cost of malformed UNION chains; a small grammar that meets all hypotheses |
| `RecoveryMachine.dfy`, `Recovery.dfy`, `RecoveryOutput.dfy`, `RecoveryResync.dfy`, `OperandRepair.dfy` | the recovery loop on indices, its trials, its output on offsets, where it starts again, and operand insertion |
| `ContextualNames.dfy` | keywords read as identifiers, one signature at a time |
| `Labels.dfy`, `Delimiters.dfy`, `Folding.dfy`, `FoldedSyntax.dfy`, `FoldedComprehensions.dfy`, `FoldedRuns.dfy` | scanners and folding; what the scanners find, against partner brackets; what each emitted token is |
| `Quoting.dfy`, `ScriptSplit.dfy`, `ScriptLines.dfy` | literals, comments, scripts, and the lines of statements |
| `AliasGraph.dfy` | production aliases |
| `ExpressionFold.dfy` | binary expressions |

## What is assumed

- The LR tables are abstract. `LrMachine.WellFormed` asks that every terminal index is below
  the marker bit and that the identifier terminal is declared.
- `LrContract.FragmentTables` asks what the grammar shows at `grammar/cypher.lalrpop:591-595`,
  `:792`, `:936` and `:1158`: a production whose action can raise a nested token error has one
  fragment terminal as its right-hand side; after shifting that terminal, nothing but its
  reduction is possible; its action does not depend on the lookahead; and the raised token
  lies inside the fragment.
- `LrContract.UniformTables` asks that behind a fragment terminal the table does before each
  of the twelve clause keywords what it does at the end of input. In the ClauseRoot parser of
  `src/generated/cypher.rs` each fragment terminal leads to one state, and the action table
  at `:142` and the end-of-input table at `:1541` agree there: state 323 (pattern
  comprehension) reduces by production 369, state 324 (pattern expression) by 370, state 384
  (label predicate) by 91, and state 439 (relationship label expression) has no entry, for an
  identifier neither. Tables that rejected a clause keyword in such a state would let the
  exhaustive search report another error than the early return.
- `LrContract.ErrorsInside` asks that errors raised by actions lie within the
  symbols they reduce, as for the user errors of `src/parser.rs:2011-2032`.
- `LrRuns.Drives` says that a clause parser returns what its driver stops with. Termination
  of the generated driver is part of this hypothesis, and is proved for the small grammar of
  `MiniGrammar.dfy`, which also meets the other hypotheses (`MiniGrammar.MiniParser`).
- Recovery takes the clause parser as an arbitrary deterministic function, so the results
  hold for the contextual-name loop around the generated parser.
- Token streams folded from source have non-empty, ordered, disjoint spans;
  `Folding.FoldedFromSource` proves this from the same fact about lexer tokens.

## Where code and documentation differ

- The splitter of `xtask/src/tck.rs` knows no escapes in backtick identifiers, and the lexer
  does. The two agree on a region exactly when it has no escaped backtick
  (`ScriptSplit.BackticksAgreeIff`).
- The splitter reports for each statement the line of the semicolon in front of it. The
  update at `xtask/src/tck.rs:1380-1382`, for a line break directly behind a semicolon, never
  runs, because the start of a statement is never ahead of the loop index; and a line break
  behind a backslash in a string is not counted. `ScriptLines.ReportedLine` says exactly when
  the reported line is the one on which the statement begins, and
  `ScriptLines.SecondLineIsLate` is a script for which it is not.
- In `src/parser.rs:172-174` the comparison with the best error never fails: progress already
  makes every later error lie farther.

## Model

| member | source | states |
|---|---|---|
| `LrMachine.MarkerDecodes` | xtask/src/grammar.rs:28-67 | setting the high bit of a 64-bit terminal index can be undone: the marked index decodes to the original, and so does an unmarked one |
| `LrMachine.FallbackOnlyOnError` | xtask/src/grammar.rs:41-55 | in every state the patched decision is the native one, unless the native action is an error and the token is a contextual keyword, and then it is the decision for an identifier |
| `LrMachine.ConservativeStep` | xtask/src/grammar.rs:41-67 | where the native driver finds a table entry, the patched driver does the same step |
| `LrMachine.StepDetermined` | src/parser.rs:452-456 | a driver step looks at no token but its lookahead |
| `LrMachine.StepAdvances` | src/parser.rs:452-456 | a step shifts at most one token, and a driver stop at a token is the rejection of exactly that token |
| `LrRuns.PrefixDetermined` | src/parser.rs:452-456 | a configuration waiting at lookahead i is reached on every stream with the same tokens 0..i |
| `LrRuns.StopDetermined` | src/parser.rs:452-456 | a stop at lookahead i, with its outcome, repeats on every stream with the same tokens 0..i |
| `LrRuns.ShiftDetermined` | src/parser.rs:452-456 | a configuration reached by shifting token i does not depend on any later token |
| `LrRuns.Conservative` | xtask/src/grammar.rs:41-67 | over whole runs, the native and the patched driver are in the same configuration until the native one misses a table entry |
| `LrRuns.NativeAcceptanceKept` | xtask/src/grammar.rs:41-67 | every stream the native tables accept is accepted under the identifier fallback, with the same value |
| `LrRuns.OutcomeIsUnique` | src/parser.rs:452-456 | a parser driven by a machine returns what the machine stops with |
| `LrContract.DriverRejection` | src/parser.rs:453-456 | a rejection by the driver at lookahead i is the same error on every stream that keeps tokens 0..i |
| `LrContract.FragmentRejection` | grammar/cypher.lalrpop:591-595 | when the action of a fragment terminal raises a nested token error, every stream that keeps the tokens up to that terminal is rejected, whatever stands behind it; before a clause keyword with the same error, as `LrContract.ErrorRepeats` says |
| `LrContract.DoomedShift` | grammar/cypher.lalrpop:936 | a configuration that has shifted a fragment whose check fails parses under no continuation |
| `LrContract.DrivenBlamesPrefix` | src/parser.rs:453-456 | a token error of a driven parser blames a token that starts no later than the reported one, and no stream that keeps the tokens up to it parses |
| `LrContract.DrivenParserBlamesPrefix` | src/parser.rs:453-456 | the prefix contract of the strict search holds of every parser that the patched tables drive |
| `LrContract.DrivenParserErrorsWithinInput` | src/parser.rs:488-496 | no error of a parser that the patched tables drive, other than a rejected token, lies behind the last token of its input |
| `LrContract.ErrorRepeats` | src/parser.rs:453-456 | a token error, whether the driver or a nested fragment raises it, is repeated, the very same, by every stream that goes on with a clause keyword |
| `LrContract.ErrorMovesOn` | src/parser.rs:453-463 | a token error that the stream in front of a clause keyword does not have lies at that keyword or behind it |
| `LrContract.DrivenParserRepeatsErrors` | src/parser.rs:453-463 | both hold of every parser that the patched tables drive |
| `StrictQuery.TopLevel` | src/parser.rs:498-519 | the reported indices are, in ascending order, exactly the wanted tokens at bracket depth zero |
| `StrictQuery.TopLevelIndices` | src/parser.rs:498-519 | the loop with a saturating depth counter computes that list |
| `StrictTheorems.BlamedToken` | src/parser.rs:453-456 | a token error at one candidate end dooms every candidate end beyond the token it blames |
| `StrictTheorems.SameClause` | src/parser.rs:431-466 | at one cursor, returning at the first token error finds the same clause and end as trying every boundary, and stops exactly when that does |
| `StrictTheorems.SameClauses` | src/parser.rs:417-476 | `parse_single_query` with the early return accepts exactly the windows that the exhaustive version accepts, with the same clauses |
| `StrictTheorems.SameStop` | src/parser.rs:452-466 | at one cursor, the early return stops with the error of the exhaustive search: later candidates repeat a token error, and no retained error lies farther |
| `StrictTheorems.SameError` | src/parser.rs:417-486 | so the whole result of `parse_single_query` is the one without the early return, clauses or error |
| `StrictTheorems.DrivenSameError` | src/parser.rs:417-486 | the same, on every window, for every clause parser that the patched tables drive, with no assumption on the parser itself |
| `StrictTheorems.WindowBlames` | src/parser.rs:371-382 | a window whose strict parse ends in a token error blames a token, and every shorter window that keeps it is rejected |
| `StrictTheorems.LaterSplitsFail` | src/parser.rs:371-382 | every head that ends at a UNION behind the reported token is rejected, also when the token lies inside a folded fragment |
| `StrictTheorems.UnionBreakIsExact` | src/parser.rs:361-415 | `parse_regular_query` with the UNION break returns the same tree or the same error as without it |
| `StrictTheorems.PrunedRefinesExhaustive` | src/parser.rs:361-486 | with both early exits the search returns exactly what the exhaustive search returns: the same tree, or the same error |
| `StrictTheorems.DrivenSearchRefinesExhaustive` | src/parser.rs:361-486 | the same for every clause parser that the patched LR tables drive, with no assumption on the parser itself |
| `StrictParser.ParseSingleQuery` | src/parser.rs:417-476 | the loop over cursors returns what the specification of the pruned search says, and counts its parser calls |
| `StrictParser.ParseClause` | src/parser.rs:431-466 | the loop over candidate ends at one cursor does the same |
| `StrictParser.ParseRegularQuery` | src/parser.rs:361-415 | the recursive search returns what the specification says, and counts its parser calls |
| `StrictParser.ParseUnions` | src/parser.rs:370-414 | the loop over UNION positions, with its break, does the same |
| `StrictTree.SingleIff` | src/parser.rs:417-476 | a window is accepted as a single query exactly when consecutive slices tile it, each parses, ends in front of a top-level clause keyword or at the end of the window, and is the shortest such slice that parses, with a RETURN only at the end; the clauses are, in order, what the parser gives for the slices |
| `StrictTree.SingleErrorIs` | src/parser.rs:431-486 | a rejected window has the error of the first place at which no clause starts: an extra token behind a RETURN that parses too early, or else the failure that lies farthest |
| `StrictTree.TreeIff` | src/parser.rs:361-415 | the search returns a tree exactly when it is a decomposition of the window: top-level UNIONs, operators with the kind that the word behind each UNION spells, and between them windows that tile the rest and are single queries, each spanning its tokens; and no other decomposition comes before it, where no UNION comes first, then an earlier UNION |
| `StrictTree.RejectionIs` | src/parser.rs:361-415 | a rejected window has no decomposition, and its error is that of the window as a single query |
| `StrictTree.DrivenTreeIff` | src/parser.rs:361-486 | both for the search as it runs, with its early exits, for every clause parser that the patched tables drive |
| `UnionChain.ChainCost` | src/parser.rs:361-476 | for n branches that each reject at their own UNION, followed by an incomplete clause, exactly 2n + 1 clause-parser attempts are made and the first UNION is reported |
| `MiniGrammar.MalformedChains` | src/parser.rs:2955-2968 | such a chain exists for every n, costs 2n + 1 attempts and reports its first UNION |
| `OperandRepair.RecoverExpressionOperands` | src/parser.rs:2861-2943 | the repair loop tries the streams of its specification, in order, and returns the first clause |
| `OperandRepair.InsertErases` | src/parser.rs:2933 | erasing the inserted operands gives back the stream before the insertion |
| `OperandRepair.InsertOrdered` | src/parser.rs:2933 | the stream stays ordered by span and keeps its outer ends |
| `OperandRepair.RepairOnlyInserts` | src/parser.rs:2861-2943 | at every retry the stream is the source slice with one more empty operand; there are at most four retries, and the shared budget drops by exactly their number |
| `OperandRepair.FixIff` | src/parser.rs:2870-2933 | a stream is repaired into another exactly when that one is a + [operand] + b, with a + b the old stream; b begins with the first occurrence of the rejected token, or is empty at the end of input, if an expression is expected there, and otherwise with one of six structural keywords behind one of sixteen operators and directly in front of the error; the operand is empty and sits at the start of b, or at the end of the last token |
| `OperandRepair.RepairsInPlace` | src/parser.rs:2861-2943 | each stream tried is the one such repair of the stream before it, for the error of that stream; without a clause there were four rounds, or no budget is left, or the last stream has no repair |
| `RecoveryMachine.StepAdvances` | src/parser.rs:2716-2816 | the cursor strictly advances in every turn and stays inside the input |
| `RecoveryMachine.StepKeepsBranch` | src/parser.rs:2716-2816 | in every turn the pieces of the open branch tile it up to the cursor or the open error region, no two error regions touch, and nothing but one error region follows a RETURN |
| `RecoveryMachine.SplitKeepsBranches` | src/parser.rs:2722-2755 | closed branches and operators stay in order and adjacent |
| `RecoveryMachine.StepKeepsBudget` | src/parser.rs:2715-2816 | candidate parses, insertions, UNION splits and remaining attempts sum to 128 in every turn, and each retained clause and each operator is paid for |
| `RecoveryMachine.RunKeeps` | src/parser.rs:2716-2816 | the loop reaches the end of the input, with all invariants |
| `RecoveryMachine.RecoveryLosesNothing` | src/parser.rs:2704-2834 | for any clause-parser behaviour: the retained clauses, error clauses and operators of a result tile the input in order; the budget is conserved; there are at most 129 branches and 257 clauses |
| `RecoveryResync.RegionsAreMaximal` | src/parser.rs:2716-2816 | in every run each retained clause is what the trial at its first token found within the budget left there; each error region ends at the next place where the loop may start again, and at every place inside it the budget had run out, or a RETURN stands in front and the place is no operator UNION, or the trial there found nothing; without a query everything is an error region |
| `RecoveryResync.NothingSwallowed` | src/parser.rs:2803-2815 | an error region ends at a clause start, an operator UNION or the end of input, and for every one of those inside it, and its first token: the budget had run out, or it is no operator UNION and a RETURN stands in front or none of the ends that the budget allowed parses from there |
| `RecoveryResync.QueryShows` | src/parser.rs:2704-2856 | the returned query shows the pieces of each branch in order, clauses as parsed and regions as error clauses, each with the span of its tokens; an empty branch is an empty error clause at its place; each operator is a top-level UNION that names nothing, with the kind that the word behind it spells; query and statement span the input |
| `Recovery.FindMarks` | src/parser.rs:2689-2703 | the UNION positions outside explicit name positions, and the sorted list of boundaries |
| `Recovery.FindAfter` | src/parser.rs:2804-2815 | the first index behind the cursor is found; among the boundaries there always is one, so the `?` does not return |
| `Recovery.TryClause` | src/parser.rs:2756-2790 | the loops over candidates and repairs return the trial of the specification, under one shared budget |
| `Recovery.LongestWins` | src/parser.rs:2756-2778 | of the ends behind the cursor that the budget allows to try, the one that wins is the greatest whose slice parses; each costs one attempt; repairs begin exactly when none parses |
| `Recovery.FirstRepairWins` | src/parser.rs:2779-2790 | when none of those ends parses, they are repaired from the nearest to the farthest, each with the budget that the one before left, and the first repair that gives a clause wins |
| `Recovery.EnvIsPlausible` | src/parser.rs:2756-2790 | the trials of the code end inside the input at a boundary and pay for themselves, which is all that the loop invariants assume |
| `RecoveryOutput.RecoverClauses` | src/parser.rs:2677-2849 | `recover_clauses` on offsets returns the rendered layout of the abstract loop, or nothing |
| `RecoveryOutput.RunLoop` | src/parser.rs:2704-2816 | the loop variables show the state of the abstract loop in every turn |
| `RecoveryOutput.TokenInExactlyOne` | src/parser.rs:2704-2834 | each source token lies inside exactly one of the spans of the clauses, error clauses and operators of the returned query |
| `RecoveryOutput.RecoveredShape` | src/parser.rs:2716-2856 | branches are one more than operators; all spans have start <= end, interleave in order and nest; no two error clauses are adjacent; a RETURN is last or followed by one error clause; a branch without tokens is one empty error clause; all branches together show at most 257 clauses |
| `ContextualNames.ScanReadsSignatures` | src/parser.rs:130-150 | what the initial scan decides about a token depends on its signature alone |
| `ContextualNames.InitialScan` | src/parser.rs:128-150 | the scan leaves the stream that reads the immediate names as identifiers, by signature |
| `ContextualNames.PickIsFirst` | src/parser.rs:176-207 | the picked candidate is the first unresolved one in the order of priority, distance and index |
| `ContextualNames.Nearest` | src/parser.rs:176-207 | the loop over candidates computes it |
| `ContextualNames.Reclassify` | src/parser.rs:209-220 | exactly the unresolved candidates with the picked signature become identifiers |
| `ContextualNames.ParseTokensWithContextualNames` | src/parser.rs:124-241 | the result and the list of all streams given to the parser are those of the specification by sets of signatures |
| `ContextualNames.AttemptsClimb` | src/parser.rs:124-241 | parser calls <= 1 + the number of open candidate signatures; each retry commits the first open one after the error; the locations of failures that lead to a retry strictly increase; the report is the last one that made progress, and progress ends only when nothing is open |
| `ContextualNames.EveryCallIsAReading` | src/parser.rs:124-241 | every stream given to the parser keeps all spans and aliased literals, turns only candidate keywords into identifiers, and reads equal signatures alike |
| `ContextualNames.AcceptedOnLastAttempt` | src/parser.rs:152-222 | the loop accepts exactly when its last call does, with that value |
| `ContextualNames.PickIsNear` | src/parser.rs:176-207 | among the open candidates the committed one holds the error if any does that is no `AS` or has an `AS` behind it; else it has an `AS` behind it if any does that is no `AS`; among its like no open candidate lies between it and the error, and none on the other side is nearer |
| `ContextualNames.ImmediateIff` | src/parser.rs:128-150 | the keywords read as names before the first parse are, in terms of a keyword and its two neighbours, those behind `.` or `AS`, one-word projection items in front of `AS` but for literals, and a quantifier that is a whole item |
| `ContextualNames.ProgressIff` | src/parser.rs:223-236 | a retry counts as progress exactly when it fails farther along and inside none of the tokens it reclassified |
| `Labels.LabelOrEnd` | src/parser.rs:1362-1378 | the loop computes the end of the specification |
| `Labels.LabelAndEnd` | src/parser.rs:1380-1389 | the same for the conjunction level |
| `Labels.LabelPrimaryEnd` | src/parser.rs:1391-1411 | the same for the primary level |
| `Labels.OrSound` | src/parser.rs:1362-1411 | an end that the scanner finds is the end of a parse tree of the label grammar, and no continuation operator follows |
| `Labels.OrComplete` | src/parser.rs:1362-1411 | every parse tree that no continuation operator follows is found |
| `Labels.OrEndIff` | src/parser.rs:1362-1411 | both directions: the scanner returns e exactly when the tokens up to e derive the grammar and token e does not continue it |
| `Labels.EndIsUnique` | src/parser.rs:1362-1411 | at most one end qualifies |
| `Labels.LabelPredicateEnd` | src/parser.rs:1332-1360 | the marker and null-check cases, in order, then the scanner |
| `Labels.PredicateEndIff` | src/parser.rs:1332-1360 | a label predicate is a marker that begins no null check, and a label expression up to its last token |
| `Labels.RelationshipLabelEnd` | src/parser.rs:1163-1187 | an expression with an inner colon is accepted only as names each joined by a pipe and a colon |
| `Labels.LegacyLabelTokensAreConsistent` | src/parser.rs:2287-2344 | true exactly if there is no inner colon, or after a first colon the names are joined all by a pipe and a colon or all by a colon |
| `Labels.RelationshipSliceConsistent` | src/parser.rs:1163-1187 | an accepted slice passes the fragment check exactly when it starts with a colon or has no inner colon |
| `Labels.FoldedRelationshipIsConsistent` | src/parser.rs:1147-1187 | so every slice that folding accepts passes it |
| `Labels.FragmentNamesAreSymbolic` | src/parser.rs:2307-2339 | the two recognisers agree on what a name is |
| `Folding.QualifiedFunctionNameEnd` | src/parser.rs:807-830 | the loop finds the last name of a dotted path of two or more names before a parenthesis |
| `FoldedSyntax.QualifiedEndIff` | src/parser.rs:807-830 | a function name ends at an index exactly when names and dots in turn lead from one name to another one there, with a parenthesis directly behind it |
| `Folding.IsProcedureNameStart` | src/parser.rs:832-845 | the loop walks back to the first name of the path |
| `FoldedSyntax.ProcedureNameIff` | src/parser.rs:832-845 | a name belongs to a procedure call exactly when `CALL` stands in front of names and dots in turn that lead up to it |
| `Folding.PatternComprehensionEnd` | src/parser.rs:891-969 | the loop with three bracket counters returns the first closing bracket at the own level, if there is a projection and the evidence in front of `WHERE` and the separator speaks for a pattern |
| `FoldedComprehensions.ComprehensionIff` | src/parser.rs:891-969 | a square bracket is folded up to its partner exactly when there is a separator that no pair of brackets inside encloses, none directly in front of the end, and in front of the first such separator or `WHERE` either an arrow that no pair of square brackets encloses, or two nodes and two minuses that no pair encloses; otherwise nothing is folded |
| `FoldedComprehensions.UnclosedListFoldsNothing` | src/parser.rs:891-969 | a square bracket with a well-nested word behind it up to the end of the tokens folds nothing |
| `Folding.PatternExpressionEnd` | src/parser.rs:1050-1092 | the loop over relationships and nodes follows the chain to its last node |
| `FoldedSyntax.PatternEndIff` | src/parser.rs:1050-1122 | for a well-nested word from the start on, which ends with the tokens, at a closing bracket, or at an opening one that no relationship leads up to: the scanner ends at an index exactly when node (relationship node)+ ends there and no relationship and node follow; a node is a parenthesis up to its partner, a relationship an arrow tail, optional details, an arrow head and an optional quantifier |
| `Folding.FoldOnce` | src/parser.rs:723-795 | one turn tries the scanners in the order of the code, each confined to its truncated view |
| `Folding.ParserTokens` | src/parser.rs:717-797 | one output token per run, with the text extent of the run |
| `Folding.NestedParserTokens` | src/parser.rs:2354-2452 | the same with a base offset and a reserved separator |
| `Folding.FoldPartitions` | src/parser.rs:717-797 | the runs are consecutive, non-empty and cover all significant tokens |
| `Folding.TokenEmittedOnce` | src/parser.rs:2354-2452 | every significant token lies inside exactly one output token |
| `Folding.FoldedFromSource` | src/parser.rs:717-797 | the output has non-empty, ordered, disjoint spans and no injected operand: what the strict parser and recovery require |
| `Folding.ReservedPipeKept` | src/parser.rs:2350-2452 | whatever the heuristics answer, a reserved pipe comes out as a plain pipe with its exact span |
| `FoldedRuns.RunIff` | src/parser.rs:723-795 | where brackets can be read, a run of several tokens is a construct that starts there, and each that starts there is the run: `$` and an escaped name, a bracket up to its partner with pattern evidence, a maximal chain of nodes and relationships in a pattern context, a colon behind `[` or `[` and a name with a label expression, a label predicate, a dotted name in front of a parenthesis; the first token of a nested fragment starts only a parameter or a name |
| `FoldedRuns.PlainIff` | src/parser.rs:723-795 | a token is a run of its own exactly when none of these starts there, and it keeps its kind, but for `ALL` as a quantifier |
| `FoldedRuns.NestedIsReadable` | src/parser.rs:717-797 | every bracket of a well-nested token list can be read |
| `FoldedRuns.EmittedIs` | src/parser.rs:2350-2452 | every emitted token is the run at its first token, with that extent, in the view that a reserved separator ahead truncates |
| `Delimiters.CollectDelimiterDiagnostics` | src/parser.rs:584-640 | the diagnostics are, in order, those fates of brackets that are no match |
| `Delimiters.SilentIffNested` | src/parser.rs:584-640 | no diagnostic is added exactly when the brackets form a well-nested word over three kinds |
| `Delimiters.EveryBracketOnce` | src/parser.rs:584-640 | on every input each opener is matched, mismatched or reported unclosed exactly once, and each closer matched, mismatched or unexpected exactly once |
| `Delimiters.MatchingDelimiter` | src/parser.rs:1124-1145 | the loop that counts one kind of bracket |
| `Delimiters.MatchIffPairs` | src/parser.rs:1124-1145 | in a well-nested word, counting one kind finds j exactly when i and j enclose a well-nested word |
| `Delimiters.TopLevelIffUnenclosed` | src/parser.rs:498-519 | in a well-nested word, a wanted token that closes no bracket is reported exactly when no pair of brackets encloses it |
| `Quoting.ConsumeQuoted` | src/lexer.rs:153-214 | the loop finds the end and the verdict of the specified walk |
| `Quoting.ReadHex` | src/lexer.rs:169-187 | the digits read and their number, without 32-bit overflow |
| `Quoting.AcceptedIffLiteral` | src/lexer.rs:153-214 | a literal is accepted up to an index exactly when plain characters, doubled delimiters and valid escapes, then one closing delimiter that is not doubled, spell the text up to there |
| `Quoting.ConsumeIsSimple` | src/lexer.rs:153-214 | where a quoted literal ends does not depend on the validity of its escapes |
| `Quoting.InvalidIffRough` | src/lexer.rs:153-214 | an invalid escape is reported up to an index exactly when the text closes there if any letter may follow a backslash, and is no well-formed literal |
| `Quoting.UnterminatedIffOpen` | src/lexer.rs:153-214 | a literal is reported as unterminated exactly when it closes nowhere, even if any letter may follow a backslash |
| `Quoting.DecodeDelimited` | src/parser.rs:1918-1975 | the loop computes the decoded text, and whether it took a fallback branch |
| `Quoting.DecodesSpelling` | src/parser.rs:1918-1975 | a literal decodes to the meaning of its items |
| `Quoting.AcceptedDecodesCleanly` | src/parser.rs:1918-1975 | what the lexer accepts decodes along the same items, without a fallback, one character for each |
| `Quoting.QuoteRoundTrip` | src/parser.rs:1918-1975 | for every text, doubling the delimiter and the backslash gives a spelling that the lexer consumes exactly and the decoder maps back |
| `Quoting.ShortEscapes` | src/lexer.rs:153-214 | behind a backslash exactly the listed letters are accepted, and each decodes to its listed character, `n` to a line break |
| `ScriptSplit.LexBlockComment` | src/lexer.rs:216-241 | the loop finds the end of a nested comment |
| `ScriptSplit.CommentEndIff` | src/lexer.rs:216-241 | a comment is found to end at an index exactly when the text up to there is a properly nested body and its closing, and so there is at most one such index |
| `ScriptSplit.BackticksAgreeIff` | xtask/src/tck.rs:1348-1354 | splitter and lexer end a backtick region at the same place, or both at none, exactly when the lexer meets no escaped backtick in it |
| `ScriptSplit.SplitCypherScript` | xtask/src/tck.rs:1287-1398 | the byte loop returns the specified statements, each with its line, or the fault of its final state |
| `ScriptSplit.SplitIsReference` | xtask/src/tck.rs:1307-1393 | without escaped backticks, the splitter cuts at the semicolons between the regions of the lexer, and breaks on the region that the lexer finds open |
| `ScriptSplit.ReferenceCuts` | xtask/src/tck.rs:1307-1386 | those are exactly the semicolons outside all string, identifier and comment regions |
| `ScriptSplit.ReferenceBreaksIff` | xtask/src/tck.rs:1387-1393 | an error is returned exactly when a region stays open |
| `ScriptSplit.ScriptByRegions` | xtask/src/tck.rs:1287-1398 | both for the whole function, after line breaks are normalised |
| `ScriptSplit.EscapedBacktickSplits` | xtask/src/tck.rs:1348-1354 | a script with an escaped backtick that the lexer reads as one identifier and the splitter reports as unterminated |
| `ScriptLines.CountedBreaks` | xtask/src/tck.rs:1378-1384 | the line counter never runs ahead of the line breaks, and misses exactly those that the loop jumps over |
| `ScriptLines.JumpedIsEscaped` | xtask/src/tck.rs:1337-1349 | a line break that the loop jumps over stands directly behind a backslash |
| `ScriptLines.ReportedLine` | xtask/src/tck.rs:1325-1397 | each statement is a trimmed piece of the script that begins at 0 or behind a cut; the line reported for it is at most the line on which it begins, and is that line exactly when no line break stands among the blanks in front of it and none in front of those was jumped over |
| `ScriptLines.ReportedLineByRegions` | xtask/src/tck.rs:1325-1397 | without escaped backticks: it is that line exactly when no line break stands among those blanks and no string region of the lexer in front of them holds an escape of a line break |
| `ScriptLines.AllPiecesKept` | xtask/src/tck.rs:1325-1397 | the statements are, in order, exactly the pieces between cuts that hold more than blanks |
| `ScriptLines.NormalizeConcat` | xtask/src/tck.rs:1298 | line breaks are normalised part by part, unless a text is cut inside a `\r\n` |
| `ScriptLines.NormalizeOne` | xtask/src/tck.rs:1298 | `\r\n` and `\r` become one line break, and any other character stays |
| `ScriptLines.SecondLineIsLate` | xtask/src/tck.rs:1378-1382 | a statement on the line after a semicolon is reported on the line of the semicolon |
| `AliasGraph.Resolver.AliasReachesDirect` | xtask/src/spec.rs:1296-1327 | from any sound memo: on success the name is resolved, earlier answers stay, the visiting set is restored; an error is the first fault, cycle or unknown name, of a depth-first search without a memo |
| `AliasGraph.Resolver.AnyTarget` | xtask/src/spec.rs:1314-1321 | the loop visits all targets and tells whether one resolves to true, or returns the first fault among them |
| `AliasGraph.FirstFaultIff` | xtask/src/spec.rs:1296-1327 | the search without a memo reports something exactly when a cycle or an unknown name is reachable |
| `AliasGraph.FirstFaultHolds` | xtask/src/spec.rs:1305-1312 | the name it reports as on a cycle is on one, the name it reports as unknown is unknown, and either can be reached |
| `AliasGraph.SettledIsSound` | xtask/src/spec.rs:1302-1326 | a resolved name reaches neither an unknown name nor a cycle |
| `AliasGraph.SettledValue` | xtask/src/spec.rs:1302-1326 | its value tells whether a direct production is reachable |
| `AliasGraph.Search` | xtask/src/spec.rs:1252-1264 | whatever the memo holds: an error exactly if a cycle or unknown name is reachable, with the report of the search without a memo, and otherwise reachability of a direct production |
| `AliasGraph.ValidateAliases` | xtask/src/spec.rs:1246-1294 | the first production, in iteration order, with a problem decides, and the problem is the specified one, with the name and kind of a fault |
| `AliasGraph.TargetsAreKnown` | xtask/src/spec.rs:1265-1276 | after a successful search every target is in the catalog, so `.expect` does not fire |
| `AliasGraph.ValidIsSummed` | xtask/src/spec.rs:1265-1291 | in a valid catalog every support is the one that the reachable endpoints demand |
| `AliasGraph.FullIffEndpointsFull` | xtask/src/spec.rs:1246-1294 | when `validate_aliases` succeeds, an alias is full exactly when every reachable endpoint is full |
| `ExpressionFold.FoldBinary` | src/parser.rs:2550-2563 | the loop is the left fold of the tail |
| `ExpressionFold.FoldComparison` | src/parser.rs:2574-2606 | the same with `IS` suffixes |
| `ExpressionFold.ParseSound` | grammar/cypher.lalrpop:728-852 | what the levels build is shaped by precedence and associativity, and its in-order yield is the chain |
| `ExpressionFold.ParseComplete` | grammar/cypher.lalrpop:728-852 | every such tree is built from its yield |
| `ExpressionFold.ParseIffTree` | grammar/cypher.lalrpop:728-852 | both: the levels build a tree from a chain exactly when it is the one left-associative tree, power included, that reads as the chain |
| `ExpressionFold.RejectedIffClash` | grammar/cypher.lalrpop:772-793 | a chain is rejected exactly when two advanced comparisons have only tighter operators between them, or an operator that binds as tightly or tighter follows an `IS` check |
| `ExpressionFold.ParsedSpansCover` | src/parser.rs:2550-2606 | every node spans from its first operand to the end of its last one |
| `ExpressionFold.TwoOperators` | grammar/cypher.lalrpop:728-852 | of two operators in a row, the one that comes later in the list from OR to power takes the operand between them, and the left one if they share a place, except that two advanced comparisons are rejected |
| `ExpressionFold.OperatorThenCheck` | grammar/cypher.lalrpop:772-793 | an `IS` check takes the right operand of a looser operator and the whole of a tighter one, and is rejected behind an advanced comparison |

## Left out

- The generated LR tables, the 2024.3 grammar beyond the expression levels, and the AST nodes other than clauses, branches, operators and binary expressions.
- Logos matching and Unicode classes (`src/lexer.rs:29-139`): other tokens are taken to contain no quote, semicolon or comment opener.
- UTF-8: text is a sequence of characters, and offsets are abstract.
- `is_pattern_expression_context` and the scan of `is_label_predicate_context` behind its first check are arbitrary answers in `Folding.Heuristics`.
- `parse_program`'s split into statement modes, the standalone CALL fallback, and `recovered_program`, which spans the input with one error node.
- The choice of a comprehension's separator among several candidates (`src/parser.rs:2085-2096`).
- Diagnostic rendering, messages and codes: an error is its location, token and expected names. Expected names are held without their quotes, which the code trims before it compares them. A delimiter diagnostic is the indices of its brackets.
- The order in which boundaries are collected and sorted (`src/parser.rs:2700-2703`, `:431-437`): they are listed in one ascending pass.
- FoldedRuns.RunIff: asks that a `[` at the index has a partner or a well-nested word up to the end behind it, and a `(` a well-nested word, as the two grammars it speaks of do; otherwise `collect_delimiter_diagnostics` has reported the bracket.
- ScriptSplit.SplitCypherScript: takes the whitespace that trimming removes as a parameter.
- AliasGraph.ValidateAliases: takes the iteration order of the catalog as a parameter.
- Labels.LabelOrEnd: works on the nine classes of tokens that the recogniser tells apart, so that the class of each token is computed before the scan.
- Delimiters.MatchingDelimiter: works on the bracket shape of each token in the same way.
- ExpressionFold.ParseIffTree: takes `UnaryExpr` operands as leaves, so `NOT` and signs appear only inside them; a prefix `NOT` between AND and the comparison levels is not part of the chains, and neither is a `PatternExpressionExpr` operand of AND (`grammar/cypher.lalrpop:755-757`), which is no `UnaryExpr`.
- xtask file, network, TOML, Gherkin and hashing code, keyword tables, visitors and serde.
