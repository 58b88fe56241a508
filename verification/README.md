# Proofs about the Maka front end

Maka compiles to C. Its front end decides, without a garbage collector, where every
owned value is released and which programs are accepted. This project models the parts
of it that have to be right for that to work, and proves what they promise, for every
input. Cited paths are relative to the root of the Maka repository. Nothing was executed.

Where the Rust code updates something in place (a scope stack, the checker's table, a
position in a token list, a colour map) the model is a class or a loop proved equal to a
specification function; what the code promises is then proved about that function.

## What is modelled

**Drop elaboration and the move checker** (`crates/sema/src/lifetime.rs`). A body is a
`Hir.Block`: `let`, assignment, calls with by-value and borrowed arguments, `return`,
`if`, `while`, `break`, `continue` and nested blocks, over locals that own a value. `MoveChecker` rejects
reads of moved locals. `DropPass` fills in where each local is freed. `Paths` runs an
annotated body on a list of branch decisions, giving the events of that run; `Memory`
plays events on numbered cells. A moved local keeps its stale cell, so a wrong drop shows
up as misuse. `Audit` is a static check for "every cell released exactly once", proved
exact, through which both the positive and the negative results go. `WellFormed` says which
bodies the main theorem covers: `BodyScoped` is what name resolution guarantees, `BodyTame`
names three things the two passes disagree on. For each, `Counterexamples` has a body
that the checker accepts and the drop pass gets wrong. `DropOrder` adds the order of the
drops, and `CheckerExact` the other direction of the checker: what it refuses does go wrong.

**Formatter and lexer** (`crates/fmt`, `crates/lexer`). `LexSpec` is the token language,
`Lexing.Lexer` the lexer that reads it, `FmtSpec` the formatter with its own scanner and
`Formatter` its loops. `LexLines` and `FmtLines` cut both at line ends, which is where the
two have to agree. `Spelling` describes tokens by the ways to write them, and `Indentation`
the formatter's output by the lexer's tokens.

**Type patterns, keys and instantiation** (`crates/sema/src/hir.rs`). Receiver matching,
the overlap test behind impl coherence, substitution, and the string key under which
generic instances are shared.

**Whole-program analyses** (`crates/sema/src/lib.rs`, `lifetime.rs`). Inline-recursion
search, transitive writes to globals, and never-null return summaries, the latter also over
single paths (`NullPaths`).

**Parser-time evaluation and types** (`crates/parser`). The `constexpr` interpreter with its
step budget, its meaning without one (`Derivations`, `OperatorLaws`), the folder that
evaluates straight from tokens, and the type parser that splits `>>` in place.

**The language server's cache** (`crates/lsp/src/main.rs`). Handlers as interleaved steps on
documents, version and cache; `EditLog` reads the state off the steps taken.

## Results that come out as "not quite"

Eleven promises hold only under a condition. In each case the code is modelled as it is, the
condition is proved, and a concrete input shows what happens without it.

| promise | condition | input |
|---|---|---|
| an accepted body releases everything once | `BodyTame` (and, without renaming, exactly when `Passes`) | `EatenInConditionFails`, `RevivedFails`, `EatenBeforeBreakFails` |
| two walks of a loop catch every stale use | condition quiet in the folded state, no `break` or `continue`, nested loops refill nothing that was moved before them | `StaleCondition`, `MovedBeforeContinue`, `RefilledByLoop` |
| what the checker refuses goes wrong on some run | no loops, no dead statements, each local declared once, no argument borrowing what an earlier one moved | `LateBorrow` |
| rewriting a loop condition releases its temporaries once | exactly when the rest of the condition gives nothing away | `EatenTemporaryFails` |
| formatting never changes tokens | no character literal written as three quotes | `FormatChangesTokens` |
| formatting twice is formatting once | exactly when the scan ends in code | `IdempotentExactlyWhenClosed` |
| impls the overlap test passes never both apply | linear, no nested template instances, constructors it knows | `NonLinearHole`, `NestedInstanceHole`, `SizedFloatHole` |
| type keys are unique | no `dyn`/`some` or opaque types | `DynCollides`, `OpaqueShares` |
| never-null summaries are sound | loops that forget nothing, no reading through references | `LoopHole`, `DerefHole` |
| the never-null walk loses nothing against single paths | loop bodies can be left at their end | `ReturningLoop` |
| the cache holds current results | no edit between its write and its version bump | `StaleDuringEdit` |

The comment at the head of `crates/fmt/src/lib.rs` calls the formatter idempotent without the
condition; the model follows the code.

## Model

| member | source | states |
|---|---|---|
| ExactlyOnce.ExactlyOnceRelease | crates/sema/src/lifetime.rs:3338-3571 | in every run of an accepted, scoped, tame body annotated by the drop pass, no event uses a cell that is gone, and a finished run has released each cell ever made exactly once |
| ExactlyOnce.ElaborationPasses | crates/sema/src/lifetime.rs:3338-3571 | such a body passes the static audit, that is, the drops of both passes balance on every path |
| ExactlyOnce.AuditsIf | crates/sema/src/lifetime.rs:3421-3472 | with the compensating drops put on the arm that did not move a local, both arms of an accepted `if` leave the same locals owned, and exactly those the pass goes on with |
| ExactlyOnce.AuditsJoin | crates/sema/src/lifetime.rs:3433-3471 | the join over arms that may or may not diverge keeps what is owned equal to what is visible and not moved |
| ExactlyOnce.AuditsWhile | crates/sema/src/lifetime.rs:3473-3476 | every way out of a tame loop, by its condition, by `break` or by `continue`, leaves the outer locals owned as they were |
| ExactlyOnce.AssignFollows | crates/sema/src/lifetime.rs:3376-3394 | drop-on-reassign frees the old value exactly when the local still holds it, also when the right side uses the local |
| ExactlyOnce.ReturnFollows | crates/sema/src/lifetime.rs:3399-3420 | the drops before a return, on top of the returned value, leave nothing owned |
| ExactlyOnce.JumpFollows | crates/sema/src/lifetime.rs:3489-3501 | the drops before a break or continue free the loop body's locals still owned, and no others |
| ExactlyOnce.EvalFollows | crates/sema/src/lifetime.rs:3076-3170 | an expression the checker passes hands each value over at most once, and hands over what the drop pass counts as moved |
| ExactCondition.SafeExactlyWhenAuditPasses | crates/codegen/src/lib.rs:8817-8994 | for bodies that never rename a value, the audit passes if and only if every run releases each cell exactly once |
| ExactCondition.ElaborationSafeExactly | crates/sema/src/lifetime.rs:3071-3608 | for bodies that never rename a value, whether the elaborated body is safe on every run is decided by the audit, in both directions |
| Renaming.RenamedAccepted | crates/sema/src/lifetime.rs:2214-2227 | an accepted body that moves one local into another on its way out of a loop |
| Renaming.RenamedSafe | crates/sema/src/lifetime.rs:3473-3476 | all its runs are safe, although the pass frees the wrong local: both slots hold the cell |
| Renaming.RenamedFailsAudit | crates/sema/src/lifetime.rs:3473-3476 | and the audit refuses it, so the equivalence needs the absence of renaming |
| Audit.AuditIsExact | crates/codegen/src/lib.rs:8817-8994 | the static audit agrees with the owned-set discipline on all runs, and equally on all finished runs |
| Memory.DisciplinedRunsAreSafe | crates/codegen/src/lib.rs:8833-8841 | following the owned-set discipline means no misuse of a cell and exactly one release per cell, although moved locals keep stale cells |
| Counterexamples.EatenInConditionAccepted | crates/sema/src/lifetime.rs:1198-1203 | a value eaten in the condition of an `if` is accepted by the checker |
| Counterexamples.EatenInConditionFails | crates/sema/src/lifetime.rs:3421-3423 | and freed again, because the drop pass does not look for moves in conditions |
| Counterexamples.RevivedAccepted | crates/sema/src/lifetime.rs:900-1228 | a moved local refilled in a nested block is accepted |
| Counterexamples.RevivedFails | crates/sema/src/lifetime.rs:3568-3570 | and the new value leaks on the path that refilled it, because escapes only ever add to what is moved |
| Counterexamples.EatenBeforeBreakAccepted | crates/sema/src/lifetime.rs:2214-2227 | a value eaten before a `break` is accepted |
| Counterexamples.EatenBeforeBreakFails | crates/sema/src/lifetime.rs:3473-3476 | and freed twice, because what a loop body moves is discarded |
| Containment.ContainedBlock | crates/sema/src/lifetime.rs:3338-3571 | what the drop pass holds for moved is held for moved by the checker, after any scoped and tame block |
| Containment.ContainedStmt | crates/sema/src/lifetime.rs:900-1228 | likewise after any statement, together with the scope bookkeeping that keeps it true |
| Containment.AlwaysExitsDiverges | crates/sema/src/lifetime.rs:2214-2227 | a block the checker thinks always exits is one the drop pass marks as diverging; what exiting means is `AlwaysExitsMeans` |
| Containment.WalkExprMoves | crates/sema/src/lifetime.rs:3076-3170 | the checker and the drop pass collect the same moves from an expression |
| DropPass.Pass.VisitBody | crates/sema/src/lifetime.rs:3573-3587 | the pass, run on an empty scope stack, gives the elaborated body and leaves the stack empty |
| DropPass.Pass.Visit | crates/sema/src/lifetime.rs:3338-3571 | one block: its annotated form, its escaped moves and whether it diverges, with the scope stack restored |
| DropPass.Pass.VisitOne | crates/sema/src/lifetime.rs:3353-3552 | one statement, touching only the innermost scope |
| DropPass.Pass.VisitIf | crates/sema/src/lifetime.rs:3421-3472 | an `if` with its compensating drops in increasing order of locals |
| DropPass.Pass.DropsAtExit | crates/sema/src/lifetime.rs:3411-3418 | drops on leaving the function: every scope from the outside in, each one backwards, without the moved locals |
| DropPass.Pass.DropsAtJump | crates/sema/src/lifetime.rs:3494-3501 | drops on leaving the loop: its scopes from the inside out |
| DropPass.Pass.DropsAtLoopExit | crates/sema/src/lifetime.rs:3489-3517 | outside a loop a jump drops like a return |
| DropPass.Pass.ReverseUnmoved | crates/sema/src/lifetime.rs:3553-3561 | one scope walked from its end, without the moved locals; `SurvivorsOrder` says what order that is |
| Scopes.SurvivorsAre | crates/sema/src/lifetime.rs:3553-3561 | each scope's drops name every unmoved local of it once and nothing else, as a set; their order is `SurvivorsOrder` |
| Scopes.ExitDropsAre | crates/sema/src/lifetime.rs:3411-3418 | a return's drops name every unmoved visible local once |
| Scopes.JumpDropsAre | crates/sema/src/lifetime.rs:3494-3501 | so do the drops of a jump, for the scopes it leaves |
| DropOrder.SurvivorsOrder | crates/sema/src/lifetime.rs:3553-3561 | of two unmoved locals of a scope the one declared later is freed first |
| DropOrder.ExitOrder | crates/sema/src/lifetime.rs:3411-3418 | in the drops of a return every local of an outer scope comes before every local of an inner one, and within a scope the later declared comes first |
| DropOrder.JumpOrder | crates/sema/src/lifetime.rs:3494-3501 | in the drops of a `break` or `continue` inner scopes come before outer ones, and within a scope the later declared comes first |
| DropOrder.LoopExitDropsAre | crates/sema/src/lifetime.rs:3489-3517 | a jump drops each unmoved local of the scopes it leaves once; outside a loop those are all scopes, as for a return |
| DropOrder.ElaborationInOrder | crates/sema/src/lifetime.rs:3573-3587 | in the elaborated form of any scoped body, every list of drops anywhere in it is in that order: at a block's end its own locals, newest first, and then those only the other arm moved, in increasing order |
| Sorting.SortedIs | crates/sema/src/lifetime.rs:3447-3449 | the sorted union of escapes is in increasing order and has each local once |
| MoveChecker.Checker.VisitStmt | crates/sema/src/lifetime.rs:900-1228 | the checker's table after a statement, with the snapshot and join of an `if`, where an arm that exits does not count; the table it computes is what `AcceptsExactly` and `TwoWalksSuffice` are about |
| MoveChecker.Checker.VisitBlock | crates/sema/src/lifetime.rs:779-843 | the table after a block |
| MoveChecker.Checker.VisitLoop | crates/sema/src/lifetime.rs:854-898 | a body that moves something new is walked again from the folded state, the first walk's diagnostics taken back |
| MoveChecker.Checker.VisitExpr | crates/sema/src/lifetime.rs:1343-1368 | arguments are read, then moved, from left to right |
| MoveChecker.Checker.Move | crates/sema/src/lifetime.rs:1889-1893 | a second move is reported, a first one recorded |
| CheckerExact.AcceptsExactly | crates/sema/src/lifetime.rs:900-1228 | a scoped body without loops and without statements behind a way out, each local declared once, is accepted if and only if no run of it reads or gives away a local it has given away and not refilled, and no call borrows a local behind an argument that takes it by value |
| CheckerExact.AlwaysExitsMeans | crates/sema/src/lifetime.rs:2214-2227 | in such a body a block always exits, in the sense of the checker, if and only if no run of it comes to its end |
| LoopMoves.StmtTransfer | crates/sema/src/lifetime.rs:900-1228 | per local, any statement keeps, moves or revives, whatever else holds: the transfer is constant or identity |
| LoopMoves.LoopTransfer | crates/sema/src/lifetime.rs:854-898 | a loop has the transfer of its body |
| LoopMoves.FoldedIsFixpoint | crates/sema/src/lifetime.rs:877-893 | walking the body from the folded entry state moves nothing new, and walking on changes nothing at all |
| LoopMoves.BlockUnion | crates/sema/src/lifetime.rs:779-843 | a block is free of diagnostics from a union of states exactly when it is from each |
| LoopMoves.TwoWalksSuffice | crates/sema/src/lifetime.rs:854-898 | the two walks report nothing if and only if no iteration, however late, would be reported |
| LoopMoves.AfterLoopCoversSkipping | crates/sema/src/lifetime.rs:1221-1227 | the state kept after a loop covers skipping it exactly when the body revives nothing that was moved |
| LoopRuns.NoIterationReadsMovedValue | crates/sema/src/lifetime.rs:854-898 | in every run of a loop the two walks pass, with ifs and nested loops, no iteration reads or moves a value given away before |
| CheckerHoles.StaleCondition | crates/sema/src/lifetime.rs:1221-1227 | an accepted loop whose condition reads, the second time, a value its body gave away |
| CheckerHoles.MovedBeforeContinue | crates/sema/src/lifetime.rs:2214-2227 | an accepted loop that reads, after a `continue`, the value given away before it |
| CheckerHoles.RefilledByLoop | crates/sema/src/lifetime.rs:1221-1227 | an accepted read after a loop that would have refilled the local, had it run |
| CheckerHoles.LateBorrow | crates/sema/src/lifetime.rs:1343-1368 | a refused body, none of whose runs uses a moved value: the call borrows a local it takes by value in front |
| LoopDesugar.RewrittenRuns | crates/sema/src/lifetime.rs:2374-2397 | every run of `while (cond) body` is a run of the rewritten loop, equal but for the temporaries, given that the hoisted prefix and the rest of the condition evaluate as the condition did |
| LoopDesugar.RewrittenOnly | crates/sema/src/lifetime.rs:2374-2397 | and every finished run of the rewritten loop in which `true` holds is a run of the original |
| LoopDrops.RewrittenReleases | crates/sema/src/lifetime.rs:2374-2397 | with its drops, no run of an accepted, tame rewritten loop misuses a cell; when it is left by the false test or a `break`, or returned from, each cell made in it is released exactly once or held by a local from outside, and every value put into a condition temporary has left it once |
| LoopDrops.RewrittenRespects | crates/sema/src/lifetime.rs:3473-3501 | each such run gives back what was owned before the loop, or nothing when it returns |
| LoopDrops.RewrittenTame | crates/sema/src/lifetime.rs:2384-2395 | the rewritten body is tame if and only if the rest of the condition hands nothing over, no binding moves anything owned outside, and the old body is tame behind the temporaries |
| LoopDrops.FalseTestDrops | crates/sema/src/lifetime.rs:3489-3501 | the break of the false test lists each temporary no binding handed over, once, and nothing else |
| LoopDrops.FalseTestReleases | crates/sema/src/lifetime.rs:3421-3423 | that list is right if and only if the rest of the condition gives nothing away |
| LoopDrops.Conserved | crates/codegen/src/lib.rs:8817-8994 | along any disciplined run the values put into a local are those that left it and the one it holds |
| LoopDrops.EatenTemporaryAccepted | crates/sema/src/lifetime.rs:2400-2412 | a rewritten loop whose condition passes its temporary by value is accepted |
| LoopDrops.EatenTemporaryFails | crates/sema/src/lifetime.rs:3421-3423 | and releases the temporary twice |
| LexLines.LexIsLines | crates/lexer/src/lib.rs:200-229 | lexing a file is lexing its lines one after the other, the mode carried over each newline |
| LexLines.LineResumes | crates/lexer/src/lib.rs:456-525 | a line's tokens and its end mode do not depend on what follows the newline, in code, comments, strings and characters |
| LexLines.CodeLocal | crates/lexer/src/lib.rs:373-454 | a number, word or operator is not changed by white space behind it |
| Lexing.Lexer.Tokenize | crates/lexer/src/lib.rs:166-177 | the lexer's loop yields the tokens of the token language, or fails exactly when the source is not in it |
| Lexing.Lexer.SkipTrivia | crates/lexer/src/lib.rs:200-229 | skipping white space, line comments and nested block comments changes no token; an unclosed comment is a failure |
| Lexing.Lexer.NextToken | crates/lexer/src/lib.rs:231-371 | one token, by first character, with the position behind it |
| Lexing.Lexer.Number | crates/lexer/src/lib.rs:373-426 | radix and decimal numbers, 64-bit range check, width suffixes, malformed exponents refused |
| Lexing.Lexer.EatWidthSuffix | crates/lexer/src/lib.rs:430-454 | the width suffix is eaten, and whether it made the number a float |
| Lexing.Lexer.CharLit | crates/lexer/src/lib.rs:456-488 | one character or escape between quotes |
| Lexing.Lexer.StrLit | crates/lexer/src/lib.rs:490-525 | a string with its escapes, across lines |
| Spelling.SpelledLexes | crates/lexer/src/lib.rs:166-177 | tokens written out by rules of their own, each kind in all its spellings, with any white space and nested comments between them, lex to exactly those tokens |
| Spelling.FormReads | crates/lexer/src/lib.rs:231-371 | one spelled token is read with its meaning, up to where white space follows |
| Spelling.RadixCode | crates/lexer/src/lib.rs:376-400 | hexadecimal, binary and octal numerals, with bars and integer suffixes, denote their value as a signed 64-bit pattern, and are refused from two to the 64th on |
| Spelling.FloatCode | crates/lexer/src/lib.rs:402-425 | a decimal with a fraction, an exponent or a float suffix is a float with that text, bars and suffix removed |
| Spelling.WidthExactly | crates/lexer/src/lib.rs:430-454 | a width suffix is eaten if and only if it is one of the twelve and not the beginning of a longer word |
| Spelling.FractionExactly | crates/lexer/src/lib.rs:404-408 | a point belongs to a number if and only if a digit stands right behind it, and then all digits and bars that follow do |
| Spelling.ExponentNeedsDigits | crates/lexer/src/lib.rs:409-414 | a number with an exponent without digits is refused |
| Spelling.UnescapeExactly | crates/lexer/src/lib.rs:459-478 | the escapes read are exactly the seven letters and two hexadecimal digits, with the bytes they stand for |
| Spelling.StringReads | crates/lexer/src/lib.rs:490-525 | a string spelled byte by byte, each raw or escaped, is read as those bytes |
| Spelling.StringSpelled | crates/lexer/src/lib.rs:490-525 | and whatever is read as a string is spelled so |
| Spelling.CharReads | crates/lexer/src/lib.rs:456-488 | a character, raw or escaped, is read as that byte |
| Spelling.CharSpelled | crates/lexer/src/lib.rs:456-488 | and whatever is read as a character is spelled so |
| Spelling.LongestOperator | crates/lexer/src/lib.rs:313-368 | an operator is the longest of the 39 that the text starts with, and none is read when there is none |
| Spelling.InsideSkipped | crates/lexer/src/lib.rs:210-224 | block comments nested to any depth mean nothing |
| FmtSpec.SplitLines | crates/fmt/src/lib.rs:157-159 | cutting at newlines loses nothing |
| FmtLines.FormatIsOutLines | crates/fmt/src/lib.rs:157-230 | on files without backslash-newline in a literal the formatter works line by line from the scanner's carry |
| TokenPreservation.FormatPreservesTokens | crates/fmt/src/lib.rs:157-230 | for every source that lexes and writes no character literal as three quotes, the formatted text has the same tokens |
| QuoteCheck.NoTripleQuoteSuffices | crates/lexer/src/lib.rs:456-488 | a source without three quotes in a row anywhere meets that condition |
| TokenPreservation.FormatCheckedAccepts | crates/fmt/src/lib.rs:236-252 | so the guarded formatter never refuses such a source and returns the formatted text |
| TokenPreservation.ScanShadows | crates/fmt/src/lib.rs:50-152 | over any line that lexes, the scanner's state (code, comment depth, string, character) is the shadow of the lexer's mode, and its depth has grown by the opening less the closing bracket tokens of the line |
| TokenPreservation.EmittedSame | crates/fmt/src/lib.rs:161-229 | re-indenting lines and squeezing blank ones keeps the tokens from any point of a file on |
| Idempotence.FormatIdempotent | crates/fmt/src/lib.rs:157-230 | formatting twice is formatting once when the scan ends in code |
| Idempotence.IdempotentExactlyWhenClosed | crates/fmt/src/lib.rs:157-230 | and only then; otherwise every pass adds one more newline |
| Idempotence.FormatIdempotentOnPrograms | crates/fmt/src/lib.rs:157-230 | on every source that lexes, with quotes escaped as above, formatting is idempotent |
| Formatter.ScanSource | crates/fmt/src/lib.rs:50-152 | the scanner's index loop yields one record per line as specified; `DepthIsBalance` says what the records are |
| Formatter.BuildLines | crates/fmt/src/lib.rs:161-201 | the layout loop over lines and records |
| Formatter.CollapseBlanks | crates/fmt/src/lib.rs:203-223 | the flag loop drops leading and trailing blanks and squeezes runs of them, verbatim lines untouched |
| Formatter.FormatSource | crates/fmt/src/lib.rs:157-230 | the formatter as it runs computes the specified text; `FormatLaysOut` says what text that is |
| Indentation.DepthIsBalance | crates/fmt/src/lib.rs:50-152 | for every source that lexes, quotes escaped as above, the scanner has one record per line; it says whether the line starts in a comment or a string, and if not, its depth is the number of opening less the number of closing bracket tokens the lexer finds above the line |
| Indentation.FormatLaysOut | crates/fmt/src/lib.rs:157-230 | the formatted text of such a source: a line that starts in a comment or a string as it is; any other without the white space around it, behind four spaces for each bracket open above it less the closing ones it starts with; empty lines left out, but for one wherever there were some between two others |
| Indentation.LaidIsShifted | crates/fmt/src/lib.rs:178-200 | one line of code is trimmed of exactly the Unicode white space around it, and of none behind it where a comment or a string runs on, and indented by its depth less its leading closing bracket tokens |
| Indentation.CollapseIsSpread | crates/fmt/src/lib.rs:203-223 | blank lines: the kept lines in order, one blank line in front of each that does not directly follow the one before |
| TokenPreservation.CheckedIsSafe | crates/fmt/src/lib.rs:236-252 | for every source, whatever the guarded formatter returns is the formatted text and has the tokens of the source; a text formatted already is always returned |
| Formatter.FormatCheckedSource | crates/fmt/src/lib.rs:236-252 | the guard: an unchanged text is returned as it is; otherwise it refuses when input or output does not lex or the tokens differ |
| TripleQuote.FormatChangesTokens | crates/fmt/src/lib.rs:135-147 | a source with three quotes that lexes, whose formatted text has other tokens, and which the guard refuses |
| AnalysisCache.CacheCoherent | crates/lsp/src/main.rs:1512-1531 | in every reachable state without an edit between write and bump, a cache entry tagged with the current version was computed from exactly the current documents |
| AnalysisCache.ResultCoherent | crates/lsp/src/main.rs:1512-1531 | so was every result returned at the current version, cached or not |
| AnalysisCache.CallSeesFinishedEdits | crates/lsp/src/main.rs:1162-1182 | whatever else is interleaved, a call never returns anything computed from documents older than edits that were finished when it began |
| AnalysisCache.StepKeeps | crates/lsp/src/main.rs:1533-1536 | every step of every handler keeps the invariant tying versions, document history and cache |
| AnalysisCache.StaleDuringEdit | crates/lsp/src/main.rs:1162-1167 | between an edit's write and its bump a cache entry tagged current can be stale |
| EditLog.DocsAreEdits | crates/lsp/src/main.rs:1162-1182 | after any interleaving, the documents are those that the edits and closes leave when applied in the order of their writes, the version is the number of them that are done, and the cache has entries for exactly the documents whose analyses were stored and not taken out by a close since |
| Matching.UnifyExactly | crates/sema/src/hir.rs:298-412 | matching succeeds with an environment if and only if that is the substitution, on exactly the pattern's variables, that makes the pattern the type, template instances read through their recorded arguments |
| Matching.GenericInstance | crates/sema/src/hir.rs:346-381 | being an instance of a generic pattern: a struct or enum whose record names the template and as many arguments, each an instance of the pattern's, or the pattern itself |
| Matching.InnerInstance | crates/sema/src/hir.rs:392-401 | being an instance of a pointer or reference: the same kind with the same mutability, and an instance inside |
| Matching.ElementInstance | crates/sema/src/hir.rs:402-407 | likewise for slices, vectors and arrays, whose lengths are equal |
| Matching.UnifyReproduces | crates/sema/src/hir.rs:298-412 | without templates, substituting what was found gives the type back |
| Matching.GoBinds | crates/sema/src/hir.rs:329-410 | a match binds exactly the variables of the pattern and never rebinds one |
| Matching.GoSound | crates/sema/src/hir.rs:329-410 | under any extension of the result the pattern is an instance of the type |
| Matching.GoComplete | crates/sema/src/hir.rs:329-410 | a solving substitution is always found, from any bindings it agrees with |
| Matching.Matcher.Match | crates/sema/src/hir.rs:329-410 | the in-place matcher fills its environment as specified |
| Matching.Matcher.MatchAll | crates/sema/src/hir.rs:346-381 | arguments are matched from left to right into one environment |
| Matching.ReceiverUnify | crates/sema/src/hir.rs:298-327 | the entry points, with and without a symbol table |
| HirTypes.SubstParts | crates/sema/src/hir.rs:109-136 | substitution changes nothing but variables, at any depth |
| Coherence.Coherent | crates/sema/src/hir.rs:211-286 | linear patterns without template instances that the overlap test lets pass never match the same type |
| Coherence.OverlapExactly | crates/sema/src/hir.rs:211-286 | on the constructors it knows, overlap is reported if and only if some type is matched by both |
| Coherence.NormalizedCoherent | crates/sema/src/resolve.rs:1383-1419 | with the receiver normalization, so do impls for instances of templates |
| Coherence.NormalizedExactly | crates/sema/src/resolve.rs:1383-1419 | normalizing replaces exactly the structs and enums made from a template, by the pattern of that template and its arguments |
| Coherence.OverlapHasInstance | crates/sema/src/hir.rs:211-286 | a common instance is constructed whenever overlap is reported |
| Coherence.NonLinearHole | crates/sema/src/hir.rs:229-246 | two patterns passed by the test, one using a variable twice, that match the same type |
| Coherence.NestedInstanceHole | crates/sema/src/resolve.rs:1387-1405 | only the outermost instance is normalized: a nested one is passed although both match |
| Coherence.SizedFloatHole | crates/sema/src/hir.rs:247-283 | two equal impls for an instance with a sized float argument are passed |
| TypeKeys.KeyDecodes | crates/sema/src/hir.rs:139-177 | a decoder reads the type back from its key followed by anything, and stops there |
| TypeKeys.KeyInjective | crates/sema/src/hir.rs:139-177 | types without dyn, opaque, variable, associated or generic-pattern nodes have different keys |
| TypeKeys.ArgsKeyInjective | crates/sema/src/lib.rs:339-341 | so have comma-joined argument lists, of any lengths |
| TypeKeys.OpaqueShares | crates/sema/src/hir.rs:139-177 | an opaque handle has the key of an owning pointer to unit |
| TypeKeys.DynCollides | crates/sema/src/hir.rs:139-177 | `some lmint` has the key of `[]mut int` |
| Instantiation.Instances.Instantiate | crates/sema/src/lib.rs:338-348 | a request gets a function made for just its template and arguments; earlier functions stay |
| Instantiation.Instances.Drain | crates/sema/src/lib.rs:333-489 | two requests get the same function exactly when they are the same request, in one batch and across batches |
| InlineRecursion.DetectInlineRecursion | crates/sema/src/lib.rs:1267-1304 | in any order of starts and successors a cycle is reported if and only if there is one, and if none is, every inline call goes down in a ranking |
| InlineRecursion.DescentHasNoCycle | crates/sema/src/lib.rs:1266-1304 | such a ranking excludes cycles, so nested expansion ends |
| InlineRecursion.Search.Dfs | crates/sema/src/lib.rs:1279-1292 | one visit of the three-colour search: true only on a cycle, false only with the node and all it reaches cleared |
| GlobalRaces.TransitiveWrites | crates/sema/src/lib.rs:1224-1242 | the fixpoint ends, and each set is the union of the direct writes of all functions reachable in the call graph, under mutual recursion and any order |
| GlobalRaces.ExactWhenClosed | crates/sema/src/lib.rs:1224-1242 | sound sets that are closed under calls are exact |
| GlobalRaces.ReportRaces | crates/sema/src/lib.rs:1243-1263 | a mutable global is reported exactly when some spawned body can reach a write to it, once, at the first such spawn |
| GlobalRaces.Pass | crates/sema/src/lib.rs:1228-1242 | a pass that changes nothing has closed sets, any other brings the end nearer |
| NeverNull.NeverNullSound | crates/sema/src/lifetime.rs:179-201 | for mutually recursive functions whose loops forget nothing they are entered with, no terminating call of a function marked true returns null |
| NeverNull.LoopSound | crates/sema/src/lifetime.rs:398-409 | after any number of rounds the walk claims no more about locals than the run has, if one walk of the body forgets nothing |
| NullFlow.LoopFreeIsPlain | crates/sema/src/lifetime.rs:339-424 | functions without loops and dereferences always qualify |
| NeverNull.ReturnSummaries | crates/sema/src/lifetime.rs:179-201 | the iteration ends with a table in which every entry has a well-founded justification and no function can be added |
| NeverNull.WellFoundedIsJustified | crates/sema/src/lifetime.rs:179-201 | an entry justified by earlier ones is justified by the whole table |
| NeverNull.SummariesUnique | crates/sema/src/lifetime.rs:179-201 | any two such tables are equal, so the order of functions does not matter |
| NeverNull.StmtSound | crates/sema/src/lifetime.rs:349-424 | the flow walk never claims more about locals than a run has, whatever branches it takes |
| NeverNull.StmtGrows | crates/sema/src/lifetime.rs:349-424 | knowing more about locals and callees never makes the walk claim less |
| NeverNull.LoopHole | crates/sema/src/lifetime.rs:398-409 | a function with a loop marked never-null whose second iteration returns null |
| NeverNull.DerefHole | crates/sema/src/lifetime.rs:428-445 | a function returning what it reads through a non-null reference is marked never-null and returns null |
| NullWalker.Walker.WalkStmt | crates/sema/src/lifetime.rs:349-424 | the walk updates its table of locals in place as specified; `AcceptsByPaths` says what the walk finds |
| NullWalker.Walker.MeetWith | crates/sema/src/lifetime.rs:405-407 | what is known on neither path is forgotten, entry by entry |
| NullWalker.FunctionReturnsNonnull | crates/sema/src/lifetime.rs:324-337 | a function passes exactly when the walk of its body finds a return and no return that may be null; over single paths that is `AcceptsByPaths` |
| NullPaths.AcceptsByPaths | crates/sema/src/lifetime.rs:324-424 | a body whose loops can each be left at the end of their body is accepted if and only if some path reaches a return and no path returns a value that the facts of that path alone do not show to differ from null; a path goes around a loop at most once |
| NullPaths.WithoutLoops | crates/sema/src/lifetime.rs:398-409 | bodies without loops always qualify |
| NullPaths.NarrowedIsBest | crates/sema/src/lifetime.rs:591-602 | a comparison with null teaches exactly what holds in all environments that fit what is known and go that way |
| NullPaths.FindMisses | crates/sema/src/lifetime.rs:349-396 | whatever the walk forgets, one path forgets, because of at most one local unknown at the start |
| NullPaths.ReturningLoop | crates/sema/src/lifetime.rs:398-409 | a refused body all of whose paths are in order: its loop body always returns, and the walk takes along what it knew there |
| CtfeBudget.BudgetExact | crates/parser/src/lib.rs:471-482 | a call that succeeds in k steps succeeds with the same value in k steps under every budget of at least k, and under no smaller one |
| CtfeBudget.StmtSame | crates/parser/src/lib.rs:498-559 | the same for statements and environments, through loops, early exits and short-circuits |
| Interpreter.Machine.RunFn | crates/parser/src/lib.rs:471-482 | a call binds its arguments in a fresh environment on the shared budget; an unknown name, a wrong arity or a stray break gives no value, running off the end gives 0 |
| Interpreter.Machine.RunStmt | crates/parser/src/lib.rs:498-559 | statements change one environment and one budget as specified, and terminate; what they mean is `StmtMeans` |
| Interpreter.Machine.RunWhile | crates/parser/src/lib.rs:541-552 | the loop, with break, continue and return |
| Interpreter.Machine.Eval | crates/parser/src/lib.rs:561-616 | expressions cost one step each, wrap at 64 bits, and short-circuit |
| Derivations.CallMeans | crates/parser/src/lib.rs:471-482 | with rules of inference for calls, `if`, `while`, `break`, `continue`, `return`, short-circuits and stores that know no budget: the interpreter finds a value for a call on some budget if and only if a finite derivation gives that value |
| Derivations.StmtMeans | crates/parser/src/lib.rs:498-559 | likewise for a statement, with the way it is left and the environment it leaves |
| Derivations.ExprMeans | crates/parser/src/lib.rs:561-616 | and for an expression in an environment |
| Derivations.FnRuns | crates/parser/src/lib.rs:471-482 | a derivation is found on any budget of at least its number of steps, which are then used up |
| OperatorLaws.BinaryIsLawful | crates/parser/src/lib.rs:588-607 | a binary operator gives a value if and only if the value keeps its law: congruence modulo two to the 64th, quotient and remainder toward zero, the comparison, or the bits one by one; with no such value there is none |
| OperatorLaws.UnaryIsLawful | crates/parser/src/lib.rs:574-577 | and so do negation, complement and logical not |
| Folding.FoldIsParseThenEvaluate | crates/parser/src/lib.rs:338-394 | on all tokens that parse as arithmetic, folding consumes the same tokens and gives what the interpreter gives on the parsed expression; only where the compiler was built with overflow checks does negating the least number stop it instead |
| Folding.AddAgrees | crates/parser/src/lib.rs:338-347 | sums, products and atoms agree with `parse_add`, `parse_mul` and `parse_unary` level by level |
| Folding.InterpreterValue | crates/parser/src/lib.rs:561-616 | given one step per node the interpreter finds the value of arithmetic, with that many steps used |
| PrintedArithmetic.PrintedParses | crates/parser/src/lib.rs:1943-2053 | an expression printed with only the parentheses precedence needs is parsed back |
| PrintedArithmetic.PrintedFolds | crates/parser/src/lib.rs:338-394 | and folded to its value, up to its last token |
| PrintedArithmetic.CallFolds | crates/parser/src/lib.rs:370-388 | a call folds to what the interpreter finds for its arguments, folded and in their order, on five million steps of its own; then the position is behind the call |
| PrintedArithmetic.CallIsArgument | crates/parser/src/lib.rs:370-388 | such calls can be arguments of calls, to any depth |
| PrintedArithmetic.LiteralsFold | crates/parser/src/lib.rs:361-366 | truth values fold to 1 and 0, characters to their codes |
| Folder.Reader.FoldAddSub | crates/parser/src/lib.rs:338-347 | the folder as it runs, moving one position |
| Folder.Reader.FoldMulDiv | crates/parser/src/lib.rs:348-358 | products; division by zero gives up, the overflowing one aborts |
| Folder.Reader.FoldAtom | crates/parser/src/lib.rs:359-394 | numbers, parentheses, calls and negation, which wraps or stops the compiler with its overflow checks |
| TypeLexing.TypeRoundTrips | crates/lsp/src/main.rs:160-185 | the printed text of any printable type, with generics of any depth, lexes, and parses back to the type with nothing left over |
| TypeRoundTrip.KindsRoundTrip | crates/parser/src/lib.rs:1218-1395 | reading the tokens of a printed type gives it back, whatever may follow |
| TypeRoundTrip.QualifiedParses | crates/parser/src/lib.rs:1210-1238 | in front of any printable type every pointer is read with every spelling of its qualifier: none, `mut`, `const` or `constexpr`, each with or without `thread_local` |
| TypeRoundTrip.TypeParses | crates/parser/src/lib.rs:645-657 | brackets that close several generics at once are taken off one by one, however they are paired |
| TypeLexing.LexBody | crates/lexer/src/lib.rs:327-332 | the text of a type lexes to its tokens, its closing brackets paired up as `>>` |
| TypeParser.Parser.ExpectClosing | crates/parser/src/lib.rs:645-657 | expecting `>` at a `>>` rewrites it in place to `>` and does not move |
| TypeParser.Parser.ParseMutness | crates/parser/src/lib.rs:1210-1216 | an optional `thread_local`, then `mut`, `const` or `constexpr` |
| TypeParser.Parser.FoldLength | crates/parser/src/lib.rs:1323-1328 | an array length is folded from the tokens ahead and the position moved behind it |
| TypeParser.Parser.ParseType | crates/parser/src/lib.rs:1218-1238 | the parser on one token list, rewritten in place |
| TypeParser.Parser.ParseNamed | crates/parser/src/lib.rs:1356-1392 | generic arguments are tried, and taken back when they do not parse, splits of `>>` staying |

## Left out

- Types: owning locals hold `String`, `Vec` or owning structs; `own *T`, which generated code nulls when it is moved, is not modelled, nor are aliases, borrow escapes and views.
- Drop pass: `match` expressions, `unsafe` blocks, counting and for-each loops, `propagate` and inline splicing, closures, owning parameters and panics. Their drops depend on evaluation order in code generation or on function-wide flags.
- ExactCondition.ElaborationSafeExactly: covers bodies in which no bare local is bound to another name; `RenamedSafe` and `RenamedFailsAudit` show the equivalence fails with one.
- ExactlyOnce.ExactlyOnceRelease: one direction, for tame bodies; the exact condition, for bodies without renaming, is `ElaborationSafeExactly`.
- CheckerExact.AcceptsExactly: no loops, for which `TwoWalksSuffice` and `NoIterationReadsMovedValue` are what is proved; no statements behind one that always leaves, which the checker walks although no run does; locals declared once, as name resolution numbers them.
- LoopRuns.NoIterationReadsMovedValue: bodies without break and continue; conditions move nothing and read nothing the body gives away; nested loops refill nothing moved before them, which is exactly when the state the checker keeps after them covers skipping them. The three lemmas of `CheckerHoles` show accepted programs without these.
- LoopDesugar.RewrittenRuns: how the temporaries are hoisted is a hypothesis, namely that prefix and rest evaluate as the condition did.
- Indentation.FormatLaysOut: sources that lex and write no character literal as three quotes. On others the formatter still works line by line, but there are no tokens to speak about.
- Spelling.SpelledLexes: prose in block comments has no slash and ends in no star; white space stands behind every token but the last. Identifier characters are those of `LexSpec`.
- Idempotence.IdempotentExactlyWhenClosed: not for sources in which a backslash ends a line inside a literal, or trimming the last line would cut the character off an escape.
- Lexing.Lexer.Tokenize: token kinds only, without spans, lines and columns; a float's value stays its text; identifiers and keywords are one kind, as the keyword is a function of the text. Sources are byte strings; a backslash at the very end makes the original read past its input and is a failure to lex here.
- AnalysisCache.CacheCoherent: an analysis is a function of its input; disk reads, the parse cache, publishing and rendering are not modelled.
- Matching.UnifyExactly: the type to be matched has no generic patterns in it, as types in programs do not.
- TypeKeys.KeyInjective: not for dyn, opaque, variable, associated or generic-pattern types.
- Instantiation.Instances.Drain: the dedup table only; bodies, where-bounds, the supertrait closure and the rewriting of placeholder ids are not modelled.
- GlobalRaces.ReportRaces: starts from each function's direct writes and calls; collecting them from bodies, and message texts, are not modelled.
- InlineRecursion.DetectInlineRecursion: starts from the successor lists.
- NeverNull.NeverNullSound: no jumps, dereferences, closures or arguments; loops only where one walk of the body keeps what was known before it; calls return null or not by their own body.
- NullPaths.AcceptsByPaths: not for a loop whose body always returns; `ReturningLoop` shows why. Paths take either way at a condition, whatever they know.
- Folding.FoldIsParseThenEvaluate: numbers, parentheses, unary minus and `+ - * / %`. Calls of `constexpr` functions are compared with the interpreter (`CallFolds`), but not with a parse; a name followed by `<`, where the parser first tries a generic literal, does not parse here.
- Interpreter.Machine.Eval: dividing the least number by minus one stops the original compiler and is the outcome `Crash`.
- TypeLexing.TypeRoundTrips: no function pointers, `dyn`, `some`, unit as `()`, `_`, const pointers (printed like plain ones, so that only reading them is covered, by `QualifiedParses`), a reference right inside a reference, or negative lengths.
- Type checking, name resolution, code generation beyond the placement of drops, the standard library, the bridge, the driver and the linter are not part of this model.
