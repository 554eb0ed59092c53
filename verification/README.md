# Verified models of the Nauqtype compiler and runtime

Nauqtype is a small compiler with a C runtime that every generated program links
against. This project models the parts whose correctness is not obvious from one
reading, and proves them: the rendering and reading of floating-point numbers, the
move checker, match compilation, the child-process supervisor, shared strings, the
parser, copyability, import loading, and the quoting of Windows command
lines.

`dafny verify dfyconfig.toml` checks everything. Module names follow the parts:

| part | modules |
|---|---|
| floating-point text | `Powers`, `Binary64`, `ShortestDecimal`, `Numerals`, `FloatRenderer`, `NumberText`, `FloatText` |
| move checker | `MoveSyntax`, `MovePaths`, `MoveAnalysis`, `MoveChecker`, `MoveBorrows`, `MoveOutcomes`, `MoveBodies`, `MoveSoundness`, `MoveExactness` |
| match compilation | `MatchSyntax`, `MatchCode`, `MatchEmitter`, `MatchMeaning`, `MatchSwitch`, `MatchPreserved`, `MatchCoverage` |
| child processes | `ProcessTrace`, `OperatingSystem`, `Resources`, `Supervisor`, `ProcessPump`, `ProcessStart`, `ProcessLife` |
| strings and errors | `SharedStrings`, `StringPrograms`, `IoErrors` |
| parser | `ParserSyntax`, `ExpressionGrammar`, `ExpressionRoundTrip`, `ProgramGrammar`, `ProgramPrint`, `ProgramRoundTrip`, `ProgramTokens`, `ProgramUnclear`, `ProgramRules`, `ProgramAccepts`, `ProgramLanguage`, `ParserRaises`, `Parser` |
| whole-program algorithms | `Copyability`, `ImportLoader` |
| Windows command lines | `WindowsQuoting` |

## How each part is modelled

**Floating-point text.** A finite double is the exact value m * 2^e. Reading a decimal
is membership in the double's rounding interval, which is proved equal to
round-to-nearest, ties-to-even (IEEE 754-2019, section 5.12.2) in both directions.
`snprintf` with `%.*e` and `strtod` are parameters: the first prints a nearest p-digit
decimal (either one on a tie), the second rounds correctly.

**Move checker.** The checker is a class whose methods update a dictionary of flags as
`compiler/borrow/core.py` does. Its language gets a path semantics: a list of choices
decides branches, iteration counts, short circuits and arms, and a run is a sequence of
events (read, borrow, consume, bind, store into a field, retire a matched local). Which of
these count as touching a local that was given up is read in three ways: reads, borrows and
consumption (`Plain`), stores into fields as well (`Writes`), and the completion of a match
as well (`Completions`). For every body, what its paths can do to one local is also computed
from its text, exactly, and the checker is compared with that.

**Match compilation.** Source patterns, lowered patterns and the emitted lines of C
are separate; the C has an interpreter in which reading an inactive union member, a
tag that is not there, or a repeated case label has no meaning, and in which a case
without `break` falls through.

**Child processes.** The operating system is a class whose calls answer anything at
all, record what was asked, and may be interrupted any finite number of times. It also
records what the clock answered, which calls failed and which allocations were refused, so
that deadlines and refusals can be held against it. All statements hold for every answer.

**Strings.** A runtime object knows (for the proof only) every live handle and every owner
ever made; a program is any list of operations on numbered string variables and one list.

**Parser.** The grammar of whole programs is a set of functions of the cursor, recovery and
the stopping of the parse included; the parser is a class with one cursor whose methods are
proved equal to them. A printer of types, patterns, statements, audit blocks and items says
what every tree looks like, and parsing is proved to be its inverse; the grammar is also
written down as rules, and whatever is parsed without a report is proved to follow them.

## Findings

Where a promised property is false of the code, the code is kept as it is and the exact
condition is proved.

- `x.f = take(x)` is accepted although it stores into a local that was just given up: the
  target is checked before the value is walked (`compiler/borrow/core.py:84-104`). A match on
  a local, `match x { _ => { take(x); } }`, is accepted although its arm has given `x` up by
  the time the match gives it up (`compiler/borrow/core.py:160-185`).
  `MoveExactness.SelfConsumingWrite` and `MoveExactness.SelfConsumingMatch` show them, and
  `MoveSoundness.StrictnessExact` is the exact condition for both: all paths are safe if and
  only if no reachable stored value consumes its target and no arm that can complete leaves
  the matched local given up.
- Some bodies are refused although every path is safe: a match arm's local is never cleared
  when the arm is entered again by a loop (`compiler/borrow/core.py:168-169`), branches that
  return are joined with those that go on (`compiler/borrow/core.py:105-133`), and a local
  bound again in every arm stays marked (`compiler/borrow/core.py:154-185`).
  `MoveExactness.NeedlessRefusals` shows the three. `MoveBodies.LocalExact` says from the text
  of any body when a complaint about a local is justified, and on bodies without these
  three forms every complaint is: `MoveExactness.ComplaintsExact`.
- A match without refined arms is emitted as a `switch` in which a constructor after a
  catch-all wins over it, the last of several catch-alls wins, a repeated constructor is
  not C, and a scrutinee without a tag (a wildcard-only match on `i32` or `bool`) is not C
  either (`compiler/codegen_c/emitter.py:343-374`). `MatchPreserved.MatchPreservesMeaning`
  is the exact condition.
- The checker does not count a payload-free constructor name below a constructor as
  refinement, so `Some(None)` and `None` pass as exhaustive on `option<option<i32>>`; and a
  match without arms on a type without variants passes too
  (`compiler/types/checker.py:416-449`, `834-839`). `MatchCoverage.AcceptedExhaustiveIff` is
  the exact condition.
- In a pattern, a minus sign followed by something that is not a number makes the parser
  stop with an exception instead of a diagnostic (`compiler/parser/core.py:385-388`).
  `ParserRaises.ProgramRaisesIff` is the exact condition for whole programs: a pattern the
  parser begins stands at such a sign. `ParserRaises.NegatedNameRaises` shows a program, and
  `ParserRaises.PlacesSpare` that a minus sign which is not directly behind an opening
  brace, a parenthesis or a comma after a `match` never stops it, subtraction in particular
  (`ParserRaises.SubtractionParses`).
- A name directly before empty braces is read as a struct literal
  (`compiler/parser/core.py:581-587`), so `if x { }`, `while x { }` and `match x { }` lose
  their block. `ProgramUnclear.RoundTripIff` is the exact condition for whole programs:
  parsing what was printed gives the program back without a report if and only if no
  condition and no scrutinee ends with a bare name before empty braces and imports come
  first. `ProgramUnclear.EmptyBranchUnread` shows a program that is not read back.
- Where the parser and `GRAMMAR.md` differ, the rules in `ProgramRules` follow the parser: the
  arguments of a type may end with a comma (`compiler/parser/core.py:267-272`, `GRAMMAR.md:164`),
  those of a pattern may not (`compiler/parser/core.py:394-399`, `GRAMMAR.md:312`), and a
  `match` needs no arms (`compiler/parser/core.py:362`, `GRAMMAR.md:224`).
- The recovery of statements is never called: there always is a statement
  (`compiler/parser/core.py:276-310`, `Parser.Parser.ParseStmt`).
- A joined Windows command line splits back into its arguments, for every argument list,
  exactly when the quotes in the program name balance (`stdlib/runtime.c:2098-2128`):
  `WindowsQuoting.FaithfulIff`.

## Model

| member | source | states |
|---|---|---|
| Binary64.ReadsAsIffNearest | stdlib/runtime.c:3483-3487 | The rounding interval of a double is exactly round-to-nearest, ties-to-even, for every non-negative real |
| Binary64.ReadsAsUnique | stdlib/runtime.c:3483-3487 | Every real reads as one double only |
| Binary64.ReadIsNearestEven | stdlib/runtime.c:3483-3487 | Correctly rounded reading exists for every real and is the only function that rounds to nearest even |
| ShortestDecimal.NextDecimal | stdlib/runtime.c:3489-3497 | No p-digit decimal lies strictly between one and its upper neighbour, powers of ten included |
| ShortestDecimal.NeighbourSuffices | stdlib/runtime.c:3489-3497 | The comment's claim: if any p-digit decimal reads back, the nearest one or the next one up does, although the interval is asymmetric |
| ShortestDecimal.NextUpIsClosest | stdlib/runtime.c:3489-3497 | When the nearest decimal fails, the next one up is the closest of all that read back |
| ShortestDecimal.SeventeenSuffice | stdlib/runtime.c:3498-3547 | The nearest 17-digit decimal of any positive double reads back, so the search cannot fail |
| ShortestDecimal.NearestExists | stdlib/runtime.c:3505 | A nearest p-digit decimal exists for every positive real, so the requirement on the library can be met |
| FloatRenderer.ParseScientific | stdlib/runtime.c:3501-3528 | Reading mantissa and exponent out of the printed text recovers them for every precision and sign |
| FloatRenderer.WriteDigits | stdlib/runtime.c:3534-3544 | The digit loop leaves the number's digits without trailing zeros and reports both lengths |
| FloatRenderer.CandidateIsShortest | stdlib/runtime.c:3489-3497 | A candidate that reads back when nothing shorter does keeps all its digits, is the shortest, and is the closest of its length |
| FloatRenderer.BothFail | stdlib/runtime.c:3529-3545 | When both candidates fail, no decimal of that length reads back |
| FloatRenderer.Shortest | stdlib/runtime.c:3498-3547 | For every positive double the search ends within 17 digits with the shortest decimal that reads back, closest among those; the failure at its end is unreachable |
| NumberText.ScanIffNumber | stdlib/runtime.c:3613-3639 | The recogniser accepts exactly the number grammar of RFC 8259 section 6 |
| NumberText.ScanSound | stdlib/runtime.c:3613-3639 | An accepted text splits into sign, whole, fraction and exponent of the grammar |
| NumberText.ScanComplete | stdlib/runtime.c:3613-3639 | Every text of the grammar is accepted to its end |
| NumberText.RecogniseNumber | stdlib/runtime.c:3615-3639 | The index loop decides the grammar and never looks past the end |
| NumberText.DenotedReal | stdlib/runtime.c:3613-3639 | The coefficient and exponent read off a number denote the real that weighs each digit by its place, whatever zeros it is written with |
| FloatText.PlacedIsNumber | stdlib/runtime.c:3550-3584 | Every layout of digits and point is a number of the grammar |
| FloatText.PlacedDenotes | stdlib/runtime.c:3550-3584 | The laid-out text denotes exactly the chosen decimal, in all four ranges of the point |
| FloatText.Place | stdlib/runtime.c:3550-3584 | The in-place writer produces that layout within the 40-byte buffer |
| FloatText.ShortestRange | stdlib/runtime.c:3550-3598 | Shortest digits of a finite double number at most 17 and the point lies between -323 and 309 |
| FloatText.PrintedFits | stdlib/runtime.c:3586-3607 | Every text a double prints as has at most 25 characters, whatever its digits, and so fits the buffer of 40 |
| FloatText.StrFromF64 | stdlib/runtime.c:3586-3607 | Every double, zeros, infinities and NaN included, gets its text, which fits the buffer |
| FloatText.F64FromStr | stdlib/runtime.c:3641-3681 | For every number of the grammar, however it is spelled, and the double nearest to the real it denotes (ties to even): None if and only if that double overflows, otherwise that double with the sign written; every other text gives None |
| FloatText.ReadsNearest | stdlib/runtime.c:3641-3681 | Reading any well-formed number gives the double nearest to the real its digits denote, zeros and underflow included |
| FloatText.ReadsNumbersOnly | stdlib/runtime.c:3652-3654 | A text that is no number of the grammar reads as nothing |
| FloatText.RoundTrip | stdlib/runtime.c:3550-3681 | Every finite double, negative zero included, survives printing and reading |
| FloatText.NonFiniteRejected | stdlib/runtime.c:3594-3596 | The texts of infinities and NaN are rejected by the reader |
| FloatText.PrintsInjective | stdlib/runtime.c:3586-3607 | Doubles with the same text are the same double |
| FloatText.NearestPrintedExists | stdlib/runtime.c:3505 | The printing assumption can be met for every double and precision |
| MovePaths.AfterIsMovedAt | compiler/borrow/core.py:212-426 | The running set of moved locals is the positional notion: consumed before and not bound since |
| MovePaths.SafeFromIffSafe | compiler/borrow/core.py:212-426 | Checking events one by one is checking that no event uses a local that is moved at its position |
| MoveAnalysis.LoopEntryIsLeast | compiler/borrow/core.py:428-457 | The loop's entry state is a fixed point, the least closed set, and reached after two turns |
| MoveAnalysis.IfJoins | compiler/borrow/core.py:105-133 | Joining the branch states is the statement's fixed remove-then-add effect |
| MoveAnalysis.WhileProjects | compiler/borrow/core.py:134-153 | Leaving a loop projects onto the locals of its entry and is a fixed effect |
| MoveAnalysis.EffectInBindings | compiler/borrow/core.py:48-210 | Only bound locals are ever marked |
| MoveChecker.SameMoved | compiler/borrow/core.py:453-455 | Two flag dictionaries over the same keys are equal exactly when the same flags are set |
| MoveChecker.MoveState.Clone | compiler/borrow/core.py:15-16 | A copy is a different object with the same flags |
| MoveChecker.BorrowChecker.ProjectState | compiler/borrow/core.py:459-463 | The candidate's flags restricted to the base's keys |
| MoveChecker.BorrowChecker.MergeVisibleStates | compiler/borrow/core.py:465-469 | Flags of either state, on the base's keys |
| MoveChecker.BorrowChecker.MergeStates | compiler/borrow/core.py:471-475 | Flags of either branch, on the base's keys |
| MoveChecker.BorrowChecker.MergeTwoStates | compiler/borrow/core.py:477-481 | Flags of either state, on the keys of both |
| MoveChecker.BorrowChecker.WalkExpr | compiler/borrow/core.py:212-426 | Walking an expression marks exactly what it can consume and reports exactly its diagnostics, in order, whether or not diagnostics are wanted |
| MoveChecker.BorrowChecker.WalkArguments | compiler/borrow/core.py:345-415 | Arguments are walked left to right with the record of borrowed and moved locals; what that reports is exact by MoveBorrows.CallClashes |
| MoveBorrows.CallClashes | compiler/borrow/core.py:335-415 | In one call, conflicting borrows of a local are reported if and only if two reference arguments borrow it and one of the two is mutable, in either order; a move and a borrow, if and only if one argument borrows it and another is the local itself by value, in either order |
| MoveBorrows.BlockReports | compiler/borrow/core.py:28-426 | The same for whole bodies: reported if and only if some call in the body does it, wherever it is nested |
| MoveBorrows.BlockBreaches | compiler/borrow/core.py:212-426 | A borrow outside a call, a move out of a field and a callee that is no name are reported if and only if the body has one |
| MoveChecker.BorrowChecker.CheckStmt | compiler/borrow/core.py:48-210 | A statement's state change is a fixed remove-then-add, independent of the diagnostics flag; the given state is left alone |
| MoveChecker.BorrowChecker.CheckBlock | compiler/borrow/core.py:28-46 | The same for blocks |
| MoveChecker.BorrowChecker.LoopConditionEntryState | compiler/borrow/core.py:428-457 | The fixpoint search stops at the least closed entry state after at most two evaluations of condition and body, nested loops included, and reports nothing |
| MoveChecker.BorrowChecker.Check | compiler/borrow/core.py:23-26 | Checking a body yields its diagnostics and the final marks; which diagnostics those are is exact by MoveBorrows.BlockReports, MoveBorrows.BlockBreaches and MoveExactness.ComplaintsExact |
| MoveBodies.LocalExact | compiler/borrow/core.py:28-481 | For every body, local and reading of "touch": some path touches the local after it was given up if and only if the body's text says so |
| MoveBodies.PathsExact | compiler/borrow/core.py:28-481 | All paths of a body are safe if and only if its text shows no owned local that some run touches while it is given up |
| MoveBodies.LeftExact | compiler/borrow/core.py:28-210 | A local is given up at the end of some completed path if and only if the body's text says so; branches that return leave nothing |
| MoveSoundness.ExprExact | compiler/borrow/core.py:212-426 | For every expression the marks are exactly what some run gives up, and a local is complained about if and only if some run touches it while it is given up, short circuits included |
| MoveSoundness.StmtAccepted | compiler/borrow/core.py:48-210 | A statement that earns no diagnostic touches no local that may be given up, on any run, and what it leaves given up is marked; loops of any length included |
| MoveSoundness.StrictnessExact | compiler/borrow/core.py:28-481 | For accepted bodies, in each reading of "touch": every path is safe if and only if the guard holds, which reads and borrows do not need |
| MoveSoundness.MoveSoundness | compiler/borrow/core.py:28-481 | If nothing is reported for a well-typed body then on every path no owned local is read, borrowed or consumed after it was given up and before it is bound again, and what has moved at the end is marked; stores into fields and completed matches are in MoveSoundness.StrictnessExact |
| MoveExactness.MarkIffConsumed | compiler/borrow/core.py:212-426 | A local is marked by an expression exactly when some path through it consumes the local, whether or not the expression earns diagnostics |
| MoveExactness.ComplaintsExact | compiler/borrow/core.py:48-210 | On bodies without the needlessly refused forms, the checker complains about a local if and only if some path touches it after it was given up |
| MoveExactness.SelfConsumingWrite | compiler/borrow/core.py:84-104 | An accepted body that stores into a local it has given up |
| MoveExactness.SelfConsumingMatch | compiler/borrow/core.py:160-185 | An accepted match whose arm gives the matched local up before the match does, and the same arm with a return, which is safe |
| MoveExactness.NeedlessRefusals | compiler/borrow/core.py:105-185 | Three refused bodies all of whose paths are safe |
| MatchSyntax.ShortOfQualified | compiler/codegen_c/emitter.py:521-530 | The last piece of a qualified variant name is the variant's own name |
| MatchSyntax.LowerKeepsMeaning | compiler/ir/core.py:521-546 | A pattern that lowers matches the same values with the same bindings, and stays well formed |
| MatchSyntax.LowersIff | compiler/ir/core.py:521-546 | A pattern lowers if and only if each name in it is a variant or a known local |
| MatchEmitter.ShortTellsApart | compiler/codegen_c/emitter.py:582-588 | Two variants of a type never share a tag |
| MatchEmitter.Emitter.EmitPatternBindings | compiler/codegen_c/emitter.py:397-408 | Appends exactly the declarations of the pattern, depth first |
| MatchEmitter.Emitter.EmitRefinedMatch | compiler/codegen_c/emitter.py:376-384 | Appends exactly the if-chain of the arms |
| MatchEmitter.Emitter.EmitMatch | compiler/codegen_c/emitter.py:343-374 | Uses a fresh temporary and appends the chain or the switch with the last catch-all as default |
| MatchMeaning.ConditionMeaning | compiler/codegen_c/emitter.py:386-395 | On the representation of any value of the type, the emitted condition is true exactly when the pattern matches, and never reads a member before its tag was tested |
| MatchMeaning.DeclsMeaning | compiler/codegen_c/emitter.py:397-408 | Under a matched pattern the declarations read only active members and bind exactly the pattern's bindings |
| MatchMeaning.ChainMeaning | compiler/codegen_c/emitter.py:376-384 | The if-chain runs the first matching arm, once, or none |
| MatchSwitch.SwitchMeaning | compiler/codegen_c/emitter.py:350-374 | The switch runs the arm of the value's tag, else the last catch-all; it has no meaning on a value without a tag or with a repeated constructor |
| MatchSwitch.AtCaseOfCases | compiler/codegen_c/emitter.py:352-366 | A tag's label leads to the body of the first arm for its variant |
| MatchPreserved.CatchAllTooEarly | compiler/codegen_c/emitter.py:352-373 | A catch-all before a constructor arm: source and switch run different arms |
| MatchPreserved.SecondCatchAll | compiler/codegen_c/emitter.py:352-373 | Two catch-alls: source and switch run different arms |
| MatchPreserved.NoTagToSwitchOn | compiler/codegen_c/emitter.py:351 | Without refined arms, a scrutinee without variants makes the switch meaningless |
| MatchPreserved.MatchPreservesMeaning | compiler/codegen_c/emitter.py:343-415 | The emitted code runs the source's first matching arm with its bindings on every value, if and only if some lowered arm is refined or the type has variants and the arms are in order |
| MatchCoverage.MatchChecker.CheckPattern | compiler/types/checker.py:792-832 | Silent exactly on well-formed patterns, whose bindings it records with their types |
| MatchCoverage.MatchChecker.CheckMatch | compiler/types/checker.py:416-449 | Silent exactly on acceptable matches |
| MatchCoverage.MatchingIsWellFormed | compiler/types/checker.py:792-832 | A pattern that matches some value of the type is well formed, so it earns no diagnostic |
| MatchCoverage.AcceptsCatchAll | compiler/types/checker.py:416-449 | A match each of whose arms can match, with a wildcard or a binding for an arm, is accepted |
| MatchCoverage.AcceptsFlat | compiler/types/checker.py:416-449 | A match on an option, a result or an enum whose arms can match and go no deeper than the variant is accepted whenever it takes every value |
| MatchCoverage.BindersAreBindings | compiler/types/checker.py:811-818 | The names and types recorded for an arm are those its pattern binds at run time |
| MatchCoverage.VariantNamesAre | compiler/types/checker.py:874-881 | The variants asked for are exactly the variants of the type |
| MatchCoverage.AcceptedExhaustiveIff | compiler/types/checker.py:416-449 | An accepted match takes every value if and only if it has a catch-all or covers every head below every variant |
| MatchCoverage.AgreementExhausts | compiler/types/checker.py:416-449 | Where checker and emitter agree on refinement, accepted matches on options, results, enums and integers are exhaustive |
| MatchCoverage.NestedNoneLeavesAHole | compiler/types/checker.py:834-846 | Where they disagree: an accepted match with a value no arm takes |
| ProcessTrace.Step | stdlib/runtime.c:2206-2260 | What one more system call does to everything known about a child |
| Supervisor.RetryInterrupted | stdlib/runtime.c:2210-2211 | Interrupted attempts change nothing that is known and count as no call |
| Supervisor.ProbePid | stdlib/runtime.c:2206-2219 | Looks without reaping; ECHILD gives the number up |
| Supervisor.ReapPid | stdlib/runtime.c:2221-2226 | Success and ECHILD give the number up |
| Supervisor.KillAnchored | stdlib/runtime.c:2228-2232 | Signals only a child that has just been probed; a missing process counts as killed |
| Supervisor.LegacyWait | stdlib/runtime.c:2234-2260 | A child without a group is signalled safely and reported live only if it could not be reaped, after at most twelve calls |
| Supervisor.SignalOwned | stdlib/runtime.c:2819-2836 | Success means group and child were really killed after a fresh probe; an observed exit makes it the final signal |
| Supervisor.SignalTerminal | stdlib/runtime.c:2838-2845 | The final signal comes after the observed exit |
| Supervisor.CleanupReap | stdlib/runtime.c:2862-2865 | Reaps only after the final signal |
| Supervisor.CleanupAnchor | stdlib/runtime.c:2877-2899 | Returns normally only when no unreaped child remains, after at most eighteen calls; otherwise the program stops |
| ProcessPump.ReadOutput | stdlib/runtime.c:2933-2968 | One read appends exactly what came in if it fits the combined limit; captured plus remaining stays the same while draining |
| ProcessPump.FeedInput | stdlib/runtime.c:3083-3097 | What was written is a prefix of the input |
| ProcessPump.MeasureQueues | stdlib/runtime.c:3039-3047 | Captured plus both queues is within the limit, and no subtraction goes below zero |
| ProcessPump.CheckDeadline | stdlib/runtime.c:3017-3026 | Reads the clock once and records the answer; expired if and only if the answer is at or past the deadline; the wait reaches the deadline or ten milliseconds and overshoots by less than one |
| ProcessPump.Observe | stdlib/runtime.c:3011-3034 | When no call fails, an unsignalled child is signalled in this turn if and only if its exit was just observed, the run is cancelled, or the clock read in this turn is at or past the deadline; it is marked timed out or cancelled exactly then and only if it had not exited |
| ProcessPump.SignalOnce | stdlib/runtime.c:3027-3034 | One signal a run; an observed exit wins over deadline and cancellation |
| ProcessPump.Finish | stdlib/runtime.c:2980-3004 | Reaps, reports the exit code or 128 plus the signal, and hands over exactly the captured bytes |
| ProcessPump.Turn | stdlib/runtime.c:3011-3099 | One turn keeps the ledger and the child's safe history whatever each call answers; it signals only with cause and, when no call fails, whenever there is cause |
| ProcessPump.Pump | stdlib/runtime.c:3006-3100 | The ledger holds at every turn of every run; completion means collected, reaped and all descriptors closed; an outcome marked timed out means the clock was read at or past the deadline in this run, one marked cancelled that the run was, and every signal has one of the three causes; a failure is explained by a call that failed, a refused allocation or too much output |
| ProcessStart.CheckEnvironment | stdlib/runtime.c:3160-3176 | Accepts exactly environments whose entries all have keys and no two the same |
| ProcessStart.EnvKeyExact | stdlib/runtime.c:3108-3118 | The key is the one position of the first equals sign behind a valid name, and zero if and only if there is none |
| ProcessStart.ReplacedIff | stdlib/runtime.c:3120-3131 | An inherited entry is replaced if and only if some requested one sets the same name |
| ProcessStart.KeptExact | stdlib/runtime.c:3184-3223 | Exactly the inherited entries whose name no requested one sets are kept, in order, so no name occurs twice |
| ProcessStart.MakePipe | stdlib/runtime.c:2797-2805 | Whatever fails, the pair lists exactly the ends still open |
| ProcessStart.BuildVectors | stdlib/runtime.c:3184-3223 | Whatever allocation fails, what is reported is exactly what is held; complete vectors keep the inherited entries that are not replaced, by reference and in order |
| ProcessStart.OpenPipes | stdlib/runtime.c:3233-3240 | Opens the pipes the request needs; what is listed is what is open |
| ProcessLife.ForkChild | stdlib/runtime.c:3241-3263 | From the fork on the state answers for the child |
| ProcessLife.Launch | stdlib/runtime.c:3241-3269 | The parent's ends move to the state or stay listed |
| ProcessLife.Start | stdlib/runtime.c:3148-3284 | Refused as invalid if and only if the request's shape or its environment is; refused for memory or a system error only after an allocation that was refused, a size over the limit or a call that failed; a refused start leaves no descriptor, block or child, whichever step failed; a successful one leaves the state, its input copy and up to three pipe ends; invalid requests touch nothing |
| ProcessLife.Drop | stdlib/runtime.c:2877-2906 | Gives back child, descriptors and memory |
| ProcessLife.Wait | stdlib/runtime.c:3286-3304 | The outcome is exactly what the child wrote, within the limit, and is marked timed out only if the clock was read at or past the deadline in this run; a failure has its cause on record; the handle is used up and nothing remains |
| ProcessLife.Terminate | stdlib/runtime.c:3306-3318 | The handle stays usable on success and is gone after a failure, which has its cause on record; on success the child has been signalled |
| ProcessLife.AnyRun | stdlib/runtime.c:3139-3318 | In every run of a start and any later calls, whatever each system call answers: each SIGKILL follows a fresh probe and none a reap or ECHILD, no reap precedes the final signal, and no child, descriptor or modelled block leaks; capture buffers and outcome strings are not on the modelled heap |
| SharedStrings.SharesWithout | stdlib/runtime.c:631-645 | Giving one handle up lowers exactly its owner's count |
| SharedStrings.NoShares | stdlib/runtime.c:631-645 | A count is zero exactly when nobody shares the owner |
| SharedStrings.Growth | stdlib/runtime.c:88-93 | The capacity reaches what is needed, at least doubles or hits the limit, and no step overflows |
| SharedStrings.ListCapacity | stdlib/runtime.c:95-106 | Succeeds exactly when the size in bytes fits, and then has room |
| SharedStrings.StringRuntime.Take | stdlib/runtime.c:182-193 | A new owner counts one handle; on failure nothing changes |
| SharedStrings.StringRuntime.Clone | stdlib/runtime.c:572-579 | One more handle and one more count; a full count stops the program |
| SharedStrings.StringRuntime.Slice | stdlib/runtime.c:3334-3354 | The bytes between the bounds, shared; none exactly when out of range |
| SharedStrings.StringRuntime.Drop | stdlib/runtime.c:631-647 | Storage is freed exactly when the last handle goes |
| SharedStrings.StringRuntime.Concat | stdlib/runtime.c:1002-1018 | The two texts in new storage, or none exactly when the size is over the limit or an allocation was refused; every handle's bytes are kept |
| SharedStrings.StringRuntime.Join | stdlib/runtime.c:1020-1045 | All texts of the list in order, in new storage, or none exactly when the size is over the limit or an allocation was refused |
| SharedStrings.StringRuntime.Push | stdlib/runtime.c:911-930 | Moves a handle to the next place of the list's storage, which is there, or fails exactly when the list is full, the text is over the limit or an allocation was refused; no count changes |
| SharedStrings.StringRuntime.Get | stdlib/runtime.c:936-947 | A further handle on the item, or none out of range |
| SharedStrings.StringRuntime.Replace | stdlib/runtime.c:949-966 | Swaps handles without a count change, or gives the rejected one up |
| SharedStrings.StringRuntime.Pop | stdlib/runtime.c:968-980 | Moves the last handle out |
| SharedStrings.StringRuntime.DropList | stdlib/runtime.c:982-995 | Gives every item up once; of the owners there were, exactly those that no live handle shares any more have been freed |
| SharedStrings.StringRuntime.FreedUnshared | stdlib/runtime.c:631-647 | An owner ever made has been freed if and only if no live handle shares it |
| StringPrograms.RunProgram | stdlib/runtime.c:177-1045 | Any program over shared strings and a list shows exactly what it would with copied values, or stops, and then for one of the causes a value program can name: a count that is full, a size over the limit, a refused allocation; counts equal live handles, and of the owners it made exactly those shared by no variable and no item have been freed, each once |
| StringPrograms.Step | stdlib/runtime.c:572-1045 | Each operation refines its operation on plain values |
| StringPrograms.FreedUnshared | stdlib/runtime.c:631-647 | At any point of a program, an owner it made has been freed if and only if no variable and no item shares it |
| StringPrograms.NothingLeaks | stdlib/runtime.c:631-647 | When every handle has been given up, the owners freed are the owners ever made, each once |
| StringPrograms.RunAndRelease | stdlib/runtime.c:177-1045 | Any program, followed by giving up its list and its variables, frees every owner it made exactly once |
| IoErrors.CopyText | stdlib/runtime.c:206-213 | A string copy is two blocks that hold the text, or none |
| IoErrors.MakeIoErr | stdlib/runtime.c:327-381 | Out of memory if and only if an allocation was refused, and then everything acquired is given back; too long if and only if some text is; on success exactly the error's strings are held, and reading each back gives its own text: the message, the kind, the operation and the paths there are |
| ExpressionRoundTrip.Parses | compiler/parser/core.py:404-522 | A printed tree at any level of the ladder, followed by a token that stops the level and does not open a struct literal behind a bare name, parses to the tree and consumes exactly its tokens |
| ExpressionRoundTrip.ParsesSpine | compiler/parser/core.py:407-453 | Operators of the level itself may follow and associate to the left |
| ExpressionRoundTrip.ParseInvertsPrint | compiler/parser/core.py:404-522 | Parsing the minimally parenthesised tokens of any expression gives it back without a report |
| ExpressionRoundTrip.PrintInjective | compiler/parser/core.py:404-522 | Different trees print differently |
| Parser.Parser.ParseExpr | compiler/parser/core.py:404-405 | The cursor-moving parser yields the grammar function's tree, position and reports |
| Parser.Parser.ParseBinary | compiler/parser/core.py:407-453 | The same for each rung |
| Parser.Parser.ParsePostfix | compiler/parser/core.py:466-486 | The same for calls and field accesses |
| Parser.Parser.ParsePrimary | compiler/parser/core.py:488-533 | The same for primaries, struct literals by look-ahead, and recovery |
| Parser.Parser.ParsePattern | compiler/parser/core.py:381-402 | The grammar's pattern, cursor and reports, or a stop exactly where the grammar has one |
| Parser.Parser.ParseTypeExpr | compiler/parser/core.py:251-275 | The same for types, whose argument lists may end in a comma |
| Parser.Parser.ParseStmt | compiler/parser/core.py:288-310 | The same for statements, told apart by looking ahead; there always is one, so the recovery of statements is never needed; what they parse to is ProgramRoundTrip.StmtReads |
| Parser.Parser.ParseMatchStmt | compiler/parser/core.py:357-371 | The same for matches with their arms |
| Parser.Parser.ParseBlock | compiler/parser/core.py:276-286 | The same for blocks, however malformed |
| Parser.Parser.ParseAudit | compiler/parser/core.py:112-156 | The same for audit blocks with their three clauses |
| Parser.Parser.ExpectClauseName | compiler/parser/core.py:158-203 | Misplaced clauses are skipped as the grammar says, and skipping ends |
| Parser.Parser.ParseItem | compiler/parser/core.py:42-71 | The same for items; none where a token begins none |
| Parser.Parser.SynchronizeItem | compiler/parser/core.py:535-539 | Recovery stops at the next item or the end |
| Parser.Parser.Parse | compiler/parser/core.py:18-40 | Every valid token list yields the grammar's program and reports and is read to its end marker, unless the grammar stops; the parser stops exactly then; what a program parses to is ProgramUnclear.RoundTripIff |
| ProgramRoundTrip.TypeReads | compiler/parser/core.py:251-275 | A printed type, borrowed and with arguments, parses to itself and consumes exactly its tokens |
| ProgramRoundTrip.PatternReads | compiler/parser/core.py:381-402 | The same for patterns: wildcards, numbers with their sign, names, variants with arguments |
| ProgramRoundTrip.StmtReads | compiler/parser/core.py:276-371 | The same for every statement in which no condition and no scrutinee ends with a bare name before empty braces: bindings, assignments, conditions with each branch in its place, loops, matches with their arms in order, returns |
| ProgramRoundTrip.AuditReads | compiler/parser/core.py:112-203 | The same for audit blocks, each clause with its own names |
| ProgramRoundTrip.ItemReads | compiler/parser/core.py:42-111 | The same for items: functions with signature, audit block and body, types, enums, imports, public or not |
| ProgramTokens.ProgramTokensValid | compiler/parser/core.py:18-40 | Printing gives tokens such as the lexer delivers: one end marker, digits in every number |
| ProgramUnclear.ProgramReads | compiler/parser/core.py:18-40 | A printed program without a bare name before empty braces is read back whole, with one report for each import that comes after something else and no other |
| ProgramUnclear.Grows | compiler/parser/core.py:488-533 | Whatever comes behind a printed expression, none of its struct literals is lost |
| ProgramUnclear.Swallows | compiler/parser/core.py:581-587 | An expression that ends with a bare name is never read as itself before empty braces |
| ProgramUnclear.RoundTripIff | compiler/parser/core.py:18-587 | For every program a tree can hold: parsing what was printed gives it back without a report if and only if no condition and no scrutinee ends with a bare name before empty braces and imports come first |
| ProgramUnclear.EmptyBranchUnread | compiler/parser/core.py:340-349 | A function whose body is `if x { }` is not read back, whatever its names |
| ProgramAccepts.StmtDerives | compiler/parser/core.py:276-371 | A statement read without a report: its tokens are written for it by the rules, braces, semicolons and separators included, each in its place |
| ProgramAccepts.ItemDerives | compiler/parser/core.py:42-203 | The same for items with their audit blocks |
| ProgramLanguage.AcceptedByRules | compiler/parser/core.py:18-587 | Whatever token list is parsed without a report is written by the rules of the grammar for exactly the tree that comes out, to the last token, with imports first |
| ProgramLanguage.AcceptedReprints | compiler/parser/core.py:18-587 | Every accepted program can be printed, and parsing that gives the same program if and only if no condition and no scrutinee has come to end with a bare name before empty braces |
| ParserRaises.ProgramRaisesIff | compiler/parser/core.py:381-402 | A whole program stops the parse if and only if a pattern the parser begins stands at a minus sign that no number follows; such a sign comes after a match, directly behind an opening brace, a parenthesis or a comma |
| ParserRaises.PlacesSpare | compiler/parser/core.py:357-402 | Minus signs in other places never stop it |
| ParserRaises.AfterExpr | compiler/parser/core.py:404-453 | After any expression, even a malformed one, the cursor is not at a minus sign |
| ParserRaises.NegatedNameRaises | compiler/parser/core.py:385-388 | Any program that begins like `fn f() -> T { match x { -y`, whatever the names and whatever follows, stops it |
| ParserRaises.SubtractionParses | compiler/parser/core.py:439-445 | A program that subtracts a name is read to its end |
| Copyability.CopyEquations | compiler/types/checker.py:195-222 | Structural copyability satisfies its equations for every kind of type |
| Copyability.LeastFixedPoint | compiler/types/checker.py:195-222 | It is contained in every set closed under those equations |
| Copyability.ReachedWhileVisiting | compiler/types/checker.py:211-213 | A type met while it is being visited is not copyable, so caching on the way is exact |
| Copyability.RecursiveIsNotCopy | compiler/types/checker.py:211-213 | Recursive types are not copyable |
| Copyability.CopyabilitySearch.Inner | compiler/types/checker.py:199-222 | The memoised search answers exactly, even in mid-search |
| Copyability.ComputeCopyability | compiler/types/checker.py:195-229 | The table is exact and has every declared name, whatever the order of declarations |
| Copyability.LookupsAreExact | compiler/types/checker.py:35-46 | Later lookups decide copyability |
| Copyability.OrderIndependent | compiler/types/checker.py:781-792 | Any two declaration orders give the same answers |
| Copyability.CopyIffNothingRefutes | compiler/types/checker.py:195-229 | A name is copyable exactly when no path of declarations from it meets a list or an undeclared name or comes back on itself |
| ImportLoader.ProjectLoader.LoadModule | compiler/project/core.py:51-99 | The walk keeps its invariant: the modules being loaded form a walk, finished ones have all imports loaded |
| ImportLoader.ProjectLoader.Load | compiler/project/core.py:37-49 | A cycle is reported exactly when the reachable import graph has one; without one the order lists each reachable module once, after all it imports; missing modules are reported exactly |
| ImportLoader.PositionsFall | compiler/project/core.py:93-99 | Along a walk, positions in the load order fall |
| WindowsQuoting.QuotedFits | stdlib/runtime.c:2062-2065 | The quoted form and its terminator fit twice the length and three |
| WindowsQuoting.QuoteInto | stdlib/runtime.c:2057-2094 | The backslash loops write exactly the quoted form inside the buffer |
| WindowsQuoting.JoinWindowsCommand | stdlib/runtime.c:2098-2128 | The command line; none exactly when an allocation was refused, and then everything is given back |
| WindowsQuoting.ScanEscaped | stdlib/runtime.c:2066-2093 | Reading an escaped argument by the Microsoft C runtime's rules restores it |
| WindowsQuoting.RoundTrip | stdlib/runtime.c:2036-2128 | Splitting the joined command line gives back the arguments after the program name |
| WindowsQuoting.FaithfulIff | stdlib/runtime.c:2098-2128 | For all argument lists, exactly when the quotes in the program name balance |

## Left out

- MatchCoverage.AgreementExhausts: one direction, under the agreement of the two refinement tests; the exact condition without it is MatchCoverage.AcceptedExhaustiveIff.
- Parser.Parser.Parse: spellings of a number behind a minus sign other than plain digits, which Python's `int` reads too (signs, blanks and underscores in a token's text), count as no number here; spans are dropped.
- ProgramUnclear.RoundTripIff: speaks of programs in the printer's spelling; that trailing commas and redundant parentheses are accepted wherever the rules have them is not proved, only (ProgramLanguage.AcceptedByRules) that nothing else is.
- Parser.Parser.ParseBinary: the six functions of the binary ladder are one method indexed by the rung.
- MoveExactness.ComplaintsExact: requires a body without the three needlessly refused forms, without a stored value that consumes its target, and with named callees only; for other bodies MoveBodies.LocalExact says which complaints are justified, but not which are made.
- ProcessPump.Pump: a call takes a number of turns and may be left pending, because nothing forces a child to end; interruptions of a system call are finitely many; signal masks around writes and the heap blocks of the capture buffers are not modelled.
- ProcessLife.Start: the child's side after the fork (`dup2`, `chdir`, `execve`) is one report from the exec pipe; byte contents of the copied vectors are not modelled, only which entries there are.
- SharedStrings.StringRuntime.Push: a list's storage is its sequence of handles and a capacity that is at least its length; its own heap block is not modelled, and C strings' terminators only as room in the buffer.
- IoErrors.MakeIoErr: the order of the size checks among themselves is not distinguished, they all give the same error; terminators are room in the buffer.
- FloatText.F64FromStr: copying to the stack or heap buffer and switching the locale around library calls; that the library consumes a whole number is the requirement on it.
- MoveChecker.BorrowChecker.Check: an absent else branch is an empty block, parameter types are resolved into the call, and spans and message texts are dropped.
- MoveSoundness.StrictnessExact: exclusivity of a borrow against a move hidden inside a nested call's argument, which the checker does not look for.
- Copyability.LookupsAreExact: names of builtin generic types are excluded, because the table is not seeded with them.
- MatchEmitter.Emitter.EmitMatch: arm bodies are one line each, types of declarations and the mangling of names are not spelled out.
- WindowsQuoting.RoundTrip: the program name is split off by the documented rule (quotes toggle, backslashes mean nothing); the argument rules are those of the Microsoft C runtime since 2008.
- The rest of the runtime: files, directories, clocks and streams, mostly library calls; clone and drop pairs of result and option types, which repeat the string case.
- The rest of the compiler: lexing, name resolution, type checking of expressions, lowering outside patterns, C emission outside matches.
