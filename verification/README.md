# Iron analyzer: a verified model

Iron's semantic analyzer (`src/analyzer/`) is a set of small static analyses and graph algorithms, and
its grammar scripts (`scripts/`) hold a general recognizer. Each makes a claim about every run of a
program, every path, every graph or every grammar. This project models them in Dafny and proves those
claims. `dafny verify dfyconfig.toml` checks everything.

## How the parts fit together

* **Flow analyses.** `IronCore` is the part of the syntax tree the flow analyses walk, with a path
  semantics: a run of a statement is a trace of events and the way control leaves it (normal, return,
  break, continue), with every condition free. Definite assignment (`InitCheck`, `InitSound`,
  `InitExact`, `InitLimits`, `InitWalker`), await-once (`AwaitOnce`, `AwaitSound`, `AwaitExact`,
  `AwaitPlaces`, `AwaitLimits`, `AwaitWalker`) and surely-awaited spawns (`SurelyAwaited`, `SurelyExact`,
  `SurelyAccepts`) are proved against it. The walks over mutable state are classes whose methods equal a function on states; the
  theorems are about the function. `Programs` has runs of given programs.
* **Global initialization.** `Graph` has paths, cycles and orders. `DfsOrder` and `DfsSearch` are the
  iterative depth-first search and `PostOrder` the plain recursion it computes; `KahnSort` is the sort at name
  resolution; `GlobalDeps` and `GlobalDepWalk` are the two ways dependencies are found, and `GlobalRuns` is
  what evaluating an initializer can read; `InitOrder` composes all of it.
* **Grammar scripts.** `Grammar` defines derivations of token spans and left recursion; `Recognizer` is
  the memoized recognizer and `Attempts` how far a partial derivation gets; `Derivation` and `Deriver` are the derivation reader.
* **Closures.** `Capture` and `CaptureWalker` relate capture sets to scope lookup, `FreeNames` and
  `CaptureOrder` to free names and their first uses; `ParamEscape` is the in-place fixpoint of escaping
  parameters and `EscapeMeaning` what it means for a parameter to escape.
* **Lists.** `ListHeap` is a heap of list buffers in which growing a list frees its old buffer and dropping
  a value frees all it owns; `ListOwnership` is the syntactic check; `ListRuns` runs programs, step by step;
  `ListCopy` is what `copy()` and `take()` give.
* **Smaller exact algorithms.** `Typo` (bounded edit distance and the best name), `Effects` (transitive
  I/O and global writes), `NoCopy` (search of a recursive type). `Options` and `Sizes` are shared helpers.

## What turned out false, and exactly when it holds

Where the code does not do what is claimed for it, the code is modelled as it is, a lemma gives the
program or input, and the condition is part of the theorem.

* Definite assignment does not see a compound assignment, a read in an assignment target, an enum payload,
  the elif arms of an `if` without `else`, or a second binding of a name
  (`InitLimits`: `CompoundAssignmentMissed`, `PlaceTargetMissed`, `EnumPayloadMissed`,
  `ElifWithoutElseMissed`, `ReusedNameMissed`), nor, after a note, anything beyond 256 variables
  (`CapMissed`). It reports reads in dead code (`DeadReadSpurious`), reads of an outer variable after an
  inner scope declared one of the same name (`OuterReadSpurious`), and reads after a match that is only
  an else (`ElseOnlySpurious`). `DefiniteAssignmentExact` is an if-and-only-if under conditions on
  the syntax that leave all of these out.
* Await-once misses an await in a while condition, a second elif condition, `val h = await h` in an inner
  block, and one in a callee, `rc`, `heap`, `is`, slice, enum payload or assignment target
  (`WhileConditionMissed`, `ElifConditionsMissed`, `SelfInitMissed`, `OperandAwaitMissed`,
  `TargetAwaitMissed`). It does not stop at a `break` or `continue`: a reassignment or a return behind one
  hides the await before it (`BreakMissed`, `BreakBeforeReturnMissed`). A pattern binder that assigns its
  own name clears the outer handle (`PatternBinderMissed`). `AwaitOnceSound` holds for the bodies in `Fit`,
  which leaves these shapes out; breaks and continues are allowed where nothing behind them assigns the
  handle or always returns.
* Await-once reports awaits no run repeats: in a loop whose body always returns or breaks
  (`ReturningLoopSpurious`, `BreakingLoopSpurious`), behind a branch that awaits and breaks
  (`JumpingArmSpurious`), of a loop variable or pattern binder (`LoopVariableSpurious`,
  `PatternAwaitSpurious`), and of two places with the same root (`PlaceAwaitSpurious`). Without such
  shapes (`Sharp`) it is exact: `AwaitOnceExact` is an if-and-only-if.
* The surely-awaited test does not look for exits inside a bare block (`NestedExitNotAwaited`), and it goes by
  the name: it says yes when an inner block awaits another handle of the same name (`ShadowedNotAwaited`) and
  when the name was assigned another handle before the await (`ReassignedNotAwaited`). A yes is right exactly
  when no escape is left: the ways to leave the rest of the block with the spawned handle not awaited, computed
  by recursion on the syntax (`EscapesExact`, `SurelyAwaitedExact`).
* The first ordering of globals ignores a possible self-read and then the search reports a cycle
  (`InitOrder.SoftSelfRead`). When the first ordering places all globals, the search agrees with it if and
  only if no global reads itself.
* The list check sees a list exactly when some list lies within 17 objects (`OwnsExact`, `DeepListMissed`);
  the nocopy search looks at most 64 levels deep (`DeepMissed`).
* The 64-round limit of the escape fixpoint is harmless for up to 64 tracked parameters: each round before the
  last adds one. With 65 it is not: a chain of functions declared in the order of the calls loses its first
  parameter (`RoundsFallShort`).

## Model

| member | source | states |
|---|---|---|
| InitSound.DefiniteAssignmentSound | src/analyzer/init_check.c:245-534 | In every run of a body, every read of the variable before its binding is assigned is among the reports (one binder of the name, no use where the walk does not look, at most 256 variables declared without a value). |
| InitExact.DefiniteAssignmentExact | src/analyzer/init_check.c:325-510 | A read is reported if and only if some run reaches it before assignment, for bodies without unreachable statements, with one binder of the name, no use of the name outside its scope or where the walk does not look, and at most 256 variables declared without a value. |
| InitExact.Reach | src/analyzer/init_check.c:245-534 | If the walk leaves a variable unset at the end of a statement it can leave normally, some run ends there with the variable unset. |
| InitExact.Witness | src/analyzer/init_check.c:245-534 | From each report, a run with that early read is constructed. |
| InitWalker.CheckFunction | src/analyzer/init_check.c:538-549 | The walk over the mutable flag array reports exactly what the theorems speak about, and gives the cap note if and only if the statements it walks declare more than 256 variables without a value. |
| InitCheck.CapExact | src/analyzer/init_check.c:265-283 | The note is given if and only if the statements the walk visits declare more than 256 variables without a value. |
| InitWalker.InitCheckCtx.CheckStmtInit | src/analyzer/init_check.c:245-534 | One statement: flags, names, `has_return`, cap note and reports after it, as a function of those before. |
| InitWalker.InitCheckCtx.CheckExprUses | src/analyzer/init_check.c:122-241 | Reports exactly the unset tracked identifiers in the parts that are walked; nothing else changes. |
| InitWalker.InitCheckCtx.CheckArms | src/analyzer/init_check.c:343-384 | Branch after branch from the same saved flags, intersecting the flags of those that do not return. |
| InitWalker.IntersectAssignedPair | src/analyzer/init_check.c:106-110 | Elementwise conjunction of the first `count` flags; the rest stays. |
| InitLimits.CompoundAssignmentMissed | src/analyzer/init_check.c:295-304 | `var x; x += 1` reads x unassigned in a run and is not reported. |
| InitLimits.PlaceTargetMissed | src/analyzer/init_check.c:295-304 | `var x; x.f = 1` reads x unassigned and is not reported. |
| InitLimits.EnumPayloadMissed | src/analyzer/init_check.c:122-241 | A read in an enum payload is not reported. |
| InitLimits.ElifWithoutElseMissed | src/analyzer/init_check.c:399-409 | An `if` without else does not have its elif arms checked. |
| InitLimits.ReusedNameMissed | src/analyzer/init_check.c:62-67 | A second variable of the same name is vouched for by the first. |
| InitLimits.DeadReadSpurious | src/analyzer/init_check.c:306-323 | A read after a return is reported although no run reaches it. |
| InitLimits.OuterReadSpurious | src/analyzer/init_check.c:62-67 | `{ var x }  x`: the read of the outer x is reported, although no run reads an unassigned x. |
| InitLimits.ElseOnlySpurious | src/analyzer/init_check.c:494-508 | `var x; match e { else { x = 1 } }  x`: x is always assigned, and the read is reported. |
| InitLimits.CapMissed | src/analyzer/init_check.c:265-283 | Behind 256 or more uninitialised variables a read of one more, unassigned in a run, is not reported; only the note is given. |
| AwaitExact.AwaitOnceExact | src/analyzer/concurrency.c:877-1098 | An await is reported if and only if some run awaits there a handle already awaited since its last binding or assignment, for all bodies in which the walk looks everywhere (`FitAll`) and follows only paths that exist (`SharpAll`). |
| AwaitExact.Reach | src/analyzer/concurrency.c:944-1090 | If the walk passes a statement and holds a handle awaited behind it, some run ends there with the handle awaited. |
| AwaitExact.Witness | src/analyzer/concurrency.c:944-1090 | From each new report, a run with that second await is constructed. |
| AwaitExact.WitnessRounds | src/analyzer/concurrency.c:1067-1081 | A report of the second pass over a loop body happens in the first or the second round of some run. |
| AwaitExact.MuteStmt | src/analyzer/concurrency.c:944-1090 | A statement without an await of the handle adds neither a report about it nor the handle to the awaited names. |
| AwaitSound.AwaitOnceSound | src/analyzer/concurrency.c:877-1098 | In every run of a body in the fragment, breaks and continues included, each await of a handle already awaited since its last binding or assignment is reported. |
| AwaitSound.DiesExact | src/analyzer/concurrency.c:944-1090 | The walk of a live path ends dead if and only if every path it follows through the statement returns. |
| AwaitSound.Keeps | src/analyzer/concurrency.c:944-1090 | Without an assignment or a binding in the same scope, an awaited name stays awaited on every live path. |
| AwaitOnce.TwoPassesSuffice | src/analyzer/concurrency.c:1057-1081 | For arbitrarily nested loops, the set the second pass starts from contains the entry, is closed under the body and is the least such set; the second pass adds no name, a third would add neither names nor reports. |
| AwaitOnce.SecondPassClosed | src/analyzer/concurrency.c:1067-1081 | One more pass never leaves the input of the second one. |
| AwaitOnce.MonoStmt | src/analyzer/concurrency.c:944-1090 | The transfer of every statement is of gen/kill form: the fate of one name depends monotonically on that name alone, and control not at all on the set. |
| AwaitOnce.SameFate | src/analyzer/concurrency.c:939-982 | Two starting sets that agree on a name lead to sets that agree on it. |
| AwaitOnce.ThirdPass | src/analyzer/concurrency.c:1057-1081 | Walking a block again with its reports known gives the same state. |
| AwaitPlaces.SameRootReported | src/analyzer/concurrency.c:65-79 | Two awaits of places at any depth of fields and elements below the same name: the second is reported, whatever the index operands. |
| AwaitPlaces.PlacesExact | src/analyzer/concurrency.c:881-896 | With operands that await nothing, the second of two such awaits is reported if and only if both places have the same name at their root, and nothing else is reported. |
| AwaitPlaces.RenewedNotReported | src/analyzer/concurrency.c:983-1006 | With an assignment to the name, or a binding of it, in between, nothing is reported. |
| AwaitPlaces.PlaceAssignedStillReported | src/analyzer/concurrency.c:1000-1006 | An assignment to a place below the name in between changes nothing: the second await is reported. |
| AwaitWalker.CheckAwaitOnce | src/analyzer/concurrency.c:1092-1098 | The walk over mutable name lists reports exactly what the theorems speak about. |
| AwaitWalker.AwaitCheck.CheckStmt | src/analyzer/concurrency.c:944-1090 | One statement: awaited names, dead flag and reports after it, as a function of those before. |
| AwaitWalker.AwaitCheck.CheckLoop | src/analyzer/concurrency.c:1057-1081 | Exactly two passes and the join with the state before the loop. |
| AwaitWalker.AwaitCheck.CheckBlock | src/analyzer/concurrency.c:948-982 | Names shadowed in a block get the outer status back at its end. |
| AwaitWalker.AwaitState.Join | src/analyzer/concurrency.c:864-872 | A dead side is ignored, two live sides are united. |
| AwaitLimits.WhileConditionMissed | src/analyzer/concurrency.c:1057-1081 | `while await h {}` awaits twice unreported. |
| AwaitLimits.ElifConditionsMissed | src/analyzer/concurrency.c:1011-1033 | Two elif conditions that await the same handle are not reported. |
| AwaitLimits.SelfInitMissed | src/analyzer/concurrency.c:948-988 | `{ val h = await h }` hides the await of the outer h. |
| AwaitLimits.BreakMissed | src/analyzer/concurrency.c:1085-1088 | `while c { await h  if d { break }  h = v }  await h` awaits h twice in a run; nothing at all is reported. |
| AwaitLimits.BreakBeforeReturnMissed | src/analyzer/concurrency.c:1057-1081 | `while c { await h  if d { break }  return }  await h`: the dead path behind the break takes the await with it. |
| AwaitLimits.OperandAwaitMissed | src/analyzer/concurrency.c:902-936 | An await in a callee, `rc`, `heap`, `is`, a slice or an enum payload is not seen. |
| AwaitLimits.TargetAwaitMissed | src/analyzer/concurrency.c:1000-1006 | An await in the object of an assignment target is not seen. |
| AwaitLimits.PatternBinderMissed | src/analyzer/concurrency.c:1037-1056 | An assignment to a pattern binder clears the outer handle of the same name. |
| AwaitLimits.BreakingLoopSpurious | src/analyzer/concurrency.c:1067-1081 | `while c { await h  break }` is reported, although h is awaited once. |
| AwaitLimits.LoopVariableSpurious | src/analyzer/concurrency.c:1063-1081 | `for h in e { await h }` is reported, although every round binds h afresh. |
| AwaitLimits.JumpingArmSpurious | src/analyzer/concurrency.c:1011-1033 | `while c { spawn h  if d { await h  break }  await h }`: the join keeps the names of the branch that breaks. |
| AwaitLimits.PlaceAwaitSpurious | src/analyzer/concurrency.c:881-896 | `await h[i]  await h[j]` is reported as a second await of h. |
| AwaitLimits.PatternAwaitSpurious | src/analyzer/concurrency.c:1037-1056 | A pattern binder is taken for the outer handle of the same name. |
| AwaitLimits.ReturningLoopSpurious | src/analyzer/concurrency.c:1067-1081 | A loop whose body awaits and returns is reported although no run awaits twice. |
| SurelyAwaited.SurelyAwaitedSound | src/analyzer/capture.c:384-506 | If the test says yes and before the await no exit stands inside a bare block and nothing rebinds the name, every run of the rest of the block, however it leaves it, awaits the name, and no event before that gives it another handle. |
| SurelyAccepts.CheckSpawn | src/analyzer/capture.c:500-506 | The loop with its two early returns, in both directions: it says yes if every run awaits the handle, for a rest of the block whose ifs, loops and matches hold neither exits nor awaits of it and with no await of it in a slice or enum payload; and if it says yes, every run does, where before the await no exit stands inside a bare block and nothing gives the name another handle. |
| SurelyAccepts.MustAccept | src/analyzer/capture.c:446-506 | A block the test must accept: if every run of such a rest of the block awaits the name, the test says yes. |
| SurelyAccepts.TestExact | src/analyzer/capture.c:500-506 | The same about the spawned handle itself, and its converse. |
| SurelyAccepts.SureOrSkips | src/analyzer/capture.c:384-443 | An expression is found to await the name if and only if no evaluation of it skips all awaits of it (slices and enum payloads aside). |
| SurelyAccepts.ExitExact | src/analyzer/capture.c:468-496 | The exit test says yes if and only if a return, or a break or continue outside a loop of its own, stands in the statement. |
| SurelyAwaited.NoExit | src/analyzer/capture.c:468-496 | A statement the exit test clears never leaves its block early. |
| SurelyAwaited.FlatIsTidy | src/analyzer/capture.c:454-459 | Without bare blocks the nesting condition of the theorem always holds. |
| SurelyExact.SurelyAwaitedExact | src/analyzer/capture.c:384-506 | In every run, from any enclosing scopes, the spawned handle itself is awaited before it is overwritten or its block is left, if and only if no escape is left; so for a block the test accepts, this is when the test is right. |
| SurelyExact.TidyAwaited | src/analyzer/capture.c:498-506 | A yes is right where, before the await, no exit stands inside a bare block and nothing gives the name another handle. |
| SurelyExact.ShadowedNotAwaited | src/analyzer/capture.c:454-459 | `{ val h = spawn ...  await h }` after the spawn of h: accepted, and the outer handle is never awaited. |
| SurelyExact.ReassignedNotAwaited | src/analyzer/capture.c:445-453 | `h = other  await h`: accepted, and the spawned handle is never awaited. |
| SurelyExact.EscapesExact | src/analyzer/capture.c:446-496 | The escapes computed by recursion are exactly the ways in which some run leaves the statements with the handle not awaited, each with what the name denotes then: the handle, a shadowing binding, or nothing that is left of it. |
| SurelyExact.UntidyAwaited | src/analyzer/capture.c:454-459 | `{ if c { return await h }  await h }`: accepted and right, although an exit stands inside the bare block. |
| SurelyAwaited.NestedExitNotAwaited | src/analyzer/capture.c:454-459 | An exit inside a bare block makes the test wrong. |
| DfsSearch.GlobalInitOrder | src/analyzer/global_order.c:153-202 | Every global exactly once, in the order plain recursion over the dependencies gives, for cyclic relations too; declaration order is kept otherwise. The number of cycles reported is the number of globals on which one depends that does not come after them: zero if and only if the relation is acyclic, and then each global follows all it depends on; an ordered list comes back as it is. |
| DfsSearch.Search.Visit | src/analyzer/global_order.c:156-201 | The inner loop terminates with an empty stack and the root finished, only extends the order, and ends where the recursive visit of the root ends. |
| DfsSearch.Search.Step | src/analyzer/global_order.c:162-201 | One round on the arrays is one of the four steps, within the n stack slots. |
| PostOrder.PushRemains | src/analyzer/global_order.c:162-171 | Pushing a dependency is the call of the recursive visit: what is left to do on stack and resume positions ends with the same order. |
| PostOrder.AdvanceRemains | src/analyzer/global_order.c:164-195 | Passing a dependency that is open or finished leaves the same to do. |
| PostOrder.LeaveRemains | src/analyzer/global_order.c:196-200 | Finishing the top is the return of its visit. |
| PostOrder.RootsKept | src/analyzer/global_order.c:151-153 | Declaration order is kept otherwise: whatever stands before a global in the order is declared no later, or needed by that global or by one declared before it. |
| DfsOrder.PushKeeps | src/analyzer/global_order.c:166-171 | Entering a new dependency keeps the invariant, and the stack has room. |
| DfsOrder.ReportKeeps | src/analyzer/global_order.c:172-195 | A dependency open on the stack is a real cycle. |
| DfsOrder.LeaveKeeps | src/analyzer/global_order.c:196-200 | Finishing the top keeps every dependency before its user. |
| DfsOrder.SearchResult | src/analyzer/global_order.c:153-202 | A finished search has reported exactly the globals on which one depends that does not come after them, each once; none if and only if there is no cycle. |
| KahnSort.Sort | src/analyzer/resolve.c:1674-1695 | All n globals are placed if and only if the chosen edges (soft self-edges aside) are acyclic; the order respects them and is then the lexicographically least that does. |
| KahnSort.Pick | src/analyzer/resolve.c:1678-1688 | The earliest global that is not placed and whose dependencies are, or none. |
| KahnSort.Stuck | src/analyzer/resolve.c:1689-1689 | If nothing is ready although something is left, there is a cycle. |
| KahnSort.GreedyIsLeast | src/analyzer/resolve.c:1671-1695 | No order that respects the edges comes before the greedy one. |
| GlobalDepWalk.HardAndSoft | src/analyzer/resolve.c:1615-1664 | The hard list holds exactly the globals that some run of the initializer through named functions alone reads, hard and soft together exactly those some run reads when a call may enter any method of the name and a construction any initializer of the type. |
| GlobalDepWalk.DepContext.Walk | src/analyzer/resolve.c:1651-1664 | A body is walked once per level, a soft visit does not stop a later hard one, and what is newly reached is finished. |
| GlobalDepWalk.TypedDeps | src/analyzer/global_order.c:103-117 | The worklist finds exactly the globals that some run of the initializer reads, when a call enters the methods of that name of the receiver's type and a construction the initializers of its type. |
| GlobalDepWalk.TypedWalk.DrainOne | src/analyzer/global_order.c:110-116 | One round of the worklist keeps every finished body finished and comes closer to the end. |
| GlobalDeps.ViewsNest | src/analyzer/resolve.c:1615-1647 | Hard dependencies are later dependencies, and those are among hard and soft. |
| GlobalRuns.ReadsExact | src/analyzer/resolve.c:1615-1664 | What is found over call edges is what runs read: from each run a chain of bodies, and for each global found a run that reads it. |
| GlobalRuns.DependsExact | src/analyzer/global_order.c:56-117 | One global depends on another if and only if some run of its initializer reads it. |
| InitOrder.InitializationOrder | src/analyzer/resolve.c:1697-1753 | Both orderings in sequence. With no cycle reported, no run of an initializer reads a global initialized later, or its own; with one, there is a round of globals each of which some run of the one before reads. If the first ordering meets all possible dependencies, the search reports no cycle if and only if no global reads itself, and then returns the same, lexicographically least list; if only the hard ones can be met, the first list is the least for those; a hard cycle leaves the list as declared and is always reported. The final list is what the recursion gives on the first. |
| InitOrder.OrderGlobals | src/analyzer/resolve.c:1725-1741 | Hard and soft edges if both can be met, else the hard ones, else declaration order. |
| InitOrder.OrderGlobalInits | src/analyzer/resolve.c:1697-1753 | On the declaration list: the slots of the globals hold them in the computed order, every other declaration is where it was, and a hard cycle leaves the list unchanged. |
| InitOrder.Rewrite | src/analyzer/resolve.c:1734-1741 | The globals move among their own slots as the order says, every other declaration stays. |
| InitOrder.Composition | src/analyzer/global_order.c:64-99 | The list of the first ordering is sorted for the later relation unless a global reads itself; hard cycles are later cycles. |
| InitOrder.RenumberedAcyclic | src/analyzer/global_order.c:127-152 | Renumbering by the rewritten list keeps acyclicity. |
| InitOrder.SoftSelfRead | src/analyzer/resolve.c:1683-1684 | `val a = x.m()` with m reading a: placed by the first ordering, a cycle in the second. |
| Recognizer.Recognizer.Run | scripts/grammar_check.py:321-328 | Acceptance means a derivation of all tokens before EOF, for any grammar; without left recursion it is equivalent to one. The furthest position is one behind a token some partial derivation from the start matches (or 0); without left recursion it is the last such position. |
| Attempts.SpellsTouches | scripts/grammar_check.py:346-393 | Wherever a derivation that takes tokens ends, some attempt matches its last token there. |
| Recognizer.Recognizer.NodeEnds | scripts/grammar_check.py:346-393 | The positions returned are ends of derivations (all of them without left recursion), none beyond EOF; the guard set is restored. |
| Recognizer.Recognizer.Name | scripts/grammar_check.py:330-344 | The memo and the left-recursion guard keep every stored set right. |
| Recognizer.Recognizer.RepEnds | scripts/grammar_check.py:381-392 | The growing frontier of a repetition reaches all its ends and stops. |
| Recognizer.NotOpen | scripts/grammar_check.py:332-335 | Without left recursion the guard never stops a call. |
| Recognizer.OpenKid | scripts/grammar_check.py:364-373 | A later part of a sequence still at the start position stands behind an empty front. |
| Grammar.SpellsBounds | scripts/grammar_check.py:346-393 | A derivation never goes back and never passes the end-of-file token. |
| Grammar.RepClosed | scripts/grammar_check.py:381-392 | Following only strictly advancing iterations loses no end of a repetition. |
| Deriver.Cover | scripts/spec_coverage.py:255-260 | An accepted token list: the units recorded are exactly those of one derivation of the whole list. |
| Deriver.Deriver.Derive | scripts/spec_coverage.py:170-241 | If `end` can be derived from `pos`, exactly the units of one such derivation are added, each question being asked once. |
| Deriver.Deriver.SplitBack | scripts/spec_coverage.py:220-238 | The backward split of a sequence always succeeds, starts at `pos`, and each part derives its span. |
| Deriver.Deriver.Chains | scripts/spec_coverage.py:200-212 | The breadth-first search always reaches `end`, by advancing iterations. |
| Derivation.NotUnderItself | scripts/spec_coverage.py:170-174 | Without left recursion no question is asked again while it is open. |
| Capture.CapturesAgree | src/analyzer/capture.c:1034-1056 | The captures of a closure are exactly the variables and parameters its body, nested closures included, finds outside it by scope lookup; each once, with the binding visible where it stands. |
| Capture.CollectAgrees | src/analyzer/capture.c:714-1013 | At every point the running name set is the set of names bound inside, shadowing and block ends included. |
| Capture.OutsideSplit | src/analyzer/capture.c:752-783 | What a nested closure captures from beyond the outer one is what the outer names do not bind. |
| FreeNames.CapturesFree | src/analyzer/capture.c:1034-1056 | A name is captured if and only if it is free in the closure and denotes a variable or parameter around it. |
| FreeNames.FirstBinder | src/analyzer/scope.c:58-65 | In a scope the first binder of a name counts, behind what the scope has already. |
| CaptureOrder.CapturesByFirstUse | src/analyzer/capture.c:714-783 | Captures are listed by first free use, through nested closures too, which hand theirs on as a list without repetitions. |
| CaptureWalker.CapturesOf | src/analyzer/capture.c:1034-1056 | Resolving and then collecting, on the passes' own state, gives exactly the free names of the closure that denote a variable or parameter where it stands, each once, in the order of first use, with the binding visible there. |
| CaptureWalker.CaptureWalk.CollectIdents | src/analyzer/capture.c:714-1013 | The walk with its saved and restored name set equals the specified walk. |
| CaptureWalker.Resolver.ResolveNode | src/analyzer/resolve.c:898-1045 | Each identifier gets the binding of the scope chain at that point; scopes are balanced. |
| CaptureWalker.Resolver.LookupName | src/analyzer/scope.c:46-54 | The loop up the parent chain finds the innermost binding. |
| CaptureWalker.Resolver.DefineNames | src/analyzer/scope.c:58-65 | A second definition of a name in one scope is refused. |
| ParamEscape.ComputeParamEscapes | src/analyzer/capture.c:324-378 | The result is that of 64 rounds of the walk; only the least fixpoint is ever marked, all of it with at most 64 tracked parameters or when fewer than 64 rounds were needed, in at most one round more than there are parameters, in any declaration order. |
| EscapeMeaning.EscapesExact | src/analyzer/capture.c:130-138 | A parameter is in the least fixpoint if and only if a chain of hand-overs leads from it, each to a parameter received in the right position, receiver included, to an occurrence that nothing makes harmless. |
| EscapeMeaning.MarksExact | src/analyzer/capture.c:259-303 | A walk marks a parameter if and only if some occurrence of it is neither called nor handed to what only calls it, or stands in a task or in a closure not itself handed to such a callee. |
| ParamEscape.RoundsFallShort | src/analyzer/capture.c:353-376 | With more than 64 tracked parameters the limit can be too low: in a chain of functions that hand a parameter on, all of them escape and the first is not found. |
| ParamEscape.ChainRounds | src/analyzer/capture.c:353-376 | On that chain each round finds exactly one parameter, from the last to the first. |
| ParamEscape.LeastIsFixpoint | src/analyzer/capture.c:130-138 | The least set closed under the rules is a fixpoint of them. |
| ParamEscape.MarksMono | src/analyzer/capture.c:259-303 | More escaping parameters, or a closure that outlives the call, never mark less. |
| ParamEscape.ArgMono | src/analyzer/capture.c:279-292 | A closure argument whose callee starts to keep it is walked differently, and marks no less. |
| ParamEscape.EscapeWalk.Visit | src/analyzer/capture.c:259-314 | The in-place walk marks at least what its starting set calls for, nothing beyond any closed set, and notes any change. |
| ParamEscape.EscapeWalk.Round | src/analyzer/capture.c:353-375 | A round without change leaves a closed set. |
| ListRuns.SingleOwnerHolds | src/analyzer/list_ownership.c:406-537 | At every point of every run of an accepted program, no two bindings, fields or elements own one buffer, and none refers to a freed buffer. |
| ListRuns.ExecSound | src/analyzer/list_ownership.c:406-537 | Every statement keeps that, through assignment, push, calls with borrowed arguments, loops and returns. |
| ListRuns.CopySound | docs/language_definition.md:2840-2849 | `copy()` gives a value that shares no buffer. |
| ListCopy.CopyRight | docs/language_definition.md:507-511 | `copy()` succeeds on every value that has its type, gives the same contents all the way down in a new slot, and changes nothing that was there. |
| ListCopy.TakeRight | docs/language_definition.md:509-511 | `take()` moves the very buffer out and leaves a new empty list at the place. |
| ListRuns.TakePlaceSound | docs/language_definition.md:509-511 | `take()` keeps single ownership. |
| ListRuns.DuplicateBreaks | src/analyzer/list_ownership.c:188-230 | `val b = a` is reported; run, it would give one buffer two owners. |
| ListHeap.PushSound | src/analyzer/list_ownership.c:1-8 | Growing a list frees the old buffer without leaving an owner behind. |
| ListHeap.DropSound | src/analyzer/list_ownership.c:1-8 | Freeing all a dropped value owns never frees what another owner has. |
| ListHeap.SwapSound | src/analyzer/list_ownership.c:1-8 | Moving a value into a place keeps single ownership. |
| ListOwnership.CheckExact | src/analyzer/list_ownership.c:188-290 | Nothing is reported if and only if no place that holds a list is given a new owner. |
| ListOwnership.Check | src/analyzer/list_ownership.c:539-549 | The reports are exactly the expressions at the positions of the program where a place with a list within 17 objects gets a new owner, a returned local aside, each once, in program order; so there is none exactly when all functions obey the discipline. |
| ListOwnership.BodyListed | src/analyzer/list_ownership.c:406-537 | For a body: the offences are those positions, each once, in order; a report never stops the walk. |
| ListOwnership.Checker.Visit | src/analyzer/list_ownership.c:406-537 | The reports appended for a statement are its offences in order, which `BodyListed` and `Check` characterize by position. |
| ListOwnership.OwnsExact | src/analyzer/list_ownership.c:38-65 | The test says yes if and only if some list lies within 17 objects of the value. |
| ListOwnership.DeepListMissed | src/analyzer/list_ownership.c:38-52 | A list inside 18 objects is not seen. |
| Typo.Levenshtein | src/analyzer/typo_candidate.c:44-107 | The two rows with length cut and row-minimum exit return the edit distance, capped at one above a non-negative bound. |
| Typo.DistIsLeast | src/analyzer/typo_candidate.c:44-107 | The distance is the least number of insertions, deletions and replacements that turn one name into the other, ignoring case. |
| Typo.SameExact | src/analyzer/typo_candidate.c:33-36 | Two characters count as the same if and only if they are equal or the two cases of one ASCII letter. |
| Typo.RowCut | src/analyzer/typo_candidate.c:91-97 | Once a row is above the threshold, every later entry is. |
| Typo.BestCandidate | src/analyzer/typo_candidate.c:136-171 | The least name of the scope chain by distance and then `strcmp` within the threshold (1 for names of up to four characters, 2 for longer ones), if there is one. |
| Typo.BestUnique | src/analyzer/typo_candidate.c:113-134 | There is one best name, so the iteration order of the tables does not matter. |
| Typo.BeforeExact | src/analyzer/typo_candidate.c:113-134 | The tie-break is alphabetical: the first difference decides, and a proper beginning comes first. |
| Effects.Infer | src/analyzer/effects.c:340-361 | After at most 2n + 1 rounds a function has an effect if and only if some run of it, through the functions and methods it calls, performs that effect. |
| Effects.HasExact | src/analyzer/effects.c:205-251 | A function has an effect if and only if some run of it performs one: an extern or built-in I/O call, a call on an I/O module, an assignment to a global, or a mutating call on one. |
| Effects.Check | src/analyzer/effects.c:363-370 | Exactly the calls by name of extern or effectful functions in pure and readonly methods are reported. A pure method has no report if and only if it calls by name no extern and nothing from which an effect is reachable, a readonly one if and only if it calls none and nothing from which I/O is; other functions have none. |
| Effects.EffectGraph.Propagate | src/analyzer/effects.c:347-361 | The loop ends with flags that no call edge can add to, and adds nothing beyond any such flags. |
| NoCopy.NoCopyPart | src/analyzer/types.c:770-773 | A nocopy object is found if and only if one is held by value within 64 levels, which with at most 64 types is whenever one is held; the object returned is one that is held. |
| NoCopy.PartsExact | src/analyzer/types.c:730-765 | What a type holds by value: the value of a nullable, the elements of a fixed or bounded array or tuple, the payloads of an enum, the fields of an object that is no shared handle. |
| NoCopy.Search | src/analyzer/types.c:721-768 | From a type on a path, exactly the chains that avoid the path and fit the remaining depth count. |
| NoCopy.ChainLeaves | src/analyzer/types.c:727-728 | Cutting at a type already on the path loses no nocopy object. |
| NoCopy.DeepMissed | src/analyzer/types.c:721-728 | A nocopy object inside 64 other objects is held and not found. |

## Left out

- SurelyAwaitedExact: says when a yes is right.
- MustAccept: says when a yes is due, for ifs, loops and matches that hold neither an exit nor an await of the handle; a block whose every path awaits in different statements is rejected by design.
- AwaitOnceSound: for bodies in `Fit` only; outside it the analysis misses awaits as `AwaitLimits` shows, and bodies it happens to be right on are not all inside.
- AwaitOnceExact: `Sharp` is sufficient; a loop body in which some path continues and none completes is left out although the walk may be right on it.
- SingleOwnerHolds: a run ends where a borrowed address no longer exists, so what the alias rules on the arguments of one call prevent is outside the statement.
- DuplicateBreaks: one concrete rejected program; that every rejected program could break is not claimed, since the check is syntactic.
- NoCopyPart: that the object returned is one that is held, not which of several.
- Definite assignment in lambda, spawn and defer bodies, destructuring bindings, and `free` and `leak` statements.
- Await-once: the second loop variable and defer; there and for surely-awaited spawns, handles reached through aliases.
- Pool expressions and bodies of spawns are no part of the traces; a spawn binds its handle.
- Runs with list programs stop when a place does not have its static type, when an index is out of range, or when a borrowed address no longer exists; that arguments of one call do not invalidate each other (`check_var_list_alias`, the address checks) is not modelled.
- List ownership of enums, nullable values, tuples, fixed arrays, maps, sets, channels, locks, closures and `rc`; constructors with a user init are ordinary calls; `insert` and `set` appear as push and as assignment to an element.
- Storage between two steps of one `copy`, assignment or return, and temporaries after a run stops.
- The receiver and argument types `lambda_arg_verdict` inspects: the callee of a call comes classified.
- Captures of spawn and parallel-for bodies, the errors on list, view and nocopy captures, and mutability flags of captures.
- Name resolution of top-level declarations, of enum and type names, and the reports of undefined or duplicate names.
- Which names are I/O built-ins or modules, and method targets by receiver type: inputs of the effect model.
- The EBNF parser and the lexer: grammars come as trees whose nodes carry their identity, token lists end with the end-of-file token.
- Names of grammar units: a unit is a rule or a node identity.
- Diagnostic text, spans, arena allocation and its failure paths, cancellation, and integer width (sizes are unbounded).
- Generics, reflection expansion, interface defaults, escape lints, parallel-for write checks, and the type checker.
