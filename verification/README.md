# Quilon: a verified model of its runtime protocols and compiler passes

Quilon is a compiler and an M:N fiber runtime. This project models, in Dafny, the parts of it
whose correctness spans many steps or many functions, and proves what they keep. One module
stands for one component; `dafny verify dfyconfig.toml` checks all of them.

| module | component |
|---|---|
| `DeferralAnalysis`, `DeferralVerdict`, `DeferralSemantics`, `DeferralPreservation`, `DeferralAtomic`, `DeferralAcceptance`, `DeferralLimits` | the deferral pass `src/deferral.rs`: its fixed point, what its verdict means on the syntax, an interpreter that runs programs with and without promises, and what relates them |
| `Qualify`, `Loader`, `LinkedNames` | renaming into one flat namespace, import loading, and the names of a linked program |
| `GcCoverage` | fiber switches against the collector's view of stacks |
| `Wakeup` | tokens, completed lists and reactor wakes across workers |
| `Scheduler`, `Guards` | one worker's tables, and nested guarded coroutines |
| `Stdin`, `LaunchScopes` | the stdin ticket gate and line reader, and the all-settled join |
| `Pool`, `Trap` | the blocking-call pool and the signal trap |
| `Http`, `FramingHeaders`, `ChunkedGrammar`, `ChunkedVerdicts` | body framing, the headers that choose it, which chunked bodies are accepted against section 7.1 of RFC 9112, and what every other verdict means |
| `Positions` | editor positions |

Concurrent code is a state machine whose steps are single lock regions, atomic operations or
system calls; results are about every state of every run, over any number of workers, threads,
fibers and calls. In-place algorithms and objects are methods and classes proved against
functions, and those functions carry the lemmas. Clocks, replies of primitives, what a `read`
returns, thread-creation failures, file contents and the interleaving itself are parameters or
free choices.

## What turned out not to hold

Each has a lemma with a concrete input, next to the condition under which the claim holds.

- A block that stores a ready value into a deferred global and then calls a function that
  stores a promise there reads the promise unforced (`DeferralLimits.DemotedGlobalLeaks`);
  meaning is preserved when no block demotes a deferred global.
- An atomic reassignment the pass accepts can still wait: through a computed callee, through an
  argument of a server launch, through a top-level lambda binding, and through recursion
  (`ComputedCalleeWaits`, `ServedArgumentWaits`, `LambdaBindingWaits`, `RecursionWaits`). It
  cannot in programs that call by name only what stands above.
- The collector's registry has 256 slots, and drawing a fresh one when each is held or being
  offered fails the assertion at gc.rs:179; no other assertion on the way can fail
  (`GcCoverage.PanicsExactly`, `GcCoverage.TableFills`).
- Filing a fiber under a token already in use strands the fiber filed before; the partition
  survives a filing exactly when the token is free (`Scheduler.FilingKeepsExactly`,
  `Scheduler.SecondWaiterStrandsFirst`).
- An abort marker that crosses an inner guard leaves that guard's id and stack registration
  behind, against the comment at scheduler.rs:410-416; the ids left are exactly those of crossed
  guards (`Guards.ReservedExactly`, `Guards.CaseMarkerCrossesTrap`).
- The chunked decoder accepts more than RFC 9112: a plus sign and any Unicode white space
  before the digits, white space after them, and a body that ends right after its last size line.
  Which accepted bodies are the RFC's is exact (`ChunkedGrammar.AcceptedIsRfcExactly`,
  `ChunkedGrammar.PlusIsAccepted`, `ChunkedGrammar.PaddingIsAccepted`,
  `ChunkedGrammar.MissingEndIsAccepted`).
- A strict force of a fault ends in `unreachable!` (launch_scope.rs:133) exactly when scopes are
  open and none of their launches faults; a guarded body that forces a fault launched outside it
  is such a case (`LaunchScopes.EarlyJoinExactly`, `LaunchScopes.NestedGuardLosesTheFault`).
- A fiber ended by an abort marker keeps its open scopes in the map, and the next fiber on its
  recycled id inherits them; this is harmless exactly when no launch was open
  (`LaunchScopes.AbandonKeepsExactly`, `LaunchScopes.RecycledIdSettlesAnothersLaunch`).
- The loader's duplicate guard is by name, so one file reached under two stems is loaded twice,
  against the comment at modules.rs:245-249 about symbolic links (`Loader.LoadedOnceExactly`,
  `Loader.TwoStemsLoadTwice`).
- The blocking pool's growth is not race-free, against the comment at blocking.rs:226-229: a
  thread that is leaving is still counted, so a job can wait for busy threads far below the
  ceiling. A thread for every job in flight is kept by each move except exactly a departure, or a
  failed creation, with no thread to spare (`Pool.CoverKeptExactly`, `Pool.LeavingThreadIsCounted`).
- A position outside 32 bits does not come back (`Positions.RoundTripExactly`,
  `Positions.EndOfManyLinesIsLost`).

## Model

| member | source | states |
|---|---|---|
| `DeferralAnalysis.Analyze` | src/deferral.rs:140-179 | the loop over rounds terminates; the set of deferred globals it returns is closed under the store rule and contained in every closed set; the force sites and the verdict are those of the last round, whose meaning on the syntax `DeferralVerdict.RejectedExactly` states |
| `DeferralVerdict.RejectedExactly` | src/deferral.rs:481-516 | with distinct spans a program is rejected if and only if the right side of some atomic reassignment, in a block or at the top level, has a node that is a force site or an awaited call that waits |
| `DeferralVerdict.RejectionHasCause` | src/deferral.rs:481-516 | without any condition on spans, a rejection always has such a cause |
| `DeferralVerdict.NothingAtomicIsAccepted` | src/deferral.rs:487-489 | a program with no atomic reassignment is accepted, whatever it forces |
| `DeferralVerdict.WaitsExactly` | src/deferral.rs:393-464 | the walk reports a wait if and only if a node outside the arguments of server launches calls a waiting primitive, a function recorded as waiting, or a plain name it cannot follow |
| `DeferralVerdict.WaitingExactly` | src/deferral.rs:319-389 | a function is recorded as waiting if and only if its body has a force site or such a call |
| `DeferralVerdict.CalledValueIsRejected` | src/deferral.rs:188-207 | an atomic right side that calls a name which is neither a declared function nor a top-level lambda is rejected |
| `DeferralVerdict.LaunchFreeProgram` | src/deferral.rs:521-671 | a program without a value-returning primitive call has no force site, and the empty set of deferred globals is closed for it |
| `DeferralAnalysis.VisitItemsMonotone` | src/deferral.rs:287-360 | one round over all items is monotone in the set of deferred globals: more globals give more force sites, more stored globals, more waiting functions and no fewer rejections |
| `DeferralAnalysis.VisitMonotone` | src/deferral.rs:521-671 | the walk of one expression is monotone in its scope, the deferred globals and the functions known to wait: forces, stores, waits, rejections and the deferred verdict only grow |
| `DeferralPreservation.MeaningPreserved` | src/deferral.rs:467-471 | for every program of the modelled syntax and every set of globals that is closed under the store rule and that no block demotes, every reply of the primitives and every fuel: with forces only at the computed sites no strict slot ever sees a promise, the result is no promise, and the run resolves to the eager run: value, globals and sequence of primitive calls, halted runs included |
| `DeferralPreservation.EvalPreserves` | src/deferral.rs:521-671 | the simulation for one expression: the deferred outcome is sound, holds a promise only where the walk reports one, and resolves to the eager outcome |
| `DeferralPreservation.BlockPreserves` | src/deferral.rs:676-722 | the same for the statements of a block, where a binding or a store carries its taint to the statements after it |
| `DeferralAcceptance.AtomicsNeverWait` | src/deferral.rs:481-516 | in every run of an accepted, followable program with distinct spans, cut short anywhere, no atomic reassignment has forced a promise, slept or streamed a file at any call depth |
| `DeferralAcceptance.NothingWaits` | src/deferral.rs:416-464 | an expression the walk reports as not waiting, and that calls by name, calls no waiting primitive and no function recorded as waiting |
| `DeferralVerdict.ForcesInside` | src/deferral.rs:467-471 | every force site recorded while walking an expression is the span of one of its own nodes, and of one below its root when the value is not in a strict slot |
| `DeferralAcceptance.AcceptedIsStill` | src/deferral.rs:337-389 | in an accepted expression every atomic reassignment's right side is still: no force site in it and no call to a function that waits |
| `DeferralAtomic.EvalKeeps` | src/codegen/generator/exprs.rs:59-69 | evaluating an expression whose atomic parts are still never counts a wait inside one |
| `DeferralLimits.DemotedGlobalLeaks` | src/deferral.rs:682-694 | a program whose answer is closed and whose deferred run halts with a promise in a strict slot |
| `DeferralLimits.ComputedCalleeWaits` | src/deferral.rs:416-464 | an accepted atomic reassignment that waits through a callee that is not a name |
| `DeferralLimits.ServedArgumentWaits` | src/deferral.rs:521-671 | an accepted atomic reassignment that waits in an argument of a server launch |
| `DeferralLimits.LambdaBindingWaits` | src/deferral.rs:188-207 | an accepted atomic reassignment that waits through a top-level binding of a lambda |
| `DeferralLimits.RecursionWaits` | src/deferral.rs:369-389 | an accepted atomic reassignment that waits through a function still being analysed |
| `GcCoverage.PushSnapshot` | quilon-rt/src/gc.rs:231-254 | the ranges pushed for one thread are exactly those of its registered fibers that are not on top of its running list |
| `GcCoverage.PushFiberRoots` | quilon-rt/src/gc.rs:231-254 | over all claimed slots, a range is pushed exactly when some thread's registered fiber other than its innermost running one has it |
| `GcCoverage.CoverageExactly` | quilon-rt/src/gc.rs:332-367 | in every invariant state a registered fiber is covered, unless the thread is between the two halves of a switch and it is the fiber the innermost one was resumed from |
| `GcCoverage.CollectionSeesEverything` | quilon-rt/src/gc.rs:82-103 | with a zero disable count every registered fiber of every thread is covered and every thread's own scan is of one stack; that the registered ranges are the installed stacks is `GcCoverage.RunPublishes` |
| `GcCoverage.RunPublishes` | quilon-rt/src/gc.rs:280-330 | over every run the ranges registered for a thread are exactly its live stacks, those of the latest installation of each id with no later end of that fiber, taken from the actions alone |
| `GcCoverage.PanicsExactly` | quilon-rt/src/gc.rs:168-190 | of all assertions and `expect`s in claiming, registering, entering, leaving and publishing exactly one can fail, and exactly when a fresh slot is drawn from a full table |
| `GcCoverage.TableFills` | quilon-rt/src/gc.rs:168-190 | a run that reaches that failure, with one thread more than the table has slots |
| `GcCoverage.StepKeeps` | quilon-rt/src/scheduler.rs:191-290 | every step of a switch, of a registration and of a thread's life keeps the invariant, a thread that panics included |
| `GcCoverage.EveryRunIsCovered` | quilon-rt/src/gc.rs:168-254 | in every state of every run: the disable count is the number of threads inside a switch; at zero every stack that a thread whose run has not ended installed, and did not end, is pushed or is the one its thread is on, and the stack bottom is the high end of that stack or the thread's own base; and the next step panics exactly if it draws a fresh slot while all slots of the table are held or offered |
| `Wakeup.NoLostWakeup` | quilon-rt/src/deferred.rs:260-316 | in every state of every run a waiting fiber's change is still to come with its token at the resource, or its token is on its way; a ready fiber is in its worker's ready set; a worker with a completed token or a placed job is awake, flagged or about to be rung. Where all workers sleep every job ever placed is a fiber that is finished, paused or parked, and none parked on a cell that a step of the run changed, nor on a ticket the run's changes have already reached |
| `Wakeup.QuietMeansBlocked` | quilon-rt/src/scheduler.rs:959-985 | when every worker sleeps in poll with no wake pending, no fiber is ready or running, every waiting fiber waits for a cell that is not settled or a ticket not yet served, and no completed list, inbox or ready set is left non-empty |
| `Wakeup.ConditionsFollowChanges` | quilon-rt/src/deferred.rs:190-215 | over every run a cell is settled exactly when some step changed it, and a gate serves its first number plus the steps that changed it |
| `Wakeup.StepKeeps` | quilon-rt/src/reactor.rs:47-144 | each lock region and atomic operation of looking, parking, resolving, completing, draining, polling and noticing keeps the invariant |
| `Wakeup.PlaceKeeps` | quilon-rt/src/placement.rs:159-182 | placing a job on another worker's inbox keeps it: the job finds its worker awake or a bell about to ring |
| `Wakeup.JobsConserved` | quilon-rt/src/placement.rs:159-182 | over every run no placed job is lost or doubled: it is in an inbox or it is a fiber |
| `Wakeup.HeldLockMoves` | quilon-rt/src/deferred.rs:108-127 | a lock held while tokens are handed out is held by a fiber that can take its next step towards releasing it |
| `Scheduler.FilingKeepsExactly` | quilon-rt/src/scheduler.rs:630-683 | filing a parked fiber keeps the partition if and only if the token it waits on is free |
| `Scheduler.OneWaitingIsReached` | quilon-rt/src/scheduler.rs:630-683 | a run to the state in which one fiber waits on a token and another one runs |
| `Scheduler.SecondWaiterStrandsFirst` | quilon-rt/src/scheduler.rs:655-668 | filing the second fiber there under the same token leaves the first live and in no table |
| `Scheduler.PopKeeps` | quilon-rt/src/scheduler.rs:630-650 | the id at the front of the ready queue is live in the slab, so the take never fails, and popping it keeps the partition |
| `Scheduler.WokenAllKeeps` | quilon-rt/src/scheduler.rs:959-985 | waking any list of tokens, repeats included, readies each waiter once and drops its deadline |
| `Scheduler.SweptTimersExactly` | quilon-rt/src/scheduler.rs:715-727 | the swap-remove loop over timers readies exactly the fibers that are due and keeps the rest |
| `Scheduler.SweptDeadlinesExactly` | quilon-rt/src/scheduler.rs:728-743 | the loop over deadlines readies exactly the due waiters and removes them from the token map |
| `Scheduler.EveryRunIsPartitioned` | quilon-rt/src/scheduler.rs:100-161 | in every state of every run each fiber is in exactly one table and once, deadlines have their waiters, and free, live and reserved ids are disjoint |
| `Scheduler.SlabHoldsWhatWasKept` | quilon-rt/src/scheduler.rs:630-683 | over every run the fiber a pop takes under an id is the one last installed or filed under it |
| `Scheduler.ReadyInTurn` | quilon-rt/src/scheduler.rs:630-650 | over every run the fiber at position p of the ready queue is taken by the pop that has p pops before it, whatever happens in between |
| `Scheduler.ParkedIsSweptExactly` | quilon-rt/src/scheduler.rs:644-743 | a fiber filed with an instant is readied by a sweep exactly when that instant has come, and one filed without never |
| `Scheduler.ParkedIsWokenExactly` | quilon-rt/src/scheduler.rs:959-985 | a filed fiber is readied by readiness events exactly when one of them is for the token it waits on |
| `Scheduler.FiberScheduler.ReserveId` | quilon-rt/src/scheduler.rs:142-149 | the id is neither live, running nor reserved, and the new tables are the reserving function's |
| `Scheduler.FiberScheduler.ReleaseId` | quilon-rt/src/scheduler.rs:151-154 | the id goes to the free list and nothing else changes |
| `Scheduler.FiberScheduler.InstallFiber` | quilon-rt/src/scheduler.rs:328-343 | the fiber is live under a fresh id and last in the ready queue |
| `Scheduler.FiberScheduler.PopReady` | quilon-rt/src/scheduler.rs:630-650 | the first ready fiber is taken out of its slot; none exactly when the queue is empty |
| `Scheduler.FiberScheduler.FileFiber` | quilon-rt/src/scheduler.rs:650-683 | the fiber goes back to its slot and into the table its park names, and the tables stay valid exactly when the token was free |
| `Scheduler.FiberScheduler.SweepTimers` | quilon-rt/src/scheduler.rs:715-727 | the index loop over timers, against the sweeping function |
| `Scheduler.FiberScheduler.SweepDeadlines` | quilon-rt/src/scheduler.rs:728-743 | the index loop over deadlines, against the sweeping function |
| `Scheduler.FiberScheduler.SweepDue` | quilon-rt/src/scheduler.rs:715-743 | nothing due is left, and the newly ready are exactly the fibers whose timer or deadline had passed |
| `Scheduler.FiberScheduler.WakeTokens` | quilon-rt/src/scheduler.rs:959-985 | the newly ready are exactly the waiters of the tokens |
| `Scheduler.FiberScheduler.IdleWaitPlan` | quilon-rt/src/scheduler.rs:693-711 | no plan exactly when only background waiters remain; no limit when nothing has an instant; otherwise the wait is the earliest instant of any timer or deadline less now, and 0 if that has passed |
| `Guards.StopsAtInnermost` | quilon-rt/src/scheduler.rs:382-435 | a marker stops at the innermost guard of its kind through any nesting, and the depth drops by the fault guards it leaves |
| `Guards.ArrivesUntargeted` | quilon-rt/src/scheduler.rs:458-520 | a park no guard is meant for reaches the worker's loop with the depth lowered by every fault guard |
| `Guards.NeverBreaks` | quilon-rt/src/scheduler.rs:662-669 | no park suspends a coroutine other than the running one, the depth never goes negative and no marker reaches the ready-queue loop |
| `Guards.EveryRunIsGuarded` | quilon-rt/src/scheduler.rs:382-544 | in every state of every run the abort-trap depth is the number of fault guards of the active nest and zero in the loop, and every live guard holds its own id and stack registration |
| `Guards.CrossedAreLeaked` | quilon-rt/src/scheduler.rs:410-428 | a step leaves an id reserved and a stack registered with no guard to release them exactly for the guards an abort marker crosses |
| `Guards.ReservedExactly` | quilon-rt/src/scheduler.rs:382-520 | over every run the ids reserved are those of live guards and of crossed ones, no others |
| `Guards.CaseMarkerCrossesTrap` | quilon-rt/src/scheduler.rs:410-428 | a run in which a failing expectation inside a trap leaves the trap's id and registration behind |
| `Stdin.LinesOfJoined` | quilon-rt/src/deferred.rs:615-624 | reading a text line by line gives back every line it was made of, whether ended by a newline or by a carriage return and a newline, then the unterminated tail once, then nothing; exactly a line that itself ends in a carriage return before a bare newline loses that byte |
| `Stdin.LineReader.TakeLine` | quilon-rt/src/deferred.rs:615-624 | drains the first complete line, if there is one, and otherwise leaves the buffer alone |
| `Stdin.LineReader.ReadOnce` | quilon-rt/src/deferred.rs:574-611 | any non-empty amount up to the chunk size, and zero bytes only at the end |
| `Stdin.LineReader.ReadLine` | quilon-rt/src/deferred.rs:542-559 | the line is the first of the buffered and unread bytes, however the reads split them, and the rest stays in order |
| `Stdin.OneReaderInOrder` | quilon-rt/src/deferred.rs:489-515 | in every reached state at most the served ticket is between acquire and release, and the tickets done are exactly those before it |
| `Stdin.NoTicketStranded` | quilon-rt/src/deferred.rs:489-515 | while some read is unfinished the fiber of the served ticket can move |
| `Stdin.LaunchOrderIsLineOrder` | quilon-rt/src/deferred.rs:394-433 | for every interleaving and chunking the k-th launched read gets the k-th line; an earlier failed read costs no byte |
| `Stdin.StepKeeps` | quilon-rt/src/deferred.rs:457-535 | every step keeps ticket order, wake-ups and the bytes: what is held and unread is the input less the lines given |
| `LaunchScopes.SettleAll` | quilon-rt/src/launch_scope.rs:137-139 | the faults of the entries, in order |
| `LaunchScopes.FaultsExactly` | quilon-rt/src/launch_scope.rs:137-139 | a report is made exactly for the faulted launches |
| `LaunchScopes.Registry.Enter` | quilon-rt/src/launch_scope.rs:57-69 | an empty scope on top of the fiber's own stack, every other fiber's untouched |
| `LaunchScopes.Registry.Register` | quilon-rt/src/launch_scope.rs:75-87 | the launch last in the innermost open scope, and nothing at all without one |
| `LaunchScopes.Registry.Join` | quilon-rt/src/launch_scope.rs:95-109 | the innermost scope is gone, its key with the last one, and the verdict is that of exactly its entries |
| `LaunchScopes.Registry.FaultCurrentFiber` | quilon-rt/src/launch_scope.rs:120-134 | all scopes of the fiber are gone, and the reports are the faults of its stack by position, inner scopes first and in registration order within one |
| `LaunchScopes.EarlyJoinInTurn` | quilon-rt/src/launch_scope.rs:120-134 | by positions on the stack: the reports are exactly the faulted launches, each as often as registered, those of an inner scope before those of an outer one and in registration order within a scope |
| `LaunchScopes.SettledByItsScope` | quilon-rt/src/launch_scope.rs:57-134 | over every interleaving each join settles exactly the launches made while a scope it took over was the innermost of its fiber, and each open scope holds exactly those made while it was |
| `LaunchScopes.EarlyJoinExactly` | quilon-rt/src/launch_scope.rs:120-134 | exactly when the early join reaches `unreachable!`, and exactly when the forced fault is among its reports |
| `LaunchScopes.NestedGuardLosesTheFault` | quilon-rt/src/launch_scope.rs:111-134 | a guarded body forcing an outer fault with a healthy launch of its own reports nothing |
| `LaunchScopes.AbandonKeepsExactly` | quilon-rt/src/scheduler.rs:410-428 | ending a fiber by an abort marker keeps the accounts if and only if it has no launch open |
| `LaunchScopes.RecycledIdSettlesAnothersLaunch` | quilon-rt/src/launch_scope.rs:44-52 | a run in which the next fiber on a recycled id settles the launch of the fiber before |
| `LaunchScopes.EveryLaunchSettledOnce` | quilon-rt/src/launch_scope.rs:57-139 | over every interleaving in which no fiber is abandoned with an open launch, each launch is settled at most once, only by its own fiber, and once that fiber has closed its scopes exactly once |
| `LaunchScopes.JoinReportsInOrder` | quilon-rt/src/launch_scope.rs:89-109 | the faults of a block's close are in registration order |
| `Qualify.QualifiedIsInjective` | src/ast/qualify.rs:11-15 | two qualified names are equal exactly when module and name are, and none equals a bare name |
| `Qualify.ModuleScope.AddImport` | src/ast/qualify.rs:74-112 | the three maps after one import, or the collision and no change, and a scope that stays consistent; what any list of imports adds up to is `Qualify.DottedMeansImport`, `Qualify.ClaimedExactly` and `Qualify.RefusedExactly` |
| `Qualify.ImportKeeps` | src/ast/qualify.rs:70-112 | an accepted import keeps the scope consistent: aliases list distinct modules of that last segment, a file module stands alone, all listed modules have exports and claimed names |
| `Qualify.ImportsAreConsistent` | src/ast/qualify.rs:70-112 | every scope that a file's imports build, in any order and number, is consistent |
| `Qualify.ImportedExportIsReached` | src/ast/qualify.rs:70-159 | said of the list of imports: what the first import of a module gives is reached by the module's full path, whatever else is imported |
| `Qualify.DottedMeansImport` | src/ast/qualify.rs:70-159 | said of the list of imports: a dotted reference resolves to q if and only if some first import of a module gives q's member and the reference spells that module's full name, or a last segment no other imported module has |
| `Qualify.PrefixFailsExactly` | src/ast/qualify.rs:117-159 | a prefix is not imported, or ambiguous, exactly when no import has it as name or last segment, or several modules share it as last segment |
| `Qualify.RefusedExactly` | src/ast/qualify.rs:74-98 | a file's imports are refused if and only if two of its modules share a last segment and one has no longer name |
| `Qualify.ClaimedExactly` | src/ast/qualify.rs:100-112 | the names a file may not declare are exactly the last segments and the first segments of its imports |
| `Qualify.FirstClaims` | src/ast/qualify.rs:100-112 | each such name is put down to the first import that claims it |
| `Qualify.FullPathAlwaysWorks` | src/ast/qualify.rs:117-159 | an imported module's export is reached by the full path whatever else is imported |
| `Qualify.DottedMeansExport` | src/ast/qualify.rs:117-159 | a dotted reference resolves to q if and only if q is an export of an imported module written by its full name or by a short name no other import shares |
| `Qualify.ReferenceAgrees` | src/ast/qualify.rs:306-329 | one value reference means the same local, item or built-in after rewriting, and fails exactly when it meant nothing |
| `Qualify.RewriteAgrees` | src/ast/qualify.rs:476-605 | every name of an expression means in the flat namespace what it meant in the module, and a failed rewrite reports the first name that means nothing |
| `Qualify.BlockAgrees` | src/ast/qualify.rs:441-474 | the same for a block: a right side is read before its name binds, a local function after, and `:=` on an own global stores to the renamed one |
| `Qualify.ModuleKeepsMeaning` | src/ast/qualify.rs:175-228 | for a whole module: each item and variant under its qualified name, each body with its meaning unchanged, and a failure only for a claimed name or one without meaning |
| `Loader.Link` | src/modules.rs:48-93 | terminates on every finite file graph and succeeds if and only if the reachable graph is well formed; then the output is linked, and otherwise the error is justified by the graph |
| `Loader.ImportLoader.ResolveOne` | src/modules.rs:192-339 | the cycle guard, the duplicate guard, the recursive load and the emission, against the resolving function on the loader's state |
| `Loader.ImportLoader.ResolveImports` | src/modules.rs:141-152 | the loop over one file's imports, against the function on its list |
| `Loader.LinkKeeps` | src/modules.rs:192-339 | over a whole run: a success has every reachable module emitted after its imports, with distinct names and file ids; a failure names a real defect |
| `Loader.CycleIsReal` | src/modules.rs:257-270 | the chain reported for a cycle names a walk of real imports that meets a key twice or the entry file |
| `Loader.LinkedIsWellFormed` | src/modules.rs:272-339 | a linked output implies that the reachable graph is acyclic, the entry file included, with one key per name |
| `Loader.LoadedOnceExactly` | src/modules.rs:272-292 | a file is loaded once if and only if it is reached under one name |
| `LinkedNames.LinkedNamesAreDistinct` | src/modules.rs:272-339 | no two items of a linked program share a name, if none does within one file |
| `Loader.TwoStemsLoadTwice` | src/modules.rs:245-292 | a well-formed program that loads one file twice |
| `Http.FindSubslice` | quilon-rt/src/http.rs:30-34 | the earliest window equal to the needle |
| `Http.BlankLineIsEarliest` | quilon-rt/src/http.rs:18-27 | the four-way search finds the first blank line there is and its only spelling |
| `Http.BlankLineIsStable` | quilon-rt/src/http.rs:18-27 | no byte received later moves a blank line already found |
| `Http.DechunkProgress` | quilon-rt/src/http.rs:65-110 | the decoder's loop, with 64-bit sizes and every slice in range, against the decoding function |
| `Http.DechunkedIsStable` | quilon-rt/src/http.rs:65-110 | a verdict other than Incomplete is the same on every extension |
| `ChunkedVerdicts.VerdictExactly` | quilon-rt/src/http.rs:65-110 | after whole chunks that fit the cap: Incomplete if and only if a size line or announced data are still arriving, TooLarge if and only if a size line announces more than the cap or the word has left, Malformed if and only if a line is no size line or data are not ended by CRLF where their size says |
| `FramingHeaders.ChunkedIsTheLastCoding` | quilon-rt/src/http.rs:36-43 | for every list of comma-separated codings a body is chunked if and only if the last one is `chunked` in any case, with any white space around it |
| `FramingHeaders.EncodingRefusedExactly` | quilon-rt/src/http.rs:170-195 | a request is refused for its encoding if and only if it has one whose last coding is not `chunked` |
| `FramingHeaders.LengthRoundTrip` | quilon-rt/src/http.rs:170-195 | every 64-bit length written in decimal, with any white space around it, is read back |
| `FramingHeaders.LongLengthIsRefused` | quilon-rt/src/http.rs:170-195 | a decimal length beyond 64 bits is refused, not wrapped |
| `FramingHeaders.ReplyExactly` | quilon-rt/src/http.rs:132-168 | a reply is cut to its decimal length or said to be short and by how much, taken whole without one, and empty where it has no body |
| `ChunkedGrammar.SizeOfExactly` | quilon-rt/src/http.rs:71-83 | a size line is read as n if and only if it is white space, an optional plus, the hexadecimal digits of n, white space and an extension after a semicolon, n fitting 64 bits |
| `ChunkedGrammar.CompleteExactly` | quilon-rt/src/http.rs:65-110 | Complete(payload) if and only if the payload fits the cap and the body is its chunks under such size lines, ended by one that says zero, whatever follows |
| `ChunkedGrammar.RfcBodyDecodes` | quilon-rt/src/http.rs:65-110 | every body of section 7.1 of RFC 9112, its extensions and trailers spelt out production by production, decodes to its payload or exceeds the cap |
| `ChunkedGrammar.RfcLineExactly` | quilon-rt/src/http.rs:71-83 | an accepted size line is the RFC's if and only if nothing stands before its digits and only the RFC's own extension after them |
| `ChunkedGrammar.FramingIsUnique` | quilon-rt/src/http.rs:65-110 | a body is cut into accepted parts in one way only |
| `ChunkedGrammar.AcceptedIsRfcExactly` | quilon-rt/src/http.rs:65-110 | an accepted body is one of the RFC if and only if its own size lines and tail are |
| `ChunkedGrammar.PlusIsAccepted` | quilon-rt/src/http.rs:71-83 | a body with a plus sign is Complete and not of the RFC |
| `ChunkedGrammar.PaddingIsAccepted` | quilon-rt/src/http.rs:71-83 | a body with a no-break space before its size is Complete and not of the RFC |
| `ChunkedGrammar.MissingEndIsAccepted` | quilon-rt/src/http.rs:84-87 | a body that ends after its last size line is Complete and not of the RFC |
| `Http.CapIsOnlyABound` | quilon-rt/src/http.rs:118-124 | Complete never exceeds the cap, and any other cap gives the same body or TooLarge |
| `Http.SizeRoundTrip` | quilon-rt/src/http.rs:71-83 | every 64-bit size written in hexadecimal, with any extension, is read back |
| `Http.ChunkedRoundTrip` | quilon-rt/src/http.rs:58-110 | encoding any non-empty pieces, each with a CRLF-free extension of its own and any trailers, and decoding gives their concatenation if it fits the cap |
| `Http.ProgressIsStable` | quilon-rt/src/http.rs:170-195 | once the verdict on a reception is not Incomplete, every longer reception has the same one |
| `Http.ReadBodyExactly` | corelib/http.qn:934-950 | asking after every arrival until a verdict is final gives the verdict on all the bytes the peer sends, and a malformed body exactly when it closes while they are incomplete |
| `Http.ArrivalIndependent` | corelib/http.qn:934-950 | the answer does not depend on how the bytes were cut on the way |
| `Http.FramingsAgree` | quilon-rt/src/http.rs:132-195 | the request framing is Complete(body) if and only if the reply framing gives that body and it fits the cap |
| `Pool.StepKeeps` | quilon-rt/src/blocking.rs:110-257 | every lock region, notify and thread creation keeps the accounts and the work-conservation bound |
| `Pool.AccountsAreExact` | quilon-rt/src/blocking.rs:163-257 | in every run the thread count is between base and ceiling, the in-flight count is exact, a job has started, once, exactly when it was queued and is no longer in the queue, and the jobs threads run now with those they have finished are the jobs started |
| `Pool.NoStrandedJob` | quilon-rt/src/blocking.rs:123-158 | a non-empty queue with no notify pending has a base thread awake |
| `Pool.QuietPoolIsDrained` | quilon-rt/src/blocking.rs:195-257 | when every base thread waits, every overflow thread has gone and every call has returned, every job has been run to its end by a thread exactly once and the pool is at its base |
| `Pool.CountersNeverWrap` | quilon-rt/src/blocking.rs:201-257 | no counter is decremented below what it counts |
| `Pool.CoverKeptExactly` | quilon-rt/src/blocking.rs:230-257 | a submission adds a thread exactly when all are in use and the ceiling is not reached; every move keeps a thread for each job in flight up to the ceiling, except exactly a departure or a failed creation with no thread to spare |
| `Pool.LeavingThreadIsCounted` | quilon-rt/src/blocking.rs:222-243 | a run to five jobs in flight on four threads, all busy, the last one queued without a new thread |
| `Pool.StepKeepsOrder` | quilon-rt/src/blocking.rs:110-158 | jobs are started in the order in which they were queued |
| `Trap.StepKeeps` | quilon-rt/src/trap.rs:105-193 | every atomic access, pipe operation and spawn keeps the invariant, with the handler interrupting anywhere |
| `Trap.EveryArrivalIsNoticed` | quilon-rt/src/trap.rs:105-193 | in every run and for every signal: at most one live run, runs never outnumber arrivals, and a pending arrival on an idle slot has a byte, a handler about to write, or a fiber that has yet to look or has just claimed one |
| `Trap.QuietMeansDelivered` | quilon-rt/src/trap.rs:141-193 | where nothing can move, no arrival is left pending, every stored delivery is an arrival, and the latest run of each signal was started after all of its arrivals |
| `Positions.LineAt` | src/source_map.rs:39-46 | the halving search finds the last line start at or before the offset |
| `Positions.LineNumber` | src/source_map.rs:29-46 | the searched line is the number of newlines before the offset plus one, for every offset |
| `Positions.FloorCharBoundary` | src/source_map.rs:283-289 | the last character boundary at or before the index |
| `Positions.PositionUtf16` | src/source_map.rs:188-196 | line and UTF-16 column of the character the offset falls on, clamped to the end, cast to 32 bits |
| `Positions.ByteOffsetOf` | src/source_map.rs:201-213 | the walk along a line, against its recursive form |
| `Positions.ByteOffsetExactly` | src/source_map.rs:198-213 | for any line and column at all: past the last line the end of the text, otherwise the first character of the line at or past the column, or the line's end before its newline |
| `Positions.RoundTripExactly` | src/source_map.rs:177-214 | from any offset to its position and back is the start of the character it falls on if and only if line and column fit 32 bits |
| `Positions.BoundaryRoundTrip` | src/source_map.rs:177-214 | from every character boundary, the end included, to its position and back is the same offset if and only if line and column fit 32 bits |
| `Positions.EndOfManyLinesIsLost` | src/source_map.rs:188-213 | the end of a text of 2^32 newlines does not come back |

## Left out

- DeferralPreservation.MeaningPreserved: the condition that no block demotes a deferred global is sufficient, not necessary; whether a demoted global is read while a promise is in it depends on the run. Named functions declared in a block and `:=` on a local are not part of the syntax modelled.
- DeferralAcceptance.AtomicsNeverWait: the followable programs are a sufficient condition, checkable on the program text; calls of function values that happen not to wait are outside it.
- DeferralAnalysis.Analyze: the walk returns what it would add to the pass's accumulators instead of adding it in place, so the order in which violations are found is not modelled, only whether there is one.
- Wakeup.NoLostWakeup: spawning on a worker's own queue, timers, helper start-up and shutdown are not steps of this machine; fairness and time are not modelled.
- Stdin.LaunchOrderIsLineOrder: the ticket counters are unbounded, and the parking of a read on an empty descriptor is the absence of a step.
- Qualify.ModuleKeepsMeaning: the rewrite is modelled on values rather than in place; type annotations, trap arms, block-local types and the root program's `resolve_program` are not part of it.
- Loader.Link: spelling resolution, file reading and parsing are parameters; the injection of `core.text` and the corelib mark on functions are not modelled.
- Http.Progress: header values are their UTF-8 bytes, and the headers' meaning is computed once per request.
- Pool.AccountsAreExact: the pool has started; the counting of base threads while they start is not modelled.
- GcCoverage.EveryRunIsCovered: a panic ends its thread; what the process does about it is not modelled.
- Trap.EveryArrivalIsNoticed: sender pid and uid are not modelled, since a later arrival may overwrite them by design.
- LaunchScopes.EveryLaunchSettledOnce: what a process exit or a trapped exit does after the reports are written is not modelled.
- The launch-scope set of the deferral pass and code generation apart from where it forces.
- The scheduler's leader and helper loops, shutdown, and the choice of the shortest queue.
- Sockets, TLS, DNS, files, standard output and process exit.
- The parser, the type checker, the collections and grapheme segmentation.
- `locate_with`, the source map's own table, and the language server.
