# GopherJS, modelled and verified

GopherJS compiles Go to JavaScript.  This project models the parts of it whose correctness tests cannot settle, and
proves what they are for.  To check it, run `dafny verify dfyconfig.toml` in this directory.

## What is modelled

**Flattening and suspend/resume** (`GoSource`, `JsMachine`, `Emitter`, `FuncContext`, `Unflattened`, `MoreGas`,
`SuspendResume`, `CaseNumbers`, `CaseTargets`, `Flattening`, `CompilerCorrectness`).  A function that may block
becomes `s: while (true) { switch ($s) { case 0: ... } return; }`.  `GoSource` has the statements (if chains, type
switches, switches, loops with post statements, labelled break and continue, return, blocking calls, `&&` and `||`
with a blocking operand) and their big-step meaning with gas.  `JsMachine` has the emitted instructions, the `$s`
machine, the frames a blocked call leaves, and their meaning in two modes: a call that parks keeps its activation, or
unwinds the whole stack and is entered again through `$blk`.  `Emitter` gives the emitted code as a function; the
class `Translator.FuncContext` is the translator as it runs, with its output, case counter and flow data, and each of
its methods is proved to emit that code.  The main results: the goroutine that unwinds does what the source does
(`GoroutineFollowsSource`, `EndsTogether`), for every program whose flattened nodes are closed under ancestors and
whose continues to a blocking post statement are flattened, every oracle of parking calls and every amount of gas; and
every jump has exactly one case.  `MisplacedCases` has what becomes of a continue that is not flattened although its
loop's post statement is.

**Goroutines, channels, select, timers** (`Scheduler`, `SchedulerInvariant`, `SchedulerSafety`, `SchedulerResults`,
`SchedulerDelivery`, `SchedulerFrame`, `ClosingSelects`, `ClosingThrows`, `ClosingExample`, `Runtime`) and
**semaphores** (`Semaphore`, `SemaphoreRuns`).  The runtime's operations are functions on one state; the classes
`GoroutineRuntime.Runtime` and `Semaphore.Semaphores` are the code that updates it in place and are proved to compute
these functions and to keep the invariant.  Over all runs: channel conservation, order and capacity, exactly-once
wake-up, for each value the one goroutine that gives it and the one that takes it, the counters and the deadlock
report, and that no sleeper is forgotten; the semaphore's permits, its reservations and its order.  Of every step:
what the running goroutine and those that it wakes are told, and what happens to channels, callbacks and the queue of
runnable goroutines.

**Integers** (`JsNumber`, `BinaryDigits`, `Int64`, `Mul64`, `Div64`, `SmallInts`, `Bits`).  JavaScript's operators on
numbers, with the range in which a double is exact as a subset type, so that every intermediate result is shown to be
exact; on top of them the emitted operators and the runtime's 64-bit functions against mathematical integers.

**Which functions may block** (`WalkTree`, `WalkRecord`, `WalkOrder`, `AnalysisVisitor`, `Analysis`,
`AnalysedPrograms`, `AnalysedCorrectness`, `AnalysedExample`, `WalkExamples`).  `WalkTree` has the nodes of a function
by kind, with the stack that the visitor keeps while it walks them; `WalkRecord` says exactly what a walk puts on
record, in terms of the nodes of the tree, and `WalkOrder` in which order and with which deferred calls; the class
`AnalysisVisitor.FuncVisitor` is the visitor, and `Analysis.Analysis` the propagation through the whole program.
`AnalysedCorrectness` joins analysis and translation: when every continue was recorded with its own loop, a program
whose flags are the marks of the analysis is one for which flattening is correct (`AnalysedProgramEndsWithItsSource`).

**Other whole-program structures** (`Dce`, `InstanceMap`, `MapIteration`).  Which declarations are alive, the hash map
with holes that instances live in, and its iteration while the map changes.

**Values at run time** (`MapKeys`, `Utf`, `Slices`) and **source-map hints** (`SourceMapHints`).

## What the proofs found

- `stopTimer` cancels a callback without lowering `$awakeGoroutines`.  From then on no deadlock is ever reported
  (`SchedulerSafety.StoppedTimerSilencesTheReport`, with a run in `UnreportedDeadlock`); the report is exact if and
  only if no callback was cancelled (`DeadlockReport`).
- A right shift of a signed number by a constant of 32 or more is emitted as 0, also for negative numbers, where Go
  gives -1 (`SmallInts.ShiftRightConstCorrect`, `ConstantShiftOfMinusOne`).
- The unary minus of signed numbers, and the quotient of int8 and int16, are emitted without `fixNumber`: the most
  negative number negated, or divided by -1, leaves the range (`SmallInts.NegateCorrect`, `QuotientCorrect`, with
  `NegatedLeastInt8` and `QuotientOfLeastInt8`).
- The analysis visitor takes a node off its stack only when `Visit` has returned the visitor itself.  After a go
  statement, a select clause, a function literal or a call of one, a node stays behind and is marked with later nodes
  that are not inside it (`WalkExamples.GoStaysOnStack`).  A node is marked with its ancestors alone if and only if
  every node before it was popped (`WalkTree.OnlyAncestors`).  The comment at compiler/internal/analysis/info.go:28-29
  says that each node of a path is the parent of the next; what holds is that every ancestor is marked
  (`WalkTree.AncestorsOnWay`, `Analysis.AncestorsMarked`).
- For the same reason a continue without a label can be taken for one of an earlier, inner loop.  It is recorded with
  its own loop if and only if no subtree that was walked since the loop began, on any level, leaves a loop behind
  (`WalkTree.ContinueFindsItsLoop`, and `RecordedWithItsLoop` for a whole function; `LeavesLoop` is decided on the tree
  alone).  In `for ; ; <-c { for z { go f() }; if x { continue } }` it is recorded with the inner loop
  (`WalkExamples.ContinueOfTheWrongLoop`), and neither the continue nor the if statement is marked although the post
  statement is (`UnmarkedContinue`).  The translation of such an if statement has a case of the machine inside its
  braces, where no `switch ($s)` can enter (`MisplacedCases.CaseInTheLoop`; if and only if the post statement is
  flattened, by `CaseInsideIf`).  `AnalysedExample.WrongIsAnalysed` takes this program from the walk to the emitted
  code, and `RightIsAnalysed` one whose continue has its own loop.  How many nodes stay behind matters: an inner loop
  inside an if statement is left on the stack with three go statements, and is not with one
  (`WalkExamples.GoesInABranch`).
- The last pass of the analysis goes through the continues once, in the order of the source.  A continue whose post
  statement is marked only by a later continue is not marked; exactly these are missed (`Analysis.ContinueMissed`), and
  a loop with a call of a function literal as its post statement is one (`WalkExamples.AContinueIsMissed`).
- Closing a channel on which a select waits to send throws in the goroutine that closes, and the goroutine of the select
  is forgotten: it sleeps on and its entry is gone.  `$close` keeps the scheduler's invariant if and only if no select
  waits to send on the channel (`ClosingSelects.CloseKeepsInv`; a run that comes to such a close is
  `ClosingExample.CloseWhileSelecting`).
- `InstanceMap.Iterate` promises that its callback is not called for an entry that the callback has deleted before
  (compiler/internal/typeparams/map.go:143-147).  It ranges over the array that the bucket had when the loop reached it,
  so it is called for exactly those deleted entries that were deleted after an insertion had moved the bucket to a
  larger array; the promise holds if and only if there is none (`MapIteration.DeletedAreSkipped`, `DeletedButCalled`).
  It holds whenever the insertions of new keys fit into the holes and the room of the array (`FittingIsSafe`), so for
  every callback that never sets more keys than that (`FewSetsAreSafe`), and for every one that only deletes
  (`DeletingIsSafe`).
- A JavaScript string that ends in a lone high surrogate becomes a Go string that is not valid UTF-8, and no other
  string does (`Utf.InternalValid`, `InternalOfHalf`).  Before any other unit a high surrogate takes that for its other
  half, and neither comes through (`InternalIllFormed`).
- `runtime_Semrelease` of a full 32-bit word loses the permits (`Semaphore.ReleaseOverflows`, if and only if;
  `ReleaseOfFullWord`).

## Model

| member | source | states |
|---|---|---|
| CompilerCorrectness.GoroutineFollowsSource | compiler/functions.go:218-353 | For every program, oracle and gas, the compiled goroutine that unwinds its stack at parked calls ends with the source's value and world, or runs out of gas after the same events |
| CompilerCorrectness.GoroutineSound | compiler/functions.go:218-353 | With any gas the compiled goroutine is never stuck, and ends only where the source can end |
| CompilerCorrectness.EndsTogether | compiler/functions.go:218-353 | Source and compiled goroutine end with the same value in the same world, each if and only if the other does |
| Flattening.SimFn | compiler/functions.go:250-353 | A compiled function, flattened or not, simulates its source, with some extra gas for the jumps through `$s` |
| Flattening.SimStmt | compiler/statements.go:55-188 | From the place of any statement's code the machine lands where the statement leaves: behind it, at the case of its break or continue target after the post statement, or at a return |
| Flattening.SimList | compiler/statements.go:18-23 | The same for statement lists |
| Flattening.SimNested | compiler/statements.go:550-695 | A statement without flattened nodes inside a flattened function: its ordinary JavaScript meets the same landing |
| Flattening.SimFlatLoop | compiler/statements.go:637-695 | A flattened loop with test, body, post statement and back-edge lands where the source loop ends |
| Flattening.SimTurn | compiler/statements.go:637-695 | One turn: body, post statement also after a continue that names the loop, and the jump back |
| Flattening.SimCases | compiler/statements.go:550-635 | A flattened if chain or type switch runs exactly the chosen clause and lands at its end case |
| Flattening.SimHeads | compiler/statements.go:592-606 | The tests of a flattened chain jump to the case of the first clause that holds, or to the default or end case |
| Flattening.SimSwitch | compiler/statements.go:78-172 | A flattened switch catches the breaks that mean it, unlabelled or labelled, and passes on all others |
| Flattening.SimContinue | compiler/statements.go:304-320 | A flattened continue runs the post statement of the loop it names, then jumps to its begin case |
| Flattening.SimShortCircuit | compiler/expressions.go:443-462 | A short circuit with a blocking right operand gives the right value and calls the operand only if it is needed |
| Flattening.SimCall | compiler/expressions.go:847-863 | A call that may block assigns the callee's value and goes on behind its unwinding check |
| Flattening.SimPost | compiler/statements.go:174-188 | A post statement with blocking calls runs through to its end |
| Unflattened.NestedFn | compiler/functions.go:250-353 | A function without flattened nodes is the source function, step for step with the same gas |
| Unflattened.NestedStmt | compiler/statements.go:55-188 | The ordinary JavaScript of a statement has the source's outcome: break, continue and return go where Go sends them |
| Unflattened.NestedLoop | compiler/statements.go:637-695 | `while (true)` with its test and post statement is the source loop |
| Unflattened.NestedContinue | compiler/statements.go:316-320 | A continue emits the post statement of the loop it names before it jumps |
| Unflattened.NestedClauses | compiler/statements.go:592-634 | An if/else chain runs the chosen clause |
| Unflattened.NestedSwitch | compiler/statements.go:107-122 | `switch (0) { default: ... }`, emitted only where a label or a break needs it, catches exactly the breaks that mean the switch |
| Unflattened.StmtLeaves | compiler/internal/analysis/break.go:8-32 | A statement ends in an unlabelled break only if HasBreak says so, and jumps only to enclosing statements |
| Unflattened.TerminatedNotNormal | compiler/statements.go:671-680 | A body that ends in a return or a branch never runs into the back-edge that is left out |
| Flattening.ReturnsAtEnd | compiler/astutil/astutil.go:263-278 | A list that EndsWithReturn never runs off its end, so no jump and no return need follow it |
| MoreGas.InvokeMore | compiler/functions.go:292-335 | More gas changes nothing but the gas that is left |
| SuspendResume.InvokeTransparent | compiler/functions.go:292-335 | Calling a function and resuming its frames until it is done is calling it with the blocking calls waiting in place: same events, same value, same gas |
| SuspendResume.RunTransparent | compiler/functions.go:292-335 | The same from every place in the machine |
| SuspendResume.CallTransparent | compiler/expressions.go:847-863 | The same from a call that may block |
| SuspendResume.DriveCaller | compiler/functions.go:292-335 | Driving a suspended caller drives its callee's frame first and then goes on behind the call, with every local as it was |
| SuspendResume.AtReturn | compiler/expressions.go:847-863 | After a call: a frame that keeps `$s`, the locals and the callee's frame if it is suspended, else the code behind the call |
| SuspendResume.AtReentry | compiler/prelude/goroutines.js:223-228 | Re-entering a frame restores locals and `$s`, resumes the callee and runs nothing before the call again |
| CaseNumbers.CompiledResumable | compiler/functions.go:331-335 | The case numbers of a function are distinct, it starts with case 0, and every blocking call has its five instructions in order |
| CaseNumbers.CaseFound | compiler/functions.go:331-335 | `switch ($s)` enters at the one case of that number |
| CaseTargets.EveryJumpHasItsCase | compiler/statements.go:304-320 | Every emitted jump goes to a number that is the case of exactly one place of its function, or to -1 before a return |
| Translator.TranslateFunctionBody | compiler/functions.go:218-353 | The translator emits exactly the compiled function of the correctness proof |
| Translator.FuncContext.TranslateStmt | compiler/statements.go:55-188 | Emits the statement's code after the output so far, advances the case counter past its cases, and restores the flow data |
| Translator.FuncContext.TranslateStmtList | compiler/statements.go:18-23 | The same for lists |
| Translator.FuncContext.TranslateBranching | compiler/statements.go:550-635 | Flattened or nested, the chain's code |
| Translator.FuncContext.TranslateFlatBranching | compiler/statements.go:551-606 | Case numbers are reserved for all clauses, the default and the end before a body is translated |
| Translator.FuncContext.TranslateBodies | compiler/statements.go:615-634 | One case per clause, and a jump to the end case unless the clause is last or ends in a return |
| Translator.FuncContext.TranslateSwitch | compiler/statements.go:78-122 | A switch with its flow data pushed and popped |
| Translator.FuncContext.TranslateTypeSwitch | compiler/statements.go:124-172 | A type switch, with the end case of its chain as the target of break |
| Translator.FuncContext.TranslateFlatLoop | compiler/statements.go:637-695 | A loop between its begin and end cases |
| Translator.FuncContext.TranslateWhile | compiler/statements.go:637-695 | A loop that is not flattened |
| Translator.FuncContext.TranslateCall | compiler/expressions.go:847-863 | A call that may block takes one case number, to resume at |
| Translator.FuncContext.TranslateAtom | compiler/expressions.go:443-462 | Assignments, calls, and the blocking short circuits with their skip case |
| Translator.FuncContext.TranslatePost | compiler/statements.go:184-188 | The post statement's closure, translated anew at each continue with fresh case numbers |
| Translator.FuncContext.PopFlow | compiler/statements.go:91-94 | After a statement the flow data are what they were before it |
| SchedulerSafety.ChannelsAlways | compiler/prelude/goroutines.js:230-389 | In every reachable state: values received, then the buffer, are the values sent, in order; the buffer fits the capacity; a parked sender means a full buffer, a parked receiver an empty one; both together only as cases of one select; nobody is parked on a closed channel |
| SchedulerSafety.WakeUpsAlways | compiler/prelude/goroutines.js:128-221 | In every reachable state: nobody is queued twice, or while running or asleep, and whoever can run is queued; queue entries are exactly the cases of sleeping goroutines |
| SchedulerSafety.WokenOnce | compiler/prelude/goroutines.js:348-384 | Waking a goroutine takes all its entries off all channels and queues it once |
| SchedulerSafety.StepInv | compiler/prelude/goroutines.js:128-389 | Every step of the runtime can be taken safely and keeps the invariant |
| SchedulerSafety.RunInv | compiler/prelude/goroutines.js:128-389 | So does every run |
| SchedulerSafety.DeadlockReport | compiler/prelude/goroutines.js:147-157 | The report appears exactly when nothing is runnable, no callback is outstanding and none was ever cancelled |
| SchedulerSafety.DeadIsFinal | compiler/prelude/goroutines.js:151-157 | When nothing is runnable and no callback is outstanding no step is possible, and every goroutine that has not returned is asleep |
| SchedulerSafety.StoppedTimerSilencesTheReport | compiler/natives/src/time/time.go:59-64 | After a callback has been cancelled no run changes the report |
| SchedulerSafety.UnreportedDeadlock | compiler/natives/src/time/time.go:59-64 | A program that starts a timer, stops it and blocks is dead without a report |
| SchedulerResults.StepTells | compiler/prelude/goroutines.js:230-389 | In every step the running goroutine goes on and is told what its operation came to, or it sleeps and waits for just that and the operation could not go on; a receive gets the channel's next value and true, or zero and false exactly from a closed channel with nothing left |
| SchedulerResults.SelectTells | compiler/prelude/goroutines.js:329-343 | $select returns the number of a case that was ready, with the value received or given, or the number of a default case exactly when none was ready |
| SchedulerFrame.StepFrame | compiler/prelude/goroutines.js:128-389 | In every step: a channel keeps its capacity and is closed by a close alone; channels and goroutines are made only where they should be and as they should be; a callback stays outstanding until it fires or is stopped, and a periodic one is set again when it fires; who becomes runnable goes to the end of the queue and who runs comes from its front |
| SchedulerFrame.SleepersAlways | compiler/natives/src/time/time.go:34-38 | In every reachable state the private channel of a sleeper is open exactly as long as the callback that closes it is outstanding, and firing that makes whoever waits on it runnable |
| SchedulerFrame.CloseWakesInOrder | compiler/prelude/goroutines.js:288-301 | Whoever waits for a channel that is closed becomes runnable, each once, in the order in which they began to wait, the senders first |
| SchedulerInvariant.WakeInv | compiler/prelude/goroutines.js:197-206 | Waking a parked goroutine keeps queues, counters and channels in order |
| SchedulerInvariant.ParkInv | compiler/prelude/goroutines.js:344-388 | Parking on cases of which none is ready keeps the invariant |
| SchedulerInvariant.SendInv | compiler/prelude/goroutines.js:230-259 | $send keeps the invariant, and does not park when it can go on |
| SchedulerInvariant.RecvInv | compiler/prelude/goroutines.js:260-282 | $recv keeps the invariant, and does not park when it can go on |
| SchedulerInvariant.CloseInv | compiler/prelude/goroutines.js:283-302 | $close keeps the invariant and empties both queues |
| SchedulerInvariant.SelectInv | compiler/prelude/goroutines.js:303-389 | $select keeps the invariant and goes on exactly when a case is ready or there is a default |
| SchedulerInvariant.SleepInv | compiler/natives/src/time/time.go:34-38 | Sleep parks its goroutine on a private channel with a callback that will close it |
| SchedulerInvariant.NewGoroutineInv | compiler/prelude/goroutines.js:128-167 | $go keeps the invariant |
| SchedulerInvariant.FinishInv | compiler/prelude/goroutines.js:145-160 | Leaving a goroutine keeps the counters equal to the goroutines that live and that are awake |
| SchedulerInvariant.RunNextInv | compiler/prelude/goroutines.js:180-182 | The next scheduled goroutine can run |
| SchedulerInvariant.FireInv | compiler/prelude/goroutines.js:208-214 | A callback finds its channel open and keeps the invariant |
| SchedulerInvariant.SetTimeoutInv | compiler/prelude/goroutines.js:208-214 | An outstanding callback counts as awake |
| SchedulerDelivery.StepDelivers | compiler/prelude/goroutines.js:230-389 | In every step and on every channel: either nothing is received and nobody is told that he has received anything, or exactly one value is, by exactly one goroutine, which is running or first in the queue and is told it, and nobody else is; the same for what is sent; whoever wakes is told the true reason; the running goroutine is told what its operation came to; nothing happens to anybody else |
| SchedulerDelivery.SendDelivers | compiler/prelude/goroutines.js:230-259 | $send gives its value to the first receiver that waits and to nobody else, or stores it, or parks |
| SchedulerDelivery.RecvDelivers | compiler/prelude/goroutines.js:260-282 | $recv takes the oldest value, and lets the first sender that waits, and nobody else, go on; or it parks, or gets zero and false |
| SchedulerDelivery.CloseDelivers | compiler/prelude/goroutines.js:283-302 | $close tells every parked receiver zero and false and every parked sender that the channel is closed; nobody takes or gives a value, and nobody stays parked |
| SchedulerDelivery.SelectDelivers | compiler/prelude/goroutines.js:303-389 | The same as for $send and $recv for the case that $select has picked, and the goroutine is told the number of that case, with what it received, or the number of a default case |
| GoroutineRuntime.Runtime.Go | compiler/prelude/goroutines.js:128-167 | Counts the new goroutine as live and awake and schedules it |
| GoroutineRuntime.Runtime.RunScheduled | compiler/prelude/goroutines.js:170-195 | Takes the first goroutine of the queue, if any |
| GoroutineRuntime.Runtime.LeaveGoroutine | compiler/prelude/goroutines.js:145-160 | The finally block: counters, sleep after exit, the report |
| GoroutineRuntime.Runtime.Schedule | compiler/prelude/goroutines.js:197-206 | A sleeper is awake and counted, and goes to the end of the queue |
| GoroutineRuntime.Runtime.StartTimeout | compiler/prelude/goroutines.js:208-214 | The callback is outstanding and counted |
| GoroutineRuntime.Runtime.FireTimeout | compiler/natives/src/time/time.go:34-57 | The callback of Sleep, Gosched or startTimer runs, is no longer counted, and keeps the invariant |
| GoroutineRuntime.Runtime.Block | compiler/prelude/goroutines.js:216-221 | The running goroutine is asleep |
| GoroutineRuntime.Runtime.Send | compiler/prelude/goroutines.js:230-259 | Panics exactly on a closed channel, otherwise makes the step of the model and keeps the invariant |
| GoroutineRuntime.Runtime.Recv | compiler/prelude/goroutines.js:260-282 | Makes the step of the model and keeps the invariant |
| GoroutineRuntime.Runtime.Close | compiler/prelude/goroutines.js:283-302 | Panics exactly on a closed channel, where it does nothing, and where a select waits to send; otherwise makes the step of the model.  Keeps the invariant if and only if it does not panic after it has marked the channel closed |
| GoroutineRuntime.Runtime.WakeSenders | compiler/prelude/goroutines.js:288-294 | Wakes the senders up to the first select, and throws exactly if there is one |
| ClosingSelects.CloseKeepsInv | compiler/prelude/goroutines.js:283-294 | $close keeps the invariant if and only if no select waits to send on the channel; otherwise a goroutine sleeps on a send that the channel knows nothing of |
| ClosingSelects.SelectIsForgotten | compiler/prelude/goroutines.js:369-380 | The entry of the first such select is gone and its goroutine sleeps on |
| ClosingThrows.CloseThrewAt | compiler/prelude/goroutines.js:287-294 | When $close throws at a select, all that has happened is: the channel is closed, the plain senders before the select have been woken in order and told so, and the entry of the select is gone; the entries behind it and the receivers wait on |
| ClosingExample.CloseWhileSelecting | compiler/prelude/goroutines.js:369-380 | A run from the start of a program to a goroutine that waits in a select with one send, and that nothing can wake once main closes the channel |
| GoroutineRuntime.Runtime.Select | compiler/prelude/goroutines.js:303-389 | Panics exactly when a case sends on a closed channel, otherwise picks a ready case if there is one, then the default, or parks; and what the goroutine is told is as in SchedulerResults |
| GoroutineRuntime.Runtime.ReadyCases | compiler/prelude/goroutines.js:304-327 | Finds exactly the ready cases, and the last default |
| GoroutineRuntime.Runtime.PushEntries | compiler/prelude/goroutines.js:357-385 | Every case is at the end of its channel's queue |
| GoroutineRuntime.Runtime.RemoveFromQueues | compiler/prelude/goroutines.js:348-356 | No entry of the goroutine is left in any queue, and the others keep their order |
| GoroutineRuntime.Runtime.CallEntry | compiler/prelude/goroutines.js:361-384 | An entry's closure stores the result, removes the other entries and schedules, all at once |
| Semaphore.SemaphoreAlways | compiler/natives/src/sync/sync.go:31-75 | In every reachable state: the count is the first value plus releases minus completed acquires and covers the woken waiters; with waiters present every permit is reserved for a woken one; waiters that queue at the back wake in the order they came |
| SemaphoreRuns.PermitsConserved | compiler/natives/src/sync/sync.go:31-75 | In every reachable state the count is the first value, one more for each call of release and one less for each call of acquire that is neither waiting nor on its way out |
| SemaphoreRuns.StepMoves | compiler/natives/src/sync/sync.go:31-75 | What each step does to the count, the queue and the woken goroutines: an acquire takes a permit that is not reserved or joins the queue at the end it asks for; a release wakes the first waiter; other semaphores stay as they are |
| Semaphore.AcquireInv | compiler/natives/src/sync/sync.go:31-46 | A newcomer takes a permit exactly when one is not reserved, and waits otherwise |
| Semaphore.ResumeInv | compiler/natives/src/sync/sync.go:40-45 | A woken waiter finds its permit, so the count never underflows |
| Semaphore.ReleaseInv | compiler/natives/src/sync/sync.go:56-75 | A release reserves its permit for the first waiter, if there is one, and keeps the invariant if and only if the word was not full |
| Semaphore.RunInv | compiler/natives/src/sync/sync.go:31-75 | The invariant holds over every run |
| Semaphore.ReleaseOverflows | compiler/natives/src/sync/sync.go:56-58 | The count stays right if and only if the word was not full |
| Semaphore.ReleaseOfFullWord | compiler/natives/src/sync/sync.go:56-58 | The largest count, released once more, is zero |
| Semaphore.Semaphores.SemacquireMutex | compiler/natives/src/sync/sync.go:31-46 | The step of the model, and waits exactly when the goroutine is queued |
| Semaphore.Semaphores.Received | compiler/natives/src/sync/sync.go:40-45 | The rest of an acquire that waited |
| Semaphore.Semaphores.Semrelease | compiler/natives/src/sync/sync.go:56-75 | The step of the model, also on a full word; keeps the invariant if and only if the word was not full |
| Int64.NewValue | compiler/prelude/types.js:103-119 | The constructors hold high·2^32 + low, wrapped to 64 bits |
| Int64.AddCorrect | compiler/expressions.go:353-354 | Go's wrapping sum |
| Int64.SubCorrect | compiler/expressions.go:353-354 | Go's wrapping difference |
| Int64.NegCorrect | compiler/expressions.go:292-295 | Go's wrapping negation |
| Int64.ComplementCorrect | compiler/expressions.go:303-306 | Go's complement |
| Int64.BitwiseCorrect | compiler/expressions.go:355-358 | Each of the 64 digits of a bitwise and, or, exclusive or and and-not is that of the operands' digits |
| Int64.ComparisonsCorrect | compiler/expressions.go:343-352 | Comparing words compares the values, signed and unsigned |
| Int64.ShiftLeftCorrect | compiler/prelude/numeric.js:37-48 | x·2^y, wrapped, for every shift count |
| Int64.ShiftRightInt64Correct | compiler/prelude/numeric.js:50-64 | The floor of x/2^y for every shift count |
| Int64.ShiftRightUint64Correct | compiler/prelude/numeric.js:66-77 | The floor of x/2^y for every shift count |
| Mul64.Mul64 | compiler/prelude/numeric.js:79-117 | Go's wrapping product, with every intermediate exact |
| Mul64.Accumulate | compiler/prelude/numeric.js:91-109 | The carries between the four limbs lose nothing: the limbs are the sum of all partial products mod 2^64 |
| Mul64.ColumnsCorrect | compiler/prelude/numeric.js:80-88 | The partial products that are formed are the product mod 2^64 |
| Div64.Div64 | compiler/prelude/numeric.js:119-180 | Panics exactly on zero; else the truncated quotient, wrapped, or the remainder with the sign of x, for every pair of signed or unsigned numbers |
| Div64.QuoRem | compiler/prelude/numeric.js:119-180 | The specified quotient and remainder satisfy x = q·y + r, smaller than the divisor, r with the sign of x |
| Div64.QuoFits | compiler/prelude/numeric.js:119-180 | Only the quotient of the most negative number and -1 wraps |
| Div64.Magnitude | compiler/prelude/numeric.js:127-150 | The words become those of the absolute value |
| Div64.Normalise | compiler/prelude/numeric.js:152-157 | The divisor is doubled n times without loss until twice the result passes the dividend |
| Div64.Digits | compiler/prelude/numeric.js:158-175 | n + 1 digits leave quotient and remainder of the magnitudes |
| Div64.OneDigit | compiler/prelude/numeric.js:159-172 | One step of subtraction with borrow and of the quotient's new digit |
| SmallInts.FixNumberWraps | compiler/expressions.go:1363-1384 | fixNumber wraps every exact number to the type |
| SmallInts.ImulCorrect | compiler/prelude/numeric.js:17-23 | The replacement of Math.imul is the product as a signed word |
| SmallInts.AddCorrect | compiler/expressions.go:384-385 | Sum and difference wrap as Go's |
| SmallInts.MulCorrect | compiler/expressions.go:386-393 | The product wraps as Go's, for all widths |
| SmallInts.QuotientCorrect | compiler/expressions.go:394-402 | Panics exactly on zero, and for every rounding of the floating-point quotient is Go's wrapping quotient if and only if it is not an int8 or int16 minimum divided by -1 |
| SmallInts.QuotientOfLeastInt8 | compiler/expressions.go:394-402 | int8(-128) / -1 is emitted as 128 |
| SmallInts.RemainderCorrect | compiler/expressions.go:407-408 | Panics exactly on zero; else Go's remainder, in range |
| SmallInts.ShiftLeftCorrect | compiler/expressions.go:409-425 | x·2^y, wrapped, for every count |
| SmallInts.ShiftRightCorrect | compiler/expressions.go:421-425 | The floor of x/2^y for every variable count |
| SmallInts.ShiftRightConstCorrect | compiler/expressions.go:414-420 | With a constant count it is so if and only if the count is below 32 or x is not negative |
| SmallInts.ConstantShiftOfMinusOne | compiler/expressions.go:414-420 | int32(-1) shifted right by 32 is emitted as 0 |
| SmallInts.BitwiseCorrect | compiler/expressions.go:426-434 | Each digit of a bitwise operation is that of the operands' digits, and the results of and and or are in range without fixNumber |
| SmallInts.NegateCorrect | compiler/expressions.go:298-301 | Go's negation if and only if x is not the most negative signed number |
| SmallInts.NegatedLeastInt8 | compiler/expressions.go:298-301 | The negation of int8(-128) is emitted as 128 |
| SmallInts.ComplementCorrect | compiler/expressions.go:303-307 | Each digit is the opposite, in range |
| Bits.Div32 | compiler/natives/src/math/bits/bits.go:44-90 | Panics exactly for y = 0 and y <= hi; else quotient and remainder of the double word, though every step wraps at 32 bits |
| Bits.Digit | compiler/natives/src/math/bits/bits.go:60-79 | The correction loop finds the exact digit and its remainder |
| Bits.Guess | compiler/natives/src/math/bits/bits.go:63-69 | The test is true exactly when the guess is too large |
| Bits.FirstGuess | compiler/natives/src/math/bits/bits.go:60-61 | The first guess is not below the digit and at most 2^16 + 1 |
| Bits.Normalised | compiler/natives/src/math/bits/bits.go:51-59 | The shift keeps the double word's value and hi < y |
| Bits.TwoDigits | compiler/natives/src/math/bits/bits.go:71-89 | Two digits and the unshifted remainder make the division |
| Bits.Rem32 | compiler/natives/src/math/bits/bits.go:92-101 | The double word mod y for every y but 0 |
| Bits.Mul32 | compiler/natives/src/math/bits/bits.go:20-35 | hi and lo are the exact product |
| Bits.Add32 | compiler/natives/src/math/bits/bits.go:37-42 | Sum and carry are the exact sum, for a carry of 0 or 1 |
| Analysis.Analysis.PropagateAnalysis | compiler/internal/analysis/info.go:211-228 | Ends with exactly the functions blocking from which a chain of calls reaches a blocking node, and exactly these nodes marked: those on the ways to such calls, to returns that must make a deferred call of unknown code or of such a function, in a function with goto to every return as soon as any deferred call is one, and to the continues whose post statement is marked when their turn comes |
| Analysis.Analysis.PropagateBlocking | compiler/internal/analysis/info.go:213-222 | The rounds end, in the least fixpoint |
| Analysis.Analysis.PropagateFunctionBlocking | compiler/internal/analysis/info.go:234-258 | A round that is not the last deletes a callee; the last changes nothing |
| Analysis.Analysis.VisitInstCallees | compiler/internal/analysis/info.go:237-246 | Done only when no callee blocks and nothing changed; otherwise fewer calls are left, and exactly calls of functions that may block went and are marked |
| Analysis.Analysis.VisitLitCallees | compiler/internal/analysis/info.go:248-255 | The same for calls of literals |
| Analysis.Analysis.MarkBlocking | compiler/internal/analysis/info.go:716-721 | The nodes of the path are blocking and flattened, nothing else changes |
| Analysis.Analysis.PropagateReturnBlocking | compiler/internal/analysis/info.go:339-359 | Marks the returns whose deferred calls may block, all of them in a function with goto |
| Analysis.Analysis.PropagateContinueBlocking | compiler/internal/analysis/info.go:366-374 | Marks the continues of loops whose post statement is blocking |
| Analysis.Analysis.IsAnyDeferBlocking | compiler/internal/analysis/defer.go:81-101 | True exactly when some deferred call is of unknown code, or of a function that has a blocking node |
| Analysis.FunctionAnalysed | compiler/internal/analysis/info.go:339-374 | The marks of one function at the end of the analysis, from the records of the walk alone |
| Analysis.SettledIsExact | compiler/internal/analysis/info.go:211-258 | When no call of a blocking function is left, blocking is exactly reachability and the marks are exactly the ways there |
| Analysis.MarkedMayBlock | compiler/internal/analysis/info.go:234-258 | At any time only functions that may block are marked |
| Analysis.ControlPassBlocksNothing | compiler/internal/analysis/info.go:263-268 | The last pass makes no function blocking that was not |
| Analysis.ControlPassIs | compiler/internal/analysis/info.go:263-268 | Exactly these are added: the ways to the returns that block, and to the continues whose post statement is marked when their turn comes; all continues whose post statement was marked before are among them |
| Analysis.ContinuePassIs | compiler/internal/analysis/info.go:361-374 | The marks of the pass over the continues, turn by turn |
| Analysis.ContinueMissed | compiler/internal/analysis/info.go:361-374 | At the end a continue whose post statement is marked was missed if and only if the way to a later continue, marked in its turn, leads over that post statement |
| Analysis.DeferMarked | compiler/internal/analysis/defer.go:81-92 | A function that defers a blocking call is blocking |
| Analysis.AncestorsMarked | compiler/internal/analysis/info.go:716-727 | When the analysis is finished, all ancestors of a blocking node are blocking and of a flattened one flattened |
| AnalysisVisitor.FuncVisitor.Walk | compiler/internal/analysis/info.go:376-524 | The record afterwards is the one before with exactly the effects of the tree's visits, in order, and the stack is as computed by After |
| WalkRecord.VisitsAreNodes | compiler/internal/analysis/info.go:376-524 | A walk visits every node of the tree with the stack on the way to it, and nothing else |
| WalkRecord.NodeRecords | compiler/internal/analysis/info.go:399-561 | All that each kind of node does to the record of its function, field by field |
| WalkRecord.WalkMarks | compiler/internal/analysis/info.go:418-432 | After a walk a node is blocking if and only if it was, or is on the way to a node that may block by itself; flattened likewise, with the gotos |
| WalkRecord.WalkCalls | compiler/internal/analysis/info.go:680-714 | The ways on record for a function are those that were and the ways to its calls in the tree, no others |
| WalkRecord.WalkLiterals | compiler/internal/analysis/info.go:548-561 | A literal's call is on record if and only if it was or the tree has one, with its way and with what the walk of its arguments left |
| WalkRecord.WalkContinues | compiler/internal/analysis/info.go:406-413 | Exactly the continues of for statements are on record, each with its way and the post statement of the loop that was found for it |
| WalkRecord.WalkReturns | compiler/internal/analysis/info.go:512-517 | Exactly the ways to the returns are on record |
| WalkRecord.WalkGotos | compiler/internal/analysis/info.go:401-405 | A function is on record as one with goto exactly when there is one in it |
| WalkOrder.WalkReturnDefers | compiler/internal/analysis/info.go:438-517 | A return is on record if and only if it was or the tree has it, and with exactly the deferred calls that may run at it: those before it, or, in a loop, those before and in the outermost loop around it |
| WalkOrder.ContinuesInOrder | compiler/internal/analysis/info.go:406-413 | The continues come on record in the order of the source, each with the post statement of the loop that is found |
| WalkOrder.DefersAre | compiler/internal/analysis/info.go:509-511 | The deferred calls come on record in the order of the source, a literal after those in its arguments |
| WalkTree.StackGrows | compiler/internal/analysis/info.go:376-383 | After a node the stack is as before with one node more for each that nobody takes off |
| WalkTree.LeftOnStack | compiler/internal/analysis/info.go:487-561 | Go statements, select clauses, function literals and calls of them stay on the stack behind their children, and no other node does |
| WalkTree.AfterIs | compiler/internal/analysis/info.go:376-383 | What a node leaves behind does not depend on what was on the stack |
| WalkTree.AncestorsOnWay | compiler/internal/analysis/info.go:28-33 | Every ancestor of a node is on the way to it |
| WalkTree.OnlyAncestors | compiler/internal/analysis/info.go:28-33 | The way holds the ancestors alone if and only if everything before the node was popped |
| WalkTree.LeavesLoopIs | compiler/internal/analysis/info.go:376-383 | A tree leaves a loop on the stack if and only if one of the first nodes of it that can be left, as many as are not popped, is a loop |
| WalkTree.LoopFound | compiler/astutil/astutil.go:231-258 | FindLoopStmt finds the loop around a continue if and only if no loop is on the stack above it |
| WalkTree.ContinueFindsItsLoop | compiler/internal/analysis/info.go:406-413 | A continue without a label finds the loop around it if and only if no subtree before it in that loop, on any level, leaves a loop behind |
| WalkTree.RecordedWithItsLoop | compiler/internal/analysis/info.go:406-413 | The same for the innermost loop around any continue of a whole function |
| WalkExamples.GoStaysOnStack | compiler/internal/analysis/info.go:500-508 | A receive after a go statement marks the go statement, which is not an ancestor of it |
| WalkExamples.ContinueOfTheWrongLoop | compiler/internal/analysis/info.go:406-413 | A continue for which an earlier loop with a go statement is found |
| WalkExamples.UnmarkedContinue | compiler/internal/analysis/info.go:366-374 | At the end of its function's analysis the post statement is marked, and the continue and the if statement around it are not |
| WalkExamples.GoesInABranch | compiler/internal/analysis/info.go:500-508 | A loop inside an if statement is left on the stack with three go statements in it, and is not with one |
| WalkExamples.AContinueIsMissed | compiler/internal/analysis/info.go:361-374 | A walked and analysed function with two continues on record: at the end the post statement of the first is marked, by the second, and the first is not |
| AnalysedCorrectness.AnalysisFinishes | compiler/internal/analysis/info.go:211-228 | After the walk and the propagation, the calls that may block and the continues to a marked post statement of the loop found for them are marked, with all their ancestors |
| AnalysedCorrectness.AnalysisGivesOk | compiler/internal/analysis/info.go:211-228 | A program whose flags are these marks is one that the translation handles, when every continue was recorded with its own loop |
| AnalysedCorrectness.AnalysedProgramEndsWithItsSource | compiler/functions.go:218-353 | Source and compiled goroutine of an analysed program end together, in the same world with the same value |
| AnalysedExample.RightIsAnalysed | compiler/internal/analysis/info.go:211-228 | A loop that receives after each turn, with a continue in an if statement, is such a program: the continue is recorded with its own loop, and all flags are the marks of the analysis |
| AnalysedExample.WrongIsAnalysed | compiler/internal/analysis/info.go:366-374 | With an inner loop that starts a goroutine before it, the same continue is recorded with that; the analysed program is none that the translation handles, and its emitted function has a case inside the braces of the if statement |
| MisplacedCases.CaseInsideIf | compiler/statements.go:304-320 | An if statement that is not flattened has a case inside its braces, for a continue in it, if and only if the loop's post statement is flattened |
| MisplacedCases.CaseInTheLoop | compiler/statements.go:637-695 | Wherever a flattened loop with such an if statement stands, and whatever comes before it in the body, the code has a case inside the braces |
| AnalysisVisitor.FuncVisitor.CallToNamedFunc | compiler/internal/analysis/info.go:680-714 | Appends the way to a call of a known function, marks the others at once, and records the deferred call |
| AnalysisVisitor.FuncVisitor.CallLiteral | compiler/internal/analysis/info.go:548-561 | Records the way to a call of a literal |
| AnalysisVisitor.FuncVisitor.Block | compiler/internal/analysis/info.go:418-432 | Marks the node and the rest of the stack, and the deferred call as blocking |
| AnalysisVisitor.FuncVisitor.Goto | compiler/internal/analysis/info.go:401-405 | Flattens without blocking |
| AnalysisVisitor.FuncVisitor.Continue | compiler/internal/analysis/info.go:406-413 | Records the continue with the post statement of the loop its label names, or of the last loop on the stack |
| AnalysisVisitor.FuncVisitor.Return | compiler/internal/analysis/return.go:9-14 | Records the return with the deferred calls so far |
| AnalysisVisitor.FuncVisitor.LeaveLoop | compiler/internal/analysis/info.go:465-471 | The returns inside a top-level loop get all its deferred calls |
| AnalysisVisitor.FuncVisitor.FindLoopStmt | compiler/astutil/astutil.go:231-258 | Finds the last loop on the stack |
| AnalysisVisitor.FuncVisitor.Enter | compiler/internal/analysis/info.go:383-383 | The node is on the stack after its parent |
| AnalysisVisitor.FuncVisitor.Leave | compiler/internal/analysis/info.go:377-382 | The last node goes, and every node still comes after its parent |
| Dce.Selector.AliveDecls | compiler/internal/dce/selector.go:65-93 | Returns the least set with the roots and every declaration whose non-empty filters are all dependencies of the set; and a declaration is in it if and only if it is kept at the end of some row of included declarations, each marked alive, without names, target of a link, or with each of its names a dependency of one before it |
| Dce.Selector.Include | compiler/internal/dce/selector.go:26-53 | One more declaration is included: as a root it is pending, and what is not alive waits in the bucket of each of its filters |
| Dce.Selector.PopPending | compiler/internal/dce/selector.go:55-60 | Takes the last pending declaration |
| Dce.Selector.Provide | compiler/internal/dce/selector.go:77-90 | A dependency's bucket is used up; the declarations with no filter left are pending, and only those that every closed set holds |
| Dce.Selector.SelectionClosed | compiler/internal/dce/selector.go:67-93 | When nothing is pending the selection is the least closed set |
| Dce.LeastIsKept | compiler/internal/dce/info.go:53-66 | The least set holds exactly the declarations that are kept in turn, by the fields of their infos |
| Dce.LeastUnique | compiler/internal/dce/selector.go:65-93 | There is one such set, so the order of Include does not matter |
| Dce.ForcedFilters | compiler/internal/dce/selector.go:77-90 | What is selected is in every closed set |
| TypeParams.InstanceMap.Set | compiler/internal/typeparams/map.go:76-117 | The map with the value at the key, though a hole before the key's entry may be found first; returns the old value |
| TypeParams.InstanceMap.Delete | compiler/internal/typeparams/map.go:128-138 | The map without the key; tells whether it was there |
| TypeParams.InstanceMap.Get | compiler/internal/typeparams/map.go:53-66 | The value at the key |
| TypeParams.InstanceMap.Has | compiler/internal/typeparams/map.go:69-72 | Whether the key is in the map |
| TypeParams.InstanceMap.Len | compiler/internal/typeparams/map.go:119-124 | The exact number of keys |
| TypeParams.InstanceMap.FindIndex | compiler/internal/typeparams/map.go:39-49 | Finds the key's entry exactly when the key is in the map |
| TypeParams.InstanceMap.Iterate | compiler/internal/typeparams/map.go:148-161 | Visits every key of the map once, with its value, when the callback leaves the map alone |
| MapIteration.MapBucket.Iterate | compiler/internal/typeparams/map.go:148-161 | Over one bucket, with a callback that sets and deletes keys as it likes: calls it as specified, in the bucket's own arrays |
| MapIteration.CalledForEach | compiler/internal/typeparams/map.go:139-161 | Whatever the callback does, it is called for no entry twice, and for every entry of the bucket but exactly those that were deleted before their turn while the bucket kept its array |
| MapIteration.DeletedAreSkipped | compiler/internal/typeparams/map.go:143-147 | It is called for a deleted entry exactly when that was deleted before its turn after the bucket had moved; so the promise that it is not holds if and only if there is no such entry |
| MapIteration.CalledWithItsValue | compiler/internal/typeparams/map.go:148-161 | Any other call is with a key of the map and its current value |
| MapIteration.OpOnMap | compiler/internal/typeparams/map.go:76-138 | In the middle of an iteration too, setting leaves the key with the new value and deleting leaves it without one, and the other keys have theirs |
| MapIteration.DeletingIsSafe | compiler/internal/typeparams/map.go:128-138 | The promise holds for every callback that only deletes, because a hole stays in place of the entry |
| MapIteration.FittingIsSafe | compiler/internal/typeparams/map.go:94-114 | The promise holds whenever the insertions of new keys, over all calls, fit into the holes and the room of the array |
| MapIteration.FewSetsAreSafe | compiler/internal/typeparams/map.go:94-114 | In particular for every callback that sets at most that many keys, whatever it is called for |
| MapIteration.DeletedButCalled | compiler/internal/typeparams/map.go:109-114 | A callback that sets a third key in a full bucket and deletes the second, and is then called for the second |
| TypeParams.Found | compiler/internal/typeparams/map.go:39-49 | Entries that match a key hold its value; a key of the map has one |
| TypeParams.SetRepresents | compiler/internal/typeparams/map.go:90-116 | Overwriting, filling a hole and appending all leave a map without a second entry for the key |
| TypeParams.DeleteRepresents | compiler/internal/typeparams/map.go:128-138 | A hole in place of the entry leaves the map without the key |
| TypeParams.AllVisited | compiler/internal/typeparams/map.go:148-161 | Going through all buckets goes through all keys, each once |
| TypeParams.InstanceSet.Add | compiler/internal/typeparams/instance.go:149-158 | The values are the old ones followed by the new ones that were not among them |
| TypeParams.InstanceSet.AddedIs | compiler/internal/typeparams/instance.go:149-158 | An instance is in the set exactly when it was, or is among those added; old positions stay |
| TypeParams.InstanceSet.ID | compiler/internal/typeparams/instance.go:184-190 | The position of the instance among the values, for exactly the instances in the set |
| TypeParams.InstanceSet.Next | compiler/internal/typeparams/instance.go:195-207 | Hands out the values in order, each once |
| TypeParams.InstanceSet.ValuesDistinct | compiler/internal/typeparams/instance.go:138-158 | No instance is twice among the values |
| MapKeys.KeyAgreesWithEqual | compiler/prelude/types.js:147-151 | For every type of the model, to any depth, two values have one key exactly when $equal holds |
| MapKeys.EqualIsSame | compiler/prelude/prelude.js:517-550 | $equal holds of two values of a type exactly when they are the same value |
| MapKeys.KeyIdentifies | compiler/prelude/types.js:147-151 | Two values of a type have one key exactly when they are the same value |
| MapKeys.JoinInjective | compiler/prelude/types.js:262-267 | Joined escaped keys are equal only when the keys are |
| MapKeys.EscapeInjective | compiler/prelude/types.js:262-267 | An escaped key ends at the first `$` that is not escaped, and determines the key |
| MapKeys.EscapeCons | compiler/prelude/types.js:147-151 | Two global replacements escape character by character |
| MapKeys.DecimalInjective | compiler/prelude/types.js:109-109 | Different integers have different decimal texts |
| MapKeys.DigitsAreDecimal | compiler/prelude/types.js:109-109 | The digits of a number are its decimal notation, without leading zeros |
| Utf.StringToRunes | compiler/prelude/prelude.js:333-341 | The runes of the string |
| Utf.RunesToString | compiler/prelude/prelude.js:343-352 | The encoded runes |
| Utf.RunesOfEncode | compiler/prelude/prelude.js:333-352 | There and back puts U+FFFD for each number below 0, above U+10FFFF or from U+D800 to U+DFFF, and keeps every other |
| Utf.EncodeOfRunes | compiler/prelude/prelude.js:242-312 | Back and there is the identity exactly on valid UTF-8, and never makes a string shorter |
| Utf.DecodeWidth | compiler/prelude/prelude.js:242-296 | $decodeRune accepts exactly the sequences of RFC 3629, section 4, and gives U+FFFD and one byte otherwise |
| Utf.DecodeValue | compiler/prelude/prelude.js:242-296 | The rune of a sequence of one to four bytes is made of their bits as RFC 3629, section 3, lays them out |
| Utf.DecodeEncoded | compiler/prelude/prelude.js:298-312 | Decoding an encoded rune gives the rune, or U+FFFD if it is invalid, whatever follows |
| Utf.IsASCII | compiler/prelude/jsmapping.js:422-429 | True exactly when all units are below 128 |
| Utf.Externalize | compiler/prelude/jsmapping.js:83-99 | Well-formed UTF-16 that, read as RFC 2781, section 2.2, says, stands for exactly the runes of the string |
| Utf.UnitsForm | compiler/prelude/jsmapping.js:90-96 | A rune above U+FFFF becomes a high and a low surrogate with its value, and any other one unit that is no surrogate |
| Utf.Internalize | compiler/prelude/jsmapping.js:341-360 | The bytes of the units taken one by one or in pairs |
| Utf.InternalOfUtf16 | compiler/prelude/jsmapping.js:341-360 | From any well-formed UTF-16 it makes the UTF-8 of its code points |
| Utf.ThereAndBack | compiler/prelude/jsmapping.js:83-99 | $internalize after $externalize is $runesToString after $stringToRunes, and the identity exactly on valid UTF-8 |
| Utf.InternalValid | compiler/prelude/jsmapping.js:346-359 | The result is valid UTF-8 if and only if the units do not end in an unpaired high surrogate |
| Utf.InternalOfHalf | compiler/prelude/jsmapping.js:346-359 | Any high surrogate alone becomes four bytes that are not UTF-8 |
| Utf.InternalIllFormed | compiler/prelude/jsmapping.js:346-359 | A high surrogate takes the next unit for its other half, whatever it is, and a low surrogate alone becomes U+FFFD |
| Slices.InternalAppend | compiler/prelude/prelude.js:455-471 | The old view followed by the appended values even when they overlap; within capacity only the cells behind the old end are written, after growth the old array is untouched and there are zeros behind; the result of appending something is not nil |
| Slices.GrowSlice | compiler/prelude/prelude.js:484-515 | The same view, in the same array if the capacity suffices and in a new one with zeros behind otherwise, of the capacity asked for or of the old capacity doubled below 1024 and raised by a quarter from there, whichever is larger |
| Slices.CopyArray | compiler/prelude/prelude.js:368-402 | The cells get what the source cells held before, overlapping or not, for elements that are copied by assignment |
| Slices.CopyStructs | compiler/prelude/prelude.js:378-391 | The same for elements of struct or array kind: the contents are copied into the elements, overlapping or not, and every cell keeps its element |
| Slices.CopySlice | compiler/prelude/prelude.js:362-366 | As many elements as both have |
| Slices.Subslice | compiler/prelude/prelude.js:168-186 | Panics exactly when the bounds are out of order or past the capacity; else a window of the same array |
| Slices.MakeSlice | compiler/prelude/types.js:675-691 | Panics exactly for a length or capacity out of range; else zeros in a new array |
| Slices.SharedWindow | compiler/prelude/prelude.js:455-471 | Another slice of the array sees an append exactly where it reaches behind the old end |
| SourceMapHints.Filter.Write | internal/sourcemapx/filter.go:56-99 | Writes the text without the hints, maps each hint at its output position, returns the input length |
| SourceMapHints.Filter.Output | internal/sourcemapx/filter.go:64-77 | Line and column after any text |
| SourceMapHints.FilteredEncoded | internal/sourcemapx/filter.go:56-99 | For every interleaving of text and hints: exactly the text, exactly the hints, in order, at their true line and column |
| SourceMapHints.FilteredAny | internal/sourcemapx/filter.go:56-99 | On every input, with or without a hint that is cut off at the end: text and hints before it come out as they should, and the program panics exactly when there is one |
| SourceMapHints.HintIsMapped | internal/sourcemapx/filter.go:82-95 | A hint is mapped to the line after as many newlines as the output has then, and to the column after the bytes behind the last of them |
| SourceMapHints.WritesTogether | internal/sourcemapx/filter.go:56-99 | Any split of the stream between whole hints into writes gives the same |
| SourceMapHints.MappingsConcat | internal/sourcemapx/filter.go:56-99 | Positions go on across writes |
| SourceMapHints.ReadWritten | internal/sourcemapx/hint.go:47-82 | A written hint is the byte 8, the size of the payload in two bytes with the higher one first, and the payload; reading it gives the hint and its length, whatever follows |
| SourceMapHints.FindHint | internal/sourcemapx/hint.go:33-35 | The first magic byte, or -1 exactly when there is none |
| JsNumber.OrIsSum | compiler/prelude/numeric.js:42-42 | A bitwise or of words whose digits do not overlap is their sum |
| JsNumber.ShlOr | compiler/prelude/numeric.js:42-42 | The word that a shift of two words moves up |

## Left out

- CompilerCorrectness.GoroutineFollowsSource: does not cover deferred calls, goto, range, the translation of select
  statements, and several or named results, which the model of the language leaves out.
- CompilerCorrectness.GoroutineSound: the same.
- CompilerCorrectness.EndsTogether: the same.
- AnalysedCorrectness.AnalysisFinishes: functions without goto; the statements of the tree may be any.
- AnalysedCorrectness.AnalysisGivesOk: programs in the statements above, without deferred calls.
- AnalysedCorrectness.AnalysedProgramEndsWithItsSource: the same.
- Flattening.SimStmt: blocks, if chains, switches, type switches, for loops, break, continue, return and labels; not
  range, goto, select, defer and declarations.
- Unflattened.NestedStmt: the same statements.
- Translator.FuncContext.TranslateStmt: the same statements.
- Translator.TranslateFunctionBody: does not emit deferred calls, named results or the variables of a function.
- GoroutineRuntime.Runtime.Close: what the panic does to the goroutine that closes is not modelled, so no run of
  SchedulerSafety goes on after it.
- Slices.CopyStructs: the copy of an element is one value; nested structs and arrays are not taken apart.
- TypeParams.InstanceMap.Iterate: callbacks that change the map are modelled apart, in MapIteration, bucket by bucket:
  a change to a bucket that is not being gone through is seen when that is reached.
- MapIteration.MapBucket.Iterate: one bucket; the loops over objects and hashes around it are those of
  TypeParams.InstanceMap.Iterate.
- SourceMapHints.Filter.Write: does not model errors of the writer and the panics of unpacking a hint.
- In flattening, one register `$r` per activation stands for the fresh `_r` variables, and the result variable of a
  blocking `&&` or `||` is its destination; conditions are pure; a function has one integer result, and running off
  its end returns 0.
- In flattening there is no goto, range, translation of select statements, deferred call or return that blocks in
  one, panic, escaping variable, position or JavaScript text (instructions are emitted instead).
- In flattening, the flags of the inner statements of an `else if` chain are left out, because the translator does
  not consult them, and so is a type switch without any clause, for which it prints a brace that does not match
  when the statement is not flattened.
- What other goroutines do while one is parked is, in flattening, an arbitrary function of the parked call's number.
- In the scheduler: what follows a panic of $close, closing a nil channel, `undefined` as
  an element, channel operations outside any goroutine other than those of the timer callbacks, panics and deferred
  calls, time slicing and fairness.  The random choice of $select is any ready case.
- Timers further away than the largest 32-bit number of milliseconds, for which startTimer sets nothing.
- The send in runtime_Semrelease never blocks because its receiver is parked; a wake-up is one step.
- Floating point, complex numbers and `$flatten64`; a shift count above 2^53 is not rounded.
- LeadingZeros32 is of the Go library; it has a contract here.
- In the analysis, functions, nodes and packages are numbers, all callees are known (IsBlocking panics otherwise),
  and the records of the functions are values in one list.  How visitCallExpr tells the kinds of calls apart in the
  syntax is not modelled, and a labelled continue is given the loop that its label names.
- How dead-code elimination makes filter names from types and collects the dependencies of a declaration.
- Buckets of the instance map are values, so an entry shared through a pointer is not seen.  Identical types and
  their hash are given by a canonical form that the hash respects.
- Map keys that are floats, complex numbers, interfaces or pointers, and blank fields.
- Other kinds of values than strings that cross into JavaScript.
- Errors of the writer, Pack and Unpack of hints, WriteJS and the normalisation of paths.
- The command line, the HTTP server, build sessions, reflection, system calls and the packages of Go's own compiler.
