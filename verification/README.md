# tgo

A model of tgo, a function tracer for Go programs, and proofs about it. The tracer patches breakpoints into
the code of another process, follows the calls of chosen goroutines with one shadow call stack each, and
prints a nested log of calls and returns.

## How it is built

| file | part of the repository |
|---|---|
| `TraceModel.dfy` | the controller as a state machine over values: one step per trapped thread or new trace point |
| `Accounting.dfy`, `TraceLog.dfy`, `Unwinding.dfy` | what every run of the state machine keeps |
| `TrapLaws.dfy` | what each step does, said of stacks, log, associations, hints and traced goroutines |
| `BreakpointTable.dfy`, `Breakpoints.dfy` | conditional breakpoints: as a table, and as the class that computes it |
| `TracingPoints.dfy` | trace points and the counted nesting of traced goroutines |
| `Stepping.dfy` | what becomes of interrupted single steps, as a function of the replies to the requests |
| `TraceeProcess.dfy` | the tracee's code memory, patching, single steps and detaching |
| `Controller.dfy` | the controller as a class; each method is proved to compute the state machine |
| `FuncTable.dfy` | finding a function from the runtime's tables alone |
| `Params.dfy` | inferring where parameters lie |
| `Values.dfy` | parsing typed values down to a limited depth |
| `Dwarf.dfy` | signed LEB128 numbers, location descriptions and location lists |
| `Hex.dfy`, `Registers.dfy`, `Packets.dfy` | the GDB remote protocol of the client for macOS |
| `LinuxThreads.dfy` | the list of stopped threads of the ptrace client |
| `Base.dfy`, `Words.dfy` | options, 64-bit addresses, little-endian words |

Three layers of the tracer must agree in every state: patched code, conditional breakpoints and shadow stacks.
`Controller.Controller` holds the mutable fields of the source, and its ghost field `w` holds the same state as
a value. The predicate `Good` says that they agree and that the invariant of `Accounting` holds; every method
that returns without an error restores `Good` and says which function of the state machine it computed. The
results about runs are proved of the state machine; `TrapLaws` says what its steps do without naming the functions
that compute them, so that the state machine is not its own measure. `Reached` says that the fields are those
a run reaches, by the steps recorded in the ghost field `history`, and that a breakpoint that is missing from
memory was lost at one of the traps in the ghost field `unread`, whose goroutine could not be read; a new
controller is in such a state, `Loop` goes from one to the next, and `ReachedFacts` says what follows for the
fields.

What the outside world does is an input. The replies of the debug API are a script that the client consumes
(`Done`, `Refused`, or stopped by other threads); the requests for patching are recorded with whether they were
granted, and refusals are counted, so that every error is traced back to a refused request of its own or to a trap
the state machine has no step for. What a goroutine's registers and runtime structures say at a trap is a parameter,
reading them is requests; so is function lookup in the results about runs (`FuncTable.LookupIsWellFormed` shows
that the lookup by runtime tables meets what they assume), and decoding of instructions is any function of the
bytes that makes progress. Loops that the source runs until something happens run here until the script is used
up.

A result of `false` or `None` of a method stands for an error of the source; where a `None` stands for a
run-time panic the contract says so.

## What the proofs found

- A full exit with a non-empty shadow stack leaves the frames behind (tracer/controller.go:290-300). If the
  goroutine is traced again they are still there without their breakpoints. `Conservation` therefore counts the
  frames of the running session; `WholeStackIsCounted` says that a session that starts on an empty stack counts
  them all, `ExactlyWithoutLeftovers` when counting all of them is right otherwise, and
  `LeftoverFrameIsNotWatched` is a run where it is wrong.
- `handleTrapEventOfThread` treats an error from `CurrentGoRoutineInfo` like a system routine
  (tracer/controller.go:231-235). If the error came from stepping another thread after its original byte was
  put in place, that breakpoint is missing from memory although nil is returned. The replies decide: `LostExactly`
  and `HandleTrapEventOfThread` say that this happens if and only if a step on the way was lifted and not put
  back, and `WaysToFail` has replies of both kinds, and replies that do no harm.
- When a step is interrupted, `SingleStep` starts all over after the other threads have been stepped
  (tracee/process.go:164-174). If the thread itself is among the threads that were stopped, it has made its step
  and makes it again: `OnceUnlessNamed` is the exact condition, and `MadeTwice` such a run.
- Output parameters are placed in the order of their names as strings (tracee/process.go:322). From the eleventh
  parameter on, `~r10` comes before `~r9`: `TwoResultsSwapped` is an example and `OutputsRecovered` the exact
  condition. Whatever the names, `FillIn` says that the parameters stay apart and within the arguments.
- `verifyPacket` formats the checksum without leading zeros (debugapi/client_darwin.go:873), so that in
  acknowledgement mode a packet with a checksum below 0x10 is refused: `AcceptedExactly`.
- The error of the deferred write in `ReadTLS` is assigned to a variable that is not a result
  (debugapi/client_darwin.go:504), so that the caller does not learn that the registers were not put back:
  `RestoreIsLost` is such a run, and `RestoredExactly` says when they are.
- The exported method `ReadTLS` does not install the function for offset zero as the first offset, since zero is
  what the client remembers at the start (debugapi/client_darwin.go:521): `UpdateReadTLSFunction` says exactly
  when it does, and `ZeroFirst` is a run where it does not. Its only caller in the repository passes 0x30, 0x8a0
  or -8 (tracee/process_darwin.go:3-8, tracee/process_linux.go:3-5).
- A signal that stops one thread on Linux is forwarded to all threads in the list (debugapi/client_linux.go:305-310,
  359), which after a single step can be more than one: `ContinueAndWait` and `HandleWaitStatus` of `LinuxThreads`
  say so of all runs, and `SignalReachesBoth` is one.
- The forward search of `adjustFtabIndex` has no bound of its own; it ends because the table ends with a
  sentinel behind all code, which is the condition `Closed`.

## Model

| member | source | states |
|---|---|---|
| Accounting.Conservation | tracer/controller.go:376-480 | after every run of the main loop, at every address that is not unconditional, a goroutine is associated exactly as often as frames of its session return there, plus the call instructions there of its flagged frames, plus the settings made on entering a trace point or for a deferred function that are still outstanding |
| Accounting.ReturnsAreWatched | tracer/controller.go:453-465 | no frame of a running session ever loses its return breakpoint, through recursion, tail jumps, panics and other goroutines |
| Accounting.CallsAreWatched | tracer/controller.go:453-465 | nor does a frame whose calls are followed lose the breakpoint at any call instruction of its function |
| Accounting.NoLeakedBreakpoint | tracer/controller.go:267-300 | after every run a patched address is a trace point or a goroutine being traced waits there, exactly the trace points are unconditional, and without traced goroutines only they are patched |
| Accounting.RunInv | tracer/controller.go:144-189 | the invariant behind the three results holds after every run, with or without the assumption about deferred entries |
| TraceLog.LogIsNested | tracer/controller.go:544-573 | for every goroutine each "/" line closes an earlier "\\" line of the same depth and function with only deeper lines between, and no printed depth exceeds the trace level, after every run and although frames vanish without a line |
| TraceLog.ClosedOnce | tracer/controller.go:560-573 | a "\\" line is closed at most once |
| TraceLog.ClosesOne | tracer/controller.go:560-573 | a "/" line closes one "\\" line at most |
| TraceLog.PairsNest | tracer/controller.go:544-573 | two pairs of lines of one goroutine are nested or apart, never crossing |
| TrapLaws.TrapHandles | tracer/controller.go:231-265 | what a trap does, said of the stacks, the log, the associations, the hints and the traced goroutines and of no function of the state machine: whose breakpoint it is; start and end points passed; then, if the goroutine is traced and uses less stack than its top frame, the return; then, by the kind of breakpoint, the call or the deferred function, with the start and end points passed on stepping into the called one |
| TrapLaws.EveryTrap | tracer/controller.go:144-189 | every trap of every run does that |
| TrapLaws.EveryPoint | tracer/controller.go:195-212 | every new trace point of every run stops all goroutines from then on, and changes nothing else |
| TrapLaws.ReturnIsLogged | tracer/controller.go:250-255 | in every run, when a goroutine that stays traced is stopped at its breakpoint with less stack in use than its top frame: a frame is dropped; the frames that stay are the live ones, none larger than the stack in use and all that are smaller; and the lowest one dropped has its "/" line in the log for the rest of the run, in its place and at its depth, when that is within the trace level and its name is printed |
| TrapLaws.PanicLeavesNoDeadFrame | tracer/controller.go:467-480 | a goroutine that panics enters a deferred function: every frame below the new one is live at the stack size where the handler was deferred and at the one in use now, and the printed depth is one more than their number |
| TrapLaws.TrapWorks | tracer/controller.go:231-265 | a trap fails only for a function that is not known |
| TrapLaws.DueIs | tracer/controller.go:453-465 | what a list of frames needs, frame by frame: the return address, and the call instructions when they are followed |
| Unwinding.UnwindIsFilter | tracer/controller.go:420-451 | in every reachable state unwinding keeps, in order, exactly the frames below the current stack size and those of that size in the current function, and it fails exactly when it needs a function that is not known |
| Unwinding.KeepLenSplits | tracer/controller.go:422-448 | the backward loop stops where the filter splits an ordered stack, although it looks only at the frames from the top |
| Unwinding.ReturnDropsAFrame | tracer/controller.go:482-493 | after a return at least one frame is unwound, so that the index into the unwound frames is in range |
| Unwinding.ExactlyWithoutLeftovers | tracer/controller.go:290-300 | counting all frames on the shadow stack, also those left over by an earlier session, is right at an address if and only if no leftover frame needs it |
| Unwinding.LeftoverFrameIsNotWatched | tracer/controller.go:290-300 | a concrete run, through a full exit with a non-empty stack and a second start, after which a traced goroutine has a frame on its shadow stack whose return address is not patched |
| Unwinding.WholeStackIsWatched | tracer/controller.go:453-465 | a session that starts on an empty shadow stack has no leftover frames while it lasts, so that every frame of the stack has its return address watched |
| Unwinding.WholeStackIsCounted | tracer/controller.go:376-480 | and then the associations at every conditional address are those that the whole stack needs, plus the settings outstanding |
| Accounting.UnwindKeeps | tracer/controller.go:410-451 | unwinding keeps the invariant: the settings undone are those of the dropped frames, no more and no fewer |
| Accounting.PushKeeps | tracer/controller.go:453-465 | pushing a frame keeps the invariant: its settings are made once |
| Accounting.EnterKeeps | tracer/controller.go:279-288 | entering a trace point keeps the invariant |
| Accounting.LeaveKeeps | tracer/controller.go:290-300 | leaving one keeps the invariant: with the last nesting level all associations of the goroutine go and nobody else's do |
| Accounting.WatchKeeps | tracer/controller.go:510-522 | watching a deferred function keeps the invariant |
| Accounting.DeferredDone | tracer/controller.go:467-480 | the trap at a deferred function takes back exactly one of the settings made for it |
| Accounting.WaitsIsHit | tracer/breakpoints.go:17-21 | a goroutine that still waits for a deferred function is stopped there |
| Accounting.AtCallKeeps | tracer/controller.go:376-408 | a call keeps the invariant, whatever was unwound before the new frame was pushed |
| Accounting.AtDeferredFuncKeeps | tracer/controller.go:467-480 | so does the entry of a deferred function, also after a panic that discards frames up to its handler |
| Accounting.AfterReturnKeeps | tracer/controller.go:482-508 | so does a return |
| Accounting.BeforeCallKeeps | tracer/controller.go:350-370 | so does stepping over a call instruction into a function, which may be a trace point |
| Accounting.UpdateTracingKeeps | tracer/controller.go:267-277 | so does passing trace points |
| Accounting.HandleTrapKeeps | tracer/controller.go:231-265 | so does every trap |
| Accounting.NextKeeps | tracer/controller.go:191-218 | so does every step of the main loop |
| Accounting.DueHasReturn | tracer/controller.go:453-465 | every frame counts its own return address among what it needs |
| BreakpointTable.SetForEffect | tracer/breakpoints.go:93-110 | associating adds one association of the goroutine at one address and changes nothing else |
| BreakpointTable.ClearForEffect | tracer/breakpoints.go:46-58 | disassociating takes one association away and changes nothing else; the last one takes the entry away |
| BreakpointTable.ClearAllForEffect | tracer/breakpoints.go:61-77 | dropping a goroutine keeps every association of the others with its multiplicity, keeps the unconditional entries, and keeps no entry without a reason |
| BreakpointTable.ClearSeqMatches | tracer/controller.go:420-451 | undoing a list of settings lowers every count by how often the address is listed, down to zero |
| BreakpointTable.SetSeqMatches | tracer/controller.go:453-465 | making a list of settings raises every count by how often the address is listed |
| Breakpoints.Entry.Hit | tracer/breakpoints.go:124-137 | the loop over the associations finds a goroutine exactly when it is associated |
| Breakpoints.Entry.Disassociate | tracer/breakpoints.go:154-167 | exactly one occurrence is cut out of the list, and the result says whether there was one |
| Breakpoints.Entry.DisassociateAll | tracer/breakpoints.go:65-68 | the inner loop ends and leaves no occurrence of the goroutine and all the others |
| Breakpoints.Breakpoints.Hit | tracer/breakpoints.go:17-21 | a breakpoint stops a goroutine exactly when the table says so |
| Breakpoints.Breakpoints.Clear | tracer/breakpoints.go:29-44 | the entry and the physical breakpoint go together or stay together |
| Breakpoints.Breakpoints.ClearConditional | tracer/breakpoints.go:46-58 | computes the disassociation of the table; the physical breakpoint is lifted with the last association |
| Breakpoints.Breakpoints.ClearAllByGoRoutineID | tracer/breakpoints.go:61-77 | for every order in which the map is visited and although entries are deleted meanwhile, computes the table without the goroutine |
| Breakpoints.Breakpoints.Sweep | tracer/breakpoints.go:64-74 | one round of that loop |
| Breakpoints.Breakpoints.Set | tracer/breakpoints.go:79-91 | the entry becomes unconditional and its associations are lost; on an error nothing changed |
| Breakpoints.Breakpoints.SetConditional | tracer/breakpoints.go:93-110 | computes the association of the table when every entry has one; an entry left empty by an error is not set again and no error says so |
| TracingPoints.Contains | tracer/tracingpoints.go:11-29 | the list search behind the trace points |
| TracingPoints.TracingPoints.IsStartAddress | tracer/tracingpoints.go:11-19 | true exactly for the registered addresses |
| TracingPoints.TracingPoints.IsEndAddress | tracer/tracingpoints.go:21-29 | true exactly for the registered addresses |
| TracingPoints.TracingGoRoutines.Add | tracer/tracingpoints.go:33-41 | one more nesting level |
| TracingPoints.TracingGoRoutines.Remove | tracer/tracingpoints.go:43-56 | one nesting level less for that goroutine, and the others keep theirs |
| TracingPoints.TracingGoRoutines.Tracing | tracer/tracingpoints.go:58-66 | true exactly with at least one level |
| TraceeProcess.Process.SetBreakpoint | tracee/process.go:200-217 | a failed call changes nothing; a successful one adds the address, saves the original byte and opens no hole |
| TraceeProcess.Process.ClearBreakpoint | tracee/process.go:219-232 | a failed call changes nothing; a successful one restores the byte and forgets the address |
| TraceeProcess.Process.SingleStep | tracee/process.go:152-180 | a nil return means that the thread executed the original instruction at the address, and leaves every breakpoint patched that was, and the one stepped over as well, however often other threads interrupt, at the same address too; any return keeps the weak memory invariant, by which no thread ever executes anything but original code; success, the replies used, the steps made by all threads and the breakpoints missing afterwards are exactly those of the function of the replies in Stepping |
| TraceeProcess.Process.StepLifted | tracee/process.go:164-179 | the part after the breakpoint was lifted, which starts all over when other threads were in the way |
| Stepping.HoleExactly | tracee/process.go:152-180 | after any sequence of lifting and putting back, a breakpoint is missing if and only if it was lifted and not put back after that, and replaces another byte, or was missing before and not touched |
| Stepping.StepAsks | tracee/process.go:152-180 | a step that is not interrupted takes two requests for the program counter and one each for lifting the breakpoint, stepping, and putting it back; for every number of them that is granted before the first refusal: what was done, what is left, and whether it succeeds |
| Stepping.InfoAsks | tracee/process.go:737-751 | the goroutine is read only with as many grants in a row, at the end of the replies used, as there are reads, and exactly those other threads made a step that were named on the way |
| Stepping.OnceUnlessNamed | tracee/process.go:152-180 | in a step without an error the thread executes its instruction once, and more often if and only if some reply on the way names it among the threads that were stopped; for the threads stepped on the way as well |
| Stepping.MadeTwice | tracee/process.go:164-174 | replies on which the instruction is executed twice and no error is returned |
| Stepping.LostExactly | tracer/controller.go:231-235 | when the goroutine could not be read and nil is returned, a breakpoint that was in memory is missing if and only if it was left lifted; when it could be read none is |
| Stepping.WaysToFail | tracer/controller.go:231-235 | replies on which a breakpoint is lost without an error because another thread's step is refused, replies on which it is because putting the trap back is refused, and replies on which reading the goroutine fails and nothing is lost; for every set of breakpoints |
| TraceeProcess.Process.SingleStepUnspecifiedThreads | tracee/process.go:790-805 | stepping the other threads, which may be interrupted again, opens no hole when it succeeds, and otherwise leaves exactly the holes that the replies determine |
| TraceeProcess.Process.CurrentGoRoutineInfo | tracee/process.go:737-751 | whether the goroutine can be read, the steps made on the way, and which breakpoints are missing afterwards are exactly what the replies determine: to the request that other threads may interrupt, to those that step these threads, and to a given number of further reads |
| TraceeProcess.Process.StrictMemory | tracee/process.go:16-30 | without holes code memory is the original code with a trap at exactly the breakpoints |
| TraceeProcess.Process.Detach | tracee/process.go:119-133 | from the weak invariant, for every order of the map, each breakpoint is asked to be cleared exactly once and nothing else is written, those that remain are exactly those whose write was refused, the tracee is let go after that, and when the writes are granted the original memory is back exactly |
| TraceeProcess.Process.ClearAll | tracee/process.go:119-127 | the loop of it, which goes on after a refused write |
| TraceeProcess.Process.RestoreOriginal | tracee/process.go:696-700 | the buffer holds the original bytes, whatever breakpoints lie in it |
| TraceeProcess.Process.DecodeLoop | tracee/process.go:702-715 | all instructions in order |
| TraceeProcess.Process.ReadInstructions | tracee/process.go:685-716 | the decoder sees the original bytes of the function whatever breakpoints are set and whatever holes they have |
| TraceeProcess.Client.WriteMemory | tracee/process.go:166-168 | a refused write changes nothing |
| Controller.Controller.ReachedFacts | tracer/controller.go:144-189 | what holds of the fields of the controller between two rounds of the loop: nested log, no leaked breakpoint, memory is the original code with traps at exactly the entries of the table, but for breakpoints lost at a trap whose goroutine could not be read, of which there are none if the replies at these traps lost none, and every instruction that was ever stepped was original code |
| Controller.Controller.constructor | tracer/controller.go:76-86 | a new controller is in the state that the empty run reaches, with no breakpoint missing, when lookup is well formed |
| Controller.Controller.FindCallInstAddresses | tracer/controller.go:575-597 | the addresses listed ascend, lie within the function, and are exactly those of the instructions reached from its start by the decoded lengths of the unpatched code that decode to a call; also when they come from the cache |
| Controller.CallsAreListed | tracer/controller.go:575-597 | the same of the specification that the state machine is given; there is a list exactly for a function that lies in memory and has an end |
| Controller.Controller.CallSites | tracer/controller.go:585-594 | the addresses of exactly the call instructions |
| Controller.Controller.AlterCallInstBreakpoints | tracer/controller.go:310-334 | every call instruction of the function is set or cleared, and marked |
| Controller.Controller.AlterAll | tracer/controller.go:321-333 | the loop behind it |
| Controller.Controller.AlterFrame | tracer/controller.go:437-446 | the settings of a frame are made or undone: its return address and its call instructions |
| Controller.Controller.DoUnwindFunctions | tracer/controller.go:420-451 | the backward loop computes where to split the stack, and the table with the settings of the dropped frames undone |
| Controller.Controller.UnwindFunctions | tracer/controller.go:410-418 | the stored stack is the remaining part, and the two parts together are the old one |
| Controller.Controller.AddFunction | tracer/controller.go:453-465 | computes the push of the state machine |
| Controller.Controller.UnwindAndPush | tracer/controller.go:376-408 | unwinding and pushing together compute the call of the state machine, all but the printed line |
| Controller.Controller.EnterTracepoint | tracer/controller.go:279-288 | computes the entry of the state machine |
| Controller.Controller.ExitTracepoint | tracer/controller.go:290-300 | computes the exit of the state machine |
| Controller.Controller.UpdateTracingStatus | tracer/controller.go:267-277 | an address that is both kinds of trace point is entered and then left |
| Controller.Controller.SetBreakpointToDeferredFunc | tracer/controller.go:510-522 | computes the watching of the next deferred function, if there is one |
| Controller.Controller.HandleTrapAtFunctionCall | tracer/controller.go:376-408 | computes the call of the state machine; the printed depth is the position on the shadow stack |
| Controller.Controller.HandleTrapAfterFunctionReturn | tracer/controller.go:482-508 | computes the return of the state machine; the function named is the lowest one unwound |
| Controller.Controller.HandleTrapBeforeFunctionCall | tracer/controller.go:350-370 | the thread is first stepped over the call instruction and then over the first instruction of the function; the goroutine described in between may be another one, or at a trace point, or no longer traced |
| Controller.Controller.HandleTrapAtDeferredFuncCall | tracer/controller.go:467-480 | computes the entry of a deferred function, which has the effects of TrapLaws.TrapHandles: in a panic the frames above the handler's are dropped first |
| Controller.Controller.HandleTrappedSystemRoutine | tracer/controller.go:336-344 | the thread is stepped over the address before its program counter, and nothing but the memory holes changes |
| Controller.Controller.HandleTrapEventOfThread | tracer/controller.go:231-265 | a handled trap is a step of the state machine, and the trapped thread was made to step over the trap and, after a call, over the first instruction of the function; whether the goroutine is read is what the replies say; after a nil return a breakpoint that was in memory is missing if and only if the replies leave it lifted while reading the goroutine fails; an error means a refused request or a trap without a step |
| Controller.Controller.Seen | tracer/controller.go:236-265 | the trap of a goroutine that could be read: a step of the state machine that opens no hole |
| Controller.Controller.HandleHit | tracer/controller.go:242-264 | the part after the breakpoint was found to be the goroutine's: start and end points, then the return, then the kind of breakpoint; that a return is noticed and logged is TrapLaws.ReturnIsLogged |
| Controller.Controller.Dispatch | tracer/controller.go:257-264 | the kind of the breakpoint decides |
| Controller.Controller.AddPoint | tracer/controller.go:195-212 | a new trace point is set and registered, a known one changes nothing |
| Controller.Controller.ServePoint | tracer/controller.go:195-212 | one request extends the run by one step and keeps the state a reached one |
| Controller.Controller.SetPendingTracePoints | tracer/controller.go:191-218 | for every order of the two queues all requests are registered, each a step of the state machine, each queue in its order, and nothing else is done; an error means a refused request |
| Controller.Controller.HandleTrapEvent | tracer/controller.go:220-229 | the run is extended by one step per thread, in order, each the trap itself or that of a system routine; no breakpoint is lost unless one was treated as that of a system routine, and exactly one request was refused for each of these; an error means one refused request more, or that the next trap has no step |
| Controller.Controller.Loop | tracer/controller.go:151-173 | without an error the state at the end is the one the run reaches that serves the requests and traps of the rounds so far, round by round and in order; it finishes only on the exit of the tracee and is interrupted only between rounds; one request was refused for each trap treated as that of a system routine and no other, unless the loop fails; it fails only for one refused request more, for the trap of the current round that has no step, for a fatal event, or at the end of the script |
| Controller.Controller.MainLoop | tracer/controller.go:144-176 | the same, and the last requests are always to clear every breakpoint there is, once each, and then to let the tracee go; what remains patched is what was refused, and when they are granted no breakpoint is left and the original memory is back |
| FuncTable.AdjustFtabIndex | tracee/process.go:603-627 | for any hint, and even in a table out of order, the search stays in bounds, ends, and finds an element that covers pc; it panics exactly when going back leads to the first element |
| FuncTable.PanicsExactly | tracee/process.go:612-619 | in a sorted table it panics if and only if the answer is the first function and the clamped hint is not |
| FuncTable.Unique | tracee/process.go:603-627 | at most one element of a sorted table covers pc |
| FuncTable.CoveringCovers | tracee/process.go:603-627 | the element that the simple specification picks covers pc, and no other does |
| FuncTable.FindFtabIndex | tracee/process.go:577-601 | with tables as the linker builds them the hint is the function at the start of the 256 bytes around pc, and the two indices lie within the record of 20 bytes |
| FuncTable.ReadsBucket | tracee/process.go:432-452 | a record, written as the linker does, gives back the index of each of its 16 parts |
| FuncTable.DistanceFits | tracee/process.go:537-541 | with functions of at least 16 bytes every distance in a record is at most 240 and fits one byte |
| FuncTable.Room | tracee/process.go:537-541 | in a stretch of code there is room for only so many functions |
| FuncTable.SearchIsShort | tracee/process.go:603-627 | with tables as the linker builds them the search goes forward only, at most 16 steps, and never panics |
| FuncTable.FindFuncType | tracee/process.go:558-575 | the record and the end address are those of an element that covers pc; with such tables those of the one that does |
| FuncTable.FindModuleDataByPC | tracee/process.go:528-535 | the first module with pc in its range |
| FuncTable.ResolveNameoff | tracee/process.go:638-656 | reading in pieces of 16 bytes yields the bytes up to the first zero byte, exactly when the piece with that byte can be read |
| FuncTable.StringIsLonger | tracee/process.go:638-656 | a stretch without a zero byte is part of the string |
| FuncTable.FindFunctionByModuleData | tracee/process.go:478-526 | the function found covers pc whatever the bucket table says; with tables as the linker builds them the result is that of the simple lookup, which FuncTable.LookupReads describes byte by byte, and there is no panic |
| FuncTable.LookupReads | tracee/process.go:478-526 | where memory holds, at the place that the table gives, the bytes of an entry address, an offset of the name, a size of the arguments and anything after them, and at that offset the name, the lookup yields that name, that entry as the start, the address of the next element as the end, and the size divided by eight as the number of parameters, or none when it is negative |
| FuncTable.ReadsRecord | tracee/process.go:497-514 | the three numbers of such a record are read from their own places |
| FuncTable.FoundAgain | tracee/process.go:478-526 | the function found contains pc, and looking up its start finds the same function |
| FuncTable.LookupIsWellFormed | tracer/controller.go:482-496 | this lookup meets what the state machine assumes of function lookup |
| Words.ReadsBack | tracee/moduledata.go:39-65 | a little-endian number is read back from its bytes |
| Words.BytesBack | tracee/moduledata.go:39-65 | the bytes of a little-endian number are written again as they were |
| Words.ByteAt | tracee/moduledata.go:39-65 | the k-th byte has the k-th power of 256 as its weight |
| Words.SignedIs | tracee/value.go:294-304 | a two's complement number is in its range and differs from the unsigned one by nothing or by the power of two |
| Params.FillIn | tracee/process.go:273-293 | for any layout without padding whose outputs follow its inputs: when the locations of all outputs and at most one input are missing, the two passes put the inputs back and fill the rest with the outputs in the order of their names, so that all parameters are apart and within the arguments; that is the real layout if and only if the names ascend; when at most one location is missing in all, the real layout is restored exactly; nothing is guessed when the sizes do not add up, or when an output is located or named otherwise and not just one location is missing; and a location that is known never changes |
| Params.OutputsRecovered | tracee/process.go:311-331 | the outputs get their own locations back if and only if their names ascend in the order of their locations |
| Params.SameLayout | tracee/process.go:311-331 | putting the outputs in the order of their names restores the layout if and only if the names ascend in the order of the locations |
| Params.OtherLayout | tracee/process.go:311-331 | any order of the outputs is a layout of the same arguments |
| Params.TwoResultsSwapped | tracee/process.go:322-330 | nine inputs and two results of a word each: the results are called ~r9 and ~r10, and each gets the location of the other |
| Params.ResultsNotRecovered | tracee/process.go:322-330 | and no order that the sort may choose puts them where they belong |
| Params.UnknownRecovered | tracee/process.go:333-352 | one missing location is found again wherever its parameter stands in the sorted list, and the list is the real layout again |
| Params.GapIsHole | tracee/process.go:408-430 | in a layout without one of its parameters the first gap is where that one was |
| Params.CalculateUnknownParameterOffset | tracee/process.go:408-430 | the loop with its sentinel computes the first gap between the located parameters |
| Params.DoFillInOutputParameters | tracee/process.go:311-331 | the outputs in the order of their names get consecutive offsets behind the inputs; nothing else changes |
| Params.FillExchanges | tracee/process.go:324-330 | filling in through indexes changes exactly the parameters picked |
| Params.FillInOutputParameters | tracee/process.go:284-309 | when it applies the list is filled and sorted, and otherwise unchanged |
| Params.FillInUnknownParameter | tracee/process.go:333-372 | when it applies the one missing location is filled and the list sorted, and otherwise unchanged |
| Params.SortByOffset | tracee/process.go:291-291 | a permutation in the order of the offsets; nothing is promised about equal ones |
| Params.OnlyOneOrder | tracee/process.go:322-322 | what a sort yields is determined when the elements can be put in strict order |
| Params.ForgottenOutputs | tracee/process.go:311-321 | sizes and collection of the outputs, when all of theirs are missing |
| Values.Faithful | tracee/value.go:292-399 | where memory holds a value of the type down to the given depth, parsing yields that value cut at that number of ordinary structs: numbers with their signs or left raw when they have another width, pointers that lead somewhere or not, strings also when their text cannot be read, slices of any length, arrays, structs and typedefs; nothing is asked of memory below the cut, so that circular structures are included |
| Values.ParsedExactly | tracee/value.go:292-433 | the parser panics if and only if memory holds no value of the type down to that depth, which is so for a string with a length that is negative or cannot be allocated and for a slice of several elements without a first one; otherwise it yields the value that memory holds |
| Values.Image | tracee/value.go:292-433 | whatever is parsed without a panic lies in memory |
| Values.SliceFaithful | tracee/value.go:413-433 | the elements of a slice are those at base + i * size, modulo 2^64, each cut like the slice itself, and nothing where there is none; of a slice with a negative length the first element is shown |
| Values.StructFaithful | tracee/value.go:506-516 | at depth zero a struct is abbreviated, and otherwise its fields, whatever lies in each of them, are cut at one less; of fields with one name the last counts |
| Values.ArrayFaithful | tracee/value.go:381-391 | the items of an array, one after the other |
| Values.StringFaithful | tracee/value.go:401-411 | the text of a string, and empty text where it cannot be read |
| Values.CycleIsParsed | tracee/value.go:506-516 | a node that points to itself: at every depth it has an image and is parsed, cut at that depth |
| Values.LastFieldCounts | tracee/value.go:511-514 | a struct with two blank fields of different contents: it has an image, and the second field is what is parsed |
| Values.ParseValue | tracee/value.go:292-399 | the recursive parser ends for types whose cycles all pass through an ordinary struct, on any memory, with a depth that is never negative, and computes the specification; None is a run-time panic |
| Values.RanksExactly | tracee/value.go:506-516 | the ranks of types by which the parser is shown to end can be given if and only if every cycle of types passes through an ordinary struct |
| Values.WalkFalls | tracee/value.go:506-516 | going from type to type never leads back, unless through an ordinary struct |
| Values.ParseStructValue | tracee/value.go:506-516 | computes the specification of a struct |
| Values.ParseSliceValue | tracee/value.go:413-433 | computes the specification of a slice: the extra level for its own struct cancels out |
| Values.ParseElements | tracee/value.go:425-430 | the loop over the elements behind the first |
| Values.ParseArrayValue | tracee/value.go:381-391 | the loop over the items of an array |
| Values.ParseStringValue | tracee/value.go:401-411 | computes the specification of a string: unreadable text is empty, a length that is negative or more than can be allocated panics |
| Values.ParseFields | tracee/value.go:511-514 | the loop over the fields |
| Words.SignedBack | tracee/value.go:294-304 | a number in two's complement is read back |
| Words.SignedBytesBack | tracee/value.go:294-304 | and the bytes of such a number are written again as they were |
| Dwarf.DecodeSignedLEB128 | tracee/binary.go:604-620 | every terminated encoding of any length yields the number it stands for as an int64, with shifts that lose bits at the top and parts combined bit by bit |
| Dwarf.OrOfShifted | tracee/binary.go:607-607 | the bitwise or of a round is the sum, also when bits are lost at the top: the new bits are above all the others |
| Dwarf.EveryInt64ComesBack | tracee/binary.go:604-620 | every int64 comes back from its canonical encoding, ten bytes included, whatever follows it |
| Dwarf.SlebInverts | tracee/binary.go:604-620 | a canonical encoding stands for its number |
| Dwarf.SlebDigit | tracee/binary.go:604-620 | the k-th byte of an encoding holds the k-th digit to base 128 of the number it stands for |
| Dwarf.SlebFits | tracee/binary.go:604-620 | and the number fits, with its sign, into the bits that are there: together they determine it |
| Dwarf.SlebNeedsAnEnd | tracee/binary.go:604-620 | an encoding stands for no number if and only if it has no last byte |
| Dwarf.ParseLocationDesc | tracee/binary.go:409-423 | zero for the CFA, the decoded number for an offset from the frame base, and the errors |
| Dwarf.BuildLocationList | tracee/binary.go:455-481 | the loop computes the reading of the list; None is an index out of range |
| Dwarf.ListReadsBack | tracee/binary.go:455-481 | a list that lies anywhere in the section is read back as it was written, with offsets that may be negative |
| Dwarf.ListReadExactly | tracee/binary.go:455-481 | reading fails if and only if no list lies there, and otherwise yields what the list says |
| Dwarf.MeaningIs | tracee/binary.go:455-481 | that is, all locations in order and the last base address selected |
| Hex.HexToUint64 | debugapi/client_darwin.go:882-891 | computes the number of the text, in either byte order |
| Hex.Uint64ToHex | debugapi/client_darwin.go:906-916 | computes sixteen digits, in either byte order |
| Hex.HexToByteArray | debugapi/client_darwin.go:893-904 | computes the bytes; a digit left over is an index out of range |
| Hex.WordBack | debugapi/client_darwin.go:882-916 | every word is read back from its text, in both byte orders |
| Hex.HexBack | debugapi/client_darwin.go:882-916 | sixteen lower-case digits are written again as they were |
| Hex.BytesBack | debugapi/client_darwin.go:893-904 | bytes are read back from their text |
| Hex.DigitIs | debugapi/client_darwin.go:906-907 | the sixteen digits and their values, and no other character has one |
| Hex.WordHexAt | debugapi/client_darwin.go:906-916 | each digit of a word in its place, in both byte orders |
| Hex.ByteArrayIs | debugapi/client_darwin.go:893-904 | every two characters are a byte, in order; it fails exactly for a character left over or two that are not digits |
| Hex.SwappedTwice | debugapi/client_darwin.go:908-914 | reversing the bytes twice changes nothing |
| Registers.ParseRegisterData | debugapi/client_darwin.go:398-419 | computes the three registers from their places |
| Registers.RebuildRegisterData | debugapi/client_darwin.go:430-446 | the rebuilding of the text, one register at a time, computes the splice |
| Registers.WrittenIs | debugapi/client_darwin.go:430-446 | each of the three registers is in its place, the length is kept, and every other character is unchanged |
| Registers.RegistersLie | debugapi/client_darwin.go:398-419 | each of the three registers is written to, and read from, its own place, as the text of a little-endian word |
| Registers.ReadsWhatWasWritten | debugapi/client_darwin.go:398-446 | what was written is read |
| Registers.WritesWhatWasRead | debugapi/client_darwin.go:398-446 | writing what was read changes nothing, when the text is in lower case there |
| Registers.LastWriteCounts | debugapi/client_darwin.go:421-446 | of two writes the second counts |
| Registers.Client.ReadTLS | debugapi/client_darwin.go:495-518 | result and registers at the end are those determined by which requests are granted: on every way out but the first two errors the three registers are written back, other threads are untouched, and the value is what the step left in rcx |
| Registers.TLSIs | debugapi/client_darwin.go:495-518 | a value is returned if and only if the first five requests are granted and the registers can be read after the step, and it is rcx after one step of the thread from the function; the registers are written back when the next two are granted, and nothing is changed when the first is refused |
| Registers.Client.StepInReadTLSFunction | debugapi/client_darwin.go:506-517 | the part between: the program counter is moved, the thread steps, and rcx is read |
| Registers.RestoredExactly | debugapi/client_darwin.go:504-504 | the three registers are as before if and only if writing them back is granted, or they had not changed |
| Registers.RestoreIsLost | debugapi/client_darwin.go:504-517 | six answers, the last a refusal, on which a value is returned without an error and the thread is left with its program counter at the function |
| Registers.ZeroFirst | debugapi/client_darwin.go:520-531 | a new client is asked for offset zero: it returns a value, and no function was installed |
| Registers.Client.UpdateReadTLSFunction | debugapi/client_darwin.go:520-531 | afterwards the function for the offset is installed if and only if the offset is not the one remembered, which is zero at first, or the function was installed before; the answers say whether it succeeds |
| Registers.Client.WriteRegisters | debugapi/client_darwin.go:421-453 | all or nothing |
| Packets.Connection.Receive | debugapi/client_darwin.go:810-839 | for a body without "#" exactly that body is received, however the stream is cut into pieces; with acknowledgements if and only if the checksum is accepted, and then it is acknowledged; several pieces are taken together up to the first that makes them look like a packet |
| Packets.Connection.ReadPacket | debugapi/client_darwin.go:810-829 | the loop stops exactly at the first piece with which what was read looks like a packet, and fails exactly when there is none |
| Packets.InnerOfAll | debugapi/client_darwin.go:819-828 | several packets in one piece look like one packet, whose body has the separators in it |
| Packets.ReceiveReplies | debugapi/client_darwin.go:641-649 | receiving and splitting together: of packets that arrive in any number of pieces all bodies come out, in order, when no piece but the last completes what looks like a packet |
| Packets.OnlyEndMark | debugapi/client_darwin.go:819-828 | nothing in a packet but its end looks like an end |
| Packets.VerifyPacket | debugapi/client_darwin.go:863-880 | decides acceptance |
| Packets.AcceptedExactly | debugapi/client_darwin.go:863-880 | a packet with its two-digit checksum is accepted if and only if the checksum is at least 0x10 |
| Packets.AcceptsOnly | debugapi/client_darwin.go:863-880 | and nothing is accepted but packets whose checksum, the sum of the body modulo 256, stands there in two digits and is at least 0x10 |
| Packets.SumIs | debugapi/client_darwin.go:918-924 | the sum is additive, and that of one character is the character |
| Packets.CalcChecksum | debugapi/client_darwin.go:918-924 | the sum of the bytes modulo 256 |
| Packets.Framed | debugapi/client_darwin.go:782-787 | the packet that is sent |
| Packets.BuildStopReplies | debugapi/client_darwin.go:641-649 | every piece between the separators without its end mark; a piece of less than three characters is an index out of range |
| Packets.SplitIs | debugapi/client_darwin.go:641-649 | the pieces have no separator in them, and with separators between them they are the text again |
| Packets.RepliesAre | debugapi/client_darwin.go:641-649 | packets that were received together come apart into their bodies |
| LinuxThreads.Client.ContinueAndWait | debugapi/client_linux.go:305-320 | the list names exactly the stopped threads, each once, and after a trap only the trapped one, through forwarded signals and clone events; the signal is given to every thread in the list; the event is the one that threads, refusals and reports determine, and an error means exactly that one request failed |
| LinuxThreads.Client.StepAndWait | debugapi/client_linux.go:324-342 | the list stays exact, a trapped thread is in it, and unless all were resumed the other entries are as before; it says who was resumed because of the report; event and errors are determined in the same way |
| LinuxThreads.Client.HandleWaitStatus | debugapi/client_linux.go:344-369 | a report, which the list does not yet count, is accounted for; it says who is resumed because of it and with which signal; the event is what the first report says that is not passed over: a trap of its thread, an exit with its code, a core dump, or the signal that killed it; an error means that exactly one request failed |
| LinuxThreads.Client.HandleStop | debugapi/client_linux.go:345-359 | a stop: a trap, a clone event, or a signal that is forwarded; event and errors are determined in the same way |
| LinuxThreads.Passed | debugapi/client_linux.go:305-384 | without refusals, after any number of signals and clone events, in any order, the event is that of the first report that is neither, and the new threads count |
| LinuxThreads.EventComes | debugapi/client_linux.go:305-384 | and that event is reported |
| LinuxThreads.NextSays | debugapi/client_linux.go:305-369 | the event of a wait is the one its first report says that is not passed over, which are signals that are no traps, clone events and first stops; nothing after it matters |
| LinuxThreads.SaysOne | debugapi/client_linux.go:344-369 | a report says one event at most, and none when it is passed over |
| LinuxThreads.SignalReachesBoth | debugapi/client_linux.go:305-310 | a run in which one of two stopped threads makes a step and is stopped by a signal, which is then given to the other thread as well |
| LinuxThreads.Client.ContinueClone | debugapi/client_linux.go:371-384 | the new thread is traced and runs, and is never listed as stopped; it succeeds exactly when the thread stops for the first time and can be resumed |
| LinuxThreads.Client.WaitAndInitialize | debugapi/client_linux.go:177-195 | a new thread enters both lists |
| LinuxThreads.Client.ResumeAll | debugapi/client_linux.go:305-312 | every listed thread is resumed once, in order, with the signal, and the list is empty |
| LinuxThreads.Remove | debugapi/client_linux.go:329-333 | cutting a thread out of the list while a loop runs over the same memory removes it and keeps the rest in order, because the elements are distinct |
| LinuxThreads.Client.Unlist | debugapi/client_linux.go:329-333 | and so the list is the old one without the thread |

## Left out

- Sockets, launching and attaching, the RPC service, the command line and timeouts: input and output.
- Opening ELF and Mach-O files, decompression and walking the debug information entries: library code.
- Which bytes decode to which instruction, and bytes that do not decode: a skipped instruction shifts all later call addresses (tracee/process.go:702-713).
- The text of arguments in a line of the log: a line is the goroutine, the depth, the direction and the function's name.
- Floating point and complex numbers, interfaces and maps in tracee/value.go: interfaces and maps can refer to themselves without an ordinary struct in between, so that the claim about termination does not hold for them.
- The formatting of values as text and the limit of eight printed items.
- Accounting.Conservation: assumes that entries of deferred functions are neither return addresses nor call instructions, because the trap there is told apart by the address alone; the results about leaks, the log and unwinding do not assume it.
- Breakpoints.Breakpoints.ClearAllByGoRoutineID: entries of the map are values here, while the source has pointers to them; no entry is shared, so that only the identity of the entries is not modelled.
- TraceeProcess.Client.ReadMemory: a granted read is complete; the client for macOS accepts a shorter reply with a line in its log (debugapi/client_darwin.go:456-478).
- TraceeProcess.Client.WriteMemory: a refused write changes nothing, and memory that is written is code memory only; the tracee does not write its own code.
- TraceeProcess.Process.CurrentGoRoutineInfo: what the goroutine's structures say is a parameter, and so is how many requests it takes to read them, which depends on the list of deferred calls.
- Controller.Controller.UnwindFunctions: the remaining and the unwound part of the stack share memory in the source, so that a later push may overwrite the unwound part; it is not used after that, and stacks are values here.
- Controller.Controller.HandleTrapAtFunctionCall: reading the arguments of the frame is one reply, and the word on top of the stack is part of the trap.
- Controller.Controller.MainLoop: the trace level is fixed while the loop runs; a crash, a signal and a failed wait are one kind of event; a function whose end lies before its start is an error.
- Controller.Controller.FindCallInstAddresses: two functions with the same start address are the same function, which is what well-formed lookup means.
- FuncTable.FindFuncType: the fields of the moduledata record are given, not read from memory; the layout of the runtime's structures is that of the constants in the source.
- FuncTable.ResolveNameoff: a name does not continue at address zero behind the end of the address space.
- Params.FillIn: layouts with padding are not filled in by the source; parameters of size zero can stand in any order among those of equal offset and are not part of the claim.
- Registers.Client.ReadTLS: one step of the thread is any change of the text that keeps its length; an interruption by other threads counts as an error.
- Packets.Connection.Receive: sending the acknowledgement always succeeds; a character stands for a byte.
- LinuxThreads.Client.ContinueAndWait: after an error, when some threads may run that are still listed, nothing is claimed; a thread that is killed while it is stopped is reported only when it runs again.
- Liveness of the tracee and scheduling: all claims are about what has happened when a call returns.
- Go version handling, symbol tables and runtime type lookup: easy or irrelevant here.
