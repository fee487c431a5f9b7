# Verification of the crash-reproducer models

This project models the algorithms inside the reproducers and proves what they compute and keep. It has five parts.

**The run-time code generator** (`reflection-emit-bug/Program.cs`). `ILGenerator` is the assembler: labels that are
defined, marked and fixed up, exception blocks, locals, wide operands (`ILBytes`). `IL` is a small-step machine for the
instructions used, with int32 wrap-around, truncating remainder, overflow of `Math.Abs`, protected regions, `throw` and
`leave`; `ILTyping` is the one-pass stack typing of ECMA-335 Partition III section 1.7.5, proved to exclude stuck
states. Each emitter (`Arithmetic`, `ExceptionHandling`, `Looping`, `Branching`, `CallChain`) is written with its loops
or recursion over the assembler, proved to produce a program, and the program is proved to be well formed and to return
a closed or recursive function of its argument for every complexity. `StaticWork` and `DynamicMethods` cover the helper
the generated code calls and the list of methods with the worker's calls into it.

**The alternate signal stack** (`sigstack_helper.c`). `AltStack` has the shim system call by system call, each with an
arbitrary outcome, and a transition system of threads, mappings and registrations in which CoreCLR, Go, signals and the
shim take steps in any order. `StackProbe` runs the page-stride probes of the handlers on such a memory, with 64-bit
wrap-around, and joins the two. `FatHandler` is the handler's self-configuration under any interleaving.

**The `sigaltstack` tracer and decoder.** `Tracer` interleaves threads inside the preloaded wrapper, one shared access
or system call a step; `TracerLoss` counts the calls that go unrecorded; `TracerCode` is the same wrapper as straight
code, proved to be a run of it. `TraceRecord` and
`Decoder` are the 80-byte record, the decoding loop and the bisect attribution. `TracePipeline` connects them: what the
decoder prints, replayed, is the kernel's state.

**The syscall simulation and the assembly routine** (`complex_c_lib.c`). `SyscallSim` has the context, its transitions
and the exported function; `AsmChain` executes `deep_call_chain_asm` instruction by instruction with a callee that is
free to do anything the System V convention allows.

**The bounded recursions.** `RecursionShape` and `BoundedStress` count activations, live frames and mark/clear calls.

Where the code does not do what it is said to do, the code is kept, an input on which it fails is given, and the exact
condition is proved:

- The call-chain method throws from `Math.Abs` for exactly the arguments congruent to 2^29 modulo 2^30 (complexity up to
  3615); no worker input is one of them.
- The shim keeps its stack through a Go call it was called from if and only if Go had not installed a stack of its own on
  the way in; otherwise the flag stays set on a thread whose stack Go then disables. Ownership and conservation of the
  shim's mappings hold either way.
- The lower bound of 4096 on the handler's probe size does not keep the page count above zero: it is zero if and only if
  the configured size exceeds 2^64-4096, as with REPRO_PROBE_BYTES=-1. Such a probe still stops at any guard page.
- `fat_handler` publishes the probe size before the probe mode, so any number of activations can use the wrong probe.
  Every activation of every run uses the configured one if and only if chkstk was not asked for.
- The tracer stores the function pointer before the log descriptor. A call is missing from the log if and only if the
  descriptor was still negative when the call came to write; with an open log nothing is lost, with a failed open
  nothing is ever recorded.
- The wrapper is transparent in rc and old stack of every call it answers, but the one call that initialises can change
  errno: a call's errno is the direct call's if and only if it failed, was not that call, or initialising left errno
  alone. A call with a bad pointer is answered if and only if it finds no log to write to; otherwise it crashes.
- A record says what its call registered if and only if the call failed, or was not made with one structure for both
  pointers, or asked for what was there anyway.
- `deep_call_chain_asm` moves rsp by 40 per level, so the C routine is called with a 16-byte aligned stack at odd levels
  only.
- A well-nested sequence of transitions of height h conserves depth d if and only if d is 0 or d+h is at most 7, so
  `create_go_like_complexity` returns to d for d up to 4 and to 4 from deeper. Between exported calls the depth is
  always 0, where it is conserved.
- `attr` agrees with a linear scan if and only if no row starting at or below the address comes after one containing
  it, which holds everywhere when rows are disjoint.

## Model

| member | source | states |
|---|---|---|
| IL.FinishesUnique | reflection-emit-bug/Program.cs:96-131 | a generated method has at most one outcome for an argument: the machine is deterministic once it returns or throws |
| IL.RunReturn | reflection-emit-bug/Program.cs:128-130 | `ret` with one value on the stack ends the method with that value |
| IL.RunEscape | reflection-emit-bug/Program.cs:303-334 | an exception raised outside every protected region leaves the method |
| IL.RunThrow | reflection-emit-bug/Program.cs:165-172 | `throw` enters the handler of the first region around it with the exception alone on the stack |
| IL.RunLeave | reflection-emit-bug/Program.cs:172-176 | `leave` empties the evaluation stack and goes to its target |
| IL.OperatorLaw | reflection-emit-bug/Program.cs:118-122 | operand order of every operator, wrap-around of sums and products, and when a remainder raises instead |
| Int32.WrapLaw | reflection-emit-bug/Program.cs:336-346 | wrapping yields the one value in int32 that differs by a multiple of 2^32 |
| Int32.TruncRemLaw | reflection-emit-bug/Program.cs:122-122 | the remainder r of a by b has a = bq + r, is smaller than b in magnitude and has the sign of a |
| Int32.AndLaw | reflection-emit-bug/Program.cs:279-279 | bit k of a conjunction is set if and only if it is set in both operands, for all 32 bits; it is zero if and only if no bit is common |
| ILTyping.VerifiedNeverStuck | reflection-emit-bug/Program.cs:96-334 | a program that passes the stack typing never underflows, mixes types, jumps out of range or falls off the end, in any run |
| ILGenerator.Generator.DefineLabel | reflection-emit-bug/Program.cs:202-204 | a new label is distinct from all others and not yet marked |
| ILGenerator.Generator.MarkLabel | reflection-emit-bug/Program.cs:206-237 | a label is marked once, at the current position, and no other label moves |
| ILGenerator.Generator.EmitWide | reflection-emit-bug/Program.cs:116-123 | what is appended is what the bytes written for a 32-bit operand read as |
| ILBytes.WideReads | reflection-emit-bug/Program.cs:116-123 | the six bytes of `ldloc`/`stloc` with an int operand read back as the instruction and two nops if and only if the index fits 16 bits |
| ILBytes.WideListing | reflection-emit-bug/Program.cs:116-123 | the six bytes are FE, 0C or 0E, then the index from its lowest byte up; FE 0C low high 00 00 reads as `ldloc low+256*high` and two nops |
| ILGenerator.Generator.BeginCatchBlock | reflection-emit-bug/Program.cs:172-172 | ends the try part with a `leave` to the end label and starts the handler |
| ILGenerator.Generator.EndExceptionBlock | reflection-emit-bug/Program.cs:176-176 | closes the block, records its region and marks the end label |
| ILGenerator.Generator.CreateDelegate | reflection-emit-bug/Program.cs:129-130 | fixing up every branch gives the one program whose targets are the marked positions |
| ILGenerator.BakedUnique | reflection-emit-bug/Program.cs:96-334 | fix-up has exactly one result, and every branch it contains refers to a marked label |
| Arithmetic.CreateComplexArithmeticMethod | reflection-emit-bug/Program.cs:96-131 | the emitter's loops produce this program, with c+5 locals, for every complexity whose locals fit 16 bits |
| Arithmetic.ArithmeticListing | reflection-emit-bug/Program.cs:102-129 | the code, instruction by instruction: step i loads local i mod (c+5), adds i+1, scales by 7, takes the remainder by 3 and stores to the next local |
| Arithmetic.ArithmeticCorrect | reflection-emit-bug/Program.cs:96-131 | the program refines a scalar chain, step i reading what step i-1 wrote, and returns its value at 10c - 10c mod (c+5), in 120c+4 machine steps |
| Arithmetic.ScalarLaw | reflection-emit-bug/Program.cs:114-123 | the scalar chain starts at the argument and goes from x to wrap32((x+i+1)*7) rem 3, for every i |
| Arithmetic.ArithmeticClosed | reflection-emit-bug/Program.cs:96-131 | for c = 0 it returns the argument; otherwise (v1 + k(k+1)/2 - 1) mod 3, a value in {0,1,2}, with v1 = wrap32((arg+1)*7) rem 3 |
| Arithmetic.ArithmeticReturns | reflection-emit-bug/Program.cs:96-131 | in numbers: c+5 locals; the argument for c = 0, else (wrap32((arg+1)*7) rem 3 + k(k+1)/2 - 1) mod 3 with k = 10c - 10c mod (c+5); complexity 1 on 0 gives 0 |
| Arithmetic.ReturnsMultiple | reflection-emit-bug/Program.cs:110-127 | k is the largest multiple of c+5 not above 10c |
| Arithmetic.ArithmeticVerified | reflection-emit-bug/Program.cs:96-131 | well formed for every complexity |
| ExceptionHandling.CreateExceptionHandlingMethod | reflection-emit-bug/Program.cs:133-183 | the emitter's loop over try/catch levels produces this program and these regions |
| ExceptionHandling.ExceptionListing | reflection-emit-bug/Program.cs:143-182 | the code, instruction by instruction, and the c+1 regions, for every level |
| ExceptionHandling.ProtectingLevel | reflection-emit-bug/Program.cs:143-177 | an instruction of a try body is protected by its own level's handler and no other |
| ExceptionHandling.RunLevels | reflection-emit-bug/Program.cs:143-177 | after any number of levels the evaluation stack is empty and the result is -1 if the last level threw, else its remainder |
| ExceptionHandling.AfterLevel | reflection-emit-bug/Program.cs:153-176 | each level but the last leaves v = wrap32(arg*level) rem 100 after 11 steps, or raises and leaves -1 after 16 steps if and only if v is 0 |
| ExceptionHandling.ExceptionCorrect | reflection-emit-bug/Program.cs:133-183 | for every complexity and argument no exception escapes and the method returns wrap32(arg*(c+1)) rem 100 |
| ExceptionHandling.ExceptionReturns | reflection-emit-bug/Program.cs:133-183 | the method finishes normally, with a value strictly between -100 and 100 |
| ExceptionHandling.ExceptionVerified | reflection-emit-bug/Program.cs:133-183 | well formed: empty stack at try entry, one exception on it at handler entry, regions left only by `leave` |
| Looping.CreateLoopingMethod | reflection-emit-bug/Program.cs:185-244 | the emitter's loop produces this program, every label marked once |
| Looping.LoopingListing | reflection-emit-bug/Program.cs:192-243 | the code, instruction by instruction: loop d runs to 100+10d, skips odd counters and adds three times the others |
| Looping.RunLoops | reflection-emit-bug/Program.cs:196-238 | the c+1 loops share one counter: after n of them it stands at the n-th limit and every even value below it was added three times over |
| Looping.LoopingCorrect | reflection-emit-bug/Program.cs:185-244 | terminates after 100+10c iterations with counter 100+10c and returns wrap32(arg + 3m(m-1)), m = 50+5c, in an exact number of machine steps |
| Looping.LoopingReturns | reflection-emit-bug/Program.cs:185-244 | the method finishes with wrap32(arg + 3m(m-1)), m = 50+5c |
| Looping.EvenSumClosed | reflection-emit-bug/Program.cs:216-228 | the sum of 3k over the even k below 2m is 3m(m-1) |
| Looping.LoopingVerified | reflection-emit-bug/Program.cs:185-244 | well formed, with backward branches at empty stack |
| Branching.CreateBranchingTree | reflection-emit-bug/Program.cs:266-301 | the recursive emitter appends exactly 15(2^depth - 1) instructions that, once fixed up, are the tree's code at that position, and touches no earlier label |
| Branching.CreateBranchingMethod | reflection-emit-bug/Program.cs:246-264 | the method around the tree |
| Branching.BranchingListing | reflection-emit-bug/Program.cs:251-262 | the code around the tree: depth c+1, first value 0, at instruction 2 |
| Branching.NodeListing | reflection-emit-bug/Program.cs:266-301 | the code of a node, instruction by instruction, and where its two subtrees lie with which depth and value |
| Branching.WidthClosed | reflection-emit-bug/Program.cs:266-301 | the code of a tree is 15(2^depth - 1) instructions long |
| Branching.RunTree | reflection-emit-bug/Program.cs:266-301 | compositional correctness: at any position in any larger program the tree's code reaches the instruction after it with an empty stack and the recursive meaning in `result` |
| Branching.TestLaw | reflection-emit-bug/Program.cs:276-280 | the code branches left if and only if no k below 32 has bit k set in both the result and the mask |
| Branching.TreeLaw | reflection-emit-bug/Program.cs:276-299 | the tree's value, level by level: wrap32(r*7*depth+13) with value+1 if r and value+depth share a bit, wrap32(r+depth) with value+2 if not |
| Branching.SmallestTree | reflection-emit-bug/Program.cs:246-301 | complexity 0 in closed form: wrap32(7*arg+13) for odd arguments, wrap32(arg+1) for even ones; 1 gives 20 |
| Branching.BranchingCorrect | reflection-emit-bug/Program.cs:246-301 | the whole method returns the tree's value, within 8d+4 to 11d+4 machine steps for depth d = c+1 |
| Branching.BranchingReturns | reflection-emit-bug/Program.cs:246-301 | the method finishes with the recursive meaning: if result & (value+depth) is 0 add depth and recurse with value+2, else times 7*depth plus 13 and recurse with value+1 |
| Branching.TreeForward | reflection-emit-bug/Program.cs:276-299 | every branch goes forward and stays inside the tree |
| Branching.BranchingVerified | reflection-emit-bug/Program.cs:246-301 | well formed: both ways join with an empty stack |
| CallChain.CreateCallChainMethod | reflection-emit-bug/Program.cs:303-334 | the emitter's loop produces this program |
| CallChain.CallChainListing | reflection-emit-bug/Program.cs:307-331 | the code, instruction by instruction, with the factors 17i-100 |
| CallChain.CallChainCorrect | reflection-emit-bug/Program.cs:303-334 | it performs c+5 rounds of absolute value and static work, or stops at the first `Math.Abs` that overflows |
| CallChain.CallChainTrace | reflection-emit-bug/Program.cs:312-330 | for every complexity and argument the results before the rounds: round i takes r to the static work of |wrap32(r*(17i-100))| with i; it returns the last one, or overflows in the first round whose product is -2^31 |
| CallChain.RoundLaw | reflection-emit-bug/Program.cs:312-330 | if complexity c returns u below 1000000 then c+1 returns (59049x + 29524i) mod 1000000 with i = c+5, x = |u(17i-100)|, while that fits int32 |
| CallChain.FiveRounds | reflection-emit-bug/Program.cs:303-334 | the five rounds of complexity 0 in numbers, factors 100, 83, 66, 49, 32, for arguments up to 7158278 either way |
| CallChain.CallChainExample | reflection-emit-bug/Program.cs:303-334 | complexity 0 on argument 1 returns 414544 |
| CallChain.CallChainOverflow | reflection-emit-bug/Program.cs:303-334 | for c up to 3615 the overflow escapes if and only if arg mod 2^30 is 2^29, and otherwise the result is in [0, 999999] |
| CallChain.ChainBounded | reflection-emit-bug/Program.cs:312-330 | once a round has returned a value below 1000000 no later round up to the 3620th can overflow |
| CallChain.LaterOverflow | reflection-emit-bug/Program.cs:312-330 | a product with such a value can only overflow in a round congruent to 3620 modulo 4096 |
| CallChain.CallChainVerified | reflection-emit-bug/Program.cs:303-334 | well formed for every complexity |
| StaticWork.StaticComplexWork | reflection-emit-bug/Program.cs:336-346 | the loop computes the ten-fold wrapped iteration, in [0, 999999] for every pair of int32 inputs |
| StaticWork.WorkRange | reflection-emit-bug/Program.cs:336-346 | the result is never negative nor above 999999, whatever wraps on the way |
| StaticWork.WorkTrace | reflection-emit-bug/Program.cs:336-346 | any call, wrapped or not, is ten values each the magnitude of wrap32(3r+modifier) rem 1000000 |
| StaticWork.WorkClosedForm | reflection-emit-bug/Program.cs:336-346 | without wrapping it is (59049*input + 29524*modifier) mod 1000000 |
| DynamicMethods.CreateMethod | reflection-emit-bug/Program.cs:78-91 | entry i has kind i mod 5 and complexity min(i/100, 10) |
| DynamicMethods.MethodLaw | reflection-emit-bug/Program.cs:78-91 | kind by kind: which method stands at i for each residue modulo 5, with complexity i/100 up to 10 |
| DynamicMethods.OutcomeLaw | reflection-emit-bug/Program.cs:78-91 | what the entries of the first three kinds return, in closed form from the index alone |
| DynamicMethods.MethodList.GenerateDynamicMethods | reflection-emit-bug/Program.cs:74-94 | the list grows by `count` entries in order and keeps the earlier ones |
| DynamicMethods.MethodCorrect | reflection-emit-bug/Program.cs:74-94 | every entry of the list is well formed and finishes with its kind's outcome on every int32 argument |
| DynamicMethods.MethodFinishes | reflection-emit-bug/Program.cs:74-94 | and that outcome is its only one |
| DynamicMethods.EscapesIff | reflection-emit-bug/Program.cs:74-94 | the only exception that ever leaves a method is the overflow of the call-chain kind, and exactly for those arguments |
| DynamicMethods.WorkerCallReturns | reflection-emit-bug/Program.cs:348-363 | with a worker's input wrap32(i*workerId) rem 10000 every method of the list returns a value |
| AltStack.Shim.EnsureLargeSigaltstack | dotnet-go-reproducer/sigstack_helper.c:62-115 | for every combination of query, mmap, mprotect and install results, the thread and its mappings are either both changed by one complete installation (unguarded if only mprotect failed) or left as they were, with the flag set exactly when a large stack is registered; with the flag clear it is set afterwards if and only if the query succeeded and 1 MiB was registered already or mapping and installation succeeded |
| AltStack.EnsureLaw | dotnet-go-reproducer/sigstack_helper.c:62-115 | with the flag clear a call sets it if and only if it can query and finds 1 MiB registered or gets its mapping registered at base+4096; in every other case nothing at all changes |
| AltStack.RuntimesLaw | INVESTIGATION.md:66-75 | CoreCLR and Go install if and only if nothing is registered, Go 32 KiB; a Go call leaves thread and mappings as it found them |
| AltStack.SignalLaw | dotnet-go-reproducer/sigstack_helper.c:16-22 | a handler uses what its frames push and gives it all back; without a stack nothing is counted |
| AltStack.LifeLaw | dotnet-go-reproducer/sigstack_helper.c:57-60 | a thread starts with nothing registered, and of its mappings only the shim's outlive it |
| AltStack.PossibleLaw | INVESTIGATION.md:66-75 | exactly when each event can happen to a live thread; the runs ruled out are only those with overlapping mappings or changes under a running handler |
| AltStack.EnsureIdempotent | dotnet-go-reproducer/sigstack_helper.c:62-63 | once the flag is set later calls change nothing; a call that does not set it changes nothing either |
| AltStack.EnsureInstalls | dotnet-go-reproducer/sigstack_helper.c:82-114 | an installation registers 1 MiB directly above a guard page in a fresh mapping of its own |
| AltStack.SafeKeeps | dotnet-go-reproducer/sigstack_helper.c:62-115 | every event (shim, CoreCLR install, Go install-or-record, Go exit, signals, thread creation and exit) keeps every registered stack backed by live memory of its own thread and disjoint from all else |
| AltStack.ReachableSafe | INVESTIGATION.md:66-75 | so that holds in every reachable state of every process, wherever the shim is called from |
| AltStack.ReachableFlagged | INVESTIGATION.md:66-75 | for a thread that itself keeps the usage rule, whatever the others do, a set flag means at least 1 MiB registered and no Go call about to disable it |
| AltStack.FlaggedForever | INVESTIGATION.md:676-682 | once its flag is set, a thread that has kept the usage rule keeps the same enabled stack of at least 1 MiB for its whole life, whatever it and every other thread do from then on |
| AltStack.HandlerInside | dotnet-go-reproducer/sigstack_helper.c:18-22 | in every reachable state every byte a handler touches within the registered size is accessible, belongs to its own thread and to no other mapping |
| AltStack.LargeHandlerInside | dotnet-go-reproducer/sigstack_helper.c:16-22 | on a flagged thread that has kept the usage rule that is good for 1 MiB, at the end of any run |
| AltStack.ShimMappings | dotnet-go-reproducer/sigstack_helper.c:50-115 | conservation over every run, without any usage rule: a thread has exactly one live shim mapping if it registered one, and none otherwise |
| AltStack.OwnedKeeps | dotnet-go-reproducer/sigstack_helper.c:50-115 | every event, wherever the shim is called from, keeps the ownership and disjointness of mappings |
| AltStack.ReachableOwned | dotnet-go-reproducer/sigstack_helper.c:50-115 | so they hold in every reachable state |
| AltStack.FlagMeansLarge | dotnet-go-reproducer/sigstack_helper.c:75-114 | when a call sets the flag at least 1 MiB is registered at that point; when it adds a mapping it has registered it |
| AltStack.ShimStackStays | dotnet-go-reproducer/sigstack_helper.c:57-60 | a registered shim stack is never unmapped, not even by its thread's exit |
| AltStack.GuardBelow | dotnet-go-reproducer/sigstack_helper.c:82-105 | the registration starts one page above the mapping's base |
| AltStack.EnsureInsideGo | dotnet-go-reproducer/Program.cs:116-124 | the rule "before the first ping" is exact: after a call made inside Go, and whatever happens until that Go call is over, the stack survives Go's exit if and only if Go had recorded, not installed |
| AltStack.EnsureInsideGoDisables | dotnet-go-reproducer/Program.cs:116-124 | a run that breaks the rule ends with the flag set and no stack |
| StackProbe.Cpu.ProbeStackChkstk | go-runtime-bug/fat_handler.c:113-133 | for every size, the 64-bit do-while loop stores at rsp - 4096, rsp - 8192, ... modulo 2^64, ceil(n/4096) times or 2^64 times for 0 and sizes above 2^64-4096, stops at the first store that traps, and restores rsp when it completes |
| StackProbe.Cpu.ProbeStack | coreclr-pal-bug/stack_probe.c:33-47 | with the zero guard a zero size stores nothing |
| StackProbe.Cpu.ProbeStackAlloca | go-runtime-bug/fat_handler.c:97-110 | stores one byte at buf, buf + 4096, ..., ceil(n/4096) of them, and stops at the first that traps |
| StackProbe.Restored | go-runtime-bug/fat_handler.c:125-129 | adding the rounded size undoes the strides, wrapped or not |
| StackProbe.StridesLaw | go-runtime-bug/fat_handler.c:122-128 | the number of strides in numbers: ceil(n/4096), or 2^64 for 0 and for sizes above 2^64-4096 |
| StackProbe.ByteLaw | dotnet-go-reproducer/sigstack_helper.c:92-97 | a byte is writable if and only if it lies in a live mapping above its guard bytes |
| StackProbe.GuardSound | go-runtime-bug/fat_handler.c:113-133 | on a guarded stack the probe completes if and only if 4096*ceil(n/4096) fits above the guard; else its first bad store traps inside the guard page and nothing below it is written |
| StackProbe.FitsInside | dotnet-go-reproducer/sigstack_helper.c:92-97 | without the guard a probe that fits still stays inside the mapping |
| StackProbe.AllocaGuard | go-runtime-bug/fat_handler.c:97-110 | the alloca probe also traps exactly when its buffer crosses the guard |
| StackProbe.ZeroSizeProbe | go-runtime-bug/fat_handler.c:122-128 | started with zero pages (size 0, or overflow of n+4095) the loop cannot complete past a guard page |
| StackProbe.HandlerOnShimStack | dotnet-go-reproducer/sigstack_helper.c:82-105 | on a guarded shim stack a handler that used u bytes and probes n completes if and only if both fit into 1 MiB |
| StackProbe.ShimPromise | dotnet-go-reproducer/sigstack_helper.c:62-115 | the same at the end of every run in which the thread kept the usage rule up to a successful guarded installation |
| StackProbe.SmallStackOverflows | coreclr-pal-bug/stack_probe.c:4-10 | on a stack smaller than the probe some store lands in the page below it |
| FatHandler.Size | go-runtime-bug/fat_handler.c:149-151 | the probe size is 65536 when nothing is configured, else max(4096, configured) |
| FatHandler.ZeroPages | go-runtime-bug/fat_handler.c:122-151 | the loop starts with zero pages if and only if the configured size exceeds 2^64-4096 |
| FatHandler.MinusOneProbesZeroPages | go-runtime-bug/fat_handler.c:149-151 | REPRO_PROBE_BYTES=-1 is such a size |
| FatHandler.Handler.LogInitOnce | go-runtime-bug/fat_handler.c:53-64 | the compare-and-swap, the check of the variable and the open are a run of the interleaved machine; found at -1 with a log asked for, it opens once and ends with that descriptor or -3, otherwise it opens nothing |
| FatHandler.Handler.FatHandler | go-runtime-bug/fat_handler.c:144-161 | the uninterrupted handler is a run of the machine up to its probe; a first activation configures size, mode and log, a later one changes none of them |
| FatHandler.FirstActivation | go-runtime-bug/fat_handler.c:144-161 | a first activation that nothing interrupts opens exactly once if a log was asked for, ends with that descriptor or -3, logs to it if it is open, and probes as configured |
| FatHandler.HandlerRuns | go-runtime-bug/fat_handler.c:144-161 | under every interleaving the log is opened at most once, everything is logged to that descriptor, and every probe uses max(4096, configured) bytes, with a zero page count exactly for configured sizes above 2^64-4096 |
| FatHandler.LogFdSettles | go-runtime-bug/fat_handler.c:53-64 | the descriptor only moves -1, -2, final, and then never changes |
| FatHandler.LogFdStep | go-runtime-bug/fat_handler.c:53-64 | no step skips a phase, and only the activation taking or holding the claim moves it |
| FatHandler.ModeAfterClaim | go-runtime-bug/fat_handler.c:151-154 | once the descriptor has left -1 an activation uses the configured probe |
| FatHandler.ModeRace | go-runtime-bug/fat_handler.c:147-154 | in every configuration there is a run with any number of activations that use the alloca probe |
| FatHandler.ModeExact | go-runtime-bug/fat_handler.c:147-161 | every activation of every run uses the configured probe if and only if chkstk was not asked for |
| Tracer.OnceOnly | investigation-tools/ld-preload-tracer/trace_sigaltstack.c:68-88 | under every interleaving the real function is looked up and the log opened at most once, and no call goes through a null pointer |
| Tracer.Transparent | investigation-tools/ld-preload-tracer/trace_sigaltstack.c:86-129 | in every run every caller got the rc and old stack of a direct call, and its errno if and only if the call failed, did not initialise, or initialising left errno alone; at most one call of the process initialises |
| Tracer.DirectLaw | investigation-tools/ld-preload-tracer/trace_sigaltstack.c:99-100 | what the direct call answers, case by case: bad new stack, kernel refusal, bad old stack, success |
| Tracer.BadPointers | investigation-tools/ld-preload-tracer/trace_sigaltstack.c:109-119 | every finished call with a bad pointer is among those that found no log, and a thread that crashed did so in such a call with the log open, unanswered |
| Tracer.CrashExact | investigation-tools/ld-preload-tracer/trace_sigaltstack.c:109-119 | coming to write its record a call crashes if and only if it has a bad pointer, where a direct call would answer -1 |
| TracerLoss.LogExact | investigation-tools/ld-preload-tracer/trace_sigaltstack.c:86-129 | in every state of every run a thread's log is exactly its finished calls without the first k, k being how many of them found the descriptor negative; it is complete if and only if none did |
| TracerLoss.StepMisses | investigation-tools/ld-preload-tracer/trace_sigaltstack.c:102-103 | a call goes missing at a step if and only if the step loads a negative descriptor |
| TracerLoss.RecordedFromOpen | investigation-tools/ld-preload-tracer/trace_sigaltstack.c:102-126 | from a state with an open log on, every call finished later is recorded |
| TracerLoss.OpenLogMissesNothing | investigation-tools/ld-preload-tracer/trace_sigaltstack.c:79-103 | an open descriptor never changes and no call finds it negative |
| TracerLoss.FailedOpenRecordsNothing | investigation-tools/ld-preload-tracer/trace_sigaltstack.c:79-103 | after a failed open nothing is ever recorded |
| Tracer.LogMatchesKernel | investigation-tools/ld-preload-tracer/trace_sigaltstack.c:99-126 | in every state of every run, replaying a thread's records from any successful one gives the registration after the last of them, which every later successful record reports and the kernel holds between calls, if no replayed call had its request overwritten to any effect |
| Tracer.ReplayLaw | investigation-tools/ld-preload-tracer/trace_sigaltstack.c:109-118 | what one more record does to a replay: nothing if it failed or had no new stack, else its stack, or none if its flags say disable |
| Tracer.ReplayExact | investigation-tools/ld-preload-tracer/trace_sigaltstack.c:99-126 | all replays are right if and only if every logged call is harmless: failed, or not made with one structure for both pointers, or asking for what was there |
| Tracer.PreviousSuccess | investigation-tools/ld-preload-tracer/trace_sigaltstack.c:94-118 | in every state, each logged old state of a successful call is what the thread's previous successful call asked for; read off that call's record it is right if and only if the record is harmless |
| Tracer.EarlyCallUnlogged | investigation-tools/ld-preload-tracer/trace_sigaltstack.c:76-88 | a run in which a whole call passes between the lookup and the open and is not recorded |
| Tracer.InvKeeps | investigation-tools/ld-preload-tracer/trace_sigaltstack.c:68-129 | every step of every thread keeps the double-checked initialisation, the log, kernel and answer invariants |
| TracerCode.Wrapper.InitOnce | investigation-tools/ld-preload-tracer/trace_sigaltstack.c:68-84 | the initialisation code is a run of the machine that ends with the pointer set; it opens the log and takes the descriptor if and only if initialisation was not done before |
| TracerCode.Wrapper.RealSigaltstack | investigation-tools/ld-preload-tracer/trace_sigaltstack.c:59-59 | the kernel's effect: nothing but errno when it refuses, registered but -1 when the old stack cannot be written back |
| TracerCode.Wrapper.Sigaltstack | investigation-tools/ld-preload-tracer/trace_sigaltstack.c:86-129 | the wrapper is a run of the machine from call to return, or to a crash exactly when a pointer is bad and the log open; rc, errno, old stack and registration case by case; with the log open it appends exactly one record of this call: time, thread, rc, errno, request, old stack and caller |
| TracerCode.InitErrnoLeaks | investigation-tools/ld-preload-tracer/trace_sigaltstack.c:88-100 | a run in which a successful first call returns the errno of a failed open where a direct call leaves 0 |
| TracerCode.BadPointerCrashes | investigation-tools/ld-preload-tracer/trace_sigaltstack.c:109-114 | a first call with an unreadable new stack crashes on an open log where a direct call answers EFAULT |
| TracerCode.SameStructMisleads | investigation-tools/ld-preload-tracer/trace_sigaltstack.c:99-118 | a first call with one structure for both pointers leaves a record that replays to no stack at all |
| TraceRecord.RecLayout | investigation-tools/ld-preload-tracer/trace_sigaltstack.c:34-54 | the C struct has no padding and is 80 bytes, so it is the decoder's packed format |
| TraceRecord.RecRoundTrip | investigation-tools/ld-preload-tracer/decode.py:16-23 | decoding the bytes of a record gives the record, negative fields included |
| TraceRecord.BytesRoundTrip | investigation-tools/ld-preload-tracer/decode.py:16-23 | any 80 bytes decode to a record whose bytes they are |
| TraceRecord.PackRoundTrip | investigation-tools/ld-preload-tracer/decode.py:21-22 | unpacking what was packed gives the values back, for every format of Q and i fields |
| TraceRecord.RecFields | investigation-tools/ld-preload-tracer/decode.py:16-23 | which bytes each of the 14 fields of a decoded record is: bytes 0-8 the time, 8-12 the thread, 12-16 rc, 16-20 errno, and so on to 72-80 the caller |
| TraceRecord.RecBytesFields | investigation-tools/ld-preload-tracer/trace_sigaltstack.c:34-54 | the same of the bytes the tracer writes for a record |
| Words.FourBytes | investigation-tools/ld-preload-tracer/decode.py:21-21 | four bytes read least significant first, and the sign is the top bit of the last |
| Words.EightBytes | investigation-tools/ld-preload-tracer/decode.py:21-21 | eight bytes are two such halves |
| Decoder.DecodeLog | investigation-tools/ld-preload-tracer/decode.py:71-92 | the loop yields floor(len/80) lines; each of the 14 fields of line i is the bytes at its own distance from 80i, and times are relative to the first record |
| Decoder.RecordAt | investigation-tools/ld-preload-tracer/decode.py:75-81 | the i-th decoded record is the one stored at byte offset 80i |
| Decoder.RowFields | investigation-tools/ld-preload-tracer/decode.py:75-81 | the same for the specification: field by field, over the raw log |
| Decoder.LogRoundTrip | investigation-tools/ld-preload-tracer/decode.py:71-81 | a log of any records plus a tail shorter than 80 bytes decodes to exactly those records |
| Decoder.BytesPreserved | investigation-tools/ld-preload-tracer/decode.py:71-81 | encoding what was decoded gives back every whole record's bytes |
| Decoder.BisectRight | investigation-tools/ld-preload-tracer/decode.py:43-43 | splits a sorted list into what is at most x and what is above it |
| Decoder.Attr | investigation-tools/ld-preload-tracer/decode.py:39-46 | for every sorted table the bisect search finds the last row with lo <= address, if address < hi; if it finds nothing, every row containing the address has a later row starting at or below it |
| Decoder.LookupExact | investigation-tools/ld-preload-tracer/decode.py:39-46 | on a sorted table that is the row of a linear scan if and only if no row starting at or below the address comes after one containing it |
| Decoder.DisjointLookup | investigation-tools/ld-preload-tracer/decode.py:39-46 | on disjoint rows the two always agree: the row with lo <= address < hi if there is one, and nothing if and only if there is none |
| Decoder.OverlapDiffers | investigation-tools/ld-preload-tracer/decode.py:39-46 | a nested table and an address for which the lookup finds nothing and the scan the outer row |
| TracePipeline.DecodedLogMatchesKernel | investigation-tools/ld-preload-tracer/decode.py:71-81 | end to end: for every run on values of their C types and in every state of it, the decoded log file, replayed, is the kernel's state, under the same condition |
| TracePipeline.DecodedExact | investigation-tools/ld-preload-tracer/decode.py:71-81 | the decoded file shows exactly the finished calls that found the log open |
| TracePipeline.LogFits | investigation-tools/ld-preload-tracer/trace_sigaltstack.c:34-54 | whatever the tracer writes fits the fields of the record |
| SyscallSim.ThreadContext.EnterSyscallSimulation | dotnet-c-reproducer/complex_c_lib.c:192-211 | saturates the depth at 7, writes only the slot at the old depth, counts one transition modulo 2^64 |
| SyscallSim.ThreadContext.ExitSyscallSimulation | dotnet-c-reproducer/complex_c_lib.c:214-229 | stops the depth at 0 and always ends NORMAL outside the critical section |
| SyscallSim.ThreadContext.SimulateComplexRuntimeWork | dotnet-c-reproducer/complex_c_lib.c:244-274 | from depth d ends at min(d, 6) after 400 transitions and touches only the slot at that depth |
| SyscallSim.ThreadContext.CreateDeepCallContext | dotnet-c-reproducer/complex_c_lib.c:276-308 | restores the state and overwrites all eight slots, in range |
| SyscallSim.ThreadContext.GoLikeWork | dotnet-c-reproducer/complex_c_lib.c:317-341 | ends at min(d, 4), NORMAL, uncritical, with 4811 more transitions |
| SyscallSim.ThreadContext.RunTurn | dotnet-c-reproducer/complex_c_lib.c:359-381 | one iteration of the stress scenario: enters, perhaps simulates work, exits, and says what it adds to the total |
| SyscallSim.ThreadContext.ScenarioWork | dotnet-c-reproducer/complex_c_lib.c:358-388 | the loop runs the scenario's nested transitions, ending at min(d, 5); its total is the sum of what the turns add, which is nothing for i = 0 modulo 4 and 42i for i = 1; two iterations make 42, and up to 2147 it fits an int |
| SyscallSim.Thread.EnsureThreadContext | dotnet-c-reproducer/complex_c_lib.c:177-189 | allocates a zeroed context once, or leaves the pointer null |
| SyscallSim.Thread.CreateGoLikeComplexity | dotnet-c-reproducer/complex_c_lib.c:312-344 | returns 42, or -1 exactly when the context cannot be allocated, with the depth and counter of the above |
| SyscallSim.Thread.CreateSignalStressScenario | dotnet-c-reproducer/complex_c_lib.c:354-390 | returns that sum modulo 1000000, or -1 exactly when the context cannot be allocated, and leaves a thread at rest if it found it at rest |
| SyscallSim.Thread.CleanupThreadContext | dotnet-c-reproducer/complex_c_lib.c:394-399 | drops the context, which is at rest |
| SyscallSim.NestedDepth | dotnet-c-reproducer/complex_c_lib.c:205-224 | every well-nested sequence of transitions of height h takes depth d to min(d, 7-h), or to 0 when h exceeds 7 |
| SyscallSim.DepthConserved | dotnet-c-reproducer/complex_c_lib.c:205-224 | so the depth is conserved if and only if d is 0 or d+h is at most 7 |
| SyscallSim.FromZero | dotnet-c-reproducer/complex_c_lib.c:205-224 | from depth 0 every well-nested sequence comes back to 0 |
| SyscallSim.ScenarioParts | dotnet-c-reproducer/complex_c_lib.c:354-390 | n iterations of the stress scenario nest two high and enter n + 400*ceil(n/4) times |
| SyscallSim.ScenarioLaw | dotnet-c-reproducer/complex_c_lib.c:354-390 | so it keeps every depth up to 5 and lowers the rest to 5 |
| SyscallSim.OpsInRange | dotnet-c-reproducer/complex_c_lib.c:205-224 | no sequence of transitions at all leaves [0, 7] |
| SyscallSim.GoLikeParts | dotnet-c-reproducer/complex_c_lib.c:312-344 | the exported function nests three high and enters 4811 times |
| AsmChain.ChainRuns | dotnet-c-reproducer/complex_c_lib.c:130-173 | for every depth, value and conforming callee the machine code returns F(d,v), restores rsp, rbp, rbx, r12, r13 and the stack from its return address up, and uses exactly 40d+32 bytes below it |
| AsmChain.ChainResult | dotnet-c-reproducer/complex_c_lib.c:152-166 | rax is the sum of the d+1 terms v, 3v+7, ... modulo 2^64 |
| AsmChain.RoutineLaw | dotnet-c-reproducer/complex_c_lib.c:130-173 | all of it in numbers: 13+26d steps, rax = u mod 2^64 with 4u = (2v+7)(3^(d+1)-1) - 14(d+1), d = 0 for depths signed at or below 0, registers and stack restored, 40d+32 bytes used, the C routine called at rsp - 40k - 32 |
| AsmChain.MayClobber | dotnet-c-reproducer/complex_c_lib.c:148-150 | a callee that overwrites every other register, the flags and the stack below its return address is among those allowed |
| AsmChain.ChainIsSum | dotnet-c-reproducer/complex_c_lib.c:152-166 | the recursion equals the sum of terms |
| AsmChain.ChainClosed | dotnet-c-reproducer/complex_c_lib.c:152-166 | and four times it is (2v+7)(3^(d+1) - 1) - 14(d+1) |
| AsmChain.ChainWraps | dotnet-c-reproducer/complex_c_lib.c:152-166 | wrapping at every step equals wrapping once |
| AsmChain.Epilogue | dotnet-c-reproducer/complex_c_lib.c:168-173 | the epilogue undoes the prologue of the same frame |
| AsmChain.CallAlignment | dotnet-c-reproducer/complex_c_lib.c:148-150 | entered 16-byte aligned as by a call, the C routine is called aligned at odd levels only |
| RecursionShape.Tally.Chain | dotnet-c-reproducer/atypical_c_functions.c:21-77 | makes 1, 1, 4, 7, 19, 40, 97, 217, 508, 1159, 2683 activations at depths 0 to 10 and 1 above, at most d/2+1 live, marks and clears balanced and counted, result in range |
| RecursionShape.Tally.WorkInLayer | dotnet-c-reproducer/atypical_c_functions.c:49-63 | one layer makes three recursive calls one level below it, or none |
| RecursionShape.Tally.Scenario | dotnet-c-reproducer/atypical_c_functions.c:127-178 | makes 2^(min(c,9)-1) activations, min(c,9) live, 2^m - 1 + (c-m) balanced marks for m = min(c,9), and the exception guard is always taken |
| RecursionShape.ChainTable | dotnet-c-reproducer/atypical_c_functions.c:21-77 | activations, marks and live frames of the first recursion at every depth, in numbers |
| RecursionShape.ScenarioTable | dotnet-c-reproducer/atypical_c_functions.c:127-178 | and of the second |
| RecursionShape.XorLaw | dotnet-c-reproducer/atypical_c_functions.c:52-53 | bit k of an exclusive or is set if and only if exactly one operand has it |
| RecursionShape.ChainBounded | dotnet-c-reproducer/atypical_c_functions.c:47-58 | no depth causes more than 2683 activations, 6 live |
| RecursionShape.ScenarioBounded | dotnet-c-reproducer/atypical_c_functions.c:174-176 | no complexity causes more than 256, 9 live |
| BoundedStress.Stress.ExtremeDepthCall1 | dotnet-c-reproducer/extreme_complexity.c:36-66 | exactly depth+1 activations round the cycle, result in [0, 65535], balanced marks |
| BoundedStress.Stress.ExtremeDepthCall2 | dotnet-c-reproducer/extreme_complexity.c:69-98 | the same, its 1000 units of work marking and clearing ten times |
| BoundedStress.Stress.ExtremeDepthCall3 | dotnet-c-reproducer/extreme_complexity.c:101-146 | the same, marking once |
| BoundedStress.Stress.ExtremeDepthCall4 | dotnet-c-reproducer/extreme_complexity.c:149-200 | the same, marking once around its nested loops |
| BoundedStress.Stress.ExtremeDepthCall5 | dotnet-c-reproducer/extreme_complexity.c:203-220 | the same, closing the cycle |
| BoundedStress.WholeCycles | dotnet-c-reproducer/extreme_complexity.c:36-220 | five levels go once round the cycle and mark 12 times |
| BoundedStress.CycleTable | dotnet-c-reproducer/extreme_complexity.c:36-220 | the marks made from each function and every depth, in numbers |
| BoundedStress.Stress.CreateExtremeSignalAnalysisStress | dotnet-c-reproducer/extreme_complexity.c:224-245 | each round takes the total t to ((t+a) mod 10^6 xor b) mod 10^6 * 3 + c mod 10^6 of its three results, with no int overflow; 63 activations, 144 marks a round, 26 frames deep |
| BoundedStress.XorBelow | dotnet-c-reproducer/extreme_complexity.c:238-238 | the xor of two 20-bit totals stays below 2^20 |
| BoundedStress.Stress.SimpleRegisterChain | simplified-reproducer/simplified_atypical.c:135-169 | nests exactly max(1, depth) frames up to depth 5 and one above, result in [0, 999999] |
| BoundedStress.Stress.CreateSimplifiedAtypicalStress | simplified-reproducer/simplified_atypical.c:173-196 | its total is the sum of what its chains returned, modulo 1000000, for every argument; at most 5 frames deep, 12 activations every three rounds |
| BoundedStress.Stress.CreateSignalStressScenario | simplified-reproducer/simplified_c_lib.c:29-46 | sums at most 100 rounds without overflow, modulo 1000000; 104 activations every six rounds |
| BoundedStress.Stress.CreateSimplifiedExtremeStress | simplified-reproducer/simplified_c_lib.c:49-69 | sums at most 20 rounds, every third of them two totals, without overflow, modulo 1000000; how many activations n rounds make, in numbers |

## Left out

- Looping.LoopingCorrect: complexities above 214748354 are not covered; there the loop limit 100+10*depth itself overflows int32 while the code is being emitted.
- Arithmetic.CreateComplexArithmeticMethod: more than 65536 locals are not covered; the operand of `ldloc` is 16 bits wide.
- Arithmetic.ArithmeticClosed: the closed form is stated while 7*(i+3) fits int32; the scalar chain of `ArithmeticCorrect` has no such limit.
- CallChain.CallChainOverflow: the if-and-only-if is for complexity up to 3615; from round 3620 on a value of 2^19 would overflow too, and whether one arises is up to the chain, which `CallChainCorrect` covers as a recursive function.
- StackProbe.Cpu.ProbeStackAlloca: sizes within a page of 2^64 are not covered; the C loop's index would wrap and `alloca` of such a size cannot succeed.
- AltStack.Shim.EnsureLargeSigaltstack: `munmap` on the failure path is taken to succeed, the page size is 4096, and error messages on stderr are not modelled.
- SyscallSim.Thread.CreateSignalStressScenario: its total is an unbounded integer; beyond 2147 iterations the C code's sum may overflow int. What the other libraries' two functions add is an arbitrary value in their proved range; they do not touch the context.
- AltStack.HandlerInside: handler depth is counted from the top of the stack; the frame the kernel pushes is part of it.
- BoundedStress.Stress.CreateExtremeSignalAnalysisStress: `round * 2` and `round * 3` are folded into an arbitrary base; they overflow int for more than 715827883 rounds.
- Tracer.LogMatchesKernel: `SS_AUTODISARM` is not modelled, and thread ids are not reused.
- Tracer.Transparent: `dlsym` is taken to find the function and each record's `write` to append 80 whole bytes; registrations are made off the alternate stack, and a signal handler that re-enters the wrapper on the same thread is not modelled.
- AsmChain.ChainRuns: memory is a map of aligned 8-byte words, there is room on the stack, and the callee is assumed to behave the same when called misaligned.
- RecursionShape.Tally.Scenario: the arrays it fills are local and never read outside, so only its calls and counters are modelled.
- BoundedStress.Stress.ExtremeDepthCall2: the words these functions compute from stack addresses are arbitrary; `depth << i` with i up to 31, which overflows int in C, is part of that, and so are the frame arrays.
- BoundedStress.Stress.SimpleRegisterChain: above depth 0 its value is a scramble of stack addresses, and only its range is stated. Products are unbounded integers; the C code's `depth * 5` overflows int for depths above 429496729, and the drivers only pass 3 to 5.
- RecursionShape.Tally.Chain: above depth 0 its value is a scramble of stack addresses, and only its range is stated. Likewise `i * depth` is unbounded; in C it overflows int for depths above 143165576; the driver passes at most 12.
- BoundedStress.Stress.CreateSimplifiedAtypicalStress: the calls of the assembly trampolines in the drivers are not counted; `round * 5` is folded into an address.
- Internals of CoreCLR, Go and the kernel beyond the install, record and disable decisions quoted in INVESTIGATION.md.
- The byte encoding of IL beyond the wide local operands, and the runtime's visibility check on the private helper.
- `mark_thread_vulnerable` and `clear_thread_vulnerable` on a real context: only the trampolines below call them so.
- The trampolines `complex_transition_asm`, `vulnerable_window_asm`, `atypical_prologue_function_*` and `simple_atypical_function_*`, whose frames overwrite saved-register slots or end in `leave` after pushes.
- `setjmp` beyond returning 0 when called directly; the branches for its second return never run here.
- Local scratch arrays whose contents no result depends on (`local_data`, `frame_data`, `complex_local_state`).
- The maps file's text, `flags_str`, and the output formatting of decode.py.
- `dump_sigaltstack`, crash handlers, signal senders, host programs, thread pools, garbage collection, scripts and logs.
- `ExecuteMethodChain` and the random choices of the C# driver.
