# Verification of the Lua core

A Dafny model of the Lua 5.1 core that this firmware runs, and of the interrupt queue of its platform
code. Each part has two layers: the code in its own form (a class with the fields of the C structure,
methods with the same loops), proved equal to functions or relations on values, and theorems about these.
Numbers are 32-bit integers, as in the integral build (`LUA_NUMBER_INTEGRAL`), where their size matters.

`dafny verify dfyconfig.toml` checks everything.

| part | files | main results |
|---|---|---|
| Incremental collector | `Gc*.dfy` | `GcSafety.Safety`: in every interleaving of program and collector nothing reachable is freed. `GcFull.FullGcExact`: what a full collection leaves. `GcCollector` has the state of `global_State` and its methods |
| Code for conditions and values | `Code*.dfy` | `CodeTheorems`: what values reach their register and which way conditions leave, on every run, and exactly when that is right. `CodePatch`: where conditions lead once patched. `CodeThread` threads the jump lists through the code, `CodeMachine` executes it |
| Tables | `Tab*.dfy`, `FloatingByte.dfy` | `TabTable.Table`: the two parts with Brent's variation agree with a finite map, and rehashing terminates. `TabNext.Traverse`, `TabSizes.ComputeSizes`, `TabSort.Sort` |
| Bytecode checker | `LuaProto.dfy`, `Bc*.dfy` | `BcCheck.EvenRun`, `BcRun.RunsSafely`, `BcSymb.Symbexec` |
| Dump and undump | `Dump*.dfy` | `DumpTheorem.RoundTrip`, `DumpTheorem.PrefixRejected`, `DumpWrite.ThereAndBack` |
| Upvalues | `UpvCells.dfy` | `UpvCells.Run`: upvalues are shared variables, across closing and stack relocation |
| Operator precedence | `ExprParse.dfy` | `ExprParse.Unique`, `ExprParse.PrintParse`, `ExprParse.Minimal` |
| String literals | `LexString.dfy` | `LexString.ReadPrinted` |
| Interrupt queue | `IntQueue.dfy` | `IntQueue.Queue.Run` |
| Packing | `Pack*.dfy` | `PackTrip.RoundTrip` |

`Wrappers.dfy` declares `Option`.

Where the code does not do what one would expect of it, the model keeps the code, shows an input, and
proves when it does:

- `luaK_jump` takes over the jumps pending in `jpc`. For `((x and y) or true) or z` they are TESTSETs that
  end in the value list of `true`, and the register gets nil instead of true (`CodeFault.FaultyValue`); a
  comparison of such an operand can send a condition the wrong way (`CodeWrong.WrongCondition`). The list is
  right exactly if `jpc` held no TESTSET (`CodeTheorems.FoldExact`). `CodeSource.WayOf` follows a run over the
  source alone, with the register that a pending TESTSET would deliver; the code takes exactly that way
  (`CodeSafety.ExprRun`), so a value or a condition is right if and only if that way leaves the value or has
  the truth of the expression (`CodeTheorems.ValueInRegister`, `CodeTheorems.ConditionRight`). Whether a
  TESTSET is ever folded can be told from the source, both ways (`CodeMarks.MarksExact`); without one all
  runs are right (`CodeFault.NoFoldRight`), and with one that depends on the run, as hard as it gets
  (`CodeFault.RightIfValid`). The list of a condition can be taken over in the same way
  (`CodePatch.JumpTakesAlong`, `CodePatch.ValueAfterIf`, `CodePatch.IfThenFault`).
- The checker tests the skip of LOADBOOL for C = 1 only, the interpreter skips for every C that is not 0
  (`BcRun.LeavesCode`, `BcRun.AlwaysOnInstruction`); likewise it looks at what follows a tail call only if
  C is 0 (`BcRun.LeavesOpen`, `BcRun.OpenIsTaken`).
- `luaO_int2fb` gives 0 for the largest unsigned number, and `luaO_fb2int` overflows its int from code 232 on;
  a number is read back as one not below it if and only if it is at most 0x78000000 (`FloatingByte.Int2Fb`,
  `FloatingByte.Ordered`, `FloatingByte.TooLarge`). The overflowing shift is taken to wrap around.
- `getobjname` looks for an upvalue name behind the last one, in an accepted function, if and only if the
  value comes from an upvalue whose index is not below the number of names while there are some
  (`BcSymb.GetObjName`); `BcSymb.NameOutside` has such a function and lookup.
- `l_unpack` gives back another value for a number outside the range of its code, a `z` string with a zero
  byte, or a string whose length does not fit; the condition is exact (`PackTrip.RoundTrip`). 256 comes back
  as 0 from a byte (`PackTrip.NumberCut`), a string with a zero byte ends before it (`PackTrip.TextCut`). Its
  tests for the end of the data wrap around; `PackFormat.TestExact` says what they let through.

## Model

| member | source | states |
|---|---|---|
| GcSafety.Safety | core/cust_src/elua/lua/src/lgc.c:556-607 | After any run of program commands and collector steps from the initial state, the next command frees no reachable object, and everything reachable then is allocated, living and refers to allocated, living objects only |
| GcSafety.ApplyInv | core/cust_src/elua/lua/src/lgc.c:556-607 | Every command that may run (a collector step, a full collection, an allocation, an interned string, a store with its barrier, a stack write, finding or closing an upvalue, fixing a string) keeps the collector invariant |
| GcSafety.AfterInv | core/cust_src/elua/lua/src/lgc.c:556-607 | The invariant holds after every finite run of such commands |
| GcSafety.CollectKeeps | core/cust_src/elua/lua/src/lgc.c:407-428 | A collector step frees no object reachable from the roots, weak references included |
| GcSafety.ProgramKeeps | core/cust_src/elua/lua/src/lgc.c:662-710 | A command of the program frees no reachable object |
| GcSafety.InitialInv | core/cust_src/elua/lua/src/lstate.h:68-94 | The initial global state, with the main thread alone, satisfies the invariant |
| GcSafety.FixStringInv | core/cust_src/elua/lua/src/lstring.h:24 | luaS_fix keeps the invariant, whatever the colour of the string |
| GcSafety.FixedStays | core/cust_src/elua/lua/src/lgc.c:407-428 | A string that luaS_fix marked is there after every run from then on, reachable or not |
| GcStep.SingleStepInv | core/cust_src/elua/lua/src/lgc.c:556-607 | singlestep keeps the invariant in each of its phases; the finalize phase, which has no finalizers to call here, only ends |
| GcState.ReachableIsAlive | core/cust_src/elua/lua/src/lgc.c:69-112 | Under the invariant everything reachable is allocated and not dead, in every phase |
| GcMark.MarkExt | core/cust_src/elua/lua/src/lgc.c:69-112 | Marking a value only turns white objects gray or black, puts each gray object on one list, and leaves black objects referring to marked ones |
| GcMark.MarkAllExt | core/cust_src/elua/lua/src/lgc.c:203-220 | The same for the marking of any list of values |
| GcPropagate.ExtTricolor | core/cust_src/elua/lua/src/lgc.c:69-112 | Such marking keeps the rule that no black object refers to a white one |
| GcPropagate.PropagateKeeps | core/cust_src/elua/lua/src/lgc.c:277-320 | propagatemark keeps the rule, traverses the object it takes, and leaves strictly less work |
| GcPropagate.PropagateAllKeeps | core/cust_src/elua/lua/src/lgc.c:323-327 | propagateall empties the gray list; what it adds to grayagain and weak has been traversed |
| GcAtomic.AtomicFirst | core/cust_src/elua/lua/src/lgc.c:525-553 | After the first propagation of atomic the open upvalues are up to date |
| GcAtomic.AtomicSecond | core/cust_src/elua/lua/src/lgc.c:525-553 | The second propagation covers the weak tables, the running thread and the basic metatables |
| GcAtomic.AtomicThird | core/cust_src/elua/lua/src/lgc.c:525-553 | The third propagation covers what barriers and stacks left in grayagain |
| GcAtomic.AtomicSettled | core/cust_src/elua/lua/src/lgc.c:525-553 | After the marking of atomic nothing is left to traverse and all roots are marked |
| GcClear.ClearTableKeeps | core/cust_src/elua/lua/src/lgc.c:351-375 | cleartable removes exactly entries that hold collectable white objects, marks the strings it keeps, and touches no other object |
| GcCycle.FirstMarks | core/cust_src/elua/lua/src/lgc.c:501-512 | markroot establishes the tri-colour rule from an all-white heap |
| GcCycle.AtomicMarked | core/cust_src/elua/lua/src/lgc.c:525-553 | atomic forgets no object and turns no white into the other white |
| GcCycle.AtomicNoDangling | core/cust_src/elua/lua/src/lgc.c:525-553 | After clearing and the flip of whites no living object refers to a dead one |
| GcCycle.AtomicInv | core/cust_src/elua/lua/src/lgc.c:525-553 | atomic, up to its handling of finalizers, keeps the whole invariant and starts the sweep |
| GcCycle.MarkRootInv | core/cust_src/elua/lua/src/lgc.c:501-512 | Starting a cycle keeps the invariant |
| GcFree.FreedNoDangling | core/cust_src/elua/lua/src/lgc.c:378-400 | Freeing a dead object that is no thread with open upvalues leaves no dangling reference |
| GcFree.FreeStringInv | core/cust_src/elua/lua/src/lgc.c:378-400 | Freeing a dead string keeps heap, string table and references well formed |
| GcFree.WhitenInv | core/cust_src/elua/lua/src/lgc.c:407-428 | makewhite on what is not condemned keeps the invariant |
| GcSweep.SweepObjectKeeps | core/cust_src/elua/lua/src/lgc.c:407-428 | One round of sweeplist keeps the invariant and leaves less to sweep |
| GcSurvive.FreedSweepObject | core/cust_src/elua/lua/src/lgc.c:407-428 | One round of sweeplist frees nothing but condemned objects |
| GcSurvive.FreedStep | core/cust_src/elua/lua/src/lgc.c:556-607 | A sweep step frees nothing but condemned objects |
| GcStrings.SweepListKeeps | core/cust_src/elua/lua/src/lgc.c:407-428 | Sweeping one list of the string table keeps the invariant; the list is then current-white throughout |
| GcStrings.ResizeInv | core/cust_src/elua/lua/src/lstring.c:22-47 | luaS_resize keeps the invariant: the same strings, each in the list of its new hash |
| GcStrings.RehashKeeps | core/cust_src/elua/lua/src/lstring.c:22-47 | Rehashing distributes exactly the strings of the old lists, none lost and none twice |
| GcClose.TricolorDetach | core/cust_src/elua/lua/src/lgc.c:695-710 | A gray upvalue that closes is painted black; only its value may then break the tri-colour rule |
| GcClose.CloseOneInv | core/cust_src/elua/lua/src/lfunc.c:96-112 | One round of luaF_close keeps the invariant in every phase, freeing the upvalue if it is dead |
| GcClose.CloseInv | core/cust_src/elua/lua/src/lfunc.c:96-112 | luaF_close keeps the invariant |
| GcClose.CloseAll | core/cust_src/elua/lua/src/lfunc.c:96-112 | luaF_close leaves no open upvalue at or above its level |
| GcUpval.AbovePlace | core/cust_src/elua/lua/src/lfunc.c:53-79 | The search of luaF_findupval stops at the place that keeps the open list strictly decreasing |
| GcUpval.FindUpvalInv | core/cust_src/elua/lua/src/lfunc.c:53-79 | luaF_findupval keeps the invariant and returns a living open upvalue of that very slot, revived if it was dead |
| GcAlloc.InternInv | core/cust_src/elua/lua/src/lstring.c:75-93 | luaS_newlstr keeps the invariant and returns a living string with the given content, revived if it was dead |
| GcAlloc.ReviveInv | core/cust_src/elua/lua/src/lstring.c:82-91 | Reviving a dead object whose referents are alive keeps the invariant |
| GcMutator.SetTricolor | core/cust_src/elua/lua/src/lgc.c:662-672 | A store breaks the tri-colour rule at most at a black holder |
| GcProgram.StackInv | core/cust_src/elua/lua/src/lgc.c:525-553 | A write to a thread stack keeps the invariant without any barrier |
| GcFull.FullGcExact | core/cust_src/elua/lua/src/lgc.c:636-659 | luaC_fullgc ends from any state, in the pause state, with every object current-white; an object is left if and only if it was strongly reachable or fixed, or is a string that a weak table within reach has as a key, or as the value of a key that stays |
| GcFull.StepProgress | core/cust_src/elua/lua/src/lgc.c:556-607 | Every collector step comes closer to the end of the cycle |
| GcReach.SettledReach | core/cust_src/elua/lua/src/lgc.c:525-553 | Everything strongly reachable is marked once nothing is left to traverse |
| GcReach.AtomicIn | core/cust_src/elua/lua/src/lgc.c:525-553 | Marking stays within every closed set that holds the roots: nothing else is marked |
| GcReach.ClearTableMarks | core/cust_src/elua/lua/src/lgc.c:337-375 | cleartable marks a string if and only if a listed table has an entry in which it is the key, or the value beside a key that is not cleared |
| GcCollector.Collector.MarkObject | core/cust_src/elua/lua/src/lgc.c:69-112 | reallymarkobject on the fields: colours and gray list become what marking the object alone gives |
| GcCollector.Collector.PropagateOne | core/cust_src/elua/lua/src/lgc.c:277-320 | propagatemark on the fields, with less work left afterwards |
| GcCollector.Collector.PropagateRest | core/cust_src/elua/lua/src/lgc.c:323-327 | propagateall: the loop ends, with the marks of the propagation function |
| GcCollector.Collector.MarkRoots | core/cust_src/elua/lua/src/lgc.c:501-512 | The roots are marked and nothing else |
| GcCollector.Collector.RemarkOpen | core/cust_src/elua/lua/src/lgc.c:515-522 | remarkupvals: the values of gray open upvalues are marked |
| GcCollector.Collector.ClearWeak | core/cust_src/elua/lua/src/lgc.c:351-375 | cleartable, entry by entry, over the list of weak tables |
| GcCollector.Collector.FinishMark | core/cust_src/elua/lua/src/lgc.c:525-553 | atomic, up to its handling of finalizers: marks, cleared tables, flipped white and sweep positions as the atomic step demands |
| GcCollector.Collector.SweepOpenUpvalues | core/cust_src/elua/lua/src/lgc.c:407-428 | The open upvalues of a swept thread are swept in place: dead ones leave both lists, others turn white |
| GcCollector.Collector.SweepStrings | core/cust_src/elua/lua/src/lgc.c:407-428 | sweepwholelist on a string list, with the count of strings kept |
| GcCollector.Collector.CloseUpvalues | core/cust_src/elua/lua/src/lfunc.c:96-112 | luaF_close as a loop over the head of the open list |
| GcCollector.Collector.LinkUpval | core/cust_src/elua/lua/src/lgc.c:695-710 | luaC_linkupval: onto rootgc, gray turned black under a barrier or white while sweeping |
| GcCollector.Collector.SweepRootgc | core/cust_src/elua/lua/src/lgc.c:407-428 | sweeplist over rootgc with its bounded count |
| GcCollector.Collector.ShrinkStrings | core/cust_src/elua/lua/src/lstring.c:22-47 | luaS_resize bucket by bucket |
| GcCollector.Collector.Step | core/cust_src/elua/lua/src/lgc.c:556-607 | singlestep by gcstate, but for the call of a finalizer, tied to the step function whose invariance is proved |
| GcCollector.Collector.FullCollection | core/cust_src/elua/lua/src/lgc.c:636-659 | luaC_fullgc on the fields: its loops end, and the state is the one FullGcExact speaks about |
| GcCollector.Collector.BarrierF | core/cust_src/elua/lua/src/lgc.c:662-672 | luaC_barrierf: the value is marked while propagating, the holder made white while sweeping |
| GcCollector.Collector.BarrierB | core/cust_src/elua/lua/src/lgc.c:675-683 | luaC_barrierback: the black table turns gray and joins grayagain |
| GcCollector.Collector.StoreIn | core/cust_src/elua/lua/src/lgc.h:86-94 | A store followed by the forward barrier |
| GcCollector.Collector.StoreTable | core/cust_src/elua/lua/src/lgc.h:89-97 | A table store followed by the backward barriers |
| GcCollector.Collector.NewLstr | core/cust_src/elua/lua/src/lstring.c:75-93 | luaS_newlstr: the chain is searched, a dead hit revived, a miss linked and the table grown when crowded |
| GcCollector.Collector.LinkObject | core/cust_src/elua/lua/src/lgc.c:686-692 | luaC_link, and luaS_newudata for userdata: a new object, current-white, at the head of rootgc, a userdatum right behind the main thread; the place where the sweep stands moves with it |
| GcCollector.Collector.FindUpvalue | core/cust_src/elua/lua/src/lfunc.c:53-79 | luaF_findupval: search, revival and insertion in both lists |
| GcCollector.HashOf | core/cust_src/elua/lua/src/lstring.c:75-81 | The loop over the characters computes the hash function that places strings |
| GcCollector.RehashTotal | core/cust_src/elua/lua/src/lstring.c:22-47 | Resizing the string table loses no string from its count |
| CodeTheorems.ValueInRegister | core/cust_src/elua/lua/src/lcode.c:390-411 | For every expression over constants, locals, comparisons, not, and, or, every state and every run: control gets past the code, no other register in use changes, and the register holds what the recursion over the source says is left; so it holds the value of the expression if and only if that is the value |
| CodeTheorems.ConditionRight | core/cust_src/elua/lua/src/lparser.c:981-988 | For every condition, state and run: the code falls through or leaves through the returned false list as the recursion over the source says, and delivers on the way the register that it says; so it takes the branch of its truth if and only if the recursion has that truth |
| CodeTheorems.FoldExact | core/cust_src/elua/lua/src/lcode.c:59-66 | The fault at its place: the always-taken jump of an and/or on a constant delivers the constant through all the jumps it lists if and only if jpc held no TESTSET |
| CodeSafety.ExprRun | core/cust_src/elua/lua/src/lcode.c:718-789 | For every expression and every state without exception: each run takes through the generated code the way that the source says, to its end with that value or out through that list, on a jump that delivers that register |
| CodeShape.ShapeRight | core/cust_src/elua/lua/src/lcode.c:718-789 | The kind of an expression, which of its lists have jumps, and the constant table follow from its source and the constants before it |
| CodeMarks.MarksExact | core/cust_src/elua/lua/src/lcode.c:539-591 | The static condition, both ways: the source tells exactly which lists and whether jpc deliver registers, and whether an always-taken jump is ever emitted for a constant while jpc holds a TESTSET |
| CodeFault.NoFoldRight | core/cust_src/elua/lua/src/lcode.c:539-591 | If no TESTSET is ever folded, every way through the expression leaves its value and has its truth, for all registers and comparisons |
| CodeFault.PlainValueRight | core/cust_src/elua/lua/src/lcode.c:390-411 | Such expressions always get their value into the register |
| CodeFault.PlainConditionRight | core/cust_src/elua/lua/src/lparser.c:981-988 | Such conditions always take the branch of their truth |
| CodeFault.TrueOrFolds | core/cust_src/elua/lua/src/lcode.c:566-591 | true or x folds a TESTSET exactly if jpc holds one before it or x folds one by itself |
| CodeFault.RightIfValid | core/cust_src/elua/lua/src/lcode.c:539-591 | Around any p without folds, the value of (((p or y) and z) or true) or z is right exactly where p or y is true: whether folding does harm on some run is as hard to tell from the source as whether a formula is valid |
| CodeFault.FaultyValue | core/cust_src/elua/lua/src/lcode.c:539-564 | A concrete expression, ((x and y) or true) or z, for which the code leaves nil where the value is true |
| CodeWrong.WrongCondition | core/cust_src/elua/lua/src/lparser.c:981-988 | A concrete condition, (((x and y) or true) or z) == true, whose code leaves through the false list although it is true |
| CodePatch.ConditionPatched | core/cust_src/elua/lua/src/lparser.c:981-988 | Once its jumps are resolved, forward or back, control jumps to the target of the false list exactly when the condition is false, and comes right behind it when it is true, on the right ways; on all others it takes the other branch |
| CodePatch.PatchedResolves | core/cust_src/elua/lua/src/lcode.c:169-176 | luaK_patchlist resolves the list of a condition to its target, with no values kept, and leaves the jumps to the end of the condition to the next instruction |
| CodePatch.BodyResolves | core/cust_src/elua/lua/src/lcode.c:179-182 | luaK_patchtohere behind a body of any instructions resolves the list to the instruction that comes next |
| CodePatch.ResolvesStays | core/cust_src/elua/lua/src/lcode.c:150-160 | Whatever is generated later leaves these jumps as they are |
| CodePatch.JumpTakesAlong | core/cust_src/elua/lua/src/lcode.c:59-66 | The exception: luaK_jump right behind luaK_patchtohere takes the list along, and once it is patched as a value, its jumps go where the new jump goes if and only if none of them has a TESTSET |
| CodePatch.ValueAfterIf | core/cust_src/elua/lua/src/lparser.c:1194-1213 | The value of an expression right behind an if with an empty body, for every condition and expression: what it gets into its register, and exactly when that is its value |
| CodePatch.IfThenFault | core/cust_src/elua/lua/src/lparser.c:1194-1213 | if x then end local a = true or z: on every run of the code emitted for it a is true exactly when x is, and otherwise it is x |
| CodeDesc.NilRun | core/cust_src/elua/lua/src/lcode.c:35-56 | Whichever of its ways luaK_nil takes, control comes to its end with every register of the range nil and all others as they were |
| CodeStatic.ExprStatic | core/cust_src/elua/lua/src/lcode.c:697-789 | Compiling any expression keeps the lists disjoint, every pending jump on hold exactly once, and the registers of locals untouched |
| CodeReg.Exp2RegRun | core/cust_src/elua/lua/src/lcode.c:390-411 | exp2reg brings the value into the register whichever way control came: through the value, either list, or the two LOADBOOLs |
| CodeGo.GoIfRun | core/cust_src/elua/lua/src/lcode.c:539-591 | luaK_goiftrue and luaK_goiffalse: control goes on exactly when the value has the wanted truth, and otherwise waits in the other list, on a jump that delivers the tested register, or for a constant what jpc delivered |
| CodeNeg.NotRun | core/cust_src/elua/lua/src/lcode.c:594-626 | codenot, with its swapped lists and removed values, reaches the end with the opposite value; the lists deliver none any more, what jpc holds stays exactly for constants |
| CodeOper.OperandRun | core/cust_src/elua/lua/src/lcode.c:444-469 | luaK_exp2RK gives an operand that holds the value when the comparison runs; what jpc delivers stays exactly if no code is emitted |
| CodeRun.RunPatch | core/cust_src/elua/lua/src/lcode.c:150-160 | Patching pending jumps turns every run into the old run, continued where its last jump leads |
| CodeMachine.ExecuteRuns | core/cust_src/elua/lua/src/lvm.c:556-600 | On resolved code the interpreter with relative offsets computes what the run function says |
| CodeMachine.CompileValue | core/cust_src/elua/lua/src/lcode.c:414-419 | The generated code, executed from any clean state, always ends, with the locals unchanged and in the result register what the recursion over the source says: the value exactly on the right ways, and always if no TESTSET is folded |
| CodeThread.FuncState.PatchTo | core/cust_src/elua/lua/src/lcode.c:169-176 | luaK_patchlist: the threaded list is patched to a target behind, or joins jpc if the target is here |
| CodeThread.FuncState.PatchListAux | core/cust_src/elua/lua/src/lcode.c:150-160 | The list threaded through the code is walked and every jump patched; nothing else in the code changes |
| CodeThread.FuncState.DischargeJpc | core/cust_src/elua/lua/src/lcode.c:163-166 | All jumps pending to here are patched to the next instruction |
| CodeThread.FuncState.Code | core/cust_src/elua/lua/src/lcode.c:797-809 | luaK_code: jpc is discharged before the instruction is appended |
| CodeThread.FuncState.Jump | core/cust_src/elua/lua/src/lcode.c:59-66 | luaK_jump: what jpc held is chained to the new jump |
| CodeThread.FuncState.Concat | core/cust_src/elua/lua/src/lcode.c:185-196 | luaK_concat walks to the last element, and the threaded list is then the first sequence followed by the second |
| CodeThread.FuncState.GetLabel | core/cust_src/elua/lua/src/lcode.c:94-97 | The place is recorded as a jump target |
| CodeThread.FuncState.PatchToHere | core/cust_src/elua/lua/src/lcode.c:179-182 | luaK_patchtohere: the list joins jpc |
| CodeThread.FuncState.CondJump | core/cust_src/elua/lua/src/lcode.c:74-77 | A test and its pending jump |
| CodeThread.FuncState.NeedsValue | core/cust_src/elua/lua/src/lcode.c:122-128 | need_value tells whether some jump of the list delivers no value |
| CodeThread.FuncState.RemoveListValues | core/cust_src/elua/lua/src/lcode.c:144-147 | removevalues turns the TESTSETs of a list into TESTs |
| CodeThread.FuncState.CodeNil | core/cust_src/elua/lua/src/lcode.c:35-56 | luaK_nil for any range of registers, merging with a previous LOADNIL unless a jump may land in between |
| CodeThread.FuncState.AddConst | core/cust_src/elua/lua/src/lcode.c:229-247 | addk: the same constant gets the same index |
| CodeThread.FuncState.ToReg | core/cust_src/elua/lua/src/lcode.c:343-379 | discharge2reg for every kind of expression |
| CodeThread.FuncState.Exp2Reg | core/cust_src/elua/lua/src/lcode.c:390-411 | exp2reg on threaded lists refines the generator on sequences of jumps |
| CodeThread.FuncState.InvertJump | core/cust_src/elua/lua/src/lcode.c:516-521 | invertjump flips the condition of the test before the jump |
| CodeThread.FuncState.JumpIf | core/cust_src/elua/lua/src/lcode.c:524-536 | jumponcond, dropping a NOT before the test |
| CodeThread.FuncState.GoIf | core/cust_src/elua/lua/src/lcode.c:539-591 | luaK_goiftrue and luaK_goiffalse on threaded lists |
| CodeThread.FuncState.CodeNot | core/cust_src/elua/lua/src/lcode.c:594-626 | codenot on threaded lists |
| CodeThread.FuncState.AnyReg | core/cust_src/elua/lua/src/lcode.c:422-433 | luaK_exp2anyreg |
| CodeThread.FuncState.ToRK | core/cust_src/elua/lua/src/lcode.c:444-469 | luaK_exp2RK |
| CodeThread.FuncState.CodeComp | core/cust_src/elua/lua/src/lcode.c:681-694 | codecomp, with swapped operands for greater-than |
| CodeThread.FuncState.Logic | core/cust_src/elua/lua/src/lcode.c:718-789 | luaK_infix and luaK_posfix for and/or |
| CodeThread.FuncState.Relation | core/cust_src/elua/lua/src/lcode.c:718-789 | luaK_infix and luaK_posfix for comparisons |
| CodeThread.FuncState.Expr | core/cust_src/elua/lua/src/lparser.c:844-869 | A whole expression: every field of FuncState refines the generator |
| CodeThread.FuncState.Cond | core/cust_src/elua/lua/src/lparser.c:981-988 | cond: nil counts as false, and the false list is returned |
| TabTable.Table.constructor | core/cust_src/elua/lua/src/ltable.c:358-371 | luaH_new: a new table of any two sizes stands for the empty map, and its hash part has room for as many keys as asked for |
| TabTable.Table.Find | core/cust_src/elua/lua/src/ltable.c:469-491 | The walk along a chain finds the node of a key, or the key has no node |
| TabTable.Table.Get | core/cust_src/elua/lua/src/ltable.c:469-491 | luaH_get returns exactly what the finite map has for the key |
| TabTable.Table.GetFreePos | core/cust_src/elua/lua/src/ltable.c:382-388 | getfreepos returns a free node, or none is left; all it has passed have keys |
| TabTable.Table.NewKey | core/cust_src/elua/lua/src/ltable.c:399-429 | newkey gives the key a slot in all its cases, keeps the map and the chain invariant, and rehashes only if there is no room |
| TabTable.Table.MoveAway | core/cust_src/elua/lua/src/ltable.c:399-429 | The colliding node is moved out of a main position that is not its own, and all chains stay reachable |
| TabTable.Table.Set | core/cust_src/elua/lua/src/ltable.c:494-505 | luaH_set changes the map at this key alone; an existing key moves no node |
| TabTable.Table.Rehash | core/cust_src/elua/lua/src/ltable.c:333-349 | rehash keeps the map, takes the best array size, and leaves a place for the pending key: newkey, rehash and luaH_set terminate |
| TabTable.Table.Resize | core/cust_src/elua/lua/src/ltable.c:297-324 | resize keeps the map and leaves room for all entries outside the array, so no re-insertion triggers another rehash |
| TabTable.Table.NumUseArray | core/cust_src/elua/lua/src/ltable.c:222-244 | numusearray counts the values of the array part and their slice histogram |
| TabTable.Table.NumUseHash | core/cust_src/elua/lua/src/ltable.c:247-260 | numusehash adds the keys of the hash part to count and histogram |
| TabTable.Table.Next | core/cust_src/elua/lua/src/ltable.c:162-179 | luaH_next gives the next slot with a value, or the end; an unknown key is an error |
| TabTable.Table.Getn | core/cust_src/elua/lua/src/ltable.c:560-576 | luaH_getn returns a border: 0 or a present index whose successor is absent |
| TabTable.Table.UnboundSearch | core/cust_src/elua/lua/src/ltable.c:532-553 | unbound_search returns a border too, and ends even if doubling overflows |
| TabNext.Traverse | core/cust_src/elua/lua/src/ltable.c:137-179 | A whole traversal, with fields overwritten or cleared between calls: each key comes at most once, with its value at that time; a key that never comes had no value or was cleared; the array part comes first, in order |
| TabNext.Overwrite | core/cust_src/elua/lua/src/ltable.c:494-505 | Assignments to existing fields move nothing and give the map of the assignments |
| TabSizes.ComputeSizes | core/cust_src/elua/lua/src/ltable.c:189-208 | computesizes returns the largest power of two more than half full, or 0, and the exact number of keys in it, for every histogram of a set of keys |
| TabSizes.NextSize | core/cust_src/elua/lua/src/ltable.c:189-208 | One turn of its loop takes 2^i exactly if more than half of it is in use |
| TabSizes.CeilLog2 | core/cust_src/elua/lua/src/lobject.h:367-367 | ceillog2 gives the slice of a key |
| TabSizes.Log2 | core/cust_src/elua/lua/src/lobject.c:54-69 | luaO_log2 is the floor of the binary logarithm |
| TabTable.CountInt | core/cust_src/elua/lua/src/ltable.c:211-219 | countint counts a candidate key in its slice |
| TabChain.PutOver | core/cust_src/elua/lua/src/ltable.c:399-429 | A key may take over a free node or one with a nil value in its main position |
| TabChain.PutAfter | core/cust_src/elua/lua/src/ltable.c:399-429 | A key chained behind the occupant of its main position keeps every chain intact |
| TabChain.PutMoved | core/cust_src/elua/lua/src/ltable.c:399-429 | Moving a node out of another main position keeps every chain intact |
| TabChain.NotThere | core/cust_src/elua/lua/src/ltable.c:469-491 | If no node from the main position on has the key, no node has it |
| TabChain.SameValues | core/cust_src/elua/lua/src/ltable.c:399-429 | Nodes with the same entries give every key the same value |
| FloatingByte.Int2Fb | core/cust_src/elua/lua/src/lobject.c:35-43 | luaO_int2fb gives the smallest code for the number, rounding up, or 0 for the largest unsigned number; luaO_fb2int reads it as an int that is not below the number if and only if the number is at most 0x78000000 |
| FloatingByte.Ordered | core/cust_src/elua/lua/src/lobject.c:47-51 | luaO_fb2int, with its int result, is strictly increasing on the codes up to r if and only if r < 232 |
| BcRun.RunsSafely | core/cust_src/elua/lua/src/lvm.c:392-781 | Code accepted by the checker, with skip flags 0 or 1 on LOADBOOL: every pc the interpreter comes to is the beginning of an instruction inside the code, never a SETLIST count, and registers, constants, upvalues, prototypes and the words it reads are in bounds |
| BcRun.AlwaysOnInstruction | core/cust_src/elua/lua/src/ldebug.c:374-381 | For accepted code the interpreter stays on instructions if and only if every skipping LOADBOOL it comes to satisfies what the checker demands for C = 1 |
| BcRun.LeavesCode | core/cust_src/elua/lua/src/ldebug.c:374-381 | A concrete accepted function, LOADBOOL with C = 2, whose execution leaves the code |
| BcRun.OpenIsTaken | core/cust_src/elua/lua/src/lvm.c:420-420 | An open list of values is taken by the very next instruction if and only if that holds after the tail calls reached |
| BcRun.PlainTailCalls | core/cust_src/elua/lua/src/ldebug.c:423-436 | With C = 0 on tail calls that is so |
| BcRun.LeavesOpen | core/cust_src/elua/lua/src/ldebug.c:423-436 | A concrete accepted function, TAILCALL with C = 1, after which nothing takes the open results |
| BcRun.AcceptedSafe | core/cust_src/elua/lua/src/ldebug.c:317-475 | At every instruction of accepted code all operands are in bounds, pseudo-instructions of CLOSURE included |
| BcRun.StepOn | core/cust_src/elua/lua/src/lvm.c:392-781 | One step from an instruction of accepted code leads to an instruction |
| BcCheck.EvenRun | core/cust_src/elua/lua/src/ldebug.c:346-361 | The even-run test of jump targets holds exactly at the places where instructions begin, in any code |
| BcCheck.StartNext | core/cust_src/elua/lua/src/ldebug.c:442-449 | The word after a word begins an instruction unless that word is a wide SETLIST that begins one itself |
| FloatingByte.TooLarge | core/cust_src/elua/lua/src/lobject.c:35-51 | Two of the numbers that are read back smaller: 0x78000001 as INT_MIN and 0xFFFFFFFE as 0 |
| BcSymb.Symbexec | core/cust_src/elua/lua/src/ldebug.c:317-475 | symbexec: nonzero for a whole function exactly if it is accepted; when it traces accepted code, it returns the last instruction on its path that changes the register, or the final RETURN if there is none |
| BcSymb.CheckInstruction | core/cust_src/elua/lua/src/ldebug.c:322-470 | The checks of one instruction, none reading outside the code |
| BcSymb.JumpTest | core/cust_src/elua/lua/src/ldebug.c:346-361 | The loop over the words before a jump target decides the even-run test |
| BcSymb.PseudoTest | core/cust_src/elua/lua/src/ldebug.c:450-462 | The loop over the words after a CLOSURE |
| BcSymb.CheckCode | core/cust_src/elua/lua/src/ldebug.c:484-486 | luaG_checkcode, although calls make symbexec return an instruction that is not the last |
| BcSymb.LastIs | core/cust_src/elua/lua/src/ldebug.c:322-475 | The instruction it returns lies on the path traced and changes the register, and none after it on that path does; it is the final RETURN if none does |
| BcSymb.GetObjName | core/cust_src/elua/lua/src/ldebug.c:497-544 | getobjname in all its arms on accepted code: the name of the value where it comes from, traced back along moves, which ends; every index but that of an upvalue name is in range, the string constant it asserts is one, and the index of an upvalue name is out of range if and only if the value comes from an upvalue with no name of its own in a list of names that is not empty |
| BcSymb.NameOutside | core/cust_src/elua/lua/src/ldebug.c:276-285 | An accepted function and a lookup on it that goes out of range: two upvalues, one name, and a call of the second upvalue, for whose name the failing call asks |
| BcSymb.LocalName | core/cust_src/elua/lua/src/lfunc.c:163-173 | luaF_getlocalname gives the variable of that number among those active there, or none exactly if there are fewer |
| BcSymb.NoneMissed | core/cust_src/elua/lua/src/lfunc.c:163-173 | Its loop ends at the first variable that starts later; with the variables in the order of their starts it misses none that is active |
| BcSymb.NotZero | core/cust_src/elua/lua/src/ldebug.c:317-475 | The word symbexec returns for accepted code is never 0 |
| DumpTheorem.RoundTrip | core/cust_src/elua/lua/src/lundump.c:161-181 | Undumping a dump of any checked tree with sources gives the tree, stripped if it was dumped so (every source then "=?"); bytes behind it stay unread; it fails, as too deep, exactly if the tree exceeds the C call limit |
| DumpTheorem.PrefixRejected | core/cust_src/elua/lua/src/lundump.c:48-52 | Every strict prefix of a dump is rejected as incomplete |
| DumpTheorem.LoadedAccepted | core/cust_src/elua/lua/src/lundump.c:161-181 | Whatever bytes are loaded, every function of the tree has passed the checker |
| DumpTheorem.LoadedRunsSafely | core/cust_src/elua/lua/src/lundump.c:161-181 | So it is safe to run, with skip flags as the compiler emits them |
| DumpTheorem.StrippedAccepted | core/cust_src/elua/lua/src/ldebug.c:276-285 | The checker does not depend on what stripping removes |
| DumpTheorem.FunctionTrip | core/cust_src/elua/lua/src/ldump.c:129-141 | One function: a source equal to the parent is left out and restored |
| DumpTheorem.ProtosTrip | core/cust_src/elua/lua/src/ldump.c:106-108 | The nested functions of a function |
| DumpTrip.SteadyFunction | core/cust_src/elua/lua/src/lundump.c:161-181 | A loader that has not run out of input gives the same with more input, and leaves that |
| DumpTrip.TripsHead | core/cust_src/elua/lua/src/ldump.c:129-137 | The fixed part, the code and the constants come back |
| DumpTrip.TripsDebug | core/cust_src/elua/lua/src/ldump.c:111-127 | Line info, local variables and upvalue names come back |
| DumpTrip.TripsString | core/cust_src/elua/lua/src/ldump.c:61-74 | NULL and strings, embedded zeros included, come back |
| DumpTrip.TripsConstant | core/cust_src/elua/lua/src/ldump.c:80-105 | Every kind of constant comes back |
| DumpStream.Zio.Fill | core/cust_src/elua/lua/src/lzio.c:21-32 | luaZ_fill: the first byte of the next chunk, or the end |
| DumpStream.Zio.Getc | core/cust_src/elua/lua/src/lzio.h:22-22 | zgetc: the next byte of the concatenated chunks |
| DumpStream.Zio.Lookahead | core/cust_src/elua/lua/src/lzio.c:35-45 | luaZ_lookahead: the next byte, still unread |
| DumpStream.Zio.Read | core/cust_src/elua/lua/src/lzio.c:58-71 | luaZ_read: the next bytes whatever the chunks, and exactly how many are missing |
| DumpStream.LoadState.Int | core/cust_src/elua/lua/src/lundump.c:61-67 | LoadInt rejects negative integers |
| DumpStream.LoadState.String | core/cust_src/elua/lua/src/lundump.c:76-88 | LoadString |
| DumpStream.LoadState.Code | core/cust_src/elua/lua/src/lundump.c:90-96 | LoadCode reads at once what the format says word by word |
| DumpStream.LoadState.Constants | core/cust_src/elua/lua/src/lundump.c:100-131 | LoadConstants, its loop over constants |
| DumpStream.LoadState.Functions | core/cust_src/elua/lua/src/lundump.c:131-134 | LoadConstants, its loop over nested functions |
| DumpStream.LoadState.DebugPart | core/cust_src/elua/lua/src/lundump.c:137-159 | LoadDebug |
| DumpStream.LoadState.Function | core/cust_src/elua/lua/src/lundump.c:161-181 | LoadFunction with its call counter |
| DumpStream.LoadState.Load | core/cust_src/elua/lua/src/lundump.c:195-209 | luaU_undump on chunked input does what the format function says, errors included |
| DumpWrite.DumpState.Block | core/cust_src/elua/lua/src/ldump.c:29-37 | DumpBlock: nothing is sent once the writer has failed |
| DumpWrite.DumpState.String | core/cust_src/elua/lua/src/ldump.c:61-74 | DumpString |
| DumpWrite.DumpState.Constants | core/cust_src/elua/lua/src/ldump.c:80-105 | DumpConstants |
| DumpWrite.DumpState.DebugPart | core/cust_src/elua/lua/src/ldump.c:111-127 | DumpDebug, empty when stripping |
| DumpWrite.DumpState.Function | core/cust_src/elua/lua/src/ldump.c:129-141 | DumpFunction |
| DumpWrite.DumpTree | core/cust_src/elua/lua/src/ldump.c:153-164 | luaU_dump: a prefix of the dump is sent, and all of it if the status is 0 |
| DumpWrite.ThereAndBack | core/cust_src/elua/lua/src/lundump.c:195-209 | Dumping through a writer that may fail and undumping from any chunks: the tree if all was sent, else rejection as incomplete |
| UpvCells.Run | core/cust_src/elua/lua/src/lfunc.c:53-112 | In every run closures and the stack agree on each captured variable: before its scope is left, after it, and across relocations every read gives what a machine with variables only gives |
| UpvCells.Step | core/cust_src/elua/lua/src/lvm.c:442-471 | One operation of such a run |
| UpvCells.State.FindUpval | core/cust_src/elua/lua/src/lfunc.c:53-79 | The open upvalue of a slot is found or inserted: the list stays strictly decreasing with one entry per slot |
| UpvCells.State.Close | core/cust_src/elua/lua/src/lfunc.c:96-112 | luaF_close: upvalues from the level on take their values with them, and their slots become new variables |
| UpvCells.State.CloseFirst | core/cust_src/elua/lua/src/lfunc.c:96-112 | One round of it |
| UpvCells.State.ReallocStack | core/cust_src/elua/lua/src/ldo.c:141-149 | The stack moves and changes its size; every upvalue stands for the same variable |
| UpvCells.State.CorrectStack | core/cust_src/elua/lua/src/ldo.c:126-138 | All pointers into the stack keep their distance from its beginning |
| UpvCells.State.GetUpval | core/cust_src/elua/lua/src/lvm.c:442-446 | GETUPVAL reads the variable |
| UpvCells.State.SetUpval | core/cust_src/elua/lua/src/lvm.c:466-471 | SETUPVAL assigns the variable, wherever its value lives |
| UpvCells.State.SetSlot | core/cust_src/elua/lua/src/lvm.c:422-425 | A write to a slot assigns its variable |
| UpvCells.SlotShared | core/cust_src/elua/lua/src/lfunc.c:103-111 | What is copied at closing is the value of the variable |
| TabSort.Sort | core/cust_src/elua/lua/src/ltablib.c:256-264 | table.sort with a strict weak order: sorted, the same elements, nesting at most floor(log2 n)+1 |
| TabSort.AuxSort | core/cust_src/elua/lua/src/ltablib.c:193-254 | auxsort: the range is sorted and permuted, nothing outside it touched, recursion on the smaller part keeps the depth logarithmic |
| TabSort.Partition | core/cust_src/elua/lua/src/ltablib.c:219-240 | The inner loops stay in the range without their error, and the pivot ends between smaller and larger elements |
| TabSort.SortEnds | core/cust_src/elua/lua/src/ltablib.c:197-202 | First and last element |
| TabSort.SortMiddle | core/cust_src/elua/lua/src/ltablib.c:203-215 | The median of three is between them |
| TabSort.Set2 | core/cust_src/elua/lua/src/ltablib.c:173-176 | set2 swaps two elements |
| TabSort.RearrangedWithin | core/cust_src/elua/lua/src/ltablib.c:193-254 | A permutation of a part is one of any larger range |
| TabSort.LeftDone | core/cust_src/elua/lua/src/ltablib.c:243-252 | After sorting the part before the pivot only the other part is left |
| TabSort.RightDone | core/cust_src/elua/lua/src/ltablib.c:243-252 | After sorting the part behind the pivot only the other part is left |
| ExprParse.Sound | core/cust_src/elua/lua/src/lparser.c:844-869 | What subexpr returns has exactly the tokens read and is allowed by the priority table, and the next operator is not above the limit |
| ExprParse.ReadsAllowed | core/cust_src/elua/lua/src/lparser.c:844-869 | subexpr reads every tree that the priorities allow, unless levels are exceeded |
| ExprParse.Reads | core/cust_src/elua/lua/src/lparser.c:844-869 | The same at any limit, up to the operator loop |
| ExprParse.Unique | core/cust_src/elua/lua/src/lparser.c:826-837 | For given tokens the priorities allow at most one tree |
| ExprParse.PrintParse | core/cust_src/elua/lua/src/lparser.c:844-869 | A tree printed with parentheses only where needed is parsed back |
| ExprParse.ParensNeeded | core/cust_src/elua/lua/src/lparser.c:826-837 | Where parentheses were put, no tree of the same meaning without them is allowed |
| ExprParse.Minimal | core/cust_src/elua/lua/src/lparser.c:826-837 | The whole printed tree is minimal: with any one of its pairs of parentheses removed the priorities do not allow it |
| ExprParse.LexState.ParseSubExpr | core/cust_src/elua/lua/src/lparser.c:844-869 | subexpr with its loop and level counter; the untreated operator is returned |
| ExprParse.LexState.ParseOperand | core/cust_src/elua/lua/src/lparser.c:848-854 | Unary operators and simple expressions |
| LexString.ReadPrinted | core/cust_src/elua/lua/src/llex.c:276-329 | The text PrintString writes for any byte string is read as exactly this string, whatever follows |
| LexString.ReadEscape | core/cust_src/elua/lua/src/print.c:31-46 | Each escape is read as its byte, a digit may follow |
| LexString.PrintString | core/cust_src/elua/lua/src/print.c:23-49 | PrintString |
| LexString.LexState.ReadString | core/cust_src/elua/lua/src/llex.c:276-329 | read_string: value, rest, line count or the error of the literal, for any input |
| LexString.LexState.ReadEscaped | core/cust_src/elua/lua/src/llex.c:287-322 | One escape sequence |
| LexString.LexState.ReadDigits | core/cust_src/elua/lua/src/llex.c:302-314 | Up to three digits |
| LexString.LexState.IncLineNumber | core/cust_src/elua/lua/src/llex.c:127-135 | A line break of one byte, or of two different ones |
| LexString.PrintAndRead | core/cust_src/elua/lua/src/llex.c:276-329 | From PrintString through any chunks back to the string, with what follows it left in the input |
| IntQueue.Queue.Run | core/cust_src/elua/platform/src/elua_int.c:29-90 | Any interleaving of interrupts with single steps of the hook: every accepted interrupt is dequeued once, in order, or still queued; between hook runs the hook is set exactly if the queue is not empty; each dequeued one gets one handler step, in order, and is delivered exactly if the events before that step have left it enabled and with a handler |
| IntQueue.Queue.Drain | core/cust_src/elua/platform/src/elua_int.c:29-59 | When no more interrupts come, the hook empties the queue and is removed |
| IntQueue.Queue.Add | core/cust_src/elua/platform/src/elua_int.c:63-90 | elua_int_add accepts exactly if the interrupt is valid and enabled and there is room |
| IntQueue.Queue.HookStep | core/cust_src/elua/platform/src/elua_int.c:29-59 | One step of elua_int_hook; the handler is called exactly if the interrupt is enabled and has one |
| IntQueue.Queue.ClearFirst | core/cust_src/elua/platform/src/elua_int.c:35-36 | The slot is freed while the read index still points to it |
| IntQueue.HoldsLess | core/cust_src/elua/platform/src/elua_int.c:35-37 | Without its first entry the ring holds the rest, one position further |
| IntQueue.RoomSeen | core/cust_src/elua/platform/src/elua_int.c:74-78 | The slot to be written is empty exactly if there is room |
| PackTrip.RoundTrip | core/cust_src/elua/modules/src/lpack.c:102-260 | For every format without A: unpack gives the packed values and the position behind them if and only if every value fits its code |
| PackTrip.NumberCut | core/cust_src/elua/modules/src/lpack.c:72-84 | 256 packed as b is a single zero byte, which comes back as 0 |
| PackTrip.TextCut | core/cust_src/elua/modules/src/lpack.c:141-149 | A string with a zero byte packed as z comes back up to that byte |
| PackTrip.Trip | core/cust_src/elua/modules/src/lpack.c:102-260 | The same for any steps, anywhere in the data |
| PackTrip.StepTrip | core/cust_src/elua/modules/src/lpack.c:72-100 | One value: it comes back exactly if it fits; otherwise another one or none |
| PackTrip.NumberBack | core/cust_src/elua/modules/src/lpack.c:72-84 | A number comes back exactly if its code can hold it |
| PackTrip.WordBack | core/cust_src/elua/modules/src/lpack.c:59-70 | Swapping twice restores a word |
| PackLib.DoSwap | core/cust_src/elua/modules/src/lpack.c:59-70 | doswap reverses the bytes in place |
| PackLib.LPack | core/cust_src/elua/modules/src/lpack.c:201-260 | l_pack with counts, endianness and its errors; an argument of the other type is converted, however Lua converts it, or is an error |
| PackLib.LUnpack | core/cust_src/elua/modules/src/lpack.c:102-178 | l_unpack from any start position, with its tests modulo 2^32: the values and the position it gives, stopping early as they say, and where a read first leaves the data |
| PackFormat.TestExact | core/cust_src/elua/modules/src/lpack.c:72-100 | The tests for the end of the data, modulo 2^32, let through every read within the data, and another one exactly if it begins before the data and ends within it or its sum wraps around to at most the length |
| PackLib.ReadCount | core/cust_src/elua/modules/src/lpack.c:113-120 | The count after a code |
| PackLib.PackUnpack | core/cust_src/elua/modules/src/lpack.c:102-260 | Both, one after the other, with what the round trip says of them |

## Left out

Collector:
- Userdata with finalizers (`luaC_separateudata`, `marktmu`, `GCTM`), so the finalize phase runs none.
- `GcStep.SingleStepInv`: without the call of `GCTM` in the finalize phase.
- `GcCycle.AtomicInv`: without `luaC_separateudata` and `marktmu` in atomic.
- `GcCollector.Collector.FinishMark`: without these two as well.
- `GcCollector.Collector.Step`: without the call of `GCTM`.
- Pacing: `GCthreshold`, `gcdept`, `estimate` and byte counts. They decide when steps run, not what they do.
- The bits of `marked` are a colour per object; fixed objects are a set. Objects are references into a map, and the C lists are sequences of them.
- The order in which the children of one object are pushed on the gray list.
- `checkstacksizes` and the clearing of the unused part of a stack; stacks grow and shrink by writes of the program.
- Dead keys (`removeentry`): an entry with a nil value is gone from a weak table.
- `lua_setupvalue` and other stores through the API.
- Coroutines switch as a change of the running thread only.

Code generation:
- Other expressions: calls, upvalues, globals, indexing, arithmetic, concatenation, varargs, parentheses.
- Comparisons are an arbitrary relation on values that neither fails nor calls metamethods.
- Limits: MAXSTACK registers, the number of constants, and "control structure too long" of `fixjump`.
- Statements other than conditions; the added `continue` statement.

Tables:
- Keys that are NaN or fractions do not exist with integer numbers; a nil key is an error of `Set`.
- Arrays above 2^26 slots and the "table overflow" error of `setnodevector`; garbage collection of dead keys in nodes, and the barrier of `newkey`.
- `luaH_getnum` and `luaH_getstr` are the same search as `luaH_get`.

Checker and chunks:
- Operand types, the tops of open calls, and the scratch registers of TFORLOOP above its results: the checker does not promise these.
- Allocation failures, "block too big" among them; other sizes of int, size_t, Instruction and numbers; endianness other than little.
- A reader that goes on after having signalled its end; the message texts of errors.

Upvalues:
- `UpvCells` leaves the list `uvhead`, colours and dead upvalues to the collector part; the open list is a sequence. Values are integers.
- A stack that shrinks below a captured slot is excluded, as `luaD_reallocstack` relies on its callers for that.

Sorting and parsing:
- Comparison functions that are no strict weak order or that change the table.
- An atom of `ExprParse` is a whole simple expression without parentheses; suffixes of prefix expressions and code generation are elsewhere.

Strings, queue and packing:
- The C locale for `isprint` and `isdigit`; long strings; the size limit of the token buffer.
- `elua_int_cleanup`, other users of the debug hook, and what handlers do apart from enabling and disabling interrupts; the enable flags are a set.
- `A` in formats: `PackFormat` has it, but packing repeats it where unpacking takes its count as a length, so the round trip excludes it.
- How Lua converts strings to numbers and numbers to strings: any such conversion is a parameter of `PackFormat`.
- `PackLib.LUnpack`: what a read outside the data gives, and all that follows such a read.
- Formats with zero bytes, and counts beyond an int.
