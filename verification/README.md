# A model of the Lua 5.1.4 core, the JSON library and the framed session

This Dafny project models the parts of the repository that keep mutable state, and proves what they
are for. To verify it, run `dafny verify dfyconfig.toml`.

Where the program changes things in place, the model is a class whose methods run the program's
loops, each proved against a function or a relation on values; the main results are theorems about
those. Texts are sequences of characters, one per byte.

- **Incremental garbage collector** (`gc_*.dfy`). `GcHeap`, `GcMark`, `GcAtomic`, `GcSweep` and
  `GcCycle` define the state and the steps of `lgc.c`; `GcSteps`, `GcMutator`, `GcAlloc` and `GcRun`
  prove that they keep one invariant (`GcCycle.Inv`), which holds the tri-colour invariant in the
  mark phase. `GcReach` and `GcOps` turn it into safety over whole runs. `GcWithin`, `GcExact`,
  `GcFull`, `GcFinal`, `GcKeep` and `GcSurvive` prove that a full collection leaves exactly what it
  should, `GcContents` and `GcSlots` what happens to the slots of the objects that are kept, and
  `GcEffects` what variables hold. `GcBits` is about the macros of `lgc.h`, and `GcCollector` runs
  the loops on fields.
- **Code for boolean expressions** (`code_*.dfy`). `CodeVm` is the virtual machine with jumps that have
  no target yet, `CodeGen` the generator with jump lists as sequences. `CodePatch`, `CodeSem`,
  `CodeExits`, `CodeClose`, `CodeProof` and `CodeMeaning` prove that meaning is preserved. `CodeState`
  is `FuncState` with the lists threaded through the instructions.
- **Pattern matching** (`str_pattern`, `str_match`, `str_laws`, `str_text`, `str_reading`,
  `str_meaning`). All ways to match form an ordered enumeration, errors included; `match` returns its
  first element. `StrText` has patterns as trees, their texts, and their meaning on the characters of
  the subject; `StrReading` and `StrMeaning` prove that matching a text is what it means.
- **String literals and quoting** (`str_literal`, `str_quote`). `StrLiteral` says what a literal
  denotes, piece by piece.
- **Sorting** (`tab_sort`), in place, for any strict weak order.
- **Framed session** (`net_*.dfy`). A receiver on the whole stream, the packets and the session; the
  peer may announce new keys at any time. `NetWire` has the format in numbers.
- **JSON** (`json_*.dfy`). Texts and trees, the lexer, the parser as a machine on trees, linked nodes
  with the printing walk, and the parser that builds them with a cursor. `JsonGrammar` has the grammar
  of strings and numbers; `JsonTokens`, `JsonSpell`, `JsonEvery` and `JsonSpaces` prove which texts are
  read, `JsonErrors` which of the others are incomplete.
- **Open upvalues** (`func_upvals`), **interned strings** (`str_table`), **references and string
  buffers** (`aux_lib`), **scope resolution** (`parse_scope`).

Three promises are false of the code as they are usually put. Each is proved with its exact condition,
and with an input that breaks it:

- A session stays alive only if every payload has 1 to 16384 bytes: an empty or a longer one is sent,
  and the receiver takes it for no packet (`NetSession.DeadAtIllegalSize`, `NetSession.EmptyKills`).
- The k-th frame does not always carry the k-th number. A payload of 65536 bytes or more does not fit
  its size field and uses up a number although nothing is sent. The numbers are in sequence exactly
  when, before each payload that is sent, a multiple of 65000 such payloads came; so, with fewer than
  65000 of them, exactly when none is followed by a payload that is sent (`NetTcp.InSequenceExactly`,
  `NetTcp.InSequenceUnlessLost`, `NetTcp.NumberSkipped`). The receiver does not look at the numbers,
  so nothing else is lost (`NetTcp.LogIsStream`).
- The lexer reads a quoted string back only if the chunk does not get too many lines
  (`StrQuote.ReadsBack`, `StrQuote.NotReadBack`).

## Model

| member | source | states |
|---|---|---|
| `GcOps.RunSafe` | SrvSocket/liblua/src/lgc.c:556-607 | over every run of collector steps, full collections and mutator operations from a state with the invariant: everything reachable exists and is not dead, and what goes away could not be reached before (without weak slots, when a full collection takes it) |
| `GcOps.ApplyInv` | SrvSocket/liblua/src/lgc.c:556-607 | every mutator operation, every collector step and every full collection, in every phase, keeps the invariant (tri-colour and list structure included); writes that change `__mode` or `__gc` of a metatable in the middle of a cycle are among them |
| `GcOps.ReachableIsKept` | SrvSocket/liblua/src/lgc.c:407-428 | one operation frees nothing that could be reached before it, and a full collection nothing that is strongly reachable |
| `GcOps.FirstInv` | SrvSocket/liblua/src/lgc.c:501-512 | a new state satisfies the invariant |
| `GcRun.SingleStepInv` | SrvSocket/liblua/src/lgc.c:556-607 | `singlestep` keeps the invariant, and outside a pause it lowers the rank of the phase or the work left in it, so that cycles end |
| `GcReach.PathAlive` | SrvSocket/liblua/src/lgc.c:407-428 | along every path of references from the roots the objects exist and are not dead, when live objects refer to live objects only |
| `GcReach.ReachableAlive` | SrvSocket/liblua/src/lgc.c:407-428 | so a reachable object is not dead |
| `GcReach.SingleStepKeeps` | SrvSocket/liblua/src/lgc.c:407-428 | a step of the collector frees only what was dead before it |
| `GcReach.SweepStepSparing` | SrvSocket/liblua/src/lgc.c:407-428 | a sweep step frees dead objects only and revives none |
| `GcCycle.AfterCut` | SrvSocket/liblua/src/lgc.c:407-428 | where the main thread stands in the list of objects after the sweep has taken one out, so that the part behind it, the userdata, is still known |
| `GcMark.TraverseTableTri` | SrvSocket/liblua/src/lgc.c:158-196 | traversing a table keeps the tri-colour invariant and marks what it refers to strongly, all of it if it is not weak |
| `GcMark.PropagatePopped` | SrvSocket/liblua/src/lgc.c:277-320 | `propagatemark` keeps the tri-colour invariant: the popped object takes its colour, and threads and weak tables are listed again |
| `GcMutator.ForwardTri` | SrvSocket/liblua/src/lgc.c:662-672 | after the forward barrier the written object is covered again, in the mark phase |
| `GcMutator.ForwardWriteInv` | SrvSocket/liblua/src/lgc.h:86-94 | a slot write followed by `luaC_barrier` keeps the invariant in every phase |
| `GcMutator.TableWriteInv` | SrvSocket/liblua/src/lgc.h:89-97 | a table write followed by `luaC_barriert` keeps the invariant in every phase |
| `GcAlloc.CloseInv` | SrvSocket/liblua/src/lfunc.c:96-112 | closing upvalues keeps the invariant, in the middle of a cycle too |
| `GcAlloc.LinkGrayTri` | SrvSocket/liblua/src/lgc.c:695-710 | `luaC_linkupval`: a closed gray upvalue turns black and its value is marked, which keeps the tri-colour invariant |
| `GcAlloc.NewObjectInv` | SrvSocket/liblua/src/lgc.c:686-692 | a new object, linked in front of the list, keeps the invariant in every phase; during a sweep it is not dead |
| `GcAlloc.FindUpvalInv` | SrvSocket/liblua/src/lfunc.c:53-79 | `luaF_findupval` keeps the invariant, and the upvalue it returns is alive |
| `GcAlloc.ReviveInv` | SrvSocket/liblua/src/lstring.c:81-89 | `changewhite` on a dead string or upvalue that is handed back keeps the invariant |
| `GcAtomic.AtomicIsSafe` | SrvSocket/liblua/src/lgc.c:525-553 | after `atomic` live objects refer to live objects only, weak slots included, the roots are alive, and exactly the unmarked objects are dead |
| `GcAtomic.ClearTablesShut` | SrvSocket/liblua/src/lgc.c:351-375 | after `cleartable` the listed tables refer to marked objects only |
| `GcAtomic.SeparateFromDoes` | SrvSocket/liblua/src/lgc.c:128-155 | `luaC_separateudata` moves unmarked userdata with a finalizer behind the waiting ones and marks them as handled, and changes nothing else |
| `GcExact.ClosureShut` | SrvSocket/liblua/src/lgc.c:277-320 | strong reachability, defined by paths, is closed under the references that marking follows |
| `GcExact.ClosureLeast` | SrvSocket/liblua/src/lgc.c:277-320 | and it is the least such set |
| `GcExact.MarkingIsExact` | SrvSocket/liblua/src/lgc.c:525-553 | at the end of the mark phase exactly the strongly reachable objects are marked |
| `GcWithin.MarkObjectIn` | SrvSocket/liblua/src/lgc.c:69-112 | marking stays inside every set that is closed under the references it follows |
| `GcFull.ClearTablesMarks` | SrvSocket/liblua/src/lgc.c:337-345 | clearing weak tables marks exactly the strings they refer to |
| `GcFull.SweepFreesTheDead` | SrvSocket/liblua/src/lgc.c:407-428 | the sweep leaves exactly the objects that were alive |
| `GcFull.SweptHeap` | SrvSocket/liblua/src/lgc.c:636-646 | abandoning an unfinished mark frees nothing; otherwise the pending sweep is finished |
| `GcSurvive.FullGcIsExact` | SrvSocket/liblua/src/lgc.c:636-659 | `luaC_fullgc`, from any phase, ends at rest with no finalizer pending; what it leaves is given by the heap at the start: exactly what is strongly reachable from the roots or from userdata that finalizers see, the strings in weak tables among that, and the fixed objects |
| `GcSurvive.StrongSurvives` | SrvSocket/liblua/src/lgc.c:636-659 | what is strongly reachable survives a full collection |
| `GcSurvive.HitsAreSaved` | SrvSocket/liblua/src/lgc.c:351-375 | the strings that clearing marks are those in weak slots of the tables that are kept; the value of an entry counts only if its key stays |
| `GcSlots.FullGcContents` | SrvSocket/liblua/src/lgc.c:636-659 | what a full collection does to the contents of what it keeps: every slot is the one it had, except in weak tables that are kept; from these exactly the entries go whose key or value refers to an object other than a string that is not strongly reachable, or whose value is a userdata that is flagged as finalized, and the elements of arrays with weak values that refer to such; the running thread gets each userdata that is handed to a finalizer, once |
| `GcSlots.ClearedAre` | SrvSocket/liblua/src/lgc.c:158-196 | the tables that a full collection clears are exactly the strongly reachable ones that are weak by their metatable |
| `GcSlots.FlagsAre` | SrvSocket/liblua/src/lgc.c:128-155 | the userdata that count as finalized when tables are cleared are those that did before and those that are not strongly reachable before finalizers are looked at |
| `GcSlots.CyclePushes` | SrvSocket/liblua/src/lgc.c:445-474 | the end of a collection hands each waiting userdata with a finalizer to it, in the order of the list, and changes nothing else |
| `GcContents.AtomicContents` | SrvSocket/liblua/src/lgc.c:351-375 | the end of the mark phase, in any cycle: no slot changes but in the weak tables of its list, and of these exactly the entries and elements go that refer to an unmarked object other than a string or have a finalized userdata as their value |
| `GcContents.StepContents` | SrvSocket/liblua/src/lgc.c:556-607 | every other step of the collector keeps all slots of the objects it does not free; a finalizer step pushes its userdata |
| `GcContents.AtomicMarkUdata` | SrvSocket/liblua/src/lgc.c:128-155 | separation flags exactly the unmarked userdata of the list, with a finalizer or without |
| `GcEffects.HoldsExactly` | SrvSocket/liblua/src/lgc.c:277-320 | which references count: those in the slots of an object, field by field, without keys of empty entries; strong are those outside weak slots |
| `GcEffects.ClosureCaptures` | SrvSocket/liblua/src/lvm.c:719-737 | a new closure has one upvalue per captured variable: an open one for the slot of the running thread, or the one of the enclosing function |
| `GcEffects.AssignedValue` | SrvSocket/liblua/src/lvm.c:447-451 | an assignment through an upvalue gives its value to all upvalues of the same slot, and to no other |
| `GcEffects.ClosedValue` | SrvSocket/liblua/src/lfunc.c:96-112 | closing upvalues keeps the value of each one that stays |
| `GcKeep.SweptKeeps` | SrvSocket/liblua/src/lgc.c:407-428 | finishing a sweep leaves exactly the live objects, with their slots (closed upvalues keep their values), the roots, and the marks of userdata that wait for finalizers |
| `GcKeep.ClosureSwept` | SrvSocket/liblua/src/lgc.c:407-428 | the sweep does not change what is strongly reachable |
| `GcFinal.SeparatedExactly` | SrvSocket/liblua/src/lgc.c:525-553 | a full collection hands to finalizers exactly the waiting userdata and those that have a finalizer to call and are not strongly reachable |
| `GcFinal.BeforeSeparateMarks` | SrvSocket/liblua/src/lgc.c:525-553 | when `atomic` of a full collection separates userdata, exactly what is strongly reachable is marked, next to marks that an earlier cycle left on waiting userdata |
| `GcFinal.SeparatedIsUnreachable` | SrvSocket/liblua/src/lgc.c:128-155 | a userdata goes to its finalizer only if it has one, for the first time, and if it is not strongly reachable |
| `GcFinal.SeparateFromAll` | SrvSocket/liblua/src/lgc.c:128-155 | every userdata that is to be finalized is found, wherever it stands in the list |
| `GcFinal.UnreachableIsSeparated` | SrvSocket/liblua/src/lgc.c:525-553 | a full collection hands every unreachable userdata with a finalizer to it |
| `GcBits.TestsAreRight` | SrvSocket/liblua/src/lgc.h:65-67 | the colour tests on the mark byte tell white, gray and black apart |
| `GcBits.DeathIsRight` | SrvSocket/liblua/src/lgc.h:69-70 | `isdead` is true exactly for the other white; the test of the sweep spares fixed objects |
| `GcBits.FlipIsRight` | SrvSocket/liblua/src/lgc.c:548-548 | flipping the current white makes the old white dead and keeps the fixed bit |
| `GcBits.ChangeWhiteRevives` | SrvSocket/liblua/src/lgc.h:72-72 | `changewhite` gives a dead object the current white |
| `GcCollector.Collector.constructor` | SrvSocket/liblua/src/lgc.c:501-512 | a collector at rest with the main thread, its globals and the registry |
| `GcCollector.Collector.ReallyMarkObject` | SrvSocket/liblua/src/lgc.c:69-112 | the fields afterwards are those of the marking function on the fields before: colours, gray list, metatable and environment of userdata, closed upvalues |
| `GcCollector.Collector.TraverseTable` | SrvSocket/liblua/src/lgc.c:158-196 | the loops over both parts, last entry first, mark what the specification marks, and return the weakness |
| `GcCollector.Collector.PropagateMark` | SrvSocket/liblua/src/lgc.c:277-320 | one gray object is traversed as specified |
| `GcCollector.Collector.PropagateAll` | SrvSocket/liblua/src/lgc.c:323-327 | the loop ends with an empty gray list |
| `GcCollector.Collector.RemarkUpvals` | SrvSocket/liblua/src/lgc.c:515-522 | all open upvalues in the ring that are gray have their values marked |
| `GcCollector.Collector.MarkMt` | SrvSocket/liblua/src/lgc.c:493-497 | the basic metatables are marked |
| `GcCollector.Collector.SeparateUdata` | SrvSocket/liblua/src/lgc.c:128-155 | the loop over the list behind the main thread separates userdata as specified |
| `GcCollector.Collector.MarkTmu` | SrvSocket/liblua/src/lgc.c:115-124 | userdata waiting for finalizers are whitened and marked again |
| `GcCollector.Collector.IsCleared` | SrvSocket/liblua/src/lgc.c:337-345 | decides whether a weak reference is to be cleared; strings are marked and stay |
| `GcCollector.Collector.ClearTables` | SrvSocket/liblua/src/lgc.c:351-375 | the loops clear the weak tables as specified |
| `GcCollector.Collector.SweepStringList` | SrvSocket/liblua/src/lgc.c:407-428 | one list of the string table is swept: dead strings go, the others turn white |
| `GcCollector.Collector.SweepOpenUpvals` | SrvSocket/liblua/src/lgc.c:407-428 | the open upvalues of a thread are swept |
| `GcCollector.Collector.SweepList` | SrvSocket/liblua/src/lgc.c:407-428 | a bounded part of the object list is swept, open upvalues of threads included |
| `GcCollector.Collector.FreeObj` | SrvSocket/liblua/src/lgc.c:378-400 | the object is gone from the heap |
| `GcCollector.Collector.BarrierF` | SrvSocket/liblua/src/lgc.c:662-672 | marks the value in the mark phase, otherwise whitens the object |
| `GcCollector.Collector.BarrierBack` | SrvSocket/liblua/src/lgc.c:675-683 | the black table turns gray and is listed for the atomic step |
| `GcCollector.Collector.Link` | SrvSocket/liblua/src/lgc.c:686-692 | the new object is first in the list, with the current white |
| `GcCollector.Collector.LinkUpval` | SrvSocket/liblua/src/lgc.c:695-710 | a closed upvalue enters the list and keeps the invariant of the phase |
| `GcCollector.Collector.CloseUpvals` | SrvSocket/liblua/src/lfunc.c:96-112 | the loop closes upvalues from the top down to the level |
| `GcCollector.Collector.MarkRoot` | SrvSocket/liblua/src/lgc.c:501-512 | all lists are emptied and the roots are marked |
| `GcCollector.Collector.Atomic` | SrvSocket/liblua/src/lgc.c:525-553 | marks what is left, separates userdata, clears weak tables, flips the white and starts the sweep |
| `GcCollector.Collector.SingleStep` | SrvSocket/liblua/src/lgc.c:556-607 | one step of the phase |
| `GcCollector.Collector.FullGc` | SrvSocket/liblua/src/lgc.c:636-659 | the loops end, and the fields are those of the specified full collection |
| `CodeMeaning.CompileDen` | SrvSocket/liblua/src/lcode.c:697-789 | every expression over locals, upvalues, `not`, `and`, `or` and comparisons compiles to code whose runs give its value: each exit is taken with the right truth value, and its value arrives where it is needed |
| `CodeMeaning.NextRegRuns` | SrvSocket/liblua/src/lcode.c:390-419 | run from its first instruction, the code compiled into the next register halts at its end with the value of the expression in that register and every register below unchanged; no jump is left open |
| `CodeMeaning.StoreLocalRuns` | SrvSocket/liblua/src/lcode.c:472-480 | the same for an assignment to a local variable: every other register in use is unchanged |
| `CodeMeaning.Exp2RegDone` | SrvSocket/liblua/src/lcode.c:390-411 | `exp2reg` closes all exits and leaves the value in the register |
| `CodeMeaning.NotDen` | SrvSocket/liblua/src/lcode.c:594-626 | `codenot`: with the lists swapped and their values removed the code computes the negation |
| `CodeMeaning.CompDen` | SrvSocket/liblua/src/lcode.c:681-694 | `codecomp`: the comparison of two registers, followed by its jump, means the comparison of the operands |
| `CodeExits.NotSem` | SrvSocket/liblua/src/lcode.c:620-625 | swapping the exits and removing the values negates the meaning |
| `CodeExits.JoinSem` | SrvSocket/liblua/src/lcode.c:539-591 | the second operand of `and` and `or` behind the first one, with the lists joined, means the connective |
| `CodeClose.CloseSem` | SrvSocket/liblua/src/lcode.c:390-411 | when the exits have got their targets, every run comes to the end with the value in the register |
| `CodePatch.ExecPatchOne` | SrvSocket/liblua/src/lcode.c:149-160 | after a jump has been patched, runs that stopped at it go on at the target, and all others are as before |
| `CodePatch.PatchAllAt` | SrvSocket/liblua/src/lcode.c:149-160 | patching a list changes only its jumps and the tests that control them |
| `CodeVm.ExecExtends` | SrvSocket/liblua/src/lcode.c:797-809 | a run of a prefix of the code can be continued when more code follows |
| `CodeState.FuncState.Concat` | SrvSocket/liblua/src/lcode.c:185-196 | the threaded list is exactly the concatenation; no link is a self-offset, and other lists stay |
| `CodeState.FuncState.NeedValue` | SrvSocket/liblua/src/lcode.c:122-128 | true exactly when a jump of the list has no value |
| `CodeState.FuncState.RemoveValues` | SrvSocket/liblua/src/lcode.c:144-147 | every TESTSET that controls a jump of the list becomes a TEST, and nothing else changes |
| `CodeState.FuncState.PatchListAux` | SrvSocket/liblua/src/lcode.c:149-160 | exactly the jumps of the list get the target, their tests are set as specified, and they leave the threads |
| `CodeState.FuncState.DischargeJpc` | SrvSocket/liblua/src/lcode.c:163-166 | the jumps to the next instruction are patched |
| `CodeState.FuncState.Code` | SrvSocket/liblua/src/lcode.c:797-809 | the instruction is behind the code, with pending jumps patched to it |
| `CodeState.FuncState.Jump` | SrvSocket/liblua/src/lcode.c:59-66 | a new jump that keeps the jumps to the next instruction on hold |
| `CodeState.FuncState.CondJump` | SrvSocket/liblua/src/lcode.c:74-77 | a test and its jump |
| `CodeState.FuncState.PatchToHere` | SrvSocket/liblua/src/lcode.c:179-182 | the list joins the jumps to the next instruction |
| `CodeState.FuncState.DischargeVars` | SrvSocket/liblua/src/lcode.c:304-334 | a local becomes its register, an upvalue is read by a relocatable instruction |
| `CodeState.FuncState.Discharge2Reg` | SrvSocket/liblua/src/lcode.c:343-379 | the value goes to the register |
| `CodeState.FuncState.Exp2Reg` | SrvSocket/liblua/src/lcode.c:390-411 | all exits are patched, and loaded where they have no value |
| `CodeState.FuncState.Exp2NextReg` | SrvSocket/liblua/src/lcode.c:414-419 | the value goes to the next free register |
| `CodeState.FuncState.Exp2AnyReg` | SrvSocket/liblua/src/lcode.c:422-433 | the value stays in its register if it can |
| `CodeState.FuncState.Exp2RK` | SrvSocket/liblua/src/lcode.c:444-469 | an operand that is no constant goes to a register |
| `CodeState.FuncState.InvertJump` | SrvSocket/liblua/src/lcode.c:516-521 | the condition of the comparison is inverted |
| `CodeState.FuncState.JumpOnCond` | SrvSocket/liblua/src/lcode.c:524-536 | a test and a jump, where a preceding NOT is taken back |
| `CodeState.FuncState.GoIfTrue` | SrvSocket/liblua/src/lcode.c:539-564 | the code goes on if the expression is true, and the new exit joins the false list |
| `CodeState.FuncState.GoIfFalse` | SrvSocket/liblua/src/lcode.c:567-591 | the mirror image |
| `CodeState.FuncState.CodeNot` | SrvSocket/liblua/src/lcode.c:594-626 | lists swapped, values removed, comparison inverted or NOT emitted |
| `CodeState.FuncState.CodeComp` | SrvSocket/liblua/src/lcode.c:681-694 | both operands in registers, comparison and jump emitted |
| `CodeState.FuncState.Compile` | SrvSocket/liblua/src/lcode.c:697-789 | on threaded jump lists the code generator does what the specification on sequences does, and all lists are disjoint and acyclic |
| `CodeState.FuncState.ToNextRegister` | SrvSocket/liblua/src/lcode.c:414-419 | the instructions in memory, with every link replaced by an offset, compute the expression into the next register |
| `CodeState.FuncState.ToLocal` | SrvSocket/liblua/src/lcode.c:472-480 | and into a local variable |
| `StrLaws.MatchesLead` | SrvSocket/liblua/src/lstrlib.c:365-440 | the first element of the enumeration is the best of all ways to match, compared item by item (more characters for `*`, `+`, `?`, fewer for `-`); it is empty only if there is no way |
| `StrLaws.FirstItemIsExtreme` | SrvSocket/liblua/src/lstrlib.c:301-326 | in the best match a greedy item takes at least as many characters as in any match, a lazy one at most as many |
| `StrLaws.HitsInside` | SrvSocket/liblua/src/lstrlib.c:329-351 | a match ends in the subject, and its captures are parts of what was read |
| `StrLaws.CompleteIfWellFormed` | SrvSocket/liblua/src/lstrlib.c:186-199 | a pattern is well formed exactly if matching it ends without an error and with all captures closed; this does not depend on the subject |
| `StrLaws.BalanceIsFirstEven` | SrvSocket/liblua/src/lstrlib.c:281-298 | `%bxy` matches up to the first place where as many `x` as `y` have been read |
| `StrMeaning.TextMeans` | SrvSocket/liblua/src/lstrlib.c:365-440 | what a pattern text means: for every pattern written with characters, sets with ranges and negation, `%a` and its kin, repetitions, nested captures, positions, `%1`, `%b`, `%f` and a final `$`, matching gives the end and the captures of the preferred way to match, where ways, captures and preference are defined on the characters of the subject; it gives none exactly if there is no way, and no error |
| `StrMeaning.MatchText` | SrvSocket/liblua/src/lstrlib.c:365-440 | so does `match` on the pattern text |
| `StrMeaning.FindText` | SrvSocket/liblua/src/lstrlib.c:514-531 | the search returns the first start from which the pattern matches, or only the given one if it is anchored |
| `StrMeaning.PathIsGo` | SrvSocket/liblua/src/lstrlib.c:365-440 | the items of a pattern text match in exactly the ways in which the pattern does |
| `StrMeaning.FirstTakesMost` | SrvSocket/liblua/src/lstrlib.c:301-326 | a first item with `*`, `+` or `?` takes as many characters as any way to match the rest allows, one with `-` as few |
| `StrMeaning.RepeatedCharacter` | SrvSocket/liblua/src/lstrlib.c:421-434 | for an ordinary character x at a run of x: `x*` ends behind the run, `x-` at once, `x+` behind the run if there is one and else nowhere, `x?` behind one x if there is one |
| `StrReading.FlatItems` | SrvSocket/liblua/src/lstrlib.c:365-440 | the text of a pattern is read as its items, whatever fitting text follows |
| `StrReading.KindIs` | SrvSocket/liblua/src/lstrlib.c:226-242 | the characters of `%a` to `%z` and of the capital letters, listed |
| `StrReading.SetEndAt` | SrvSocket/liblua/src/lstrlib.c:209-219 | a set ends at the first bracket that is not its first character and not escaped |
| `StrReading.MembersAt` | SrvSocket/liblua/src/lstrlib.c:245-265 | between its brackets a set has the characters, ranges and kinds that it is written with |
| `StrMeaning.BrokenCharacter` | SrvSocket/liblua/src/lstrlib.c:205-217 | a percent sign at the end and a set without an end are errors |
| `StrMeaning.BrokenItem` | SrvSocket/liblua/src/lstrlib.c:380-402 | `%b` without two characters and `%f` without a set are errors |
| `StrMeaning.BrokenCapture` | SrvSocket/liblua/src/lstrlib.c:186-199 | a closing parenthesis too much, a 33rd capture and a reference to a capture that is missing or open are errors |
| `StrMatch.MatchState.Match` | SrvSocket/liblua/src/lstrlib.c:365-440 | returns the first element of the enumeration, NULL exactly when it is empty, an error exactly when the first element is that error; on failure level and captures are as before |
| `StrMatch.MatchState.MaxExpand` | SrvSocket/liblua/src/lstrlib.c:301-313 | the first outcome with the most repetitions first |
| `StrMatch.MatchState.MinExpand` | SrvSocket/liblua/src/lstrlib.c:316-326 | the first outcome with the fewest repetitions first |
| `StrMatch.MatchState.StartCapture` | SrvSocket/liblua/src/lstrlib.c:329-340 | a capture is opened, and undone when the rest does not match |
| `StrMatch.MatchState.EndCapture` | SrvSocket/liblua/src/lstrlib.c:343-351 | the innermost open capture is closed, and opened again when the rest does not match |
| `StrMatch.MatchState.MatchCapture` | SrvSocket/liblua/src/lstrlib.c:354-362 | a back reference matches the text of its capture |
| `StrMatch.MatchState.CaptureToClose` | SrvSocket/liblua/src/lstrlib.c:194-199 | the innermost capture without an end, or an error |
| `StrMatch.MatchState.MatchBalance` | SrvSocket/liblua/src/lstrlib.c:281-298 | the end of the balanced part |
| `StrMatch.MatchState.MatchBracketClass` | SrvSocket/liblua/src/lstrlib.c:245-265 | membership in the set, ranges, escapes and negation included |
| `StrMatch.MatchState.SingleMatch` | SrvSocket/liblua/src/lstrlib.c:268-275 | whether the class takes the next character |
| `StrMatch.MatchState.FindClassEnd` | SrvSocket/liblua/src/lstrlib.c:202-223 | the end of a character class, or an error |
| `StrMatch.MatchState.Find` | SrvSocket/liblua/src/lstrlib.c:510-533 | the first start with an outcome; only the first one when the pattern is anchored |
| `StrQuote.AddQuoted` | SrvSocket/liblua/src/lstrlib.c:696-723 | appends the quoted text, character by character |
| `StrQuote.LexState.ReadString` | SrvSocket/liblua/src/llex.c:276-329 | gives the token, the position behind it and the line, or the error, that the reader's definition gives; the text that it has read is a list of pieces (characters, escapes by letter, number or line end, others), and the token holds the bytes that they stand for |
| `StrQuote.LexState.ReadEscape` | SrvSocket/liblua/src/llex.c:288-322 | reads one escape that stands there: a letter of `abfnrtv`, a line end, one to three digits, or another character, and adds the byte that it stands for |
| `StrQuote.LexState.IncLineNumber` | SrvSocket/liblua/src/llex.c:127-135 | a line end of one or two characters is skipped and counted |
| `StrQuote.ScanPieces` | SrvSocket/liblua/src/llex.c:276-329 | a literal made of any pieces is read as exactly the bytes they stand for: 7, 8, 12, 10, 13, 9 and 11 for the letters `abfnrtv`, the value of one to three digits up to 255, a line feed for a line end, other characters as they are |
| `StrQuote.ScanMeans` | SrvSocket/liblua/src/llex.c:276-329 | whatever the reader returns, it has read pieces up to there: the delimiter for a token, or what cannot go on |
| `StrQuote.ReadPieces` | SrvSocket/liblua/src/llex.c:276-329 | the reader on a literal of any pieces, anywhere in a chunk |
| `StrQuote.QuotedPieces` | SrvSocket/liblua/src/lstrlib.c:696-723 | what `%q` writes is a literal whose pieces stand for the characters of the string one by one |
| `StrQuote.ReadsBack` | SrvSocket/liblua/src/llex.c:276-329 | reading what was quoted gives the same bytes and ends behind the closing quote, whatever follows; it fails exactly when the chunk gets too many lines |
| `StrQuote.NotReadBack` | SrvSocket/liblua/src/llex.c:127-135 | the failing input: as many line ends as the limit on lines, quoted at the start of a chunk, are not read back |
| `StrQuote.QuoteAndRead` | SrvSocket/liblua/src/lstrlib.c:696-723 | quoting and then reading is the identity |
| `TabSort.Sort` | SrvSocket/liblua/src/ltablib.c:256-264 | under a strict weak order the table is a sorted permutation afterwards |
| `TabSort.AuxSort` | SrvSocket/liblua/src/ltablib.c:193-254 | sorts the slots from l to u and leaves the others; nested calls are at most 1 + log2 of their number |
| `TabSort.Partition` | SrvSocket/liblua/src/ltablib.c:222-241 | the scans meet at a place for the pivot between smaller and greater elements |
| `TabSort.ScanUp` | SrvSocket/liblua/src/ltablib.c:225-229 | stops at the pivot before the last slot at the latest; the order is never reported as invalid |
| `TabSort.ScanDown` | SrvSocket/liblua/src/ltablib.c:230-234 | stops at the first slot at the latest; the order is never reported as invalid |
| `TabSort.Pivot` | SrvSocket/liblua/src/ltablib.c:197-241 | two or three elements are sorted, more are split around a pivot |
| `TabSort.SettledSplit` | SrvSocket/liblua/src/ltablib.c:242-252 | after one part has been sorted only the other part is out of order |
| `TabSort.DepthMore` | SrvSocket/liblua/src/ltablib.c:244-252 | a call for the smaller part is one level deeper on at most half of the elements |
| `NetPackets.XorTwice` | New Unity Project/Network/network/NetPacket.cs:76-98 | the exclusive or with the same number twice gives the number back |
| `NetPackets.CryptTwice` | New Unity Project/Network/network/NetPacket.cs:76-98 | encrypting and decrypting with the same key undo each other |
| `NetPackets.HeadStays` | New Unity Project/Network/network/NetPacket.cs:99-126 | a header that was recognized is recognized in the same way when more bytes have arrived |
| `NetPackets.HeadOfFrame` | New Unity Project/Network/network/NetPacket.cs:27-35 | a frame is recognized, whatever follows, exactly when its payload has 1 to 16384 bytes |
| `NetPackets.NetPacket.GetBuffer` | New Unity Project/Network/network/NetPacket.cs:27-35 | flag, number and size in network order, payload |
| `NetPackets.NetPacket.XorBuffer` | New Unity Project/Network/network/NetPacket.cs:76-86 | the loop applies the key cyclically, byte by byte |
| `NetPackets.NetPacket.BeginRead` | New Unity Project/Network/network/NetPacket.cs:99-126 | 0, -1 or the size of the packet, whose fields are taken from the input |
| `NetPackets.NetPacket.AddCmdPacket` | New Unity Project/Network/network/NetPacket.cs:36-43 | payload, size and protocol flag are set; a size beyond 16 bits is an error |
| `NetSession.ReceiveMore` | New Unity Project/Network/network/TcpSession.cs:197-219 | the stream may be cut anywhere: receiving both parts one after the other is receiving the whole |
| `NetSession.RunIsReceive` | New Unity Project/Network/network/TcpSession.cs:301-325 | any sequence of pieces ends like the whole stream |
| `NetSession.StreamReceived` | New Unity Project/Network/network/TcpSession.cs:374-395 | the stream of a peer, keys changed by its own announcements, gives its messages in order and leaves no byte over |
| `NetSession.ChunksReceived` | New Unity Project/Network/network/TcpSession.cs:124-145 | for all messages of legal sizes and all ways to cut their stream the receiver gets the same payloads and system flags in order and never goes dead |
| `NetSession.DeadAtIllegalSize` | New Unity Project/Network/network/NetPacket.cs:110-114 | the session goes dead exactly when a message has an illegal size, and the messages before the first such one have been received |
| `NetSession.EmptyKills` | New Unity Project/Network/network/NetPacket.cs:110-114 | the failing input: a frame with an empty payload makes the session go dead |
| `NetSession.AllDelivered` | New Unity Project/Network/network/TcpSession.cs:124-145 | once connected, all payloads that are no system packets are delivered in order |
| `NetSession.ConnectsExactly` | New Unity Project/Network/network/TcpSession.cs:147-175 | exactly the system packets that start with 0 and 1 and hold a number connect; they set the sixteen key bytes of the number, or turn encryption off for zero |
| `NetSession.ConnectsAndDelivers` | New Unity Project/Network/network/TcpSession.cs:124-175 | from a new session on, for every cutting of the stream: connected in the end exactly if some message announced a number, and all data behind the first such message is delivered in order |
| `NetSession.FirstConnects` | New Unity Project/Network/network/TcpSession.cs:147-175 | if the first message announces a number, all data behind it is delivered, with the key of that number |
| `NetTcp.Session` | New Unity Project/Network/network/TcpSession.cs:80-145 | a new session object on the stream of a peer, in any pieces, has this outcome: its state, the payloads delivered, nothing left in the buffer |
| `NetTcp.TcpSession.ListenThread` | New Unity Project/Network/network/TcpSession.cs:301-325 | reading and processing go on until nothing comes and no whole packet is left; the session is closed only for an illegal header |
| `NetWire.CryptBits` | New Unity Project/Network/network/NetPacket.cs:76-98 | encryption, bit by bit: a bit is flipped exactly if the key byte at the position modulo the length of the key has it |
| `NetWire.SeedByte` | New Unity Project/Network/network/TcpSession.cs:176-191 | byte i of a key is the number divided by 19 to the i, modulo 255, plus one |
| `NetWire.FrameBytes` | New Unity Project/Network/network/NetPacket.cs:27-35 | the bytes of a frame: flags, number and size with the high byte first, payload |
| `NetWire.FlagNumbers` | New Unity Project/Network/network/NetPacket.cs:44-75 | the first byte in numbers: 80, and 1 for encryption, 2 for compression, 4 for the system |
| `NetWire.HeadBytes` | New Unity Project/Network/network/NetPacket.cs:99-126 | what five bytes of input mean as a header, in numbers |
| `NetTcp.TcpSession.SendPacket` | New Unity Project/Network/network/TcpSession.cs:374-395 | what the socket took followed by the write buffer is all frames in the order of sending; the packet has the next number, the flags and the encryption of the session |
| `NetTcp.TcpSession.FlushData` | New Unity Project/Network/network/TcpSession.cs:403-423 | whatever the socket takes, nothing is lost or repeated |
| `NetTcp.TcpSession.SetSeed` | New Unity Project/Network/network/TcpSession.cs:176-191 | sixteen key bytes from the number, or encryption off for zero |
| `NetTcp.TcpSession.RecvPacket` | New Unity Project/Network/network/TcpSession.cs:197-219 | takes one packet off the read buffer and decrypts it, waits, or goes dead |
| `NetTcp.TcpSession.GetPacket` | New Unity Project/Network/network/TcpSession.cs:124-145 | handles system packets and returns the next other one; what was received and what is left in the buffer together stay the same |
| `NetTcp.TcpSession.HandleSysPacket` | New Unity Project/Network/network/TcpSession.cs:147-175 | a packet that starts with the bytes 0 and 1 and has a number behind them connects the session and sets its key, or turns encryption off for zero; one that starts with 0 and 2 is, once connected, answered with 0 and 3 and its four bytes; others change nothing |
| `NetTcp.TcpSession.ReadData` | New Unity Project/Network/network/TcpSession.cs:301-325 | new bytes are appended to the read buffer |
| `NetTcp.TcpSession.Process` | New Unity Project/Network/network/TcpSession.cs:80-110 | after a round all complete packets of everything that came have been received |
| `NetTcp.NextSeq` | New Unity Project/Network/network/TcpSession.cs:380-381 | the k-th number is ((k-1) mod 65000) + 1 |
| `NetTcp.InSequenceExactly` | New Unity Project/Network/network/TcpSession.cs:374-395 | for every sequence of payload sizes: every k-th frame carries the number ((k-1) mod 65000) + 1 if and only if, before each payload that is sent, the count of those of 65536 bytes or more is a multiple of 65000 |
| `NetTcp.InSequenceUnlessLost` | New Unity Project/Network/network/TcpSession.cs:374-395 | so with fewer than 65000 of those, the numbers are in sequence if and only if none of them is followed by a payload that is sent |
| `NetTcp.NumberSkipped` | New Unity Project/Network/network/TcpSession.cs:374-395 | the failing input: after payloads of 1 and 65536 bytes the next frame is the second one and carries number 3 |
| `NetTcp.NumbersIncrease` | New Unity Project/Network/network/TcpSession.cs:380-381 | the k-th frame has at least number k, and numbers increase from frame to frame |
| `NetTcp.SessionNumbers` | New Unity Project/Network/network/TcpSession.cs:374-395 | the numbers in the frames of a session increase, and are in sequence exactly under that condition on the payloads it was given |
| `NetTcp.LogIsStream` | New Unity Project/Network/network/TcpSession.cs:374-395 | what the socket took and what is pending is, whatever numbers were lost, a stream that a peer with the same key reads back |
| `NetTcp.AllCame` | New Unity Project/Network/network/TcpSession.cs:124-145 | a session that has read all of a peer's stream has all its messages, and its read buffer is empty |
| `JsonParse.RoundTrip` | SrvSocket/libbase/src/json.c:1789-2442 | parsing what was printed gives the same tree, for every well-formed tree with an object or an array at its root |
| `JsonEvery.ReadExactly` | SrvSocket/libbase/src/json.c:1789-2442 | which texts are read: a C string is read as a tree if and only if it spells the tree, with white space and comments before its tokens, white space or one of `]`, `}`, `,` behind each number, possibly a comma behind the last element of an array, and behind the root only white space, comments and possibly something unfinished |
| `JsonErrors.IncompleteExactly` | SrvSocket/libbase/src/json.c:1789-2442 | which texts are found incomplete: exactly the empty one and those that spell some of the first tokens of a tree, but not all, with gaps and something unfinished behind them; every other text that is not read is malformed, and there is no other error |
| `JsonSpaces.PrintSpaced` | SrvSocket/libbase/src/json.c:1789-2442 | the printed text of every well-formed tree, with any spaces, tabs, line feeds and carriage returns before, between and behind its tokens, is read as that tree |
| `JsonTokens.TokensAccepted` | SrvSocket/libbase/src/json.c:1789-2410 | the tokens of every object and array are accepted and give its tree, with a comma more in arrays or not |
| `JsonTokens.AcceptedIsTokens` | SrvSocket/libbase/src/json.c:1789-2410 | every list of tokens that is accepted is the tokens of a tree, of the one that it gives |
| `JsonSpell.SpelledIsRead` | SrvSocket/libbase/src/json.c:1003-1786 | spelled tokens are read one by one, whatever gaps stand before them |
| `JsonEvery.StreamBack` | SrvSocket/libbase/src/json.c:1003-1786 | every text that the lexer reads to its end is spelled: each token stands there, behind white space and comments, and what is left is unfinished |
| `JsonSpell.RestIsRead` | SrvSocket/libbase/src/json.c:1003-1786 | an unfinished token or comment at the end stops the lexer without an error, unless it breaks off behind two hexadecimal digits of a character |
| `JsonGrammar.NumberGrammar` | SrvSocket/libbase/src/json.c:1414-1690 | number texts are exactly those of section 6 of RFC 8259: sign, integer part, fraction and exponent |
| `JsonGrammar.StringGrammar` | SrvSocket/libbase/src/json.c:1078-1300 | string texts are exactly the lists of plain characters, escapes with one of eight letters, and `\u` with four hexadecimal digits |
| `JsonParse.ValueRead` | SrvSocket/libbase/src/json.c:1789-2410 | a printed value is read where a value is expected, and is attached below the cursor |
| `JsonParse.KidsRead` | SrvSocket/libbase/src/json.c:1855-2400 | the printed members of an object or array are read one by one up to its end |
| `JsonLexer.LexNumber` | SrvSocket/libbase/src/json.c:1414-1690 | every number of section 6 of RFC 8259 is one token with the same text |
| `JsonLexer.LexString` | SrvSocket/libbase/src/json.c:1078-1300 | every string text, escape sequences included, is one token with the same text |
| `JsonLexer.LexWord` | SrvSocket/libbase/src/json.c:1300-1410 | `true`, `false` and `null` are one token each |
| `JsonLexer.Lexer.Next` | SrvSocket/libbase/src/json.c:1003-1786 | the loop over states and characters gives the token of the definition |
| `JsonText.Escape` | SrvSocket/libbase/src/json.c:890-945 | the loop of `json_escape` escapes every character |
| `JsonText.EscapedIsText` | SrvSocket/libbase/src/json.c:890-945 | what `json_escape` makes of any C string is the text of a string |
| `JsonText.EscapeInjective` | SrvSocket/libbase/src/json.c:890-945 | different strings have different escaped texts |
| `JsonGrammar.EscapedStands` | SrvSocket/libbase/src/json.c:890-945 | escaped text stands for the string that was escaped, each escape for its character |
| `JsonDoc.Document.ToString` | SrvSocket/libbase/src/json.c:507-732 | from any value, the walk over the links writes exactly the text of the tree that the nodes form, or fails exactly when a label has no value; a string without a parent counts as a label |
| `JsonDoc.Document.InsertChild` | SrvSocket/libbase/src/json.c:392-472 | the child becomes the last one, with all links set, or is refused by its type |
| `JsonDoc.TakesExactly` | SrvSocket/libbase/src/json.c:400-454 | an array or a label takes exactly what may be an element, an object exactly labels, nothing else takes a child |
| `JsonDoc.RepOnce` | SrvSocket/libbase/src/json.c:507-732 | linked nodes form one tree only |
| `JsonBuild.SpinePush` | SrvSocket/libbase/src/json.c:1846-1880 | a new node below the cursor is linked in, and everything read before keeps its tree |
| `JsonBuild.SpineFold` | SrvSocket/libbase/src/json.c:1880-1960 | when the cursor goes up the closed value is one more below its parent |
| `JsonParser.Parser.AddLeaf` | SrvSocket/libbase/src/json.c:2050-2160 | a value without children is attached below the cursor |
| `JsonParser.Parser.CloseValue` | SrvSocket/libbase/src/json.c:1890-1930 | at the end of an object or array the cursor goes to the place where its parent goes on |
| `JsonParser.Parser.Step` | SrvSocket/libbase/src/json.c:1789-2410 | one round of the loop does what the machine on trees does, on the linked nodes |
| `JsonParser.ParseText` | SrvSocket/libbase/src/json.c:2412-2442 | the nodes form the tree that the text means, or the error is returned |
| `JsonParser.WriteAndRead` | SrvSocket/libbase/src/json.c:507-732 | printing a document and parsing the text gives a document that forms the same tree |
| `FuncUpvals.Thread.FindUpval` | SrvSocket/liblua/src/lfunc.c:53-79 | the one open upvalue for the slot, alive; a new one comes into its place in the descending list and into the ring |
| `FuncUpvals.Thread.Close` | SrvSocket/liblua/src/lfunc.c:96-112 | exactly the upvalues at or above the level leave the list; every one that stays in existence holds the value it held |
| `FuncUpvals.Thread.Unlink` | SrvSocket/liblua/src/lfunc.c:82-86 | exactly this one leaves the ring, whose double links stay consistent |
| `FuncUpvals.RingAdd` | SrvSocket/liblua/src/lfunc.c:72-77 | linking in behind the head keeps the ring consistent |
| `FuncUpvals.RingRemove` | SrvSocket/liblua/src/lfunc.c:82-86 | unlinking keeps the ring consistent |
| `StrTable.StringTable.Intern` | SrvSocket/liblua/src/lstring.c:75-93 | returns the one string with the content, alive; it is the old one if there is one, and every other string stays |
| `StrTable.StringTable.Resize` | SrvSocket/liblua/src/lstring.c:22-47 | every string is in the chain for its hash value in the new table; nothing happens during a sweep |
| `StrTable.StringTable.NewLStr` | SrvSocket/liblua/src/lstring.c:50-72 | the new string is first in its chain and counted, and the table grows when it is crowded |
| `StrTable.StringTable.ComputeHash` | SrvSocket/liblua/src/lstring.c:77-80 | the loop computes the hash value of the content |
| `StrTable.StringTable.SweepBucket` | SrvSocket/liblua/src/lgc.c:407-428 | exactly the dead strings of the bucket are unlinked, freed and no longer counted |
| `StrTable.NotFound` | SrvSocket/liblua/src/lstring.c:81-89 | a content that is not in its bucket is nowhere in the table |
| `StrTable.SameObject` | SrvSocket/liblua/src/lstring.c:75-93 | two strings of the table are the same object exactly when they have the same content |
| `AuxLib.RefTable.Ref` | SrvSocket/liblua/src/lauxlib.c:481-501 | the reference is new, and every live one keeps its value, whatever border `lua_objlen` returns |
| `AuxLib.RefTable.RefValue` | SrvSocket/liblua/src/lauxlib.c:481-501 | nil has the fixed reference and changes nothing |
| `AuxLib.RefTable.Unref` | SrvSocket/liblua/src/lauxlib.c:504-512 | exactly this reference is given up |
| `AuxLib.NoHole` | SrvSocket/liblua/src/lauxlib.c:488-496 | when the free list is empty there is no hole, and every border is the last slot |
| `AuxLib.TakeFree` | SrvSocket/liblua/src/lauxlib.c:488-493 | taking the first free slot keeps the free list acyclic, with its only empty slot at the end |
| `AuxLib.GiveBack` | SrvSocket/liblua/src/lauxlib.c:504-512 | giving a slot back keeps it so |
| `AuxLib.Buffer.AddValue` | SrvSocket/liblua/src/lauxlib.c:454-469 | the string is added to the contents, and at most nine strings are on the stack afterwards |
| `AuxLib.Buffer.AdjustStack` | SrvSocket/liblua/src/lauxlib.c:410-426 | joining the topmost strings keeps the contents and makes room on the stack |
| `AuxLib.Buffer.PushResult` | SrvSocket/liblua/src/lauxlib.c:447-451 | one string with all contents is on the stack, and what was below is as before |
| `ParseScope.Parser.SingleVarAux` | SrvSocket/liblua/src/lparser.c:224-245 | finds the innermost visible declaration; further out, the descriptor that it returns leads to it through any number of functions, and its block is marked |
| `ParseScope.Parser.SingleVar` | SrvSocket/liblua/src/lparser.c:248-253 | a name is global exactly when no enclosing function declares it |
| `ParseScope.Parser.IndexUpvalue` | SrvSocket/liblua/src/lparser.c:183-204 | reuses the descriptor if there is one, so that none occurs twice |
| `ParseScope.Parser.SearchVar` | SrvSocket/liblua/src/lparser.c:207-214 | the last active declaration of the name in one function |
| `ParseScope.Parser.MarkUpval` | SrvSocket/liblua/src/lparser.c:217-221 | the innermost block around the slot is marked |
| `ParseScope.Parser.LeaveBlock` | SrvSocket/liblua/src/lparser.c:296-307 | upvalues are closed exactly if one of the block's variables was captured |
| `ParseScope.Parser.EnterBlock` | SrvSocket/liblua/src/lparser.c:285-293 | a new block without captured variables |
| `ParseScope.Parser.Declare` | SrvSocket/liblua/src/lparser.c:160-173 | one more active variable; all descriptors lead where they led |
| `ParseScope.Parser.OpenFunc` | SrvSocket/liblua/src/lparser.c:328-353 | a new innermost function |
| `ParseScope.Parser.CloseFunc` | SrvSocket/liblua/src/lparser.c:356-380 | the innermost function is done; the others' descriptors lead where they led |
| `ParseScope.VisibleIs` | SrvSocket/liblua/src/lparser.c:224-245 | the visible declaration has the name, and none further in has it |
| `ParseScope.UpvalueAdded` | SrvSocket/liblua/src/lparser.c:183-204 | a new descriptor leads to its variable, and all others lead where they led |

## Left out

- Collector: thresholds, debt, estimates, `checkSizes` and the sizes of objects; steps may come at any time.
- Collector: `luaC_freeall`, and whatever finalizers do; calling one takes the userdata out of its list.
- Collector: slots of a stack above its top; the registry and the globals tables stay the same objects.
- Collector: `__mode` and `__gc` are looked up in a metatable as two of its fields, not through its nodes; every write to a table may change them.
- Collector: the sweep of one bucket of the string table is one step, as in the program, and the strings of a function prototype are one list.
- GcCollector.Collector.Link: memory comes at an address that is not in use; how it is found is not modelled.
- Code generator: constants and numerals as operands, constant folding, arithmetic, indexing and calls. With literal operands the jump that `luaK_goiftrue` emits may adopt jumps that still carry a value, and the meaning is not preserved in this form.
- Code generator: comparisons have no metamethods, registers and jump offsets no upper limits, and line information is left out.
- CodeState.FuncState.CodeComp: its first operand is in a register already, where `luaK_infix` has put it before the second operand was compiled.
- StrMatch.MatchState.Match: patterns are C strings, so a NUL in a pattern ends it; the depth of the recursion has no limit.
- StrMeaning.TextMeans: the patterns that are written have no range that ends in a percent sign. The program takes the percent sign as the end of the range, but passes over the character behind it when it looks for the end of the set; `StrMatch.MatchState.MatchBracketClass` and `FindClassEnd` cover this.
- Pattern matching: `gmatch`, `gsub`, `strfind` without special characters, and the results that are pushed from the captures.
- TabSort.Sort: an order that is not a strict weak one is excluded, as the manual of the language excludes it; reading slots beyond the range is then not modelled.
- NetTcp.TcpSession.FlushData: errors of the socket are not modelled; it takes any number of bytes.
- Session: connecting, timeouts, threads and locks, the measured round-trip time, and the accessors of `CmdPacket` other than those that system packets need.
- JSON: `json_saxy_parse`, parsing in several fragments, formatting, freeing, `json_unescape`, and memory that runs out.
- JsonDoc.Document.ToString: numbers, words and strings in arrays have nothing below them.
- FuncUpvals.Thread.FindUpval: one thread at a time; upvalues of other threads are members of the ring only.
- StrTable.StringTable.Intern: the size limit of a string and the limit on the size of the table are left out, and the bucket is the remainder, which the mask computes for powers of two.
- AuxLib.RefTable.Unref: releasing a reference that is not live is excluded.
- Scope resolution: the limits on the numbers of variables and upvalues, and the code that is emitted for closures.
- Classes `TString`, `UpVal` and `json_t` are records in a map or a sequence with their links as fields, so links to freed records cannot be followed.
