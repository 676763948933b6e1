# Claw, modelled and verified

Claw is a small language with a bytecode compiler, a stack machine, a C code generator and an auto-scheduler for
tensor programs. This project models the parts of it where correctness is hardest to see and proves what they are for.
`dafny verify dfyconfig.toml` checks everything.

## The bytecode compiler

`Ast` is the fragment of the language that the compiler's core lowers: let, assignment, if / else-if / else, while,
loop, the range, counting and array forms of for, break, continue, return, blocks and expression statements.
`Semantics` runs it directly, with a bound on loop iterations; `Machine` is one frame of the stack machine, step by
step; `Runs` is about runs of any step function. `Lowering` says which code is emitted, and the class in
`BytecodeCompiler` emits it as the source does: it appends, patches jumps in place, and pushes and pops scopes and
loops. `Correctness` has the main result: compiled code stops with a result if and only if the source does, and runs
for ever if and only if the source does. It needs that no unset variable is read; `Definedness` gives a check on the
text that is enough for that, so that for functions that pass it nothing is assumed about runs. `Covered` says which
functions these theorems are about by the names and statements that stand in their text. `Operators` has the laws of the
machine's operators, and `Listing` one function with all its code. `Variables` says what statements leave alone. `StackDepth`, `RangeCount` and `ScopeHistory` are about all runs: operand depths, how often
for loops run, and what names resolve to.

The compiler does not do what the language promises in a few spots, and the code is modelled as it is. The semantics
therefore has a flag: *as built* follows the compiler, the other reading is the language's. The main theorem is about
the reading as built. `Documented` defines the *clean* programs, shows that both readings agree on them, and gives one
program for each spot outside:

- a loop remembers one break and one continue; earlier ones are left unpatched and fall through;
- an if-arm whose last instruction is RET gets no jump past the other arms, even if it completes;
- a POP at the very end of a function becomes RET, even if the expression was not its last statement;
- a body whose code ends in RET gets no RET_NULL; if it completes, the machine stops at the end of the code
  (`src/vm/claw_vm.cpp:2029`) where nil would be returned;
- the hidden variables of for loops have ordinary names (`__end`, `__arr`, `__len`, `__idx`); `ReservedNames` says how
  often a range loop runs whose body assigns one.

Others are part of both readings: `and` and `or` evaluate both operands, integer literals are cut to 32 bits, range
loops include their upper bound, a bare block opens no scope, and a range loop's variable is in scope, but unset,
while its bounds are evaluated.

To keep proofs about records of code short, some functions come twice: written out (`CompStmt`, `Exec`, `FourBytes`),
and as a value that is known to agree with it everywhere (`Code`, `Reading`, `U32Bytes`). Lemmas named `...Is` or
`...Unfolds` go from one to the other. For the same reason a few relations (`Goes`, `Grows`, `Agree`, `Sound`) are
membership in the set of the facts that hold.

## Ownership in the generated C

`Ownership` says which frees the C generator emits, as a function of the source and of the stack of scopes;
`CCodeGenerator` is the generator with its scope stack, writing lines; `CProgram` gives the emitted programs a heap,
calls, and the counters of for loops. `CLines` has the lines, and a reader that finds the program in them; `CMeaning`
follows source and C event by event; `EmittedC` puts them together: what is read back from the lines does what the source
says, and frees what it owns. Guards are answered by an arbitrary list of choices, so a statement about all
lists is one about all paths. The repository's own README (lines 25-28) gives the rule: a scope frees what it owns, and
what a return hands over is freed by the scope of the caller. `FunctionOwns` proves it for whole programs, `CallOwns`
for one call. Its side conditions are a check on the text (`FineProgram`; `FinePrograms` has two classes of programs that pass it);
`OwnershipExact` says for each kind of
statement exactly when it goes wrong or loses an object, also where the text is not fine (`LetExact`, `SetExact`,
`DiscardExact`, `ReturnExact`, `BreakExact`). That README (lines 17-31) presents `let s = "hello"` as an allocation;
the generator emits a plain pointer to the literal and still frees it (`StringLiteralIsFreed`). It also leaks at a break
that leaves a scope with heap variables (`BreakLeaks`), and a return inside a for loop whose counter has the name of a
heap variable frees the counter (`CounterIsFreed`).

## The bytecode file

`Serializer` gives the bytes of a module and what the reader makes of any bytes, errors included; `BytecodeFile` has
the writer and the reader as classes over a growing buffer and a cursor. `FileLayout` says which bytes stand where, as
numbers, with one whole file.

## The auto-scheduler

`ScheduleCache` and `CacheRuns`: the two-level cache, its eviction loop, and all runs of insertions. `ConfigSignature`
and `SignatureTwins`: the text a configuration is keyed by, and exactly which configurations it tells apart.
`CachingEvaluator`: why a cached answer is the base evaluator's. `SearchStrategy`: the random and the evolutionary
search. `OutlierFilter`: the final time of a measurement, over real numbers, with a Chebyshev bound on what the filter
drops.

## Smaller parts

`EventLoop` (commands and events after `main`), `ConstantFolder`, `DeadCode`, `AotLayout` and `ArrayRange`. `Selection` is
about picking members of a sequence by their indices.

## Model

| member | source | states |
|---|---|---|
| Correctness.CallRuns | src/bytecode/bytecode_compiler.cpp:89-182 | Whatever a call of a source function does (returns a value, completes, fails, or is still running after so many steps), the code compiled for it does too: same result, same globals, no other way to stop |
| Correctness.StopsExactly | src/bytecode/bytecode_compiler.cpp:89-182 | The loaded code stops with a given result if and only if the source does, when no unset variable is read |
| Correctness.DivergesExactly | src/bytecode/bytecode_compiler.cpp:89-182 | The loaded code runs for ever if and only if the source does, when no unset variable is read |
| Definedness.SafeIsDefined | src/bytecode/bytecode_compiler.cpp:690-759 | A check on the text (no expression mentions the variable of a range loop in its own lower bound, or of an array loop before its first element) is enough for no call ever to read an unset variable, in either reading |
| Definedness.SafeRunsExactly | src/bytecode/bytecode_compiler.cpp:89-182 | For every function that passes this check, with nothing assumed about its runs: the loaded code stops with a result if and only if the source does, and runs for ever if and only if the source does |
| Definedness.SafeCleanRunsExactly | src/bytecode/bytecode_compiler.cpp:89-182 | For clean functions that pass it, the same for what the language documents |
| Definedness.OwnBoundIsUnset | src/bytecode/bytecode_compiler.cpp:694-703 | A range loop whose lower bound is its own variable always reads it unset |
| Covered.LoadedExactly | src/bytecode/bytecode_compiler.cpp:89-182 | Which loaded functions the theorems are about: no name mentioned is reserved, no break or continue stands outside the loops, the arguments are as many as the parameters, and code, pool and locals number less than 2^31; nothing else is asked of the text |
| Covered.FunctionSafe | src/bytecode/bytecode_compiler.cpp:690-759 | The check passes every function without an array loop whose range loops do not mention their own variable in their lower bound, and an array loop in front of such a body that does not mention its variable |
| Covered.FunctionClean | src/bytecode/bytecode_compiler.cpp:419-488 | Without break and continue, every function is clean that has no if and no block, and every one that has no return and no expression statement |
| Covered.GuardedJump | src/bytecode/bytecode_compiler.cpp:1093-1116 | A guarded break or continue in front of a clean loop body keeps it clean exactly when the rest has no other one of its kind in this loop |
| Covered.CompiledAsDocumented | src/bytecode/bytecode_compiler.cpp:89-182 | For functions told by the names and statements their text contains, and by nothing else: the loaded code stops with a result if and only if the documented call does, and runs for ever if and only if it does |
| Listing.ExampleListing | src/bytecode/bytecode_compiler.cpp:89-182 | The nineteen instructions and three constants of a function with a let, a while, an if, a break, an assignment and a result, operands as stored |
| Correctness.FunctionBegins | src/bytecode/bytecode_compiler.cpp:133-138 | Parameters occupy the first slots: entry locals and the lowered parameter scope agree, also with repeated names |
| Documented.CleanStopsExactly | src/bytecode/bytecode_compiler.cpp:419-488 | For a clean function (at most one break and one continue per loop, no arm ending in RET that completes, a real tail expression) the code means what the language says, in both directions |
| Documented.CleanDivergesExactly | src/bytecode/bytecode_compiler.cpp:419-488 | The code of a clean function runs for ever if and only if the documented meaning does |
| Documented.CleanCall | src/bytecode/bytecode_compiler.cpp:151-165 | On a clean function the compiled reading and the documented one agree for every call and every number of steps |
| Documented.FirstBreakIsLost | src/bytecode/bytecode_compiler.cpp:1093-1104 | Two breaks in one loop: the index of the first is overwritten, so it falls through |
| Documented.FirstContinueIsLost | src/bytecode/bytecode_compiler.cpp:1106-1116 | Two continues in one loop: the first falls through |
| Documented.ArmFallsIntoNext | src/bytecode/bytecode_compiler.cpp:454-465 | An arm whose last instruction is RET gets no exit jump even when it completes: control runs into the next arm |
| Documented.SilentTailReturns | src/bytecode/bytecode_compiler.cpp:152-165 | An expression statement followed by a block that emits nothing becomes the return value, because its POP is rewritten to RET |
| Documented.FallsOffTheEnd | src/bytecode/bytecode_compiler.cpp:157-165 | A body whose code ends in RET but completes gets no RET_NULL: the machine runs off the end of the code where the documented result is nil |
| ReservedNames.ReservedNameHitsBound | src/bytecode/bytecode_compiler.cpp:690-759 | The code of a range loop over a..z whose body assigns n to the reserved name __end runs its body once for a, if a <= z, and then for a + 1, ..., n |
| StmtProof.StmtRuns | src/bytecode/bytecode_compiler.cpp:271-348 | Simulation of one statement: normal completion, break, continue, return, failure and running on all arrive where the code says, with agreeing locals and equal globals, through all patched jumps |
| StmtProof.AllRuns | src/bytecode/bytecode_compiler.cpp:1118-1128 | Simulation of a statement list, with the tail flag on the last member only |
| StmtProof.ArmsRun | src/bytecode/bytecode_compiler.cpp:419-488 | Simulation of if / else-if / else, including arms without an exit jump |
| StmtProof.WhileRuns | src/bytecode/bytecode_compiler.cpp:985-1033 | Simulation of while: test, body, back jump, patched break to the end and continue to the test |
| StmtProof.LoopRuns | src/bytecode/bytecode_compiler.cpp:1035-1073 | Simulation of loop: runs on for ever unless its body leaves it |
| StmtProof.ForRangeRuns | src/bytecode/bytecode_compiler.cpp:690-759 | Simulation of the range loop: the variable slot exists before its bounds are evaluated, the test is IGT, continue reaches the increment |
| StmtProof.ForCountRuns | src/bytecode/bytecode_compiler.cpp:762-826 | Simulation of `for i in n`, which counts from 1 to the literal cut to int |
| StmtProof.ForEachRuns | src/bytecode/bytecode_compiler.cpp:827-897 | Simulation of the array and string loop: hidden array, length and index, test, load of the element, increment |
| StmtProof.AssignGlobalRuns | src/bytecode/bytecode_compiler.cpp:401-417 | Assigning a name no scope knows stores the global of that name |
| StmtProof.HoleRuns | src/bytecode/bytecode_compiler.cpp:1093-1116 | A patched break or continue leaves for its target; an unpatched one is a jump to the next instruction |
| ExprProof.ExprRuns | src/bytecode/bytecode_compiler.cpp:1327-1386 | The code of an expression pushes exactly its value, leaves the lower stack, the locals and the globals alone, fails when it fails, and stays right in any larger constant pool |
| ExprProof.StringPooledOnce | src/bytecode/bytecode_compiler.cpp:1915-1925 | A string already in the pool is found again, and adding more constants later does not move it |
| ExprProof.FindStringFinds | src/bytecode/bytecode_compiler.cpp:1915-1925 | The search returns the first equal string or the end of the pool |
| Agreement.ResolveAgrees | src/bytecode/bytecode_compiler.cpp:1776-1784 | Looking a name up in the scope stack finds a slot exactly when the source has the variable, and the slot holds its value |
| Agreement.StoreAgrees | src/bytecode/bytecode_compiler.cpp:401-417 | Storing through a resolved slot is assignment: every other visible variable keeps its value |
| Placement.PlaceLoop | src/bytecode/bytecode_compiler.cpp:1857-1862 | Filling the jump holes of a loop from its own addresses places every part of the loop and of its body |
| LoweringFacts.StmtGood | src/bytecode/bytecode_compiler.cpp:1764-1793 | Lowering any statement keeps distinct bindings in distinct slots below the counter, only appends to the pool, and restores the outer scopes |
| Runs.RunSplit | src/vm/claw_vm.cpp:2028-2165 | A run of m + n steps is a run of m steps followed by one of n steps |
| Runs.FinalUnique | src/vm/claw_vm.cpp:2028-2165 | A run has at most one final result |
| Values.OperandRoundTrip | src/bytecode/bytecode_compiler.cpp:1818-1824 | An operand survives the cast to uint32_t and back exactly when it is an int32_t |
| Values.U32IsModulo | src/bytecode/bytecode_compiler.cpp:1818-1824 | The cast to uint32_t is reduction modulo 2^32 |
| Values.CutIsModulo | src/bytecode/bytecode_compiler.cpp:1327-1386 | The cast of a literal gives the int that equals it modulo 2^32 |
| Values.WrapIsModulo | src/vm/claw_vm.cpp:2214-2233 | A 64-bit result is the int64_t that equals the exact one modulo 2^64 |
| Operators.RingLaws | src/vm/claw_vm.cpp:2214-2233 | Sums, differences and products are right modulo 2^64; adding back undoes a difference; -a plus a is 0 |
| Operators.QuotientLaws | src/vm/claw_vm.cpp:2235-2249 | Division and remainder fail on 0 alone; otherwise they make up the dividend, and the remainder is smaller than the divisor, with the sign of the dividend |
| Operators.ElementLaws | src/vm/claw_vm.cpp:3020-3056 | Index i reads element i of an array or a string, i - length the same one, and every other index fails, as does any other value |
| Operators.OrderLaws | src/vm/claw_vm.cpp:2322-2362 | Of <, == and > exactly the one is true that the difference says; the other comparisons are their negations |
| Operators.LogicLaws | src/vm/claw_vm.cpp:2450-2468 | And is true when both operands are, or follows by De Morgan, not negates |
| Operators.ValueLaws | src/vm/claw_vm.h:209-221 | Booleans count as 1 and 0, other non-numbers as 0, and the true values are those that do not count as 0 |
| StackDepth.DepthIsFunctionOfPc | src/bytecode/bytecode_compiler.cpp:89-182 | Every compiled function has one operand depth per instruction that holds in every run, whatever the arguments; no run underflows the stack, and every instruction reached finds the slot, the constant or the name of a global that its operand says |
| StackDepth.StepBalanced | src/vm/claw_vm.cpp:2181-2195 | A step of code with consistent depths keeps them and cannot fault |
| StackDepth.FunctionFlows | src/bytecode/bytecode_compiler.cpp:151-165 | The depths exist for every body, 0 at its start and its end, equal along all edges, with every jump target inside the code |
| StackDepth.JumpsAtDepthZero | src/bytecode/bytecode_compiler.cpp:1857-1862 | In every run of every compiled function a jump or a return finds nothing on the stack but its own operand, and a jump leaves the stack empty |
| StackDepth.LetWithoutInitializer | src/bytecode/bytecode_compiler.cpp:382-387 | A let without initializer pushes twice and stores once: one value is left on the stack |
| RangeCount.ForRangeRunsCount | src/bytecode/bytecode_compiler.cpp:690-759 | A range loop whose body does not assign its variable runs it exactly max(0, hi - lo + 1) times, with the variable lo, lo + 1, ..., hi, and ends with hi + 1; with less fuel it is still running |
| RangeCount.ForCountRunsCount | src/bytecode/bytecode_compiler.cpp:762-826 | The same for `for i in n`: once for 1, 2, ..., n, with n cut to 32 bits |
| RangeCount.IterateCounts | src/bytecode/bytecode_compiler.cpp:736-742 | One iteration adds exactly one to the loop variable, whatever the body does otherwise |
| RangeCount.ForRangeNeverEnds | src/bytecode/bytecode_compiler.cpp:708-742 | With the largest 64-bit integer as bound the loop never ends: the variable wraps around |
| RangeCount.ForRangeLeavesEarly | src/bytecode/bytecode_compiler.cpp:690-759 | A body that leaves the loop in iteration k ends it there, with the variable lo + k |
| RangeCount.ForEachRunsCount | src/bytecode/bytecode_compiler.cpp:827-897 | An array or string loop whose bodies complete runs them exactly as often as there are elements, for elements 0, 1, 2, ... in order, with the variable equal to the element; with less fuel it is still running; over any other value it fails |
| Variables.StmtKeeps | src/bytecode/bytecode_compiler.cpp:401-417 | A statement that does not assign a name leaves every outer variable of that name alone |
| ScopeHistory.ResolutionIsLexical | src/bytecode/bytecode_compiler.cpp:1764-1793 | After any run of enterScope, exitScope and allocateLocal a name resolves to its latest live declaration; live slots all differ and lie below nextSlot, which counts the declarations |
| ScopeHistory.SlotsNeverReused | src/bytecode/bytecode_compiler.cpp:1786-1793 | A later declaration never gets an earlier slot, even after its scope has closed |
| BytecodeCompiler.BytecodeCompiler.CompileFunction | src/bytecode/bytecode_compiler.cpp:89-182 | Leaves exactly the lowered code, pool and local count; succeeds exactly when no break or continue of the body lies outside its loops |
| BytecodeCompiler.BytecodeCompiler.CompileStatement | src/bytecode/bytecode_compiler.cpp:271-348 | Appends exactly the lowered statement, updates scopes, slots and pool as lowered, and notes the last break and continue for the innermost loop; inside a loop it never fails, outside it fails exactly for a break or continue that belongs to no loop of the statement |
| BytecodeCompiler.BytecodeCompiler.CompileBlock | src/bytecode/bytecode_compiler.cpp:1118-1128 | Appends the members in order, only the last one in tail position |
| BytecodeCompiler.BytecodeCompiler.CompileIf | src/bytecode/bytecode_compiler.cpp:419-488 | Appends all arms and patches every collected exit jump to the end |
| BytecodeCompiler.BytecodeCompiler.CompileWhile | src/bytecode/bytecode_compiler.cpp:985-1033 | Appends the loop with its exit, break and continue jumps patched, and restores the loop stack |
| BytecodeCompiler.BytecodeCompiler.CompileLoop | src/bytecode/bytecode_compiler.cpp:1035-1073 | Appends the endless loop with its jumps patched |
| BytecodeCompiler.BytecodeCompiler.CompileForRange | src/bytecode/bytecode_compiler.cpp:690-759 | Appends the range loop; the loop variable is allocated before the bounds are compiled |
| BytecodeCompiler.BytecodeCompiler.CompileForCount | src/bytecode/bytecode_compiler.cpp:762-826 | Appends the counting loop with its two constants |
| BytecodeCompiler.BytecodeCompiler.CompileForEach | src/bytecode/bytecode_compiler.cpp:827-897 | Appends the array loop with its three hidden variables |
| BytecodeCompiler.BytecodeCompiler.CompileBreak | src/bytecode/bytecode_compiler.cpp:1093-1104 | Emits a jump and remembers its index as the only break of the loop; fails outside of a loop |
| BytecodeCompiler.BytecodeCompiler.CompileContinue | src/bytecode/bytecode_compiler.cpp:1106-1116 | Emits a jump and remembers its index as the only continue of the loop; fails outside of a loop |
| BytecodeCompiler.BytecodeCompiler.CompileExpression | src/bytecode/bytecode_compiler.cpp:1327-1386 | Appends exactly the lowered expression and extends the pool as lowered |
| BytecodeCompiler.BytecodeCompiler.CompileAssign | src/bytecode/bytecode_compiler.cpp:401-417 | Appends the value and a store to the resolved slot, or to the global |
| BytecodeCompiler.BytecodeCompiler.CompileLet | src/bytecode/bytecode_compiler.cpp:376-399 | Appends the value and a store to a new slot |
| BytecodeCompiler.BytecodeCompiler.CompileExprStmt | src/bytecode/bytecode_compiler.cpp:1130-1162 | Appends the expression, then RET in tail position and POP elsewhere |
| BytecodeCompiler.BytecodeCompiler.CompileReturn | src/bytecode/bytecode_compiler.cpp:1075-1091 | Appends the value and RET, or RET_NULL |
| BytecodeCompiler.BytecodeCompiler.PatchJump | src/bytecode/bytecode_compiler.cpp:1857-1862 | Overwrites one operand with the distance to the target, and nothing else |
| BytecodeCompiler.BytecodeCompiler.FindOrAddString | src/bytecode/bytecode_compiler.cpp:1915-1925 | Finds the first equal string or appends it |
| BytecodeCompiler.BytecodeCompiler.AddConstant | src/bytecode/bytecode_compiler.cpp:1909-1913 | Appends without looking for an equal constant |
| BytecodeCompiler.BytecodeCompiler.ResolveVariable | src/bytecode/bytecode_compiler.cpp:1776-1784 | Innermost scope first; -1 if no scope has the name |
| BytecodeCompiler.BytecodeCompiler.AllocateLocal | src/bytecode/bytecode_compiler.cpp:1786-1793 | Binds the name in the innermost scope to the next slot |
| BytecodeCompiler.BytecodeCompiler.EnterScope | src/bytecode/bytecode_compiler.cpp:1764-1767 | Pushes an empty scope |
| BytecodeCompiler.BytecodeCompiler.ExitScope | src/bytecode/bytecode_compiler.cpp:1769-1774 | Pops a scope; slots are not given back |
| Ownership.FunctionOwns | src/codegen/c_codegen.h:265-323 | On every path of every function of a program whose text is fine (FineProgram), calls included, no free hits an unallocated or freed object and nothing freed is read; when the function ends, everything that it and the functions it called allocated has been freed exactly once, except the object it returns itself |
| Ownership.CallOwns | README.md:25-28 | What a return hands over is the caller's to free, and nothing else: a call, from any heap, adds to it exactly the object returned, and whatever else was allocated during the call has been freed exactly once |
| Ownership.StmtGood | src/codegen/c_codegen.h:359-398 | Every statement keeps it: the heap variables of the open scopes own exactly the live objects beyond the caller's, on every path, through calls and loops |
| Ownership.ForGood | src/codegen/c_codegen.h:675-723 | A for loop keeps it while its counter hides the variable of its name, if no heap variable in scope has that name |
| Ownership.IterationBalanced | src/codegen/c_codegen.h:725-762 | A loop iteration that comes back to the head leaves exactly the live objects it began with |
| OwnershipExact.ReturnExact | src/codegen/c_codegen.h:517-556 | A return, inside any for loops, goes wrong exactly when a counter around it has the name of a heap variable in scope that is not the one returned, or when its result reads a variable with an object and is more than that variable; otherwise it leaves exactly the object it returns, unless the name returned is a counter's in front of a variable with an object |
| OwnershipExact.BreakExact | src/codegen/c_codegen.h:852-860 | After a break the surroundings own all that is live exactly when the iteration had declared no object |
| OwnershipExact.LetExact | src/codegen/c_codegen.h:400-480 | A declaration of a heap variable keeps ownership exactly when the generator allocates for it, or when it starts as NULL or with the object a call hands over, and no object handed over on the way is dropped |
| OwnershipExact.SetExact | src/codegen/c_codegen.h:482-515 | An assignment to a heap variable keeps ownership exactly when it is given itself, or is NULL and given NULL or the object a call hands over, and no object handed over on the way is dropped |
| OwnershipExact.DiscardExact | src/codegen/c_codegen.h:950-971 | An expression statement keeps ownership exactly when no call in it hands over an object |
| OwnershipExact.BreakLeaks | src/codegen/c_codegen.h:852-860 | A concrete loop whose break leaks |
| OwnershipExact.CounterIsFreed | src/codegen/c_codegen.h:707-707 | A concrete for loop whose return frees the counter |
| OwnershipExact.StringLiteralIsFreed | src/codegen/c_codegen.h:400-480 | An initialized string is freed although it was never allocated |
| OwnershipExact.AliasIsFreedTwice | src/codegen/c_codegen.h:482-515 | Assigning one heap variable to another frees an object twice |
| OwnershipExact.MakerAndUser | src/codegen/c_codegen.h:536-547 | A function that returns a string it declared and one that declares a string from its call are fine together |
| FinePrograms.PointerlessIsFine | src/codegen/c_codegen.h:359-398 | Every program is fine that declares nothing on the heap and has break and continue inside loops only |
| FinePrograms.ArrayInside | src/codegen/c_codegen.h:624-658 | An array of any type, declared and used in a while, a for, a block or an arm of an if, is fine |
| FinePrograms.ContainsIs | src/codegen/c_codegen.h:99-105 | The search for a text in a type finds it exactly when it stands there somewhere |
| EmittedC.EmittedOwns | src/codegen/c_codegen.h:265-323 | Ownership of what is emitted: the same as FunctionOwns, for the programs that a reader of C finds in the lines of a fine program |
| EmittedC.FunctionReads | src/codegen/c_codegen.h:265-323 | The lines of a function are read back as exactly the program they were written from, with nothing left over |
| EmittedC.LinesMean | src/codegen/c_codegen.h:359-398 | On every path the program in the lines makes, points, declares, assigns, evaluates, tests, counts and gives what the source does, in the same order |
| EmittedC.ReturnFrees | src/codegen/c_codegen.h:517-556 | The lines of a return: one free for each variable of the open scopes but the one returned, in the order of FreeOrder, then the return |
| EmittedC.FreeOrderAt | src/codegen/c_codegen.h:517-556 | In that order variable j of a scope comes behind all variables of the scopes inside it, and behind the j before it |
| CMeaning.FunctionMeans | src/codegen/c_codegen.h:265-323 | The specified program does, on every path, what the source of the function says |
| CLines.ReadsBack | src/codegen/c_codegen.h:558-593 | Lines written from any program whose ifs have a condition are read back as that program, at the end of the text or in front of any closing line |
| CProgram.RunAccounted | src/codegen/c_codegen.h:192-200 | Along any run of any program, calls included, every object is live or freed, none is freed twice, and none comes back |
| CCodeGenerator.CCodeGenerator.GenerateFunction | src/codegen/c_codegen.h:265-323 | Emits exactly the lines of the specified program and empties the scope stack again; a reader of C finds in these lines a program that does, on every path, what the source says |
| CCodeGenerator.CCodeGenerator.GenerateReturn | src/codegen/c_codegen.h:517-556 | Emits a free for every heap variable of every open scope, innermost first, except the returned one, then the return |
| CCodeGenerator.CCodeGenerator.GenerateBody | src/codegen/c_codegen.h:624-658 | Pushes a scope, emits the statements and the frees of what they declared, pops the scope |
| CCodeGenerator.CCodeGenerator.GenerateIf | src/codegen/c_codegen.h:558-593 | Emits all arms, each body with its own scope |
| CCodeGenerator.CCodeGenerator.GenerateFor | src/codegen/c_codegen.h:675-723 | Emits the loop with its counter, and a scope of its own around that of its body |
| CCodeGenerator.CCodeGenerator.GenerateWhile | src/codegen/c_codegen.h:725-762 | Emits the loop with a scope of its own around that of its body |
| CCodeGenerator.CCodeGenerator.GenerateLet | src/codegen/c_codegen.h:400-480 | Emits an allocation or a plain declaration and registers heap variables |
| CCodeGenerator.CCodeGenerator.EmitScopeCleanup | src/codegen/c_codegen.h:660-673 | Emits the frees of the innermost scope in order of declaration |
| Serializer.ModuleRoundTrip | src/bytecode/bytecode.cpp:172-206 | Reading a written module followed by any bytes gives the module back, without an error, and stops at its end |
| Serializer.WritingIsInjective | src/bytecode/bytecode.cpp:23-50 | Different modules have different files |
| Serializer.TruncationIsNoticed | src/bytecode/bytecode.cpp:225-290 | Cutting a file anywhere sets the error, yet from the fourth byte on the reader still answers with a module |
| Serializer.ModuleStable | src/bytecode/bytecode.cpp:172-206 | A read without an error does not depend on what follows |
| Serializer.StringRoundTripExact | src/bytecode/bytecode.cpp:92-97 | A string comes back exactly when its length fits 32 bits |
| Serializer.ConstRead | src/bytecode/bytecode.cpp:143-165 | Each kind of constant is read back as it was written |
| Serializer.FunctionRead | src/bytecode/bytecode.cpp:302-341 | A function record with its four vectors is read back as it was written |
| Serializer.HandlerRead | src/bytecode/bytecode.cpp:302-341 | An exception handler is read back, its catch variable through a 64-bit field |
| FileLayout.ConstLayout | src/bytecode/bytecode.cpp:143-165 | The first byte of a constant is the position of its type among the types as declared (1 for bool, 5 for int, 11 for float, 12 for string), and what follows it, byte by byte |
| FileLayout.ReadDispatches | src/bytecode/bytecode.cpp:343-373 | Reading makes a bool, an int, a float or a string of a record exactly if its first byte is 1, 5, 11 or 12 |
| FileLayout.FirstEight | src/bytecode/bytecode.cpp:23-50 | Every file begins with the bytes 57 41 4C 43 01 00 00 00, in hexadecimal |
| FileLayout.RefusedOtherwise | src/bytecode/bytecode.cpp:172-206 | A file with other first four bytes is refused |
| FileLayout.FunctionLayout | src/bytecode/bytecode.cpp:108-141 | Where the number, the name, the arity and the number of locals of a function stand in its record |
| FileLayout.ExampleFile | src/bytecode/bytecode.cpp:23-50 | All bytes of a file with five constants, a global and a function with an upvalue, an instruction, a name and a handler |
| BytecodeFile.BytecodeWriter.WriteModule | src/bytecode/bytecode.cpp:23-50 | The buffer ends up as the specified bytes of the module |
| BytecodeFile.BytecodeWriter.WriteFunction | src/bytecode/bytecode.cpp:108-141 | Appends the specified bytes of a function |
| BytecodeFile.BytecodeWriter.WriteConst | src/bytecode/bytecode.cpp:143-165 | Appends the specified bytes of a constant, whose first one is the number of its type in the declared order of the types (ConstLayout) |
| BytecodeFile.BytecodeReader.ReadModuleFile | src/bytecode/bytecode.cpp:172-206 | Reads as specified from any bytes: the value, the cursor and the error |
| BytecodeFile.BytecodeReader.ReadFunctionRecord | src/bytecode/bytecode.cpp:302-341 | Reads the fields in order; missing bytes read as zero and set the error |
| BytecodeFile.BytecodeReader.ReadConstant | src/bytecode/bytecode.cpp:343-373 | Reads by the number of the type, 1, 5, 11 and 12 for bool, int, float and string (ReadDispatches); any other has no payload |
| CacheRuns.RunsStayBounded | src/auto_scheduler/schedule_cache.cpp:138-162 | Over every run of insertions, with named operators and a clock past every stored time stamp: never more entries than the bound, exactly as many as fit, each the last one stored under its key, and no empty inner map |
| CacheRuns.BoundExact | src/auto_scheduler/schedule_cache.cpp:302-331 | After an insertion the bound holds exactly when on each turn of the eviction that would be needed enough entries are older than the clock as read on that turn |
| CacheRuns.PutAllSlots | src/auto_scheduler/schedule_cache.cpp:153-162 | A batch adds exactly its own keys, with the entry that comes last for each, and leaves the rest as it was |
| CacheRuns.PlaceholderHidesMeasured | src/auto_scheduler/schedule_cache.cpp:288-300 | After warmup has stored its placeholder for an unknown configuration, with room for it, the best entry has no positive time, whatever was measured: it is not used any more |
| ScheduleCache.ScheduleCache.EvictIfNeeded | src/auto_scheduler/schedule_cache.cpp:302-331 | Removes only globally oldest entries older than the clock, which is read on every turn, no more than needed, and ends; it stops early only when nothing is old enough or the operator found is the empty string |
| ScheduleCache.ScheduleCache.FindLruEntry | src/auto_scheduler/schedule_cache.cpp:333-347 | Names the operator of a globally oldest entry older than the clock, in whatever order the maps are walked |
| ScheduleCache.ScheduleCache.Find | src/auto_scheduler/schedule_cache.cpp:115-136 | A hit returns the entry with its counter raised and counts the hit; the stored entry does not change |
| ScheduleCache.ScheduleCache.Insert | src/auto_scheduler/schedule_cache.cpp:138-142 | Stores the entry, then evicts |
| ScheduleCache.ScheduleCache.InsertBatch | src/auto_scheduler/schedule_cache.cpp:153-162 | Stores all entries, then evicts once |
| ScheduleCache.ScheduleCache.GetBest | src/auto_scheduler/schedule_cache.cpp:164-181 | A fastest valid entry of the operator, if it has a valid one |
| ConfigSignature.SignatureUnique | src/auto_scheduler/schedule_space.cpp:223-233 | Equal signatures mean equal decision lists when no string parameter contains a comma or begins with a bar |
| ConfigSignature.CommaCollides | src/auto_scheduler/schedule_space.cpp:223-233 | Every configuration with a comma in a string parameter shares its signature with a different one |
| ConfigSignature.ExampleSignature | src/auto_scheduler/schedule_space.cpp:223-233 | The text for two decisions with strings and numbers, one of them negative, and with neither |
| ConfigSignature.DigitsAreDecimal | src/auto_scheduler/schedule_space.cpp:223-233 | The digits written for a number stand for it in base ten, with no zero in front |
| SignatureTwins.IdentifiedExactly | src/auto_scheduler/schedule_space.cpp:223-233 | A configuration differs in signature from every other one exactly if no decision but the first has a string parameter, the first has at most one, and that one has no comma and is not of the form `|;` number of a kind `:` text |
| ConfigSignature.WriteSignature | src/auto_scheduler/schedule_space.cpp:223-233 | The loops write the specified text |
| CachingEvaluator.CachingEvaluator.Evaluate | src/auto_scheduler/auto_scheduler.cpp:341-355 | On a hit the answer is that of the cache, without a measurement, and counted; otherwise it is the base evaluator's. With a faithful cache it has the time and the validity that the base evaluator gives |
| CachingEvaluator.CachingEvaluator.Record | src/auto_scheduler/auto_scheduler.cpp:191-199 | The cache goes through one state per result, in order: a valid one is stored with its own time and followed by its eviction, another one changes nothing; the cache stays faithful |
| CachingEvaluator.CachingEvaluator.WarmUp | src/auto_scheduler/schedule_cache.cpp:288-300 | Storing a placeholder keeps the cache faithful |
| CachingEvaluator.HonestKeepsFaithful | src/auto_scheduler/auto_scheduler.cpp:191-199 | Any insertion of a measured entry, with any eviction, keeps every answer for plain configurations right |
| CachingEvaluator.CommaConfuses | src/auto_scheduler/auto_scheduler.cpp:341-355 | With a comma in a parameter one measurement can answer for two configurations |
| SearchStrategy.RandomSearch | src/auto_scheduler/search_strategy.cpp:193-262 | The running push, sort and truncate loop returns the top k of all valid results of the trials made: k of them, or all if there are fewer, and none made is better than the first; a negative k throws |
| SearchStrategy.TopMore | src/auto_scheduler/search_strategy.cpp:231-239 | Truncating after every result loses nothing: what was dropped before cannot return |
| SearchStrategy.HeadIsBest | src/auto_scheduler/search_strategy.cpp:241-247 | For k other than 0 the head has the time of the tracked best result |
| SearchStrategy.TopTimesUnique | src/auto_scheduler/search_strategy.cpp:231-239 | Two rankings of the k best have the same times, however ties fall |
| SearchStrategy.EvolutionarySearch | src/auto_scheduler/search_strategy.cpp:272-375 | Returns the top k of everything measured in all generations: k of them, or all if there are fewer, and nothing measured is better than the first; the first generation is the default and random configurations, each other one follows from the one before by ranking, elites, tournaments, crossover and mutation; with enough room for the elites all have the same size; a negative population size throws |
| SearchStrategy.NextPopulation | src/auto_scheduler/search_strategy.cpp:320-353 | Elites first, then children up to the size (crossings of two tournament winners, or random configurations), every member spared or mutated as drawn, at its place |
| SearchStrategy.DecisionsAreDrawn | src/auto_scheduler/search_strategy.cpp:320-353 | Over every run: each decision in each generation stood in the first population or in a random configuration drawn since |
| SearchStrategy.BestIsFirst | src/auto_scheduler/search_strategy.cpp:320-355 | If mutation spares the first member of a generation, nothing in the generation before is better than it |
| SearchStrategy.BestIsKept | src/auto_scheduler/search_strategy.cpp:284-362 | Over a run: as long as the first member is spared, nothing in an earlier generation is better than the first member of a later one |
| SearchStrategy.Mutate | src/auto_scheduler/search_strategy.cpp:425-466 | Spared: unchanged. Deleted: one shorter, the others in order. Replaced: as long, other at one place at most, where the first decision drawn stands. Inserted: one longer, and without that place as before. Resampled, or nothing to mutate: the configuration drawn |
| SearchStrategy.EliteCountIs | src/auto_scheduler/search_strategy.cpp:327-327 | At least one elite, and otherwise the share of the size, rounded down |
| SearchStrategy.StopsWhen | src/auto_scheduler/search_strategy.cpp:241-252 | Early stopping is after a valid trial with at least the patience of valid ones behind the first of the best |
| SearchStrategy.GenerationsStaleIs | src/auto_scheduler/search_strategy.cpp:309-319 | The generations without improvement are those with valid results behind the last one that had a better best than all before |
| SearchStrategy.ValidOfSelects | src/auto_scheduler/search_strategy.cpp:226-239 | The results ranked are those of the trials measured as valid, in order |
| SearchStrategy.AllResultsInTurn | src/auto_scheduler/search_strategy.cpp:292-301 | The valid results of each generation stand whole behind those of the generations before |
| SearchStrategy.TournamentSelect | src/auto_scheduler/search_strategy.cpp:468-482 | The loop returns the configuration of a valid result that was drawn and that no valid one drawn beats (the first one drawn among equals), or that of the first result when none drawn is valid |
| SearchStrategy.FittestWins | src/auto_scheduler/search_strategy.cpp:468-482 | The winner is one of the results drawn, and none of those is faster |
| SearchStrategy.Crossover | src/auto_scheduler/search_strategy.cpp:404-423 | The child is as long as the longer parent and takes each decision from a parent at that place |
| OutlierFilter.FewAreDropped | src/auto_scheduler/vm_evaluator.cpp:658-675 | Fewer than n / k^2 of n samples are dropped at a threshold of k deviations |
| OutlierFilter.ThresholdExact | src/auto_scheduler/vm_evaluator.cpp:667-679 | The fallback to all samples is unreachable exactly for thresholds of at least 1 |
| OutlierFilter.FinalTimeWithin | src/auto_scheduler/vm_evaluator.cpp:644-689 | The final time lies within any bounds of the samples |
| OutlierFilter.FinalTimeClose | src/auto_scheduler/vm_evaluator.cpp:658-689 | For thresholds of at least 1 it lies within that many deviations of their mean |
| OutlierFilter.ComputeFinalTime | src/auto_scheduler/vm_evaluator.cpp:644-689 | The loops compute mean, deviation, filter and median or mean as specified; the result lies within the bounds of the samples and, for thresholds of at least 1, within that many deviations of their mean |
| OutlierFilter.MedianHalves | src/auto_scheduler/vm_evaluator.cpp:681-689 | The median has half of the sorted samples on either side, and twice it is the sum of the two middle ones |
| OutlierFilter.SumsAdd | src/auto_scheduler/vm_evaluator.cpp:644-665 | Sums and squared deviations of joined samples are those of the parts |
| OutlierFilter.OneSample | src/auto_scheduler/vm_evaluator.cpp:644-665 | One sample is its own sum and mean, and its squared deviation is the square of its distance |
| OutlierFilter.KeptSelects | src/auto_scheduler/vm_evaluator.cpp:667-675 | The samples kept are those within the bound, in order |
| OutlierFilter.FinalTimeOfNear | src/auto_scheduler/vm_evaluator.cpp:658-689 | With more than two samples and a threshold of at least 1 the final time lies within any bounds of the samples that near to the mean: the others do not count |
| OutlierFilter.FinalTimeOfAll | src/auto_scheduler/vm_evaluator.cpp:658-689 | When no sample is dropped it is the mean, or the middle of the sorted samples |
| EventLoop.EventLoop.DispatchEvents | src/bytecode/bytecode_executor.cpp:219-243 | On every channel, events delivered and then events left are events queued and then events published; if m of its handlers are closures, the calls made on it are m for each delivered event, and call k * m + i gives event k to the i-th closure; a quiet end leaves the handled channels empty, any other end is after 100 rounds |
| EventLoop.EventLoop.Round | src/bytecode/bytecode_executor.cpp:221-243 | A round delivers everything that was queued when it began; without a delivery all handled channels are empty |
| EventLoop.EventLoop.Drain | src/bytecode/bytecode_executor.cpp:224-241 | A queue is taken whole; what its handlers publish meanwhile stays for the next round |
| EventLoop.DispatchCommands | src/bytecode/bytecode_executor.cpp:181-217 | Each pending request that a closure answers is resolved once, with what the first of these closures returns; the others stay pending |
| EventLoop.CallsOnSelects | src/bytecode/bytecode_executor.cpp:224-241 | The calls on a channel are those made with its name, in order |
| EventLoop.PublishedInTurn | src/bytecode/bytecode_executor.cpp:224-241 | What each call publishes stands whole behind what the calls before it published |
| ConstantFolder.FoldPreserves | src/const_fold.cpp:18-82 | Folding changes neither the value nor the errors of a literal, identifier and binary tree, in any world |
| ConstantFolder.FoldsExactly | src/const_fold.cpp:84-99 | The result is a tree without null children exactly for such trees |
| ConstantFolder.FoldsCompletely | src/const_fold.cpp:31-82 | No integer operation that could be computed is left |
| ConstantFolder.FoldTwice | src/const_fold.cpp:18-29 | Folding twice is folding once |
| ConstantFolder.ClosedFolds | src/const_fold.cpp:31-82 | A closed integer tree becomes one literal, its value, exactly when it evaluates without error |
| ConstantFolder.OpaqueOperand | src/const_fold.cpp:84-99 | An operand of another kind is lost, or dereferenced as a null pointer |
| ConstantFolder.ComputesModulo | src/const_fold.cpp:31-82 | Folded sums and products are right modulo 2^64, and adding back undoes a folded difference |
| ConstantFolder.ComputesQuotient | src/const_fold.cpp:31-82 | Folded quotient and remainder make up the dividend; the remainder is smaller than the divisor and has the sign of the dividend |
| ConstantFolder.ComputesWhen | src/const_fold.cpp:31-82 | Left alone are exactly the operators other than the five, and division by zero |
| ConstantFolder.PartsDecide | src/const_fold.cpp:18-29 | Which trees are plain, closed and folded, told by the parts they contain |
| DeadCode.CleanAllPreserves | src/optimizer.cpp:237-278 | Elimination keeps the outcome and the state of every block |
| DeadCode.CleanedIsTidy | src/optimizer.cpp:237-278 | Afterwards a return or break is only ever last in its block, also in nested blocks and branches |
| DeadCode.TidyStays | src/optimizer.cpp:237-278 | A block is changed exactly when it was not tidy |
| DeadCode.CleanTwice | src/optimizer.cpp:237-278 | A second run changes nothing |
| DeadCode.DroppedWhen | src/optimizer.cpp:237-278 | Something is counted exactly when something changes |
| DeadCode.DroppedCounts | src/optimizer.cpp:237-278 | The count is what is cut from this vector and from those inside the statements that stay |
| DeadCode.Optimizer.DceBlock | src/optimizer.cpp:237-278 | The loops compute the specified block, report a change exactly when there is one, and count every statement erased |
| AotLayout.MergeFunctions | src/main.cpp:925-958 | Every function lies verbatim at its symbol, symbols are multiples of 16, gaps hold only NOPs, and each relocation addresses the byte the call had in its function |
| AotLayout.InOrder | src/main.cpp:925-958 | The functions are disjoint and in order |
| ArrayRange.CountIsLength | src/codegen/linker_integration.cpp:152-161 | The ceiling division counts what stepping finds, for both signs of the step |
| ArrayRange.Range | src/codegen/linker_integration.cpp:152-168 | The values are start, start + step, ...: each one strictly before the end, and the one that would follow is not; a step of 0 counts as 1 |
| ArrayRange.StaysIn64Exactly | src/codegen/linker_integration.cpp:152-168 | No number computed on the way leaves 64 bits exactly when there is nothing to count, or the distance plus one step fits and so does the value behind the last one |
| ArrayRange.SteppedAt | src/codegen/linker_integration.cpp:162-168 | The i-th value is start + i * step |

## Left out

- Correctness.StopsExactly: assumes that no unset variable is read (`Defined`), because the machine then finds what an earlier use of the slot left, which the source semantics does not describe; the cases are a range bound that mentions its own loop variable and an array loop's variable before its first element. Definedness.SafeIsDefined gives a check on the text that rules them out; it is sufficient, not necessary.
- Documented.CleanStopsExactly: one direction of the comparison with the language; a program that is not clean may still be compiled as documented.
- RangeCount.ForRangeRunsCount: is stated for bodies that complete every iteration; ForRangeLeavesEarly is about the others.
- OwnershipExact.BreakExact: is about the moment of the break; FunctionOwns then admits break and continue only where no object has been declared in the iteration.
- Ownership.FunctionOwns: heap variables are arrays, strings and tensors; a name is not used both for objects and for NULL, scalars and counters do not have the name of a heap variable in scope, and a variable is assigned to only where nothing changes (SetExact has the other safe case, a NULL variable given the object of a call). Strings and tensors with another initializer than a call that hands over an object, or NULL, are excluded, because the scope frees what nothing allocated or what another variable owns (LetExact). A function returns an object always, or NULL always, or no pointer; functions outside the program hand over nothing; parameters own nothing.
- Serializer.ModuleRoundTrip: for modules whose lengths fit 32 bits, pool values nil, bool, int, float or string, and globals with nil values; source file, types and line numbers are not in the file at all. It takes the host to be little-endian, as the raw copies of 64-bit values do.
- EmittedC.LinesMean: a line is known by its kind, its names and its expressions; the characters it is written with, and the headers and helper functions around the functions, are not modelled.
- Covered.CompiledAsDocumented: two classes of functions only; the theorems it comes from cover more, as far as their checks on the text do.
- CacheRuns.RunsStayBounded: needs every reading of the clock during eviction to be past every stored time stamp; BoundExact says what happens otherwise.
- CachingEvaluator.CachingEvaluator.Evaluate: for configurations whose string parameters have no comma and no leading bar, and a deterministic base evaluator; CommaConfuses shows why.
- SearchStrategy.RandomSearch: the clock and the cost model are arbitrary inputs (which trials are skipped, how many there are).
- SearchStrategy.EvolutionarySearch: random choices are arbitrary inputs, a drawn index being any number modulo what there is to draw from; the evaluator is a function.
- OutlierFilter.ComputeFinalTime: real numbers stand for doubles, and the square root is a parameter that is one; rounding is not modelled.
- EventLoop.EventLoop.DispatchEvents: what a handler publishes is an arbitrary input; handlers that subscribe while events are dispatched are not modelled.
- EventLoop.DispatchCommands: handlers that send further commands are not modelled.
- ConstantFolder.FoldPreserves: signed overflow, undefined in C++, is taken to wrap around on both sides.
- ConstantFolder.ComputesQuotient: leaves out the smallest 64-bit integer divided by -1, whose quotient does not fit.
- DeadCode.CleanAllPreserves: loops, continue and all other statements are steps of an arbitrary world; the pass does not look into loops, and leaves what follows a continue.
- ArrayRange.Range: integers are unbounded here; what the source does when its sums overflow, undefined in C++, is not modelled. StaysIn64Exactly says when they do not.
- AotLayout.MergeFunctions: the collection of external symbols and the object file around the section are not modelled.
- Bytecode compiler: assignment to an element or a member (`src/bytecode/bytecode_compiler.cpp:401-417` emits the value and no store, which leaves it on the stack), lets without initializer in whole programs (LetWithoutInitializer has their code), floats, calls, tuples, member access, closures and upvalues, match, try, structs, async functions, publish and subscribe, the `__top_level` function and global definitions, line numbers, and the list of pending jumps, which is only written.
- Stack machine: frames other than the current one, floating point, objects, iterators, coroutines and the just-in-time compiler.
- C generator: try and throw, serial processes, match, and the text of expressions; the number of iterations of a for loop is an arbitrary choice. A bare block is emitted without braces (`src/codegen/c_codegen.h:595-622`), so a name declared in it and also beside or around it gives C that does not compile, which the model does not say.
- Serializer: the 16-bit integers, which no record uses, and the disassembler.
- Schedule cache: saving and loading as text, statistics, top-k by time, and operator signatures; locks.
- Optimizer: its own constant folding and the loop over its passes.
- The lexer, the parser, type checking, the other intermediate representations, native code and the tools around them.
