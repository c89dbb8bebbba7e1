# neo-lang compiler: verified model of the middle and back end

neo-lang is compiled to NeoVM bytecode. This project models that compiler from tokens to flattened
script as Dafny modules over one small stack machine, and proves that the passes keep meaning.

## How it is put together

Every loop and every method that changes state in the source is a Dafny method or class here
(`Compiler`, `Optimizer`, `SourceFile`, `IrOptimize.FunctionIr`, `StackPlanner`, `StackifyBuilder`,
`ExprParser.Cursor`, `ConstResolve`, `Manifest`), proved equal to a function on values; what the
compiler promises is then proved about that function.

| area | modules |
|---|---|
| instructions, bytes, decoding | `Bytecode`, `Disasm`, `Encodings` |
| the machine: stack, locals, arguments, byte-addressed pc, call frames, emitted events | `Vm`, `MachineByNumber`, `NeoArithmetic` |
| source expressions and statements, and their big-step meaning | `Ast`, `Semantics` |
| structured codegen and its correctness | `CodegenSpec`, `CodegenSteps`, `CodegenExpr`, `CodegenEnv`, `CodegenStmt`, `CodegenFunction`, `Compiler`, `CompiledScript`, `LaidOut`, `OptimizedSource`, `Compilable`, `CompilableStmt` |
| what operators, casts and literals compute, by opcode number and by character | `Operators`, `OperatorRoutines`, `SsaOperators`, `LiteralTexts` |
| bytecode optimizer | `Layout`, `Shorten`, `LayoutRun`, `Peephole`, `ScriptEnd`, `PeepholeFixpoint`, `PeepholeCalls`, `PeepholeLayout`, `PeepholeSettled`, `RelativeOperands`, `PeepholeLine`, `RawEdits`, `RawRun`, `RawStore`, `OptimizedRuns`, `Optimizer` |
| linking, flattening, manifest offsets | `Linker`, `LinkedScript`, `LinkedNames`, `SourceFile`, `Manifest` |
| SSA optimizer | `Decimal`, `Ir`, `IrFold`, `IrCopy`, `IrDce`, `IrOptimize`, `IrSimplified`, `IrSurvivors` |
| SSA to stack code | `StackPlan`, `StackPlanner`, `Spills`, `Stackify`, `StackifyValues`, `StackifyRun`, `StackifyFlow`, `StackifyCorrect`, `StackifyRoutine`, `StackifySize`, `StackifyLinear`, `StackifyBuilder`, `IrPreserved`, `IrPipeline` |
| expression parser | `Grammar`, `Parser`, `ParserComplete`, `ParserSound`, `ParserExact`, `StructLiterals`, `ExprParser` |
| constants of field initializers | `ConstResolve` |
| where code and documentation or intent differ | `Documented`, `EventOrder`, `SelfInit`, `TildeLevel`, `Miscompiled`, `StaleReads` |

The machine takes the results of arithmetic, comparison, conversion and unknown instructions as a
parameter (`Vm.Ops`), so the simulation theorems hold for every choice of them. What an operator, a
cast or a folded constant computes is stated on machines that do what NeoVM documents of each opcode
number (`NeoArithmetic.Arithmetic`, `NeoArithmetic.Conversions`). A script is *good* when its
instructions are well formed and every relative operand leads to an instruction or to the end.
Runs that do not end are covered: the simulations say that the machine keeps going as well.

## Results that contradict the documentation or the intent of the code

* Event arguments are pushed in declaration order and packed, so the event lists them back to front;
  the documented order is kept for all values exactly when there is at most one argument
  (`EventOrder.EventOrderExactlyWhen`). A field read after a struct literal gives the documented
  field for all values exactly when it is the middle one (`Documented.FieldKeptExactlyWhen`).
* A void routine whose body ends in a conditional `return` gets no RET and runs on into the next
  routine when the condition is false (`Documented.RetAppendedExactlyWhen`,
  `Documented.ConditionalReturnFallsThrough`).
* A routine with neither locals nor parameters begins with `INITSLOT 0 0`, on which the machine
  faults (`CodegenFunction.FunctionCorrect`, `CodegenFunction.PrologueCorrect`).
* An initializer is compiled after its variable is declared: the code is the intended one exactly
  when the initializer does not name the variable (`SelfInit.InitializerExactlyWhen`,
  `SelfInit.ShadowReturnsNull`).
* Duplicate-load merging treats LDLOC n and LDARG n as the same slot, which is wrong exactly when one
  load is of each kind (`PeepholeLine.MergeExactWhen`, `Miscompiled.MergedLoadsBreak`).
* Three of the five peephole passes change byte lengths without re-encoding branches
  (`Miscompiled.CrossedBranchBreaks`). `RawEdits` has the exact condition for one branch, and
  `OptimizedRuns.OptimizeKeeps` the whole optimizer where it is met.
* Folding compares the spelling of literals, negates by prefixing `-`, and wraps at 64 bits
  (`IrFold.FoldBinaryMeaning`, `IrFold.FoldUnaryMeaning`, `IrFold.EqualityBySpelling`).
* Common-subexpression elimination merges two reads of an element or field across a write between
  them; that is right exactly when the write did not change what was read
  (`StaleReads.MergesRightExactlyWhen`, `StaleReads.SecondReadExactlyWhen`).
* The operator table of the documentation puts `~` between `^` and the comparisons; the parser reads
  it as a prefix operator. An input with a documented reading is parsed to it exactly when no `~`-expression stands
  unparenthesized as the operand of something tighter (`TildeLevel.ParsedAsDocumented`).

In each case the model does what the code does.

## Model

| member | source | states |
|---|---|---|
| `CodegenExpr.ExprCorrect` | neo-compiler/src/codegen/expr/mod.rs:57-96 | For every expression the modelled language can evaluate, the emitted bytes, run from their first byte, push exactly the value of the source evaluation on an otherwise unchanged stack, leave the slots mirroring the new variables, and fault exactly where the source faults. |
| `CodegenExpr.AndCorrect` | neo-compiler/src/codegen/expr/operator.rs:15-27 | `a && b` through the emitted jumps: the right operand runs only when the left is truthy, and a falsy left gives `false`. |
| `CodegenExpr.OrCorrect` | neo-compiler/src/codegen/expr/operator.rs:28-37 | Short-circuit `or` through DUP and JMPIF_L: a truthy left operand is itself the value and the right one does not run. |
| `CodegenExpr.NullTestCorrect` | neo-compiler/src/codegen/expr/operator.rs:38-46 | Comparing with a (parenthesized) `null` literal evaluates only the other operand and yields the null test, negated for `!=`. |
| `CodegenExpr.AssignCorrect` | neo-compiler/src/codegen/expr/assignment.rs:33-37 | `x = e` stores into the innermost `x` and leaves the value on the stack. |
| `CodegenExpr.CompoundCorrect` | neo-compiler/src/codegen/expr/assignment.rs:78-83 | `x op= e` reads `x` before evaluating `e`, as emitted, then stores and leaves the result. |
| `NeoArithmetic.BitwiseBits` | neo-compiler/src/target/opcode.rs:622-635 | Bit by bit, the bitwise operations on integers are the truth functions of the operand bits, for every integer in two's complement. |
| `Operators.OperatorMeans` | neo-compiler/src/target/opcode.rs:994-1016 | On a machine whose opcodes 0x91 to 0xB8 compute what NeoVM documents, `e1 op e2` on integers of at most 32 bytes is the sum, difference, product, truncated quotient or remainder, shift, bitwise or comparison result the operator is named after, or the fault of a zero divisor, bad shift or oversized result. |
| `Operators.OperatorRuns` | neo-compiler/src/codegen/expr/operator.rs:47-52 | The compiled `e1 op e2` leaves that number on the otherwise unchanged stack, or faults. |
| `OperatorRoutines.OperatorAnswers` | neo-compiler/src/codegen/expr/operator.rs:47-52 | `T f(T p, T q) { return p op q; }`, compiled and called with two integers, returns that number. |
| `Operators.CompoundIsAssignment` | neo-compiler/src/syntax/ast.rs:242-258 | For each of the ten compound assignments, every expression, store and machine: `x op= e` means `x = x op e` with the operator it is named after. |
| `Operators.CompoundRuns` | neo-compiler/src/codegen/expr/assignment.rs:78-83 | And the compiled `x op= e` does what `x = x op e` means. |
| `Operators.CompoundNumber` | neo-compiler/src/target/opcode.rs:1019-1033 | On integers it leaves the number of the operator on the stack and in the variable. |
| `OperatorRoutines.CompoundAnswers` | neo-compiler/src/codegen/expr/assignment.rs:78-83 | `T f(T p, T q) { p op= q; return p; }` returns the number of the operator: `p -= q` the difference. |
| `Operators.UnaryRuns` | neo-compiler/src/codegen/expr/operator.rs:56-75 | `-e`, `~e`, `!e` and `+e` on an integer, in the source and compiled. |
| `Operators.NotMeans` | neo-compiler/src/target/opcode.rs:747-748 | `!e` is true exactly of null, false, zero and bytes that are all zero. |
| `Operators.NullCompared` | neo-compiler/src/syntax/ast.rs:331-337 | `e == null` and `e != null` are null tests on either side and inside any number of parentheses, whatever the machine's EQUAL does. |
| `Operators.CastMeans` | neo-compiler/src/codegen/expr/mod.rs:75-85 | A cast is CONVERT with the number of its type, compiles exactly for the types that have one, and to `bool` is truth, to `int` the integer of the value. |
| `Operators.CastRuns` | neo-compiler/src/codegen/expr/mod.rs:75-85 | Compiled, it leaves that value on the stack. |
| `LiteralTexts.DecimalLiteral` | neo-compiler/src/codegen/expr/literal.rs:7-17 | A decimal text is the sum of its digits times powers of ten, within 128 bits. |
| `LiteralTexts.HexLiteral` | neo-compiler/src/codegen/expr/literal.rs:9-10 | After `0x` or `0X`, digits and letters of either case, in base sixteen. |
| `LiteralTexts.BinaryLiteral` | neo-compiler/src/codegen/expr/literal.rs:11-12 | After `0b` or `0B`, in base two. |
| `LiteralTexts.UnderscoreIgnored` | neo-compiler/src/codegen/expr/literal.rs:8 | An underscore at any place of any text changes nothing. |
| `Compilable.ExprCompilesExactlyWhen` | neo-compiler/src/codegen/expr/mod.rs:57-96 | An expression compiles if and only if it is of a supported form, its names are in scope, its literals are readable and its jumps fit 32 bits; its size in bytes is then given in advance. |
| `CompilableStmt.StmtCompilesExactlyWhen` | neo-compiler/src/codegen/function.rs:122-216 | The same for statements, with the slot limit of 255 and the environment each leaves. |
| `CompilableStmt.FunctionCompilesExactlyWhen` | neo-compiler/src/codegen/function.rs:75-98 | A function compiles if and only if it has at most 255 parameters and its body compiles; INITSLOT then names the slots the body takes. |
| `CompilableStmt.EmitEnds` | neo-compiler/src/codegen/function.rs:200-213 | The code of `emit` ends in the count, PACK, the name and the SYSCALL bytes of System.Runtime.Notify. |
| `CodegenStmt.StmtCorrect` | neo-compiler/src/codegen/function.rs:122-216 | Compiler correctness per statement: a normal run reaches the end pc with the stack as before and every visible variable in its slot; `return` reaches RET with the value on top; a fault faults; a run that outlasts any number of loop iterations keeps the machine running as long. |
| `CodegenStmt.BlockCorrect` | neo-compiler/src/codegen/function.rs:218-225 | The same for a block in its own scope, for all nestings of the modelled statements. |
| `CodegenStmt.WhileCorrect` | neo-compiler/src/codegen/function.rs:168-181 | The patched backward and forward jumps implement `while`, including runs that never end. |
| `CodegenStmt.IfElseCorrect` | neo-compiler/src/codegen/function.rs:146-167 | Exactly one branch runs and both rejoin at the same pc with the same slots. |
| `CodegenStmt.ForArrayCorrect` | neo-compiler/src/codegen/function.rs:227-266 | The index loop runs the body once per element, in order, with the loop variable in its slot and the two hidden slots out of reach of the body. |
| `CodegenStmt.EmitCorrect` | neo-compiler/src/codegen/function.rs:200-213 | `emit` appends one event whose values come from the arguments evaluated left to right. |
| `CodegenEnv.DeclareFresh` | neo-compiler/src/codegen/env.rs:47-61 | A declaration never takes a slot that a visible variable holds. |
| `CodegenEnv.DeclareDistinct` | neo-compiler/src/codegen/env.rs:47-61 | Distinct variables keep distinct slots under every declaration. |
| `CodegenEnv.EnvAfterBlock` | neo-compiler/src/codegen/env.rs:38-61 | Compiling a block, whatever is nested in it, gives back the same visible variables; the slot counter only grows. |
| `CodegenEnv.SameCode` | neo-compiler/src/codegen/env.rs:63-73 | An expression that does not name a variable compiles the same before and after it is declared. |
| `CodegenFunction.FunctionCorrect` | neo-compiler/src/codegen/function.rs:75-98 | A whole routine with INITSLOT and epilogue behaves as its source, for every body and every argument; with no locals and no parameters it faults on entry; a body that ends normally returns exactly when RET was appended. |
| `CodegenFunction.PrologueCorrect` | neo-compiler/src/codegen/function.rs:60-62 | INITSLOT moves the arguments to their slots in order and clears the locals, and faults exactly when both counts are zero. |
| `CompiledScript.ExprGood` | neo-compiler/src/codegen/expr/operator.rs:8-75 | Every patched jump of an expression leads to an instruction boundary of that expression or its end. |
| `CompiledScript.FunctionGood` | neo-compiler/src/codegen/function.rs:75-98 | Every jump of a compiled routine leads to one of its instructions or its end, so the layout passes may edit it. |
| `LaidOut.CompiledRuns` | neo-compiler/src/codegen/function.rs:75-98 | A compiled routine at the start of a script, alone or with other code after it: it returns the value of its source after the same events and faults where its source faults, also when it stands last and got no RET. |
| `ScriptEnd.EndUnseen` | neo-compiler/src/codegen/function.rs:82-91 | What stands after a good script does not show in a run that returns or faults inside it. |
| `LaidOut.LaidOutFunction` | neo-compiler/src/codegen/opt.rs:435-519 | Source to laid-out bytes: a compiled routine with any code after it or none, rewritten by any sequence of the two layout passes, returns what its source returns, emits the same events and faults where it faults. |
| `Documented.PackReverses` | neo-compiler/src/codegen/function.rs:202-212 | Values pushed in order and packed end up back to front. |
| `EventOrder.EmitReverses` | neo-compiler/src/codegen/function.rs:200-213 | The code of any `emit`, in any context, appends one event with the argument values back to front: the documented order with at most one argument, and not it with more as soon as the outer two values differ. |
| `EventOrder.EventOrderExactlyWhen` | neo-compiler/src/codegen/mod.rs:13-15 | For a compiled `void f(p0, ...) { emit E(p0, ...); }`, run on the machine: whatever the argument values, the event lists them in the documented order, if and only if there is at most one argument. |
| `EventOrder.TwoArgumentEvent` | neo-compiler/src/codegen/mod.rs:13-15 | The two-argument case: the machine returns having notified `[dest, source]`. |
| `Documented.FieldOfLiteral` | neo-compiler/src/codegen/ir_codegen/builder.rs:363-370 | Field `k` read from a struct literal of `n` fields is field `n - 1 - k` of the literal. |
| `Documented.FieldKeptExactlyWhen` | neo-compiler/src/codegen/mod.rs:10-11 | So the documented field is read, for all values, if and only if `2k + 1 = n`. |
| `Documented.RetAppendedExactlyWhen` | neo-compiler/src/codegen/function.rs:82-91 | A void routine gets its RET if and only if no `return` stands last in its body, one at the end of a final conditional included. |
| `Documented.ConditionalReturnFallsThrough` | neo-compiler/src/codegen/function.rs:82-91 | `void f(bool c) { if c { return; } }` compiles without a RET of its own; called with a false argument, the machine arrives at the byte after the routine. |
| `SelfInit.TouchesExactly` | neo-compiler/src/codegen/env.rs:63-73 | The code of an expression loads or stores a local if and only if a variable it names lives there. |
| `SelfInit.InitializerExactlyWhen` | neo-compiler/src/codegen/function.rs:124-135 | `var x = e` declares `x` before it compiles `e`; that gives the code of `e` before the declaration if and only if `e` does not name `x`. |
| `SelfInit.ShadowReturnsNull` | neo-compiler/src/codegen/function.rs:124-135 | `T f(T x) { var x = x; return x; }`: the source returns its argument, the compiled routine returns null. |
| `Compiler.CompileFunction` | neo-compiler/src/codegen/function.rs:75-98 | The imperative compiler (builder, environment, patched placeholders) computes exactly the code the correctness theorem is about, and the same error otherwise. |
| `Compiler.FunctionCompiler.CompileExpr` | neo-compiler/src/codegen/expr/mod.rs:57-96 | Appends exactly the expression's code, or reports its error. |
| `Compiler.FunctionCompiler.CompileStmt` | neo-compiler/src/codegen/function.rs:122-216 | Appends exactly the statement's code and leaves the environment it leaves. |
| `Compiler.FunctionCompiler.CompileForArray` | neo-compiler/src/codegen/function.rs:227-266 | The same for `for x in array`, slots allocated in the order of the source. |
| `Compiler.VarEnv.Declare` | neo-compiler/src/codegen/env.rs:47-61 | Allocates the next slot, or fails on 255 locals, on no scope, or on a name already in the innermost scope. |
| `Compiler.VarEnv.Find` | neo-compiler/src/codegen/env.rs:63-73 | Innermost scope first, then parameters. |
| `Compiler.Builder.Patch` | neo-compiler/src/target/mod.rs:290-308 | Back-patching writes target minus own pc into the placeholder, or fails outside 32 bits. |
| `Bytecode.SignedRoundTrip` | neo-compiler/src/codegen/opt.rs:211-227 | A signed operand that fits its width survives little-endian encoding. |
| `Bytecode.SignedDecodeEncode` | neo-compiler/src/codegen/opt.rs:211-227 | And every byte string is the encoding of the number it decodes to. |
| `Disasm.DecodeScriptOfEncoding` | neo-compiler/src/disasm.rs:12-21 | Decoding the bytes of any well-formed instruction list returns that list. |
| `Disasm.DecodeThenEncode` | neo-compiler/src/disasm.rs:23-167 | Every successful decode re-encodes to the same bytes and yields only well-formed instructions. |
| `Disasm.DecodeScript` | neo-compiler/src/disasm.rs:12-21 | The cursor loop decodes exactly that list; on success its bytes are the input. |
| `Encodings.DecodeFixed` | neo-compiler/src/disasm.rs:34-167 | By opcode number: which bytes are opcodes, how many operand bytes each takes, and what is decoded from them. |
| `Encodings.DecodeData` | neo-compiler/src/disasm.rs:66-86 | PUSHDATA1, 2 and 4 take a little-endian length and as many bytes. |
| `Encodings.PushIntNarrowest` | neo-compiler/src/target/mod.rs:210-255 | Integers are pushed in the fewest bytes, -1 to 16 by one opcode. |
| `Encodings.PushDataShortest` | neo-compiler/src/target/mod.rs:266-286 | Byte strings get the shortest length prefix, and none beyond four bytes. |
| `Encodings.SlotShortest` | neo-compiler/src/codegen/env.rs:93-152 | Slots 0 to 6 are accessed by one byte, the others by two. |
| `MachineByNumber.ArrayByNumber` | neo-compiler/src/target/opcode.rs:822-889 | PACK, 0xC0, takes its items from the top down; PICKITEM, 0xCE, selects by the index on top and faults outside. |
| `MachineByNumber.LoadByNumber` | neo-compiler/src/target/opcode.rs:460-534 | Opcodes 0x68 to 0x6F and 0x78 to 0x7F load the local and the argument of their number. |
| `MachineByNumber.StoreByNumber` | neo-compiler/src/target/opcode.rs:486-559 | Opcodes 0x70 to 0x77 and 0x80 to 0x87 store the top of the stack there. |
| `MachineByNumber.ControlByNumber` | neo-compiler/src/target/opcode.rs:132-321 | Jumps 0x22 to 0x27 and calls 0x34 and 0x35 count from their own first byte; 0x40 returns to the caller's context. |
| `Layout.RetargetCorrect` | neo-compiler/src/codegen/opt.rs:247-352 | Re-encoding one relative operand after an edit gives the moved target, with the same sign and no larger magnitude. |
| `Layout.RelayoutCorrect` | neo-compiler/src/codegen/opt.rs:247-352 | On a good script relayout never fails: every operand of every instruction fits and leads to the instruction that stands for its old target. |
| `Layout.RelayoutPcRelatives` | neo-compiler/src/codegen/opt.rs:247-352 | The in-place loop computes that relayout, or gives up exactly where it does. |
| `Layout.RelaidScript` | neo-compiler/src/codegen/opt.rs:356-372 | After either edit the script is good again and keeps all targets. |
| `RelativeOperands.RelaidOperands` | neo-compiler/src/codegen/opt.rs:247-352 | By opcode number: the operands relayout re-encodes are those of jumps, calls, TRY and ENDTRY, both of TRY's; every other instruction stays as it is. |
| `Shorten.ShortenCorrect` | neo-compiler/src/codegen/opt.rs:394-432 | Narrowing any eligible 5-byte branch of a good script succeeds, saves three bytes, and every branch, call and try operand still denotes the same instruction. |
| `Shorten.DeleteCorrect` | neo-compiler/src/codegen/opt.rs:356-372 | Deleting an instruction of a good script succeeds; an operand that led to it leads to its successor, all others to what they led to. |
| `Shorten.TryShortenAt` | neo-compiler/src/codegen/opt.rs:394-432 | The imperative attempt equals the specified edit, failures included. |
| `Shorten.TryDeleteAt` | neo-compiler/src/codegen/opt.rs:447-519 | The imperative deletion equals the specified edit, failures included. |
| `LayoutRun.RunRefines` | neo-compiler/src/asm_dump.rs:141-146 | On good scripts, running bytes and running instruction indices are the same, step for step. |
| `LayoutRun.ShortenedRun` | neo-compiler/src/codegen/opt.rs:394-443 | After narrowing, every run is step for step the same run of instructions with the same data. |
| `LayoutRun.DeletedRun` | neo-compiler/src/codegen/opt.rs:447-519 | After deleting a jump to the next instruction, every run is simulated, stuttering on the removed jump, including runs that branch to it. |
| `LayoutRun.DeletedMeaning` | neo-compiler/src/codegen/opt.rs:447-519 | And both scripts end the same way: one returns given data, or faults, if and only if the other does. |
| `PeepholeLayout.ScanMeaning` | neo-compiler/src/codegen/opt.rs:435-519 | A whole pass of either layout edit keeps the script good and its meaning. |
| `PeepholeLayout.EveryEligibleJump` | neo-compiler/src/codegen/opt.rs:394-432 | The range checks never refuse: on a good script whose call table names its CALL_L, a jump is removed or narrowed as soon as its shape allows. |
| `PeepholeLayout.SettledJumps` | neo-compiler/src/codegen/opt.rs:569-592 | Where the optimizer stops, no redundant jump and no narrowable branch is left. |
| `PeepholeSettled.NoNarrowLong` | neo-compiler/src/codegen/opt.rs:374-392 | In settled code no JMP_L, conditional long jump or ENDTRY_L has an offset from -128 to 127. |
| `PeepholeSettled.NoJumpToNext` | neo-compiler/src/codegen/opt.rs:394-432 | Nor does a JMP or JMP_L lead to the instruction after it. |
| `PeepholeSettled.NoDupDrop` | neo-compiler/src/codegen/opt.rs:160-181 | Nor does a DROP follow a DUP. |
| `PeepholeSettled.NoRepeatedLoad` | neo-compiler/src/codegen/opt.rs:112-157 | Nor is one slot number loaded twice in a row. |
| `PeepholeSettled.NoStoreLoad` | neo-compiler/src/codegen/opt.rs:523-566 | Nor is a local stored and loaded at once, unless it is read again before it is written. |
| `PeepholeSettled.SmallSettles` | neo-compiler/src/codegen/opt.rs:569-592 | Code of fewer than 64 bytes and loads ends settled. |
| `PeepholeFixpoint.ScanShrinks` | neo-compiler/src/codegen/opt.rs:434-566 | Any of the five passes that reports a change made bytes plus loads strictly smaller; one that reports none can apply nowhere. |
| `PeepholeFixpoint.RoundShrinks` | neo-compiler/src/codegen/opt.rs:569-592 | The same for a round of all five. |
| `PeepholeFixpoint.FullySettled` | neo-compiler/src/codegen/opt.rs:569-592 | Without its cap the loop ends, at a routine no pass applies to. |
| `PeepholeFixpoint.CapOnlyTruncates` | neo-compiler/src/codegen/opt.rs:569-592 | Leaving before the 64-round cap means no pass applies; resuming a capped run gives the uncapped result; a routine of fewer than 64 bytes and loads is never capped. |
| `PeepholeCalls.ApplyKeepsCalls` | neo-compiler/src/codegen/opt.rs:60-79 | Each edit keeps every patch index on its own unlinked CALL_L. |
| `PeepholeCalls.OptimizeKeepsCalls` | neo-compiler/src/codegen/opt.rs:569-592 | After any number of rounds the call table still names exactly the CALL_L sites, in order, with the same callee symbols. |
| `PeepholeLine.DeadSlot` | neo-compiler/src/codegen/opt.rs:523-566 | While no load of a slot comes before its next store, no later instruction can tell its value. |
| `PeepholeLine.DropStoreCovers` | neo-compiler/src/codegen/opt.rs:523-566 | Removing a selected STLOC/LDLOC pair of branch-free code keeps stack, arguments and events. |
| `PeepholeLine.DropDupCovers` | neo-compiler/src/codegen/opt.rs:160-181 | Removing DUP/DROP of branch-free code never turns a good run bad and keeps its result. |
| `PeepholeLine.MergeExactWhen` | neo-compiler/src/codegen/opt.rs:112-157 | Merging two loads of slot number `n` into a load and DUP is right if and only if both are locals or both are arguments; the pass also merges LDLOC n with LDARG n. |
| `PeepholeLine.ScanCovers` | neo-compiler/src/codegen/opt.rs:128-181 | A whole scan of the DUP/DROP or the STLOC/LDLOC pass run in a straight line, whatever the code, and of the merging pass as far as it merges within one namespace: good runs keep stack, arguments and events. |
| `PeepholeLine.OptimizeCovers` | neo-compiler/src/codegen/opt.rs:569-592 | The whole optimizer on branch-free code, as long as no round merges an LDLOC with an LDARG: a run that did not fault does not fault and ends with the same stack, arguments and events. |
| `PeepholeLine.UnmixedMergesAlike` | neo-compiler/src/codegen/opt.rs:112-157 | That is the case for code in which no slot number is loaded both as a local and as an argument. |
| `PeepholeLine.LineEnds` | neo-compiler/src/codegen/opt.rs:569-592 | That straight-line meaning is the one of the byte-addressed machine. |
| `RawEdits.DroppedPairKeepsTarget` | neo-compiler/src/codegen/opt.rs:160-181 | A pass that removes a pair keeps a branch on the instruction that stands for its target if and only if the branch did not lead between the pair and lies on the same side of it as its target. |
| `RawEdits.MergedLoadKeepsTarget` | neo-compiler/src/codegen/opt.rs:128-157 | Merging two loads keeps a branch on its target if and only if the second load has no operand byte, or the branch and its target lie on the same side of it. |
| `RawEdits.MergedLoadEntered` | neo-compiler/src/codegen/opt.rs:128-157 | A branch to the second of two merged loads is right if and only if the loaded value already lay on top of the stack there. |
| `RawRun.MergeMeaning` | neo-compiler/src/codegen/opt.rs:128-157 | Merging two loads of one namespace on a good script with branches, none of which leads to the second load or crosses its operand byte: exactly the same runs return, with the same data, and exactly the same runs fault. |
| `RawRun.DropDupMeaning` | neo-compiler/src/codegen/opt.rs:160-181 | Removing DUP/DROP on a good script with branches, none of which crosses the pair or leads into it: every run that returned returns the same data, and nothing ends in a new way but a run that faulted. |
| `RawStore.DropStoreMeaning` | neo-compiler/src/codegen/opt.rs:523-566 | The same for STLOC/LDLOC of a slot that nothing else loads: same stack, arguments and events. |
| `OptimizedRuns.OptimizeKeeps` | neo-compiler/src/codegen/opt.rs:569-592 | The whole optimizer on a good script with branches: as long as every edit of the three raw passes is clear in that sense, a run that returned returns with the same stack, arguments and events. |
| `OptimizedSource.OptimizedFunction` | neo-compiler/src/codegen/opt.rs:569-592 | From source to optimized bytes under the same condition: where the source returns, so does the optimized routine, with the same value after the same events. |
| `Miscompiled.CrossedBranchBreaks` | neo-compiler/src/codegen/opt.rs:523-566 | `int f(bool c) { if c { var x = 1; return x; } return 2; }` called with a false argument: source and compiled bytes return 2, the optimized bytes fault, the jump leading past the end of the script. |
| `Miscompiled.MergedLoadsBreak` | neo-compiler/src/codegen/opt.rs:112-157 | `bool f(int x) { var y = 1; return x < y; }`: the compiled bytes return whether the argument is below 1, the optimized ones return false for every integer. |
| `Optimizer.CompiledFunction.Optimize` | neo-compiler/src/codegen/opt.rs:569-592 | The in-place loop over the five passes is the specified one. |
| `Optimizer.CompiledFunction.MergeAdjacentDuplicateLoads` | neo-compiler/src/codegen/opt.rs:128-157 | The in-place pass is the specified scan. |
| `Optimizer.CompiledFunction.PeelRedundantDupDrop` | neo-compiler/src/codegen/opt.rs:160-181 | The in-place pass is the specified scan. |
| `Optimizer.CompiledFunction.PeelRedundantStlocLdlocPair` | neo-compiler/src/codegen/opt.rs:523-566 | The in-place pass is the specified scan. |
| `Optimizer.CompiledFunction.PeelRedundantUncondJmpToNext` | neo-compiler/src/codegen/opt.rs:447-519 | The in-place pass is the specified scan. |
| `Optimizer.CompiledFunction.ShortenLongPcRelativeBranches` | neo-compiler/src/codegen/opt.rs:435-443 | The in-place pass is the specified scan. |
| `Linker.TableMeaning` | neo-compiler/src/codegen/mod.rs:149-168 | The symbol table exists if and only if no two routines share a symbol, and maps each symbol to the first byte of its routine. |
| `Linker.LinkSucceeds` | neo-compiler/src/codegen/mod.rs:148-209 | Linking succeeds if and only if symbols are distinct and every call site is a CALL_L with a known callee within 32 bits. |
| `Linker.LinkCallsResult` | neo-compiler/src/codegen/mod.rs:170-197 | Each call site gets its own displacement and nothing else changes. |
| `LinkedScript.LinkedCallEnters` | neo-compiler/src/codegen/mod.rs:121-209 | From any call site of the flattened, linked script the machine's next state is the first byte of the one routine with the callee's symbol, with the return address after the call. |
| `LinkedNames.SymbolsDiffer` | neo-compiler/src/codegen/mod.rs:92-99 | Names without a colon: two functions have one link symbol if and only if contract and name agree. |
| `LinkedNames.MethodCallEnters` | neo-compiler/src/codegen/expr/contract_call.rs:37-39 | A call site named contract, "::", method enters exactly that method of that contract at its first byte. |
| `LinkedNames.PackageCallEnters` | neo-compiler/src/codegen/mod.rs:92-99 | A bare name enters the package function, whatever methods share the name. |
| `LinkedNames.LinksExactlyWhen` | neo-compiler/src/codegen/mod.rs:94-99 | A file links if and only if no contract and no package defines a name twice and every call site is a CALL_L to some function of the file within 32 bits. |
| `LinkedScript.LinkedGood` | neo-compiler/src/codegen/mod.rs:121-209 | The flattened script of linked good routines is good. |
| `SourceFile.CompiledSourceFile.LinkCallLPatches` | neo-compiler/src/codegen/mod.rs:148-209 | Linking in place over three lists of functions yields that linked program, or the first error in program order. |
| `SourceFile.CompiledSourceFile.FlattenToBytes` | neo-compiler/src/codegen/mod.rs:121-146 | The three lists are encoded in order into one script. |
| `SourceFile.CompiledSourceFile.Optimize` | neo-compiler/src/codegen/opt.rs:42-58 | Every function of the file is optimized, each on its own. |
| `SourceFile.BytecodeOffsetInRoutine` | neo-compiler/src/codegen/mod.rs:102-107 | The loop sums the encoded lengths before an instruction. |
| `Manifest.MethodOffsets` | neo-compiler/src/build_target.rs:107-140 | The table of contract method offsets, computed in 32 bits, and its failure exactly when the running offset leaves them. |
| `Manifest.OffsetTableMeans` | neo-compiler/src/build_target.rs:107-140 | Each name of the table has the offset of the last contract routine of that name. |
| `Manifest.OffsetsAreStarts` | neo-compiler/src/build_target.rs:107-140 | As long as no routine reaches 4 GiB, those offsets are the bytes at which the linker lays the routines out. |
| `Manifest.BuildManifestBreaks` | neo-compiler/src/disasm.rs:175-237 | Succeeds if and only if every offset begins an instruction and no two are equal; the breaks are then the methods by offset, after one for unlisted code. |
| `Manifest.CheckOffsets` | neo-compiler/src/disasm.rs:201-221 | No complaint exactly when the offsets are acceptable; and each complaint is true of the method it names: past the end, inside an instruction, or at the offset of an earlier method. |
| `Manifest.BreaksCut` | neo-compiler/src/disasm.rs:223-236 | Accepted breaks start at byte 0, strictly increase and lie on instruction boundaries, so they cut the script into sections. |
| `Manifest.ListedAcceptable` | neo-compiler/src/build_target.rs:107-140 | The offsets of a build's contract routines are accepted if and only if none of those routines is empty. |
| `Manifest.ManifestAccepted` | neo-compiler/src/disasm.rs:175-237 | End to end: the flattened bytes decode to the routines' instructions, and the manifest's offsets are accepted on them. |
| `Decimal.PrintedLiteral` | neo-compiler/src/codegen/expr/literal.rs:7-17 | Reading back a printed integer literal gives the integer. |
| `Decimal.NegatedLiteral` | neo-compiler/src/ir/opt.rs:889-896 | Prefixing a literal's text with `-` negates it if and only if it is unsigned decimal. |
| `IrFold.FoldUnaryMeaning` | neo-compiler/src/ir/opt.rs:889-896 | A folded unary operation has the machine's value if and only if the literal is unsigned decimal (for negation). |
| `IrFold.FoldBinaryMeaning` | neo-compiler/src/ir/opt.rs:898-926 | A folded binary operation has the machine's value if and only if nothing left 64 bits and equality of spelling is equality of value. |
| `IrFold.SpellingIsNotValue` | neo-compiler/src/ir/opt.rs:898-926 | `0x10 == 16` is folded to false. |
| `IrFold.EqualityBySpelling` | neo-compiler/src/ir/opt.rs:898-926 | Next to a canonical decimal literal, folded equality is right if and only if the other literal is canonical decimal too or has another value. |
| `IrFold.FoldedIsCanonical` | neo-compiler/src/ir/opt.rs:898-926 | Whatever folding itself prints is canonical decimal. |
| `IrSimplified.NumbersFold` | neo-compiler/src/ir/opt.rs:898-926 | Which operations on two 64-bit numbers fold, to what, and which panic: `+`, `-`, `*`, `/`, `==`, `!=` and no other. |
| `IrSimplified.UnaryFolds` | neo-compiler/src/ir/opt.rs:889-896 | Negation and identity of numbers and negation of truth fold, nothing else. |
| `IrSimplified.TruthsFold` | neo-compiler/src/ir/opt.rs:898-926 | Of truth values only equality folds, and nothing of two kinds. |
| `IrSimplified.OperationFolds` | neo-compiler/src/ir/opt.rs:275-307 | An operation on two constants of its block becomes the constant it folds to. |
| `IrSimplified.ArithmeticFolds` | neo-compiler/src/target/opcode.rs:656-692 | The documented arithmetic of NeoVM is what the folding theorems ask of the machine. |
| `Decimal.CanonicalIsPrinted` | neo-compiler/src/ir/opt.rs:898-926 | Canonical decimal text is exactly what printing an integer gives. |
| `IrFold.FoldedExec` | neo-compiler/src/ir/opt.rs:275-307 | Folding a block keeps every value and effect of its non-faulting runs. |
| `IrCopy.RewrittenExec` | neo-compiler/src/ir/opt.rs:309-331 | Copy propagation changes nothing a block computes or does, faults included. |
| `IrSimplified.CopyReplaces` | neo-compiler/src/ir/opt.rs:309-331 | After copy propagation each operand that a copy of the block defines is what that copy copies, and every other operand is unchanged. |
| `IrSimplified.CopyReplacesAtEnd` | neo-compiler/src/ir/opt.rs:309-331 | The same for the terminator. |
| `IrCopy.CseExec` | neo-compiler/src/ir/opt.rs:18-273 | Local common-subexpression elimination changes nothing a block computes or does, faults included. |
| `StaleReads.MergesRightExactlyWhen` | neo-compiler/src/ir/opt.rs:18-273 | Reads of elements and fields of mutable objects are keyed too, and no write forgets them: for every block and every run of it that succeeds, elimination gives the same values and objects if and only if each merged read had the value of the read that answers it. |
| `StaleReads.UndisturbedKeeps` | neo-compiler/src/ir/opt.rs:32-36 | While no write stands between a read and the earlier one that answers it, elimination changes nothing, faults included. |
| `StaleReads.SecondReadExactlyWhen` | neo-compiler/src/ir/opt.rs:73-80 | `a[i]; b[j] = v; a[i]`: the second read is merged into the first, which is right if and only if the write missed the element or stored what it held. |
| `IrSimplified.ComputedOnce` | neo-compiler/src/ir/opt.rs:18-273 | After elimination no constant, operator, null test, cast, field read or pure operation stands twice in a block. |
| `IrSimplified.NeverMerged` | neo-compiler/src/ir/opt.rs:18-273 | Array and struct literals, storage reads and effects are never merged with another. |
| `IrDce.MarkUsed` | neo-compiler/src/ir/opt.rs:333-366 | The worklist ends with exactly the values reachable through operands from terminators and must-keep instructions. |
| `IrDce.KeptExactly` | neo-compiler/src/ir/opt.rs:333-375 | A droppable instruction stays if and only if it is so reachable. |
| `IrSurvivors.SurvivesExactlyWhen` | neo-compiler/src/ir/opt.rs:367-374 | An instruction survives elimination if and only if it emits, compounds a stored entry, calls or packs a struct, or a chain of uses leads to it from a terminator or one of those. |
| `IrSurvivors.UnmentionedGone` | neo-compiler/src/ir/mod.rs:280-306 | A constant, copy, operator, null test, cast, field read, pure operation, array literal or storage read whose value nothing mentions is gone. |
| `IrSurvivors.DeadOperands` | neo-compiler/src/ir/opt.rs:367-374 | A dead operation goes together with its operands. |
| `IrDce.StillDefined` | neo-compiler/src/ir/opt.rs:333-375 | Every operand of a kept instruction or terminator that was defined still is. |
| `IrDce.RetainedExec` | neo-compiler/src/ir/opt.rs:333-375 | What is left performs the same effects and computes the same needed values. |
| `IrDce.RetainedStep` | neo-compiler/src/ir/opt.rs:333-375 | Block by block, the eliminated function follows the original. |
| `IrOptimize.OptimizeKeepsMeaning` | neo-compiler/src/ir/opt.rs:11-16 | All four passes together: every non-faulting run goes through the same blocks with the same parameters, performs the same effects in the same order and returns the same value. |
| `IrOptimize.FunctionIr.ConstFold` | neo-compiler/src/ir/opt.rs:275-307 | The in-place pass is the specified one, and panics exactly on a folded division by zero. |
| `IrOptimize.FunctionIr.CopyProp` | neo-compiler/src/ir/opt.rs:309-331 | The in-place pass is the specified one. |
| `IrOptimize.FunctionIr.CommSubexprElimination` | neo-compiler/src/ir/opt.rs:18-273 | The in-place pass is the specified one. |
| `IrOptimize.FunctionIr.DeadCodeElimination` | neo-compiler/src/ir/opt.rs:333-375 | The in-place pass is the specified one. |
| `IrOptimize.FunctionIr.Optimize` | neo-compiler/src/ir/opt.rs:11-16 | The four in order. |
| `StackPlan.SlotsFill` | neo-compiler/src/codegen/ir_codegen/stackify_plan.rs:115-167 | Spilled values, block parameters and compound scratch pairs take slots 0, 1, 2, ... each exactly once; the i-th compound assignment has the i-th pair. |
| `StackPlan.ValueSlotsDistinct` | neo-compiler/src/codegen/ir_codegen/stackify_plan.rs:115-128 | Distinct spilled values have distinct, increasing slots. |
| `StackPlanner.CountUses` | neo-compiler/src/codegen/ir_codegen/analysis.rs:6-156 | The accumulated counts are the numbers of uses in the function. |
| `StackPlanner.CrossUses` | neo-compiler/src/codegen/ir_codegen/analysis.rs:158-321 | The accumulated set is exactly the values used outside the block that defines them. |
| `StackPlanner.SpillSet` | neo-compiler/src/codegen/ir_codegen/stackify_plan.rs:65-113 | The spill set is exactly the values that need a slot: shared or used elsewhere, not cheap to push again, and not just squared. |
| `Spills.SpilledExactlyWhen` | neo-compiler/src/codegen/ir_codegen/stackify_plan.rs:65-113 | Counted on the function: a value gets a slot if and only if it cannot be pushed again, is not merely both sides of one operation, and is used twice, or is a used result of an effect, or is used in another block. |
| `StackPlanner.BuildStackifyPlan` | neo-compiler/src/codegen/ir_codegen/stackify_plan.rs:35-167 | The imperative planner computes that plan, and fails if and only if it needs more than 254 locals. |
| `StackifyValues.RefRuns` | neo-compiler/src/codegen/ir_codegen/builder.rs:129-233 | Emitting an operand pushes exactly one value, the SSA value, and keeps every emitted spill in its slot, whatever was memoised before. |
| `StackifyValues.PureRuns` | neo-compiler/src/codegen/ir_codegen/builder.rs:235-476 | Emitting a pure instruction, operands first, pushes its value. |
| `SsaOperators.BinaryComputes` | neo-compiler/src/target/opcode.rs:994-1016 | On integers, an SSA operator is the mathematical operation it is named after. |
| `SsaOperators.UnaryComputes` | neo-compiler/src/codegen/ir_codegen/builder.rs:235-476 | The same for the unary operators. |
| `SsaOperators.CastComputes` | neo-compiler/src/codegen/ir_codegen/builder.rs:235-476 | An SSA cast is the conversion with the number of its type. |
| `SsaOperators.BinaryRuns` | neo-compiler/src/codegen/ir_codegen/builder.rs:235-476 | The stack code of an SSA operator on two integers pushes that number. |
| `SsaOperators.OperatorIrReturns` | neo-compiler/src/target/opcode.rs:994-1016 | The SSA form of `T f(T p, T q) { return p op q; }`, stackified and run on two integers, returns that number. |
| `Spills.StorageRead` | neo-compiler/src/codegen/ir_codegen/builder.rs:324-329 | A read of a stored field is its name, the SYSCALL bytes of System.Storage.Local.Get and CONVERT with the number of its type. |
| `StackifyRun.EffectsRun` | neo-compiler/src/codegen/ir_codegen/block_emit.rs:87-99 | A block performs its effects in order and nothing else. |
| `StackifyRun.SpillsRun` | neo-compiler/src/codegen/ir_codegen/block_emit.rs:101-121 | The late spills of a block store values without changing the stack or the events. |
| `StackifyCorrect.CrossStored` | neo-compiler/src/codegen/ir_codegen/block_emit.rs:101-121 | Every value another block uses is stored before its own block ends. |
| `StackifyFlow.FoldingClosed` | neo-compiler/src/codegen/ir_codegen/branch_emit.rs:14-95 | No emitted jump leads to a skipped relay block, so the "missing block start" error cannot occur. |
| `Spills.SkippedExactlyWhen` | neo-compiler/src/codegen/ir_codegen/branch_emit.rs:14-70 | A block is skipped if and only if it is the empty relay of one early return and reached from nowhere else. |
| `StackifyCorrect.BlockRuns` | neo-compiler/src/codegen/ir_codegen/block_emit.rs:49-171 | One block of stack code against one block of SSA. |
| `StackifyCorrect.BlocksFollow` | neo-compiler/src/codegen/ir_codegen/block_emit.rs:19-171 | The simulation: the machine follows the SSA function for any number of blocks, through folded early returns. |
| `StackifyRoutine.RoutineCorrect` | neo-compiler/src/codegen/ir_codegen/compile.rs:10-39 | For every SSA function of the modelled kind: when it has returned, the compiled routine returns the same value after the same events, and while it runs, so does the routine. |
| `IrPreserved.OptimizeKeeps` | neo-compiler/src/ir/opt.rs:11-20 | The four passes keep what stack code asks of a function: SSA order, one definition per id, existing targets, blocks without parameters, no effects but `emit`, and no effect's result copied or combined. |
| `IrPipeline.OptimizedRoutineCorrect` | neo-compiler/src/codegen/function.rs:331-342 | The IR path end to end: bytes compiled from the optimized function against the SSA function before optimization. |
| `IrPipeline.PipelineCorrect` | neo-compiler/src/codegen/function.rs:331-342 | The same with everything asked of the function before optimization. |
| `StackifySize.OnlyUser` | neo-compiler/src/codegen/ir_codegen/stackify_plan.rs:65-111 | A value that is neither spilled nor cheap has one user in its block. |
| `StackifySize.PositionSize` | neo-compiler/src/codegen/ir_codegen/builder.rs:169-233 | Emitting such a value, or a spilled one for the first time, only emits positions never emitted before; their instructions pay for all the code. |
| `StackifyLinear.CodeIsLinear` | neo-compiler/src/codegen/ir_codegen/builder.rs:169-323 | No blow-up: a routine has at most one instruction, plus three per block, plus six and one per operand for each SSA instruction, however values are shared. |
| `StackifyLinear.FixedArity` | neo-compiler/src/codegen/ir_codegen/builder.rs:169-323 | For instructions of bounded arity that bound is linear in instructions and blocks. |
| `StackifyBuilder.Stackifier.EmitValueRef` | neo-compiler/src/codegen/ir_codegen/builder.rs:129-167 | The method on the builder appends exactly the specified code and updates the spill set as specified. |
| `StackifyBuilder.Stackifier.EmitValueId` | neo-compiler/src/codegen/ir_codegen/builder.rs:169-233 | The same for a value by id. |
| `StackifyBuilder.Stackifier.EmitPureInstr` | neo-compiler/src/codegen/ir_codegen/builder.rs:235-476 | The same for a pure instruction. |
| `StackifyBuilder.Stackifier.EmitIrBlocks` | neo-compiler/src/codegen/ir_codegen/block_emit.rs:19-171 | The loop over blocks records block starts and pending jumps for the unpatched code. |
| `StackifyBuilder.CompileIr` | neo-compiler/src/codegen/ir_codegen/compile.rs:10-39 | Emission, jump patching and the local count together give the specified routine, and succeed exactly when it exists. |
| `StackifyBuilder.CompileFunctionIr` | neo-compiler/src/codegen/ir_codegen/compile.rs:10-39 | Planning and emission together, failing if and only if the plan is too large or emission fails. |
| `StackifyBuilder.PlannedIsPlanned` | neo-compiler/src/codegen/ir_codegen/stackify_plan.rs:35-167 | The computed plan meets what the stackifier theorem asks of a plan. |
| `ParserComplete.PowersAreDocumented` | README.md:134-149 | The binding powers of the parser are the documented precedence levels of the infix operators in order, with all binary operators left-associative and assignment right-associative. |
| `ParserComplete.ExprParsed` | neo-compiler/src/syntax/parser.rs:626-738 | Completeness: every tree that respects precedence, followed by a token that does not continue it, is parsed back from its own tokens. |
| `ParserSound.ExprSound` | neo-compiler/src/syntax/parser.rs:626-738 | Soundness: the tree returned spells exactly the tokens consumed and respects precedence, and the next token could not have continued it. |
| `ParserExact.ParseExact` | neo-compiler/src/syntax/parser.rs:626-693 | `parse_expr_bp` returns a tree if and only if the tree spells the tokens taken, respects precedence, binds as tightly as asked and is not continued. |
| `ParserExact.ParsesWhole` | neo-compiler/src/syntax/parser.rs:621-624 | A token sequence parses as one expression with tree `e` if and only if `e` respects precedence and spells it. |
| `ParserExact.Unambiguous` | neo-compiler/src/syntax/parser.rs:624-738 | No token sequence is spelled by two trees that respect precedence. |
| `StructLiterals.CapitalStartsLiteral` | neo-compiler/src/syntax/parser.rs:776-790 | For a name whose first character is from A to Z: the name and a brace start a struct literal, with any fields in their order. |
| `StructLiterals.EmptyLiteral` | neo-compiler/src/syntax/parser.rs:776-790 | Three tokens, `Name {}`, are the empty literal. |
| `StructLiterals.OtherNamesEnd` | neo-compiler/src/syntax/parser.rs:777 | After any other name the expression ends before the brace, whatever follows and wherever it stands. |
| `TildeLevel.TildePlace` | README.md:134-149 | The documented table itself: `~a op b` groups as `(~a) op b` exactly for comparisons, `&&` and `||`, and as `~(a op b)` for every other operator. |
| `TildeLevel.DocumentedExactlyWhen` | README.md:134-149 | A tree of the parser is a tree of the documented table, which has `~` between `^` and the comparisons, if and only if no `~`-expression stands without parentheses as the operand of a prefix operator, a cast, a postfix or a binary operator tighter than that. |
| `TildeLevel.DocumentedIsParsed` | neo-compiler/src/syntax/parser.rs:695-738 | Every input with a documented reading is parsed: to that reading with each `~` moved to the leftmost operand. |
| `TildeLevel.ParsedAsDocumented` | neo-compiler/src/syntax/parser.rs:695-738 | So an input is parsed to its documented reading if and only if the parser's tree has no such `~`. |
| `TildeLevel.TildeIsPrefix` | neo-compiler/src/syntax/parser.rs:709-712 | `~a & b`: the documented table reads `~(a & b)`, the parser `(~a) & b`, and neither accepts the other's tree. |
| `ExprParser.Cursor.ExprBp` | neo-compiler/src/syntax/parser.rs:626-693 | The cursor method returns the specified tree or error, and on success stands right after it. |
| `ExprParser.Cursor.Operand` | neo-compiler/src/syntax/parser.rs:695-738 | Collected prefix operators applied last first, then casts, give the specified operand. |
| `ExprParser.Cursor.PostfixChain` | neo-compiler/src/syntax/parser.rs:740-798 | The postfix loop gives the specified chain. |
| `ExprParser.Cursor.TryTypeThenBraceLiteral` | neo-compiler/src/syntax/parser.rs:883-918 | An array or map literal is parsed when a type and a brace start here; otherwise the cursor is back where it was. |
| `ExprParser.Cursor.Type` | neo-compiler/src/syntax/parser.rs:972-991 | A type takes its base and every `[]` after it, leaving `[` of an index alone. |
| `ConstResolve.ResolvesExactlyWhen` | neo-compiler/src/codegen/initializer.rs:193-266 | Resolution succeeds if and only if the expression is constant in form and every chain of constants reachable from it consists of known, constant, pairwise different names that are not already being expanded. |
| `ConstResolve.ErrorExplained` | neo-compiler/src/codegen/initializer.rs:199-216 | Every error comes with a chain of names that explains it: to the unknown name, around the cycle that is reported, or to the initializer that is not constant. |
| `ConstResolve.ResolvedNameFree` | neo-compiler/src/codegen/initializer.rs:193-266 | The result mentions no constant. |
| `ConstResolve.ResolvedMeaning` | neo-compiler/src/codegen/initializer.rs:193-266 | For every compositional meaning of the constructs and every valuation in which each resolvable constant has the value of its initializer, the result has the value of the expression. |
| `ConstResolve.SolutionSolves` | neo-compiler/src/codegen/initializer.rs:193-266 | Such a valuation always exists. |
| `ConstResolve.ResolvesAlone` | neo-compiler/src/codegen/initializer.rs:206-213 | What a constant resolves to does not depend on the constants being expanded around it. |
| `ConstResolve.ResolveConstExpr` | neo-compiler/src/codegen/initializer.rs:193-266 | The recursion with one shared stack computes exactly that, terminates on every table, and restores the stack on success. |

## Left out

- CodegenStmt.StmtCorrect: claims nothing for initializers that name their own variable (see `SelfInit.InitializerExactlyWhen`), nor for iteration over anything but an array.
- CodegenFunction.FunctionCorrect: anywhere in a script, a routine that got no RET must have code after it; one that stands alone in its script is covered by `LaidOut.CompiledRuns`, but for runs that are still going.
- LaidOut.LaidOutFunction: covers the two passes that re-encode branches, faults included; `OptimizedSource.OptimizedFunction` covers all five, under the condition of `OptimizedRuns.OptimizeKeeps`.
- OptimizedRuns.OptimizeKeeps: one direction, since a lost branch need not show in any run; for STLOC/LDLOC it asks that no other instruction load the slot, where the pass itself looks forward only; a run that faulted may go on.
- PeepholeLine.OptimizeCovers: on branch-free code; the values left in dead locals may differ.
- LayoutRun.DeletedMeaning: try blocks do not run on the model's machine, although the operands of TRY and ENDTRY are kept on their targets.
- IrOptimize.OptimizeKeepsMeaning: says nothing of runs that fault, since elimination may drop a faulting instruction, nor of blocks whose folds are not exact in the sense of `IrFold.FoldUnaryMeaning` and `IrFold.FoldBinaryMeaning`.
- Operators.CastMeans: the value of a conversion is given for truth values, integers, bytes and arrays to their usual targets; what NeoVM does with null, and with bytes as truth, is left to the machine.
- IrFold.FoldedExec: folded arithmetic is the wrapping one of a release build; a folded division by zero panics in the model as in the code.
- StackifyRoutine.RoutineCorrect: blocks other than the entry take no parameters and no jump leads back to the entry; effects are `emit` only; storage reads are not covered, since the code is emitted where the value is first used, possibly after later writes; a result of an effect used only as both operands of one instruction is excluded.
- StackPlanner.BuildStackifyPlan: the source iterates over hash sets; the order of late spills is a parameter of emission instead.
- SourceFile.CompiledSourceFile.LinkCallLPatches: when linking fails, which functions were already rewritten is not specified.
- ConstResolve.ResolveConstExpr: when resolution fails, the stack is only said to extend the one given.
- Manifest.OffsetsAreStarts: a routine of 4 GiB or more, whose length wraps, is laid out elsewhere than its offset says; contract methods are known by their link symbol, the contract name followed by the method name.
- IrPipeline.PipelineCorrect: asks that no copy or binary operator take the result of an effect; the lowering of `emit` never uses it.
- Lowering of the syntax tree to SSA is not modelled; the SSA theorems start from any well-formed SSA function.
- Block arguments, blocks with parameters, calls, storage writes, map literals and compound assignment to maps have no stack code in the model; their emission is an error there.
- StaleReads.MergesRightExactlyWhen: reads and writes of elements and fields, in one block, by themselves; sizes, keys and values of maps are keyed in the same way and are not modelled, and the other theorems on the SSA form leave mutable objects out, because stackification does not track writes either.
- In structured codegen: calls, struct, map and array literals, member access, index, storage and map assignment, and `for` over maps are compile errors in the model.
- Exceptions, function pointers (PUSHA, CALLA) and the system calls other than Notify: the first two fault on the model's machine, the last are an arbitrary function of stack and events. PUSHA operands are not re-encoded by relayout, in the code and in the model.
- Integers on the model's stack are unbounded; NeoVM's limit of 32 bytes enters only as an assumption on arithmetic (`NeoArithmetic.Sized`), and its item and size limits are not modelled.
- A jump that does not fit 32 bits is an error in the model where the code panics.
- The lexer, statements and declarations of the parser, source spans and error positions.
- The rest of initializer synthesis and of the manifest: field types, default values, getters, permissions.
- The type checker, native contract declarations, the command line, files, JSON and assembly printing: long case lists or input and output.
