/** The IR path end to end: optimize the SSA function, stackify it, run the bytes. */
module IrPipeline {
  import opened Prelude
  import opened Bytecode
  import opened Disasm
  import opened Vm
  import opened Ir
  import opened IrFold
  import opened IrDce
  import opened IrOptimize
  import opened IrPreserved
  import opened CodegenSteps
  import opened StackPlan
  import opened Stackify
  import opened StackifyValues
  import opened StackifyRun
  import opened StackifyFlow
  import opened StackifyCorrect
  import opened StackifyRoutine

  /** What is asked of the function given to the optimizer. */
  ghost predicate Suitable(w: Routine, f: Blocks, n: nat) {
    && Optimizable(f) && IdsBelow(f, n) && TargetsExist(f) && PlainBlocks(f) && EffectsApart(f) && |f| > 0
    && forall b :: 0 <= b < |f| ==> Scalar(f[b].instrs) && OperatorsOk(w.x.ops, w.ops, f[b].instrs)
  }

  /**
   * The routine holds the code of its function, by the plan of that function. (Stack code is
   * defined for functions in SSA form; that the optimizer keeps the form is part of the theorem.)
   */
  ghost predicate Planned(w: Routine, n: nat, locals: nat) {
    var c := w.c;
    && c.entry == 0 && |w.args| == c.argCount < 256 && w.ops.vm == w.x.ops
    && (forall id :: id in c.spill <==> Spilled(c.f, id)) && PlannedSlots(c, n, locals)
    && (forall id :: id in w.order <==> Cross(c.f, id))
    && (AllLocalSsa(c.f) ==> CompileCode(c, w.order, locals).Ok? && CodeAt(w.x.script, w.base, CompileCode(c, w.order, locals).value))
  }

  lemma {:induction false} OptimizedCompiled(f: Blocks, w: Routine, n: nat, locals: nat)
    requires Suitable(w, f, n) && w.c.f == OptimizeBlocks(f) && Planned(w, n, locals)
    ensures Compiled(w, n, locals)
  {
    hide AllLocalSsa, UniqueIds, FitBlocks, IdsBelow, TargetsExist, PlainBlocks, NoSquaredEffects, EffectsApart, Scalar, OperatorsOk, FoldsExactly, OptimizeBlocks;
    hide Spilled, Cross, PlannedSlots, CompileCode, CodeAt;
    InputFits(w.x.ops, w.ops, n, f);
    OptimizeKeeps(w.x.ops, w.ops, n, EffectIds(f), f);
    FitMeans(w.x.ops, w.ops, n, EffectIds(f), w.c.f);
  }

  /**
   * Bytes against the SSA function as it was before optimization. `w` is the routine compiled from
   * the optimized function; if the original function, run for `n` blocks, has returned, the machine
   * returns the same value after the same events, and while the original is still running, so is
   * the machine.
   */
  lemma {:induction false} OptimizedRoutineCorrect(f: Blocks, w: Routine, a: State, n: nat, locals: nat, below: List<Value>, d: Data, steps: nat)
    returns (d': Data)
    requires Optimizable(f) && IntegerMachine(w.ops.vm) && w.c.f == OptimizeBlocks(f)
    requires Compiled(w, n, locals) && locals + w.c.argCount > 0
    requires Leads(w.x, a, At(w.x, w.base, d)) && Take(d.stack, w.c.argCount) == Some((w.args, below))
    requires RunIr(w.ops, f, AtBlock(0, w.args, map[], d.trace), steps) != Crashed
    ensures Follows(w, a, RunIr(w.ops, f, AtBlock(0, w.args, map[], d.trace), steps), below, steps, d')
  {
    hide Compiled, Optimizable, IntegerMachine, Take, Leads, RunIr, OptimizeBlocks, Outlasts;
    var start := AtBlock(0, w.args, map[], d.trace);
    OptimizeKeepsMeaning(w.ops, f, start, steps);
    d' := RoutineCorrect(w, a, n, locals, below, d, steps);
  }

  /** The same with everything asked of the function before optimization. */
  lemma {:induction false} PipelineCorrect(f: Blocks, w: Routine, a: State, n: nat, locals: nat, below: List<Value>, d: Data, steps: nat)
    returns (d': Data)
    requires Suitable(w, f, n) && IntegerMachine(w.ops.vm) && w.c.f == OptimizeBlocks(f)
    requires Planned(w, n, locals) && locals + w.c.argCount > 0
    requires Leads(w.x, a, At(w.x, w.base, d)) && Take(d.stack, w.c.argCount) == Some((w.args, below))
    requires RunIr(w.ops, f, AtBlock(0, w.args, map[], d.trace), steps) != Crashed
    ensures Follows(w, a, RunIr(w.ops, f, AtBlock(0, w.args, map[], d.trace), steps), below, steps, d')
  {
    hide Compiled, Planned, Optimizable, IntegerMachine, Take, Leads, RunIr, OptimizeBlocks, Follows;
    hide IdsBelow, TargetsExist, PlainBlocks, EffectsApart, Scalar, OperatorsOk;
    OptimizedCompiled(f, w, n, locals);
    d' := OptimizedRoutineCorrect(f, w, a, n, locals, below, d, steps);
  }
}
