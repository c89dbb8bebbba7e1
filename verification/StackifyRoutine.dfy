/** The theorem of the stackifier, on the plan of the function. */
module StackifyRoutine {
  import opened Prelude
  import opened Bytecode
  import opened Disasm
  import opened Vm
  import opened Ir
  import opened IrDce
  import opened CodegenSpec
  import opened CodegenSteps
  import opened StackPlan
  import opened Stackify
  import opened StackifyValues
  import opened StackifyRun
  import opened StackifyFlow
  import opened StackifyCorrect

  /** The plan's slots: distinct, and every spilled value has one. */
  predicate PlannedSlots(c: Ctx, n: nat, locals: nat) {
    c.slot == ValueSlots(c.spill, n).0 && ValueSlots(c.spill, n).1 <= locals <= MAX_PLANNED
  }

  lemma {:induction false} PlannedSlotsOk(c: Ctx, n: nat, locals: nat)
    requires PlannedSlots(c, n, locals)
    ensures SlotsOk(c) && forall id :: id in c.slot ==> c.slot[id] < locals
    ensures forall id :: id in c.spill && id < n ==> id in c.slot
  {
    hide ValueSlots;
    ValueSlotsFill(c.spill, n);
    forall id, other | id in c.slot && other in c.slot && id != other ensures c.slot[id] != c.slot[other] {
      ValueSlotsDistinct(c.spill, n, if id < other then id else other, if id < other then other else id);
    }
  }

  /** Every id of the function is below `n`. */
  predicate IdsBelow(f: Blocks, n: nat) {
    forall b, p :: 0 <= b < |f| && 0 <= p < |f[b].instrs| ==> f[b].instrs[p].0 < n
  }

  /** No effect's result is used only as both operands of one instruction. */
  ghost predicate NoSquaredEffects(f: Blocks) {
    forall b, p :: 0 <= b < |f| && 0 <= p < |f[b].instrs| && HasSideEffects(f[b].instrs[p].1) ==> !Squared(f, f[b].instrs[p].0)
  }

  lemma {:induction false} EffectsAreStored(c: Ctx)
    requires UniqueIds(c.f) && NoSquaredEffects(c.f) && forall id :: id in c.spill <==> Spilled(c.f, id)
    ensures EffectsStored(c)
  {
    hide UniqueIds, Uses, DefsOf, Squared, Cross, CheapLiteral;
    forall b, p | 0 <= b < |c.f| && 0 <= p < |c.f[b].instrs| && HasSideEffects(c.f[b].instrs[p].1) && Uses(c.f, c.f[b].instrs[p].0) > 0
      ensures c.f[b].instrs[p].0 in c.spill
    {
      TheDefinition(c.f, b, p);
    }
  }

  lemma {:induction false} SpillsDefined(c: Ctx, n: nat, locals: nat)
    requires IdsBelow(c.f, n) && PlannedSlots(c, n, locals) && forall id :: id in c.spill <==> Spilled(c.f, id)
    ensures forall id :: id in c.spill ==> id in c.slot && id in DefsOf(c.f, |c.f|)
  {
    hide DefsOf, SpilledAs, ValueSlots;
    PlannedSlotsOk(c, n, locals);
    forall id | id in c.spill ensures id < n {
      DefsFind(c.f, |c.f|, id);
    }
  }

  /** Nothing jumps to the entry, so it is not skipped. */
  lemma EntryStays(f: Blocks)
    requires PlainBlocks(f)
    ensures !Skipped(f, 0)
  {
    hide RelayJoin;
    assert forall a :: 0 <= a < |f| && SkippedBy(f, a, 0) ==> ElseOf(f[a], 0);
  }

  /** The routine was compiled from an SSA function of scalars, by a plan of that function. */
  ghost predicate Compiled(w: Routine, n: nat, locals: nat) {
    var c := w.c;
    && AllLocalSsa(c.f) && UniqueIds(c.f) && IdsBelow(c.f, n) && TargetsExist(c.f) && PlainBlocks(c.f) && NoSquaredEffects(c.f)
    && c.entry == 0 && |c.f| > 0 && |w.args| == c.argCount < 256
    && (forall b :: 0 <= b < |c.f| ==> Scalar(c.f[b].instrs) && OperatorsOk(w.x.ops, w.ops, c.f[b].instrs)) && w.ops.vm == w.x.ops
    && (forall id :: id in c.spill <==> Spilled(c.f, id)) && PlannedSlots(c, n, locals)
    && (forall id :: id in w.order <==> Cross(c.f, id))
    && CompileCode(c, w.order, locals).Ok? && CodeAt(w.x.script, w.base, CompileCode(c, w.order, locals).value)
  }

  lemma LocalsByte(c: Ctx, n: nat, locals: nat)
    requires PlannedSlots(c, n, locals)
    ensures locals < 256
  {
  }

  lemma {:induction false} CompiledGood(w: Routine, n: nat, locals: nat)
    requires Compiled(w, n, locals)
    ensures Good(w) && TargetsExist(w.c.f) && PlainBlocks(w.c.f)
  {
    hide LocalSsa, UniqueIds, Scalar, OperatorsOk, TargetsExist, Placed, PlaceBlocks, CodeAt, Cross, Spilled, DefsOf, NoSquaredEffects, IdsBelow, PlannedSlots, EffectsStored, SlotsOk, Skipped, ByteLen, EmitBlock;
    EntryStays(w.c.f);
    LocalsByte(w.c, n, locals);
    PlannedSlotsOk(w.c, n, locals);
    SpillsDefined(w.c, n, locals);
    EffectsAreStored(w.c);
    var init, code := Instruction(INITSLOT, [locals, w.c.argCount]), PlaceBlocks(w.c, w.order, |w.c.f|).value;
    CodeAtSplit(w.x.script, w.base, [init], code);
    ByteLenOne(init);
    BlocksPlaced(w, |w.c.f|);
  }

  /** INITSLOT moves the arguments into their slots and clears the locals. */
  lemma {:induction false} EntryRuns(w: Routine, a: State, n: nat, locals: nat, below: List<Value>, d: Data) returns (d': Data)
    requires Compiled(w, n, locals) && locals + w.c.argCount > 0
    requires Leads(w.x, a, At(w.x, w.base, d)) && Take(d.stack, w.c.argCount) == Some((w.args, below))
    ensures AllLocalSsa(w.c.f) && StackifyCorrect.Mirrors(w, a, AtBlock(0, w.args, map[], d.trace), below, d')
  {
    hide LocalSsa, UniqueIds, Scalar, OperatorsOk, TargetsExist, Placed, PlaceBlocks, CodeAt, Cross, Spilled, DefsOf, NoSquaredEffects, IdsBelow, ValueSlots, Take, ExecData, Leads, Skipped, Good;
    CompiledGood(w, n, locals);
    GoodMeans(w);
    LocalsByte(w.c, n, locals);
    PlannedSlotsOk(w.c, n, locals);
    var init, code := Instruction(INITSLOT, [locals, w.c.argCount]), PlaceBlocks(w.c, w.order, |w.c.f|).value;
    d' := d.(stack := below, locals := seq(locals, _ => Null), args := w.args);
    InitWellFormed(init);
    DataStep(w.x, a, init, code, w.base, d);
    StartOfEntry(w.c, w.order);
    InitExec(w.x.ops, init, locals, w.c.argCount, d);
    assert Stored(w.c, map[], d');
    assert forall id :: Constant(w.c.f, w.args, map[], id);
  }

  lemma StartOfEntry(c: Ctx, order: seq<nat>)
    requires AllLocalSsa(c.f)
    ensures BlockStart(c, order, 0) == Ok(3)
  {
  }

  lemma InitWellFormed(i: Instruction)
    requires i.opcode == INITSLOT && |i.operands| == 2
    ensures IsDataInstruction(i)
  {
  }

  lemma InitExec(ops: Ops, i: Instruction, locals: byte, args: byte, d: Data)
    requires i == Instruction(INITSLOT, [locals, args])
    ensures ExecData(ops, i, d) == Initialize(d, locals, args)
  {
    hide Initialize;
  }

  /**
   * The theorem of the stackifier. Enter the routine with its arguments on the stack, first on
   * top. If the SSA function, run for `n` blocks, has returned, the machine returns with the same
   * value on the stack it had, and has emitted the same events; if the SSA function is still
   * running, so is the machine, after at least half as many steps.
   */
  lemma {:induction false} RoutineCorrect(w: Routine, a: State, n: nat, locals: nat, below: List<Value>, d: Data, steps: nat) returns (d': Data)
    requires Compiled(w, n, locals) && locals + w.c.argCount > 0
    requires Leads(w.x, a, At(w.x, w.base, d)) && Take(d.stack, w.c.argCount) == Some((w.args, below))
    requires RunIr(w.ops, w.c.f, AtBlock(0, w.args, map[], d.trace), steps) != Crashed
    ensures Follows(w, a, RunIr(w.ops, w.c.f, AtBlock(0, w.args, map[], d.trace), steps), below, steps, d')
  {
    hide Compiled, Take, Leads, RunIr, Follows, Good, TargetsExist, PlainBlocks;
    CompiledGood(w, n, locals);
    var d1 := EntryRuns(w, a, n, locals, below, d);
    d' := BlocksFollow(w, a, AtBlock(0, w.args, map[], d.trace), below, d1, steps);
  }
}
