/** The emitted routine is linear in the SSA function. */
module StackifyLinear {
  import opened Prelude
  import opened Bytecode
  import opened Vm
  import opened Ir
  import opened IrDce
  import opened CodegenSpec
  import opened StackPlan
  import opened Stackify
  import opened StackifySize

  /** The instructions of an exit besides the body: the value it reads, and the jumps or the return. */
  function ExitLen(exit: Exit): nat {
    match exit
    case Leave(code) => |code|
    case Go(_) => 1
    case Split(cond, _, _) => |cond| + 2
  }

  lemma {:induction false} BlockSize(c: Ctx, b: nat, order: seq<nat>)
    requires Planned(c) && b < |c.f| && EmitBlock(c, b, order).Ok?
    ensures var bc := EmitBlock(c, b, order).value; |bc.body| + ExitLen(bc.exit) <= BlockCost(c.f[b].instrs, |c.f[b].instrs|) + 3
  {
    hide EmitEffects, EmitSpills, EmitExit, Planned, Done;
    PlannedBlock(c, b);
    StartDone(c, b);
    var effects := EmitEffects(c, b, {}, 0).value;
    var a := EffectsSize(c, b, {}, 0, {});
    var spills := EmitSpills(c, b, effects.1, order).value;
    var late := SpillsSize(c, b, effects.1, order, {} + a);
    var n := |c.f[b].instrs|;
    assert {} + a == a;
    CostUnion(c.f[b].instrs, a, late, n);
    var last := TermSize(c, b, spills.1, a + late);
    CostUnion(c.f[b].instrs, a + late, last, n);
    CostAll(c.f[b].instrs, (a + late) + last, n);
  }

  lemma StartDone(c: Ctx, b: nat)
    requires b < |c.f|
    ensures Done(c, b, {}, {}, Past(c, b)) && AllBelow({}, 0)
  {
  }

  lemma {:induction false} TermSize(c: Ctx, b: nat, emitted: set<nat>, done: set<nat>) returns (added: set<nat>)
    requires Planned(c) && b < |c.f| && EmitExit(c, b, emitted).Ok?
    requires Done(c, b, done, emitted, Past(c, b)) && AllBelow(done, |c.f[b].instrs|)
    ensures added !! done
    ensures ExitLen(EmitExit(c, b, emitted).value) <= Cost(c.f[b].instrs, added, |c.f[b].instrs|) + 3
  {
    hide EmitRef, Planned, Done, RelayJoin;
    PlannedBlock(c, b);
    var term := c.f[b].term;
    added := {};
    if term.Ret? && term.result.Some? {
      added := ExitSize(c, b, emitted, term.result.value, done);
    } else if term.Branch? {
      added := ExitSize(c, b, emitted, term.cond, done);
    }
  }

  /** Three instructions a block, and its charge. */
  function FunctionCost(f: Blocks, n: nat): nat
    requires n <= |f|
  {
    if n == 0 then 0 else FunctionCost(f, n - 1) + BlockCost(f[n - 1].instrs, |f[n - 1].instrs|) + 3
  }

  lemma {:induction false} PlacedSize(c: Ctx, order: seq<nat>, n: nat)
    requires Planned(c) && n <= |c.f| && AllLocalSsa(c.f) && PlaceBlocks(c, order, n).Ok?
    ensures |PlaceBlocks(c, order, n).value| <= FunctionCost(c.f, n)
  {
    hide EmitBlock, Planned, BlockStart, Skipped, PatchedJump, AllLocalSsa, BlockCost;
    if n > 0 {
      PlacedSize(c, order, n - 1);
      if !Skipped(c.f, n - 1) {
        BlockSize(c, n - 1, order);
      }
    }
  }

  /**
   * No blow-up: the emitted routine is at most linear in the SSA function, counting operands,
   * although values are shared.
   */
  lemma {:induction false} CodeIsLinear(c: Ctx, order: seq<nat>, locals: nat)
    requires Planned(c) && locals < 256 && c.argCount < 256 && AllLocalSsa(c.f) && CompileCode(c, order, locals).Ok?
    ensures |CompileCode(c, order, locals).value| <= 1 + FunctionCost(c.f, |c.f|)
  {
    hide PlaceBlocks, Planned, AllLocalSsa, FunctionCost;
    PlacedSize(c, order, |c.f|);
  }

  function Instructions(f: Blocks, n: nat): nat
    requires n <= |f|
  {
    if n == 0 then 0 else Instructions(f, n - 1) + |f[n - 1].instrs|
  }

  /** With at most `k` operands each, `n` instructions in `m` blocks cost at most `(k + 6) n + 3 m`. */
  lemma {:induction false} FixedArity(f: Blocks, n: nat, k: nat)
    requires n <= |f| && forall b, p :: 0 <= b < |f| && 0 <= p < |f[b].instrs| ==> |Operands(f[b].instrs[p].1)| <= k
    ensures FunctionCost(f, n) <= (k + 6) * Instructions(f, n) + 3 * n
  {
    hide Operands, BlockCost;
    if n > 0 {
      FixedArity(f, n - 1, k);
      BlockArity(f[n - 1].instrs, |f[n - 1].instrs|, k);
      Distribute(k + 6, Instructions(f, n - 1), |f[n - 1].instrs|);
    }
  }

  lemma Distribute(k: nat, a: nat, b: nat)
    ensures k * (a + b) == k * a + k * b
  {
  }

  lemma {:induction false} BlockArity(instrs: Instrs, n: nat, k: nat)
    requires n <= |instrs| && forall p :: 0 <= p < |instrs| ==> |Operands(instrs[p].1)| <= k
    ensures BlockCost(instrs, n) <= (k + 6) * n
  {
    hide Operands;
    if n > 0 {
      BlockArity(instrs, n - 1, k);
      Distribute(k + 6, n - 1, 1);
    }
  }
}
