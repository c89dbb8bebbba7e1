/** Control flow of the emitted function: no jump is left dangling, and runs follow the SSA function. */
module StackifyFlow {
  import opened Prelude
  import opened Bytecode
  import opened Disasm
  import opened Vm
  import opened Ir
  import opened IrDce
  import opened CodegenSpec
  import opened CodegenSteps
  import opened StackPlan
  import opened Stackify
  import opened StackifyValues
  import opened StackifyRun

  // ----- early-return folding -----

  lemma {:induction false} ElseCountOne(f: Blocks, n: nat, b: nat, target: nat)
    requires b < n <= |f| && ElseOf(f[b], target)
    ensures ElseCount(f, n, target) >= 1
  {
    if b < n - 1 {
      ElseCountOne(f, n - 1, b, target);
    }
  }

  lemma {:induction false} ElseCountTwo(f: Blocks, n: nat, a: nat, b: nat, target: nat)
    requires a < b < n <= |f| && ElseOf(f[a], target) && ElseOf(f[b], target)
    ensures ElseCount(f, n, target) >= 2
  {
    if b < n - 1 {
      ElseCountTwo(f, n - 1, a, b, target);
    } else {
      ElseCountOne(f, n - 1, a, target);
    }
  }

  /** The terminators of the function name existing blocks. */
  predicate TargetsExist(f: Blocks) {
    forall b :: 0 <= b < |f| ==>
      && (f[b].term.Jump? ==> f[b].term.target < |f|)
      && (f[b].term.Branch? ==> f[b].term.thenBb < |f| && f[b].term.elseBb < |f|)
  }

  predicate Reachable(f: Blocks, target: nat) { target < |f| && !Skipped(f, target) }

  /** Where an emitted block jumps. */
  predicate ExitTargets(f: Blocks, exit: Exit) {
    match exit
    case Leave(_) => true
    case Go(target) => Reachable(f, target)
    case Split(_, thenTarget, elseTarget) => Reachable(f, thenTarget) && Reachable(f, elseTarget)
  }

  lemma {:induction false} RelayMeans(f: Blocks, thenBb: nat, elseBb: nat, thenArgs: seq<ValueRef>)
    requires RelayJoin(f, thenBb, elseBb, thenArgs).Some?
    ensures elseBb < |f| && f[elseBb].instrs == [] && JumpsTo(f[elseBb], RelayJoin(f, thenBb, elseBb, thenArgs).value)
    ensures ElseCount(f, |f|, elseBb) == 1
    ensures forall b :: 0 <= b < |f| ==> !JumpsTo(f[b], elseBb) && !ThenOf(f[b], elseBb)
  {
  }

  lemma {:induction false} SkippedMeans(f: Blocks, b: nat, a: nat)
    requires Skipped(f, b) && a < |f|
    ensures !JumpsTo(f[a], b) && !ThenOf(f[a], b)
    ensures ElseOf(f[a], b) ==> RelayJoin(f, f[a].term.thenBb, b, f[a].term.thenArgs).Some?
  {
    hide RelayJoin, ElseCount;
    var c :| 0 <= c < |f| && SkippedBy(f, c, b);
    RelayMeans(f, f[c].term.thenBb, b, f[c].term.thenArgs);
    if ElseOf(f[a], b) && a != c {
      ElseCountTwo(f, |f|, if a < c then a else c, if a < c then c else a, b);
    }
  }

  /**
   * Early-return folding is closed: on any function whose terminators name existing blocks, no
   * emitted jump leads to a skipped relay, so every pending jump finds a block start.
   */
  lemma {:induction false} FoldingClosed(c: Ctx, b: nat, emitted: set<nat>)
    requires b < |c.f| && AllLocalSsa(c.f) && TargetsExist(c.f) && EmitExit(c, b, emitted).Ok?
    ensures ExitTargets(c.f, EmitExit(c, b, emitted).value)
  {
    hide RelayJoin, EmitRef, AllLocalSsa, Skipped;
    var f, t := c.f, c.f[b].term;
    match t
    case Jump(target, _) =>
      if Skipped(f, target) {
        SkippedMeans(f, target, b);
      }
    case Branch(_, thenBb, thenArgs, elseBb, _) =>
      if Skipped(f, thenBb) {
        SkippedMeans(f, thenBb, b);
      }
      var join := RelayJoin(f, thenBb, elseBb, thenArgs);
      if join.Some? {
        RelayMeans(f, thenBb, elseBb, thenArgs);
        if Skipped(f, join.value) {
          SkippedMeans(f, join.value, elseBb);
        }
      } else if Skipped(f, elseBb) {
        SkippedMeans(f, elseBb, b);
      }
    case _ =>
  }

  // ----- where blocks stand -----

  /** The routine: its machine, its offset in the script, and what it was compiled from. */
  datatype Routine = Routine(x: Machine, base: nat, ops: IrOps, c: Ctx, order: seq<nat>, args: seq<Value>)

  /** Block `b` was emitted, and its code stands at its start. */
  ghost predicate Placed(w: Routine, b: nat)
    requires AllLocalSsa(w.c.f)
  {
    && b < |w.c.f| && BlockStart(w.c, w.order, b).Ok? && EmitBlock(w.c, b, w.order).Ok?
    && var start, bc := BlockStart(w.c, w.order, b).value, EmitBlock(w.c, b, w.order).value;
       && PlaceBlock(w.c, w.order, bc, start).Ok?
       && CodeAt(w.x.script, w.base + start, PlaceBlock(w.c, w.order, bc, start).value)
  }

  lemma {:induction false} PlacedLen(c: Ctx, order: seq<nat>, bc: BlockEmission, pc: nat)
    requires AllLocalSsa(c.f) && PlaceBlock(c, order, bc, pc).Ok?
    ensures ByteLen(PlaceBlock(c, order, bc, pc).value) == BlockLen(bc)
  {
    hide ByteLen, PatchedJump, AllLocalSsa, ToLe;
    match bc.exit
    case Leave(code) => ByteLenAppend(bc.body, code);
    case Go(target) =>
      var jump := PatchedJump(c, order, JMP_L, pc + ByteLen(bc.body), target).value;
      PatchedLen(c, order, JMP_L, pc + ByteLen(bc.body), target);
      ByteLenAppend(bc.body, [jump]);
      ByteLenOne(jump);
    case Split(cond, thenTarget, elseTarget) =>
      var p := pc + ByteLen(bc.body) + ByteLen(cond);
      var branch := PatchedJump(c, order, JMPIF_L, p, thenTarget).value;
      var jump := PatchedJump(c, order, JMP_L, p + 5, elseTarget).value;
      PatchedLen(c, order, JMPIF_L, p, thenTarget);
      PatchedLen(c, order, JMP_L, p + 5, elseTarget);
      ByteLenAppend(bc.body, cond + ([branch] + [jump]));
      ByteLenAppend(cond, [branch] + [jump]);
      ByteLenAppend([branch], [jump]);
      ByteLenOne(branch);
      ByteLenOne(jump);
  }

  lemma PatchedLen(c: Ctx, order: seq<nat>, op: byte, pc: nat, target: nat)
    requires AllLocalSsa(c.f) && PatchedJump(c, order, op, pc, target).Ok?
    ensures EncodedLen(PatchedJump(c, order, op, pc, target).value) == 5
    ensures Reachable(c.f, target) && BlockStart(c, order, target).Ok?
    ensures IsLongJump(PatchedJump(c, order, op, pc, target).value, op, BlockStart(c, order, target).value - pc)
  {
    hide BlockStart, AllLocalSsa, Skipped;
  }

  /** Every emitted block stands at its start. */
  lemma {:induction false} BlocksPlaced(w: Routine, b: nat)
    requires AllLocalSsa(w.c.f) && b <= |w.c.f| && PlaceBlocks(w.c, w.order, b).Ok?
    requires CodeAt(w.x.script, w.base + 3, PlaceBlocks(w.c, w.order, b).value)
    ensures BlockStart(w.c, w.order, b) == Ok(3 + ByteLen(PlaceBlocks(w.c, w.order, b).value))
    ensures forall k :: 0 <= k < b && !Skipped(w.c.f, k) ==> Placed(w, k)
  {
    hide CodeAt, PlaceBlock, EmitBlock, AllLocalSsa, Skipped, ByteLen, BlockLen;
    if b == 0 {
      ByteLenNone();
    } else if Skipped(w.c.f, b - 1) {
      BlocksPlaced(w, b - 1);
    } else {
      var start, bc := BlockStart(w.c, w.order, b - 1).value, EmitBlock(w.c, b - 1, w.order).value;
      var front, code := PlaceBlocks(w.c, w.order, b - 1).value, PlaceBlock(w.c, w.order, bc, start).value;
      CodeAtSplit(w.x.script, w.base + 3, front, code);
      ByteLenAppend(front, code);
      PlacedLen(w.c, w.order, bc, start);
      BlocksPlaced(w, b - 1);
    }
  }

  /** A placed block has at least one byte of code. */
  lemma {:induction false} PlacedInScript(w: Routine, b: nat)
    requires AllLocalSsa(w.c.f) && Placed(w, b)
    ensures w.base + BlockStart(w.c, w.order, b).value < |w.x.script|
  {
    hide BlockStart, AllLocalSsa, ByteLen, EncodeAll, EmitEffects, EmitSpills, PatchedJump;
    var start, bc := BlockStart(w.c, w.order, b).value, EmitBlock(w.c, b, w.order).value;
    var code := PlaceBlock(w.c, w.order, bc, start).value;
    PlacedLen(w.c, w.order, bc, start);
    LeaveNotEmpty(w.c, b, w.order);
  }

  lemma {:induction false} LeaveNotEmpty(c: Ctx, b: nat, order: seq<nat>)
    requires b < |c.f| && AllLocalSsa(c.f) && EmitBlock(c, b, order).Ok?
    ensures BlockLen(EmitBlock(c, b, order).value) > 0
  {
    hide AllLocalSsa, ByteLen, EmitEffects, EmitSpills, EmitRef;
    var exit := EmitBlock(c, b, order).value.exit;
    if exit.Leave? {
      RetLast(c, b, order);
      ByteLenAppend(exit.code[..|exit.code| - 1], [Op(RET)]);
      ByteLenOne(Op(RET));
      assert exit.code == exit.code[..|exit.code| - 1] + [Op(RET)];
    }
  }

  lemma {:induction false} RetLast(c: Ctx, b: nat, order: seq<nat>)
    requires b < |c.f| && AllLocalSsa(c.f) && EmitBlock(c, b, order).Ok? && EmitBlock(c, b, order).value.exit.Leave?
    ensures var code := EmitBlock(c, b, order).value.exit.code; code != [] && code[|code| - 1] == Op(RET)
  {
    hide AllLocalSsa, ByteLen, EmitEffects, EmitSpills, EmitRef;
  }
}
