/**
 * The stackifier as it runs: a builder it appends to, the set of values already in their slots,
 * block starts, and jumps that are patched at the end (ir_codegen).
 */
module StackifyBuilder {
  import opened Prelude
  import opened Bytecode
  import opened Disasm
  import opened Vm
  import opened Ir
  import opened IrDce
  import opened CodegenSpec
  import opened StackPlan
  import opened Stackify
  import opened StackifyFlow
  import opened Compiler
  import opened StackPlanner
  import opened StackifyRoutine
  import Ast

  // ----- code with jumps still to be patched -----

  type Pending = seq<(nat, nat)>

  function Hole(op: byte): Instruction { Instruction(op, [0, 0, 0, 0]) }

  function HoleExit(exit: Exit): Code {
    match exit
    case Leave(code) => code
    case Go(_) => [Hole(JMP_L)]
    case Split(cond, _, _) => cond + ([Hole(JMPIF_L)] + [Hole(JMP_L)])
  }

  /** The block with zero operands in its jumps. */
  function HoleBlock(bc: BlockEmission): Code { bc.body + HoleExit(bc.exit) }

  /** Jumps of a terminator whose first instruction has index `at`, and the blocks they are for. */
  function ExitPending(exit: Exit, at: nat): Pending {
    match exit
    case Leave(_) => []
    case Go(target) => [(at, target)]
    case Split(cond, thenTarget, elseTarget) => [(at + |cond|, thenTarget), (at + |cond| + 1, elseTarget)]
  }

  function HoleBlocks(c: Ctx, order: seq<nat>, b: nat): Result<Code, CodegenError>
    requires b <= |c.f| && AllLocalSsa(c.f)
  {
    if b == 0 then Ok([])
    else
      var front :- HoleBlocks(c, order, b - 1);
      if Skipped(c.f, b - 1) then Ok(front)
      else
        var bc :- EmitBlock(c, b - 1, order);
        Ok(front + HoleBlock(bc))
  }

  /** Jumps of the first `b` blocks; instruction 0 is INITSLOT. */
  function PendingJumps(c: Ctx, order: seq<nat>, b: nat): Pending
    requires b <= |c.f| && AllLocalSsa(c.f)
  {
    if b == 0 || HoleBlocks(c, order, b).Err? then []
    else if Skipped(c.f, b - 1) then PendingJumps(c, order, b - 1)
    else PendingJumps(c, order, b - 1) + ExitPending(EmitBlock(c, b - 1, order).value.exit,
                                                        1 + |HoleBlocks(c, order, b - 1).value| + |EmitBlock(c, b - 1, order).value.body|)
  }

  function Starts(c: Ctx, order: seq<nat>, b: nat): map<nat, nat>
    requires b <= |c.f| && AllLocalSsa(c.f)
  {
    if b == 0 || BlockStart(c, order, b - 1).Err? then map[]
    else if Skipped(c.f, b - 1) then Starts(c, order, b - 1)
    else Starts(c, order, b - 1)[b - 1 := BlockStart(c, order, b - 1).value]
  }

  lemma {:induction false} HoleBlockLen(bc: BlockEmission)
    ensures ByteLen(HoleBlock(bc)) == BlockLen(bc)
  {
    hide ByteLen;
    ByteLenOne(Hole(JMP_L));
    ByteLenOne(Hole(JMPIF_L));
    match bc.exit
    case Leave(code) => ByteLenAppend(bc.body, code);
    case Go(_) => ByteLenAppend(bc.body, [Hole(JMP_L)]);
    case Split(cond, _, _) =>
      ByteLenAppend(bc.body, cond + ([Hole(JMPIF_L)] + [Hole(JMP_L)]));
      ByteLenAppend(cond, [Hole(JMPIF_L)] + [Hole(JMP_L)]);
      ByteLenAppend([Hole(JMPIF_L)], [Hole(JMP_L)]);
  }

  lemma {:induction false} HolesStart(c: Ctx, order: seq<nat>, b: nat)
    requires b <= |c.f| && AllLocalSsa(c.f)
    ensures HoleBlocks(c, order, b).Ok? <==> BlockStart(c, order, b).Ok?
    ensures HoleBlocks(c, order, b).Err? ==> HoleBlocks(c, order, b).error == BlockStart(c, order, b).error
    ensures HoleBlocks(c, order, b).Ok? ==> BlockStart(c, order, b).value == 3 + ByteLen(HoleBlocks(c, order, b).value)
  {
    hide ByteLen, EmitBlock, HoleBlock, BlockLen, AllLocalSsa, Skipped;
    if b == 0 {
      ByteLenNone();
    } else {
      HolesStart(c, order, b - 1);
      if HoleBlocks(c, order, b - 1).Ok? && !Skipped(c.f, b - 1) && EmitBlock(c, b - 1, order).Ok? {
        HoleBlockLen(EmitBlock(c, b - 1, order).value);
        ByteLenAppend(HoleBlocks(c, order, b - 1).value, HoleBlock(EmitBlock(c, b - 1, order).value));
      }
    }
  }

  // ----- patching -----

  /** Resolve the pending jump at `at`: it gets its block's start minus its own offset. */
  function PatchJump(code: Code, at: nat, target: nat, starts: map<nat, nat>): (r: Result<Code, CodegenError>)
    requires at < |code|
    ensures r.Ok? ==> |r.value| == |code|
  {
    if target !in starts then Err(Unsupported)
    else
      var relative := starts[target] - ByteLen(code[..at]);
      if !FitsI32(relative) then Err(JumpOverflow)
      else Ok(code[at := LongJump(code[at].opcode, relative)])
  }

  predicate Inside(pending: Pending, n: nat) { forall k :: 0 <= k < |pending| ==> pending[k].0 < n }

  /** Resolve the pending jumps in order. */
  function PatchAll(code: Code, pending: Pending, starts: map<nat, nat>): Result<Code, CodegenError>
    requires Inside(pending, |code|)
    decreases |pending|
  {
    if pending == [] then Ok(code)
    else
      var next :- PatchJump(code, pending[0].0, pending[0].1, starts);
      PatchAll(next, pending[1..], starts)
  }

  lemma PatchNone(code: Code, starts: map<nat, nat>)
    ensures PatchAll(code, [], starts) == Ok(code)
  {
  }

  lemma PatchFirst(code: Code, p: Pending, q: Pending, starts: map<nat, nat>)
    requires Inside(p, |code|) && Inside(q, |code|) && p != []
    ensures Inside(p + q, |code|) && Inside(p[1..] + q, |code|)
    ensures var next := PatchJump(code, p[0].0, p[0].1, starts);
            PatchAll(code, p + q, starts) == if next.Ok? then PatchAll(next.value, p[1..] + q, starts) else next
  {
    hide PatchJump;
    assert (p + q)[0] == p[0] && (p + q)[1..] == p[1..] + q;
  }

  lemma {:induction false} PatchSplit(code: Code, p: Pending, q: Pending, starts: map<nat, nat>)
    requires Inside(p, |code|) && Inside(q, |code|)
    ensures PatchAll(code, p, starts).Ok? ==> |PatchAll(code, p, starts).value| == |code|
    ensures Inside(p + q, |code|)
    ensures PatchAll(code, p + q, starts) ==
            if PatchAll(code, p, starts).Ok? then PatchAll(PatchAll(code, p, starts).value, q, starts) else PatchAll(code, p, starts)
    decreases |p|
  {
    hide PatchJump, PatchAll;
    if p == [] {
      assert p + q == q;
      PatchNone(code, starts);
    } else {
      PatchFirst(code, p, q, starts);
      PatchFirst(code, p, [], starts);
      assert p + [] == p && p[1..] + [] == p[1..];
      var next := PatchJump(code, p[0].0, p[0].1, starts);
      if next.Ok? {
        PatchSplit(next.value, p[1..], q, starts);
      }
    }
  }

  lemma JumpInFront(front: Code, rest: Code, at: nat, target: nat, starts: map<nat, nat>)
    requires at < |front|
    ensures PatchJump(front + rest, at, target, starts) ==
            match PatchJump(front, at, target, starts)
            case Ok(code) => Ok(code + rest)
            case Err(x) => Err(x)
  {
    hide ByteLen, LongJump;
    assert (front + rest)[..at] == front[..at] && (front + rest)[at] == front[at];
    if PatchJump(front, at, target, starts).Ok? {
      var i := LongJump(front[at].opcode, starts[target] - ByteLen(front[..at]));
      assert (front + rest)[at := i] == front[at := i] + rest;
    }
  }

  /** Patching inside the front leaves the rest alone. */
  lemma {:induction false} PatchFront(front: Code, rest: Code, p: Pending, starts: map<nat, nat>)
    requires Inside(p, |front|)
    ensures Inside(p, |front + rest|)
    ensures PatchAll(front + rest, p, starts) ==
            if PatchAll(front, p, starts).Ok? then Ok(PatchAll(front, p, starts).value + rest) else PatchAll(front, p, starts)
    decreases |p|
  {
    hide PatchJump, PatchAll;
    if p == [] {
      PatchNone(front, starts);
      PatchNone(front + rest, starts);
    } else {
      PatchFirst(front, p, [], starts);
      PatchFirst(front + rest, p, [], starts);
      assert p + [] == p && p[1..] + [] == p[1..];
      JumpInFront(front, rest, p[0].0, p[0].1, starts);
      var next := PatchJump(front, p[0].0, p[0].1, starts);
      if next.Ok? {
        PatchFront(next.value, rest, p[1..], starts);
      }
    }
  }

  /** `starts` are the block starts of a function whose blocks were all emitted. */
  ghost predicate StartsOf(c: Ctx, order: seq<nat>, starts: map<nat, nat>)
    requires AllLocalSsa(c.f)
  {
    && (forall b :: 0 <= b < |c.f| ==> BlockStart(c, order, b).Ok?)
    && (forall t: nat :: t in starts <==> t < |c.f| && !Skipped(c.f, t))
    && (forall t :: t in starts ==> starts[t] == BlockStart(c, order, t).value)
  }

  lemma {:induction false} StartsAre(c: Ctx, order: seq<nat>, b: nat)
    requires AllLocalSsa(c.f) && b <= |c.f| && HoleBlocks(c, order, b).Ok?
    ensures forall k :: 0 <= k <= b ==> BlockStart(c, order, k).Ok?
    ensures forall t: nat :: t in Starts(c, order, b) <==> t < b && !Skipped(c.f, t)
    ensures forall t :: t in Starts(c, order, b) ==> Starts(c, order, b)[t] == BlockStart(c, order, t).value
  {
    hide EmitBlock, HoleBlock, AllLocalSsa, Skipped, BlockStart;
    HolesStart(c, order, b);
    if b > 0 {
      StartsAre(c, order, b - 1);
    }
  }

  /** One pending jump, at byte `pc` of the routine. */
  lemma {:induction false} PatchOne(c: Ctx, order: seq<nat>, starts: map<nat, nat>, front: Code, op: byte, rest: Code, target: nat, pc: nat)
    requires AllLocalSsa(c.f) && StartsOf(c, order, starts) && ByteLen(front) == pc
    ensures var code := front + ([Hole(op)] + rest);
            |front| < |code| &&
            PatchAll(code, [(|front|, target)], starts) ==
            match PatchedJump(c, order, op, pc, target)
            case Ok(i) => Ok(front + ([i] + rest))
            case Err(x) => Err(x)
  {
    hide ByteLen, AllLocalSsa, Skipped, BlockStart, ToLe;
    var code := front + ([Hole(op)] + rest);
    var p: Pending := [(|front|, target)];
    assert code[..|front|] == front && code[|front|] == Hole(op);
    assert p[1..] == [];
    if PatchedJump(c, order, op, pc, target).Ok? {
      var i := PatchedJump(c, order, op, pc, target).value;
      assert code[|front| := i] == front + ([i] + rest);
    }
  }

  lemma {:induction false} PatchExit(c: Ctx, order: seq<nat>, starts: map<nat, nat>, front: Code, bc: BlockEmission, start: nat)
    requires AllLocalSsa(c.f) && StartsOf(c, order, starts) && ByteLen(front) == start
    ensures var p := ExitPending(bc.exit, |front| + |bc.body|);
            && (forall k :: 0 <= k < |p| ==> p[k].0 < |front + HoleBlock(bc)|)
            && PatchAll(front + HoleBlock(bc), p, starts) ==
               match PlaceBlock(c, order, bc, start)
               case Ok(code) => Ok(front + code)
               case Err(x) => Err(x)
  {
    hide ByteLen, AllLocalSsa, PatchedJump, PatchAll, StartsOf;
    var whole := front + bc.body;
    ByteLenAppend(front, bc.body);
    match bc.exit
    case Leave(code) =>
      PatchNone(front + HoleBlock(bc), starts);
    case Go(target) =>
      Regroup(front, bc.body, [Hole(JMP_L)]);
      assert [Hole(JMP_L)] == [Hole(JMP_L)] + [];
      PatchOne(c, order, starts, whole, JMP_L, [], target, start + ByteLen(bc.body));
      var jump := PatchedJump(c, order, JMP_L, start + ByteLen(bc.body), target);
      if jump.Ok? {
        assert [jump.value] == [jump.value] + [];
        Regroup(front, bc.body, [jump.value]);
      }
    case Split(cond, thenTarget, elseTarget) => PatchSplitExit(c, order, starts, front, bc, start);
  }

  lemma {:induction false} PatchSplitExit(c: Ctx, order: seq<nat>, starts: map<nat, nat>, front: Code, bc: BlockEmission, start: nat)
    requires AllLocalSsa(c.f) && StartsOf(c, order, starts) && ByteLen(front) == start && bc.exit.Split?
    ensures var p := ExitPending(bc.exit, |front| + |bc.body|);
            && (forall k :: 0 <= k < |p| ==> p[k].0 < |front + HoleBlock(bc)|)
            && PatchAll(front + HoleBlock(bc), p, starts) ==
               match PlaceBlock(c, order, bc, start)
               case Ok(code) => Ok(front + code)
               case Err(x) => Err(x)
  {
    hide ByteLen, AllLocalSsa, PatchedJump, PatchAll, StartsOf;
    var Split(cond, thenTarget, elseTarget) := bc.exit;
    var p := ExitPending(bc.exit, |front| + |bc.body|);
    var whole := front + bc.body + cond;
    var pc := start + ByteLen(bc.body) + ByteLen(cond);
    ByteLenAppend(front, bc.body);
    ByteLenAppend(front + bc.body, cond);
    SplitShape(front, bc.body, cond, Hole(JMPIF_L), Hole(JMP_L));
    assert p == [p[0]] + [p[1]];
    PatchOne(c, order, starts, whole, JMPIF_L, [Hole(JMP_L)], thenTarget, pc);
    PatchSplit(whole + ([Hole(JMPIF_L)] + [Hole(JMP_L)]), [p[0]], [p[1]], starts);
    var branch := PatchedJump(c, order, JMPIF_L, pc, thenTarget);
    if branch.Ok? {
      PatchedLen(c, order, JMPIF_L, pc, thenTarget);
      ByteLenAppend(whole, [branch.value]);
      ByteLenOne(branch.value);
      assert [Hole(JMP_L)] == [Hole(JMP_L)] + [];
      Regroup(whole, [branch.value], [Hole(JMP_L)]);
      PatchOne(c, order, starts, whole + [branch.value], JMP_L, [], elseTarget, pc + 5);
      var jump := PatchedJump(c, order, JMP_L, pc + 5, elseTarget);
      if jump.Ok? {
        assert [jump.value] == [jump.value] + [];
        Regroup(whole, [branch.value], [jump.value]);
        SplitShape(front, bc.body, cond, branch.value, jump.value);
      }
    }
  }

  lemma SplitShape(front: Code, body: Code, cond: Code, i: Instruction, j: Instruction)
    ensures front + body + cond + ([i] + [j]) == front + (body + (cond + ([i] + [j])))
  {
    Regroup(front + body, cond, [i] + [j]);
    Regroup(front, body, cond + ([i] + [j]));
  }

  /** Patching all the pending jumps of all blocks is placing the blocks. */
  lemma {:induction false} PatchBlocks(c: Ctx, order: seq<nat>, starts: map<nat, nat>, init: Instruction, b: nat)
    requires AllLocalSsa(c.f) && StartsOf(c, order, starts) && b <= |c.f| && HoleBlocks(c, order, b).Ok? && EncodedLen(init) == 3
    ensures var code, p := [init] + HoleBlocks(c, order, b).value, PendingJumps(c, order, b);
            && (forall k :: 0 <= k < |p| ==> p[k].0 < |code|)
            && (PatchAll(code, p, starts).Ok? <==> PlaceBlocks(c, order, b).Ok?)
            && (PlaceBlocks(c, order, b).Ok? ==>
                  PatchAll(code, p, starts) == Ok([init] + PlaceBlocks(c, order, b).value)
                  && BlockStart(c, order, b) == Ok(3 + ByteLen(PlaceBlocks(c, order, b).value)))
  {
    hide ByteLen, AllLocalSsa, PatchAll, StartsOf, EmitBlock, HoleBlock, ExitPending, PlaceBlock, Skipped, BlockLen;
    if b == 0 {
      PatchNone([init] + [], starts);
      ByteLenNone();
    } else {
      PatchBlocks(c, order, starts, init, b - 1);
      if !Skipped(c.f, b - 1) {
        PatchBlock(c, order, starts, init, b - 1);
      }
    }
  }

  lemma {:induction false} PatchBlock(c: Ctx, order: seq<nat>, starts: map<nat, nat>, init: Instruction, b: nat)
    requires AllLocalSsa(c.f) && StartsOf(c, order, starts) && b < |c.f| && HoleBlocks(c, order, b + 1).Ok? && EncodedLen(init) == 3 && !Skipped(c.f, b)
    requires var code, p := [init] + HoleBlocks(c, order, b).value, PendingJumps(c, order, b);
             && (forall k :: 0 <= k < |p| ==> p[k].0 < |code|)
             && (PatchAll(code, p, starts).Ok? <==> PlaceBlocks(c, order, b).Ok?)
             && (PlaceBlocks(c, order, b).Ok? ==>
                   PatchAll(code, p, starts) == Ok([init] + PlaceBlocks(c, order, b).value)
                   && BlockStart(c, order, b) == Ok(3 + ByteLen(PlaceBlocks(c, order, b).value)))
    ensures var code, p := [init] + HoleBlocks(c, order, b + 1).value, PendingJumps(c, order, b + 1);
            && (forall k :: 0 <= k < |p| ==> p[k].0 < |code|)
            && (PatchAll(code, p, starts).Ok? <==> PlaceBlocks(c, order, b + 1).Ok?)
            && (PlaceBlocks(c, order, b + 1).Ok? ==>
                  PatchAll(code, p, starts) == Ok([init] + PlaceBlocks(c, order, b + 1).value)
                  && BlockStart(c, order, b + 1) == Ok(3 + ByteLen(PlaceBlocks(c, order, b + 1).value)))
  {
    hide ByteLen, AllLocalSsa, PatchAll, StartsOf, EmitBlock, HoleBlock, ExitPending, PlaceBlock, Skipped, BlockLen;
    var bc, holes := EmitBlock(c, b, order).value, HoleBlocks(c, order, b).value;
    var p, q := PendingJumps(c, order, b), ExitPending(bc.exit, 1 + |holes| + |bc.body|);
    var front := [init] + holes;
    Regroup([init], holes, HoleBlock(bc));
    PatchFront(front, HoleBlock(bc), p, starts);
    ExitInside(bc, front);
    PatchSplit(front + HoleBlock(bc), p, q, starts);
    if PlaceBlocks(c, order, b).Ok? {
      var placed := PlaceBlocks(c, order, b).value;
      var start := BlockStart(c, order, b).value;
      ByteLenAppend([init], placed);
      ByteLenOne(init);
      PatchSplit(front, p, [], starts);
      PatchExit(c, order, starts, [init] + placed, bc, start);
      if PlaceBlock(c, order, bc, start).Ok? {
        var code := PlaceBlock(c, order, bc, start).value;
        Regroup([init], placed, code);
        ByteLenAppend(placed, code);
        PlacedLen(c, order, bc, start);
      }
    }
  }

  lemma {:induction false} ExitInside(bc: BlockEmission, front: Code)
    ensures var p := ExitPending(bc.exit, |front| + |bc.body|); forall k :: 0 <= k < |p| ==> p[k].0 < |front + HoleBlock(bc)|
  {
  }

  // ----- the stackifier -----

  class Stackifier {
    const builder: Builder
    const c: Ctx
    var emittedSpills: set<nat>
    var blockStart: map<nat, nat>
    var pendingJumps: Pending

    constructor (c: Ctx)
      ensures this.c == c && fresh(builder) && builder.instructions == []
      ensures emittedSpills == {} && blockStart == map[] && pendingJumps == []
    {
      this.builder := new Builder();
      this.c := c;
      emittedSpills, blockStart, pendingJumps := {}, map[], [];
    }

    /** The builder and the spill set are where `spec` says. */
    ghost predicate Did(was: Code, spec: Emitted, r: Status)
      reads this, builder
    {
      match spec
      case Ok((code, e)) => r == Done && builder.instructions == was + code && emittedSpills == e
      case Err(x) => r == Failed(x)
    }

    ghost predicate Wrote(was: Code, spec: Result<Code, CodegenError>, r: Status)
      reads builder
    {
      match spec
      case Ok(code) => r == Done && builder.instructions == was + code
      case Err(x) => r == Failed(x)
    }

    method EmitLdloc(slot: nat) returns (r: Status)
      modifies builder
      ensures Wrote(old(builder.instructions), LoadLocal(slot), r)
    {
      if slot >= 256 {
        return Failed(LocalLimitExceeded);
      }
      builder.Push(LoadCode(Local(slot)));
      r := Done;
    }

    method EmitStloc(slot: nat) returns (r: Status)
      modifies builder
      ensures Wrote(old(builder.instructions), StoreLocal(slot), r)
    {
      if slot >= 256 {
        return Failed(LocalLimitExceeded);
      }
      builder.Push(StoreCode(Local(slot)));
      r := Done;
    }

    method EmitParam(b: nat, k: nat) returns (r: Status)
      modifies builder
      ensures Wrote(old(builder.instructions), ParamCode(c, b, k), r)
    {
      if b == c.entry {
        if k % 256 >= c.argCount {
          return Failed(Unsupported);
        }
        builder.Push(LoadCode(Arg(k % 256)));
        r := Done;
      } else if (b, k) in c.params {
        r := EmitLdloc(c.params[(b, k)]);
      } else {
        r := Failed(Unsupported);
      }
    }

    method EmitValueRef(b: nat, v: ValueRef) returns (r: Status)
      requires b < |c.f| && AllLocalSsa(c.f)
      modifies this`emittedSpills, builder
      ensures Did(old(builder.instructions), EmitRef(c, b, old(emittedSpills), v), r)
      decreases Rank(c, b, v), 3, 0
    {
      hide EmitId, ParamCode, AllLocalSsa;
      match v
      case Value(id) => r := EmitValueId(b, id);
      case Param(k) => r := EmitParam(b, k);
    }

    method EmitValueId(b: nat, id: nat) returns (r: Status)
      requires b < |c.f| && AllLocalSsa(c.f)
      modifies this`emittedSpills, builder
      ensures Did(old(builder.instructions), EmitId(c, b, old(emittedSpills), id), r)
      decreases Rank(c, b, Value(id)), 2, 0
    {
      hide EmitPure, AllLocalSsa, LocalPos, DefsOf, Pushed;
      ghost var was := builder.instructions;
      var here := Here(c, b, id);
      if here.Some? {
        OperandsOf(b, here.value);
        var i := c.f[b].instrs[here.value].1;
        if id in c.spill {
          if id !in c.slot {
            return Failed(Unsupported);
          }
          if id in emittedSpills {
            r := EmitLdloc(c.slot[id]);
            return;
          }
          r := EmitPureInstr(b, i, here.value + 1);
          if r.Failed? {
            return;
          }
          ghost var code, e := builder.instructions[|was|..], emittedSpills;
          builder.Push(Op(DUP));
          r := EmitStloc(c.slot[id]);
          emittedSpills := emittedSpills + {id};
        } else if HasSideEffects(i) {
          r := Failed(Unsupported);
        } else {
          r := EmitPureInstr(b, i, here.value + 1);
        }
      } else if id in c.spill {
        if id !in c.slot {
          return Failed(Unsupported);
        }
        r := EmitLdloc(c.slot[id]);
        emittedSpills := emittedSpills + {id};
      } else {
        var defs := CollectDefs(c.f);
        if id !in defs || HasSideEffects(defs[id]) || (!defs[id].Const? && !Formal(defs[id])) {
          return Failed(Unsupported);
        }
        NothingPushed(defs[id]);
        r := EmitPureInstr(b, defs[id], 0);
      }
    }

    lemma OperandsOf(b: nat, p: nat)
      requires b < |c.f| && AllLocalSsa(c.f) && p < |c.f[b].instrs|
      ensures Below(c, b, Operands(c.f[b].instrs[p].1), p + 1) && Below(c, b, Pushed(c.f[b].instrs[p].1), p + 1)
    {
      OperandsBelow(c, b, p);
    }

    /** Operands, then the instruction's own code. */
    method EmitPureInstr(b: nat, i: Instr, bound: nat) returns (r: Status)
      requires b < |c.f| && AllLocalSsa(c.f) && Below(c, b, Pushed(i), bound)
      modifies this`emittedSpills, builder
      ensures Did(old(builder.instructions), EmitPure(c, b, old(emittedSpills), i, bound), r)
      decreases bound, 1, 0
    {
      hide EmitRefs, Tail, AllLocalSsa, Pushed, Below;
      r := EmitValueRefs(b, Pushed(i), bound);
      if r.Failed? {
        return;
      }
      r := EmitTail(i);
    }

    method EmitValueRefs(b: nat, vs: seq<ValueRef>, bound: nat) returns (r: Status)
      requires b < |c.f| && AllLocalSsa(c.f) && Below(c, b, vs, bound)
      modifies this`emittedSpills, builder
      ensures Did(old(builder.instructions), EmitRefs(c, b, old(emittedSpills), vs, bound), r)
      decreases bound, 0, |vs|
    {
      hide EmitRef, AllLocalSsa, EmitRefs, Rank;
      ghost var was, goal := builder.instructions, EmitRefs(c, b, emittedSpills, vs, bound);
      assert vs[0..] == vs;
      OntoNothing(goal);
      assert builder.instructions[|was|..] == [];
      for k := 0 to |vs|
        invariant Below(c, b, vs[k..], bound) && |was| <= |builder.instructions| && builder.instructions[..|was|] == was
        invariant goal == Onto(builder.instructions[|was|..], EmitRefs(c, b, emittedSpills, vs[k..], bound))
      {
        UnfoldRefs(b, emittedSpills, vs[k..], bound, builder.instructions[|was|..]);
        assert vs[k..][0] == vs[k] && vs[k..][1..] == vs[k + 1..];
        ghost var before := builder.instructions;
        r := EmitValueRef(b, vs[k]);
        if r.Failed? {
          return;
        }
        ghost var code := builder.instructions[|before|..];
        assert builder.instructions[|was|..] == before[|was|..] + code;
      }
      UnfoldRefs(b, emittedSpills, vs[|vs|..], bound, builder.instructions[|was|..]);
      assert builder.instructions == was + builder.instructions[|was|..];
      r := Done;
    }

    ghost function Onto(front: Code, r: Emitted): Emitted {
      if r.Ok? then Ok((front + r.value.0, r.value.1)) else r
    }

    lemma OntoNothing(r: Emitted)
      ensures Onto([], r) == r
    {
      assert r.Ok? ==> [] + r.value.0 == r.value.0;
    }

    lemma {:induction false} UnfoldRefs(b: nat, emitted: set<nat>, vs: seq<ValueRef>, bound: nat, front: Code)
      requires b < |c.f| && AllLocalSsa(c.f) && Below(c, b, vs, bound)
      ensures vs == [] ==> Onto(front, EmitRefs(c, b, emitted, vs, bound)) == Ok((front, emitted))
      ensures vs != [] ==> Below(c, b, vs[1..], bound)
      ensures vs != [] ==>
                match EmitRef(c, b, emitted, vs[0])
                case Err(x) => Onto(front, EmitRefs(c, b, emitted, vs, bound)) == Err(x)
                case Ok((code, e)) =>
                  Onto(front, EmitRefs(c, b, emitted, vs, bound)) == Onto(front + code, EmitRefs(c, b, e, vs[1..], bound))
    {
      hide EmitRef, AllLocalSsa, Rank;
      if vs == [] {
        assert front + [] == front;
      } else if EmitRef(c, b, emitted, vs[0]).Ok? {
        var (code, e) := EmitRef(c, b, emitted, vs[0]).value;
        if EmitRefs(c, b, e, vs[1..], bound).Ok? {
          Regroup(front, code, EmitRefs(c, b, e, vs[1..], bound).value.0);
        }
      }
    }

    method EmitPack(count: nat) returns (r: Status)
      modifies builder
      ensures Wrote(old(builder.instructions), PackCode(count), r)
    {
      if !FitsSigned(count, 8) {
        return Failed(Unsupported);
      }
      builder.Push(PushInt(count));
      builder.Push(Op(PACK));
      r := Done;
    }

    /** The part of each instruction after its operands. */
    method EmitTail(i: Instr) returns (r: Status)
      modifies builder
      ensures Wrote(old(builder.instructions), Tail(c, i), r)
    {
      hide LiteralCode, PackCode, PushData, PushInt, FitsSigned;
      r := Done;
      match i
      case Const(lit) =>
        var code := LiteralCode(lit);
        if code.Err? {
          return Failed(code.error);
        }
        builder.Push(code.value);
      case Copy(v) =>
        if v.Param? {
          if v.index >= 256 || v.index >= c.argCount {
            return Failed(Unsupported);
          }
          builder.Push(LoadCode(Arg(v.index)));
        }
      case Unary(op, _) =>
        if op != Ast.Positive {
          builder.Push(Op(UnaryOpCode(op)));
        }
      case IsNull(_, eqNull) =>
        builder.Push(Op(ISNULL));
        if !eqNull {
          builder.Push(Op(NOT));
        }
      case Binary(op, left, right) =>
        if op == Ast.And || op == Ast.Or {
          return Failed(Unsupported);
        }
        if left == right {
          builder.Push(Op(DUP));
        }
        builder.Push(Op(Ast.BinaryOpCode(op)));
      case Cast(_, ty) =>
        var t := Ast.StackItemType(ty);
        if t.None? {
          return Failed(Unsupported);
        }
        builder.Push(Instruction(CONVERT, [t.value]));
      case StructFieldGet(_, k) =>
        if !FitsSigned(k, 8) {
          return Failed(Unsupported);
        }
        builder.Push(PushInt(k));
        builder.Push(Op(PICKITEM));
      case Pure(op, _) => builder.Push(Op(op));
      case ArrayPack(elements) => r := EmitPack(|elements|);
      case StructPack(fields) => r := EmitPack(|fields|);
      case StorageGet(field, ty) =>
        var name, t := PushData(field), StoredType(ty);
        if name.Err? {
          return Failed(name.error);
        }
        if t.None? {
          return Failed(Unsupported);
        }
        builder.Push(name.value);
        builder.Push(Instruction(SYSCALL, STORAGE_LOCAL_GET));
        builder.Push(Instruction(CONVERT, [t.value]));
      case _ => r := Failed(Unsupported);
    }
  
    // ----- blocks -----

    method EmitResult(id: nat) returns (r: Status)
      modifies builder
      ensures Wrote(old(builder.instructions), ResultCode(c, id), r)
    {
      hide Uses;
      if Uses(c.f, id) == 0 {
        return Done;
      }
      if id in c.spill && id !in c.slot {
        return Failed(LocalLimitExceeded);
      }
      builder.Push(Op(PUSHNULL));
      r := Done;
      if id in c.spill {
        r := EmitStloc(c.slot[id]);
      }
    }

    /** An effect in its place: arguments in order, PACK, the name, the system call. */
    method EmitInstr(b: nat, p: nat) returns (r: Status)
      requires b < |c.f| && AllLocalSsa(c.f) && p < |c.f[b].instrs|
      modifies this`emittedSpills, builder
      ensures Did(old(builder.instructions), EmitEffect(c, b, old(emittedSpills), p), r)
    {
      hide EmitRefs, PackCode, PushData, ResultCode, AllLocalSsa, Below, Uses, Operands;
      var (id, i) := c.f[b].instrs[p];
      if !i.Emit? {
        return Failed(Unsupported);
      }
      EmitArgs(i);
      OperandsOf(b, p);
      r := EmitValueRefs(b, i.args, p + 1);
      if r.Failed? {
        return;
      }
      r := EmitPack(|i.args|);
      if r.Failed? {
        return;
      }
      var name := PushData(i.event);
      if name.Err? {
        return Failed(name.error);
      }
      builder.Push(name.value);
      builder.Push(Instruction(SYSCALL, NOTIFY));
      r := EmitResult(id);
      if Uses(c.f, id) > 0 && id in c.spill {
        emittedSpills := emittedSpills + {id};
      }
    }

    lemma EmitArgs(i: Instr)
      ensures i.Emit? ==> Operands(i) == i.args
    {
    }

    /** Only effects are emitted in program order. */
    method EmitEffectsInOrder(b: nat) returns (r: Status)
      requires b < |c.f| && AllLocalSsa(c.f)
      modifies this`emittedSpills, builder
      ensures Did(old(builder.instructions), EmitEffects(c, b, old(emittedSpills), 0), r)
    {
      hide EmitEffect, AllLocalSsa, EmitEffects, HasSideEffects;
      ghost var was, goal := builder.instructions, EmitEffects(c, b, emittedSpills, 0);
      OntoNothing(goal);
      assert builder.instructions[|was|..] == [];
      var instrs := c.f[b].instrs;
      for p := 0 to |instrs|
        invariant |was| <= |builder.instructions| && builder.instructions[..|was|] == was
        invariant goal == Onto(builder.instructions[|was|..], EmitEffects(c, b, emittedSpills, p))
      {
        UnfoldEffects(b, emittedSpills, p, builder.instructions[|was|..]);
        if !HasSideEffects(instrs[p].1) {
          continue;
        }
        ghost var before := builder.instructions;
        r := EmitInstr(b, p);
        if r.Failed? {
          return;
        }
        ghost var code := builder.instructions[|before|..];
        assert builder.instructions[|was|..] == before[|was|..] + code;
      }
      UnfoldEffects(b, emittedSpills, |instrs|, builder.instructions[|was|..]);
      assert builder.instructions == was + builder.instructions[|was|..];
      r := Done;
    }

    lemma {:induction false} UnfoldEffects(b: nat, emitted: set<nat>, p: nat, front: Code)
      requires b < |c.f| && AllLocalSsa(c.f) && p <= |c.f[b].instrs|
      ensures p == |c.f[b].instrs| ==> Onto(front, EmitEffects(c, b, emitted, p)) == Ok((front, emitted))
      ensures p < |c.f[b].instrs| ==>
                if !HasSideEffects(c.f[b].instrs[p].1) then EmitEffects(c, b, emitted, p) == EmitEffects(c, b, emitted, p + 1)
                else
                  match EmitEffect(c, b, emitted, p)
                  case Err(x) => Onto(front, EmitEffects(c, b, emitted, p)) == Err(x)
                  case Ok((code, e)) => Onto(front, EmitEffects(c, b, emitted, p)) == Onto(front + code, EmitEffects(c, b, e, p + 1))
    {
      hide EmitEffect, AllLocalSsa;
      if p == |c.f[b].instrs| {
        assert front + [] == front;
      } else if HasSideEffects(c.f[b].instrs[p].1) && EmitEffect(c, b, emitted, p).Ok? {
        var (code, e) := EmitEffect(c, b, emitted, p).value;
        if EmitEffects(c, b, e, p + 1).Ok? {
          Regroup(front, code, EmitEffects(c, b, e, p + 1).value.0);
        }
      }
    }

    /** Store what other blocks load, in the order the set is walked. */
    method EmitLateSpills(b: nat, order: seq<nat>) returns (r: Status)
      requires b < |c.f| && AllLocalSsa(c.f)
      modifies this`emittedSpills, builder
      ensures Did(old(builder.instructions), EmitSpills(c, b, old(emittedSpills), order), r)
    {
      hide EmitPure, AllLocalSsa, EmitSpills, LocalPos, Pushed, Below;
      ghost var was, goal := builder.instructions, EmitSpills(c, b, emittedSpills, order);
      OntoNothing(goal);
      assert builder.instructions[|was|..] == [];
      assert order[0..] == order;
      for k := 0 to |order|
        invariant |was| <= |builder.instructions| && builder.instructions[..|was|] == was
        invariant goal == Onto(builder.instructions[|was|..], EmitSpills(c, b, emittedSpills, order[k..]))
      {
        UnfoldSpills(b, emittedSpills, order[k..], builder.instructions[|was|..]);
        assert order[k..][0] == order[k] && order[k..][1..] == order[k + 1..];
        var id := order[k];
        if !StoresLate(c, b, emittedSpills, id) {
          continue;
        }
        var p := Here(c, b, id).value;
        ghost var before := builder.instructions;
        OperandsOf(b, p);
        ghost var pure := EmitPure(c, b, emittedSpills, c.f[b].instrs[p].1, p + 1);
        r := EmitPureInstr(b, c.f[b].instrs[p].1, p + 1);
        if r.Failed? {
          return;
        }
        r := EmitStloc(c.slot[id]);
        if r.Failed? {
          return;
        }
        Regroup(before, pure.value.0, StoreLocal(c.slot[id]).value);
        emittedSpills := emittedSpills + {id};
        ghost var code := builder.instructions[|before|..];
        assert builder.instructions[|was|..] == before[|was|..] + code;
      }
      UnfoldSpills(b, emittedSpills, order[|order|..], builder.instructions[|was|..]);
      assert builder.instructions == was + builder.instructions[|was|..];
      r := Done;
    }

    lemma {:induction false} UnfoldSpills(b: nat, emitted: set<nat>, order: seq<nat>, front: Code)
      requires b < |c.f| && AllLocalSsa(c.f)
      ensures order == [] ==> Onto(front, EmitSpills(c, b, emitted, order)) == Ok((front, emitted))
      ensures order != [] && !StoresLate(c, b, emitted, order[0]) ==> EmitSpills(c, b, emitted, order) == EmitSpills(c, b, emitted, order[1..])
      ensures order != [] && StoresLate(c, b, emitted, order[0]) ==>
                var p := Here(c, b, order[0]).value;
                && Below(c, b, Pushed(c.f[b].instrs[p].1), p + 1)
                && match EmitPure(c, b, emitted, c.f[b].instrs[p].1, p + 1)
                   case Err(x) => Onto(front, EmitSpills(c, b, emitted, order)) == Err(x)
                   case Ok((code, e)) =>
                     match StoreLocal(c.slot[order[0]])
                     case Err(x) => Onto(front, EmitSpills(c, b, emitted, order)) == Err(x)
                     case Ok(store) =>
                       Onto(front, EmitSpills(c, b, emitted, order)) == Onto(front + (code + store), EmitSpills(c, b, e + {order[0]}, order[1..]))
    {
      hide EmitPure, AllLocalSsa, LocalPos, Pushed, Below, StoreLocal;
      if order == [] {
        assert front + [] == front;
      } else if StoresLate(c, b, emitted, order[0]) {
        var p := Here(c, b, order[0]).value;
        OperandsOf(b, p);
        var r, store := EmitPure(c, b, emitted, c.f[b].instrs[p].1, p + 1), StoreLocal(c.slot[order[0]]);
        if r.Ok? && store.Ok? && EmitSpills(c, b, r.value.1 + {order[0]}, order[1..]).Ok? {
          var rest := EmitSpills(c, b, r.value.1 + {order[0]}, order[1..]).value.0;
          Regroup(r.value.0, store.value, rest);
          Regroup(front, r.value.0 + store.value, rest);
        }
      }
    }
  
    /** RET, or jumps left for later. */
    method EmitTerminator(b: nat) returns (r: Status)
      requires b < |c.f| && AllLocalSsa(c.f)
      modifies this`emittedSpills, this`pendingJumps, builder
      ensures match EmitExit(c, b, old(emittedSpills))
              case Ok(exit) =>
                && r == Done && builder.instructions == old(builder.instructions) + HoleExit(exit)
                && pendingJumps == old(pendingJumps) + ExitPending(exit, |old(builder.instructions)|)
              case Err(x) => r == Failed(x)
    {
      hide EmitRef, RelayJoin, AllLocalSsa;
      ghost var was := builder.instructions;
      match c.f[b].term
      case Unset => r := Failed(Unsupported);
      case Ret(v) =>
        if v.Some? {
          r := EmitValueRef(b, v.value);
          if r.Failed? {
            return;
          }
        }
        builder.Push(Op(RET));
        r := Done;
      case Jump(target, args) =>
        if args != [] {
          return Failed(Unsupported);
        }
        var j := builder.EmitPlaceholder(JMP_L);
        pendingJumps := pendingJumps + [(j, target)];
        r := Done;
      case Branch(cond, thenBb, thenArgs, elseBb, elseArgs) =>
        if thenArgs != [] || elseArgs != [] {
          return Failed(Unsupported);
        }
        r := EmitValueRef(b, cond);
        if r.Failed? {
          return;
        }
        ghost var code := EmitRef(c, b, old(emittedSpills), cond).value.0;
        var join := RelayJoin(c.f, thenBb, elseBb, thenArgs);
        var jumpThen := builder.EmitPlaceholder(JMPIF_L);
        var jumpElse := builder.EmitPlaceholder(JMP_L);
        pendingJumps := pendingJumps + [(jumpThen, thenBb)] + [(jumpElse, if join.Some? then join.value else elseBb)];
        Regroup(was, code, [Hole(JMPIF_L)]);
        Regroup(was, code + [Hole(JMPIF_L)], [Hole(JMP_L)]);
        Regroup(code, [Hole(JMPIF_L)], [Hole(JMP_L)]);
    }

    method EmitIrBlock(b: nat, order: seq<nat>) returns (r: Status)
      requires b < |c.f| && AllLocalSsa(c.f)
      modifies this`emittedSpills, this`pendingJumps, builder
      ensures match EmitBlock(c, b, order)
              case Ok(bc) =>
                && r == Done && builder.instructions == old(builder.instructions) + HoleBlock(bc)
                && pendingJumps == old(pendingJumps) + ExitPending(bc.exit, |old(builder.instructions)| + |bc.body|)
              case Err(x) => r == Failed(x)
    {
      hide EmitEffects, EmitSpills, EmitExit, AllLocalSsa, HoleExit;
      if b != c.entry && c.f[b].params != 0 {
        return Failed(Unsupported);
      }
      ghost var was := builder.instructions;
      emittedSpills := {};
      r := EmitEffectsInOrder(b);
      if r.Failed? {
        return;
      }
      ghost var effects := EmitEffects(c, b, {}, 0).value;
      r := EmitLateSpills(b, order);
      if r.Failed? {
        return;
      }
      ghost var spills := EmitSpills(c, b, effects.1, order).value;
      Regroup(was, effects.0, spills.0);
      r := EmitTerminator(b);
      if r.Failed? {
        return;
      }
      Regroup(was, effects.0 + spills.0, HoleExit(EmitExit(c, b, spills.1).value));
    }

    /** Every block but the skipped relays, in order. */
    method EmitIrBlocks(order: seq<nat>) returns (r: Status)
      requires AllLocalSsa(c.f) && |builder.instructions| == 1 && ByteLen(builder.instructions) == 3
      requires blockStart == map[] && pendingJumps == []
      modifies this`emittedSpills, this`pendingJumps, this`blockStart, builder
      ensures match HoleBlocks(c, order, |c.f|)
              case Ok(code) =>
                && r == Done && builder.instructions == old(builder.instructions) + code
                && pendingJumps == PendingJumps(c, order, |c.f|) && blockStart == Starts(c, order, |c.f|)
              case Err(x) => r == Failed(x)
    {
      hide EmitBlock, HoleBlock, AllLocalSsa, Skipped, ByteLen, HoleBlocks, PendingJumps, Starts, BlockStart;
      ghost var init := builder.instructions;
      assert init + [] == init;
      BlocksNone(order);
      for b := 0 to |c.f|
        invariant HoleBlocks(c, order, b).Ok? && builder.instructions == init + HoleBlocks(c, order, b).value
        invariant pendingJumps == PendingJumps(c, order, b) && blockStart == Starts(c, order, b)
      {
        BlocksNext(order, b);
        HolesStart(c, order, b);
        if Skipped(c.f, b) {
          continue;
        }
        var cursor := builder.Cursor();
        ByteLenAppend(init, HoleBlocks(c, order, b).value);
        blockStart := blockStart[b := cursor];
        r := EmitIrBlock(b, order);
        if r.Failed? {
          HolesFail(order, b + 1, |c.f|);
          return;
        }
        Regroup(init, HoleBlocks(c, order, b).value, HoleBlock(EmitBlock(c, b, order).value));
      }
      r := Done;
    }

    lemma BlocksNone(order: seq<nat>)
      requires AllLocalSsa(c.f)
      ensures HoleBlocks(c, order, 0) == Ok([]) && PendingJumps(c, order, 0) == [] && Starts(c, order, 0) == map[]
    {
    }

    lemma {:induction false} BlocksNext(order: seq<nat>, b: nat)
      requires AllLocalSsa(c.f) && b < |c.f| && HoleBlocks(c, order, b).Ok?
      ensures BlockStart(c, order, b).Ok?
      ensures Skipped(c.f, b) ==>
                && HoleBlocks(c, order, b + 1) == HoleBlocks(c, order, b)
                && PendingJumps(c, order, b + 1) == PendingJumps(c, order, b) && Starts(c, order, b + 1) == Starts(c, order, b)
      ensures !Skipped(c.f, b) ==>
                match EmitBlock(c, b, order)
                case Err(x) => HoleBlocks(c, order, b + 1) == Err(x)
                case Ok(bc) =>
                  && HoleBlocks(c, order, b + 1) == Ok(HoleBlocks(c, order, b).value + HoleBlock(bc))
                  && PendingJumps(c, order, b + 1) ==
                     PendingJumps(c, order, b) + ExitPending(bc.exit, 1 + |HoleBlocks(c, order, b).value| + |bc.body|)
                  && Starts(c, order, b + 1) == Starts(c, order, b)[b := BlockStart(c, order, b).value]
    {
      hide EmitBlock, HoleBlock, AllLocalSsa, Skipped, ExitPending, BlockStart;
      HolesStart(c, order, b);
    }

    lemma {:induction false} HolesFail(order: seq<nat>, b: nat, n: nat)
      requires AllLocalSsa(c.f) && b <= n <= |c.f| && HoleBlocks(c, order, b).Err?
      ensures HoleBlocks(c, order, n) == HoleBlocks(c, order, b)
      decreases n
    {
      hide EmitBlock, HoleBlock, AllLocalSsa, Skipped;
      if b < n {
        HolesFail(order, b, n - 1);
      }
    }
  
    /** Resolve every pending jump against the block starts. */
    method PatchPendingJumps() returns (r: Status)
      requires forall k :: 0 <= k < |pendingJumps| ==> pendingJumps[k].0 < |builder.instructions| && |builder.instructions[pendingJumps[k].0].operands| == 4
      modifies builder
      ensures match PatchAll(old(builder.instructions), pendingJumps, blockStart)
              case Ok(code) => r == Done && builder.instructions == code
              case Err(x) => r == Failed(x)
    {
      hide PatchAll, ByteLen, ToLe;
      ghost var was := builder.instructions;
      ghost var goal := PatchAll(was, pendingJumps, blockStart);
      assert pendingJumps[0..] == pendingJumps;
      for k := 0 to |pendingJumps|
        invariant |builder.instructions| == |was|
        invariant forall m :: k <= m < |pendingJumps| ==> |builder.instructions[pendingJumps[m].0].operands| == 4
        invariant goal == PatchAll(builder.instructions, pendingJumps[k..], blockStart)
      {
        PatchUnfold(builder.instructions, pendingJumps[k..]);
        assert pendingJumps[k..][0] == pendingJumps[k] && pendingJumps[k..][1..] == pendingJumps[k + 1..];
        var (index, target) := pendingJumps[k];
        if target !in blockStart {
          return Failed(Unsupported);
        }
        r := builder.Patch(index, blockStart[target]);
        if r.Failed? {
          return;
        }
      }
      PatchUnfold(builder.instructions, pendingJumps[|pendingJumps|..]);
      r := Done;
    }

    lemma PatchUnfold(code: Code, pending: Pending)
      requires forall k :: 0 <= k < |pending| ==> pending[k].0 < |code|
      ensures pending == [] ==> PatchAll(code, pending, blockStart) == Ok(code)
      ensures pending != [] ==>
                var (index, target) := pending[0];
                PatchAll(code, pending, blockStart) ==
                if target !in blockStart then Err(Unsupported)
                else if !FitsI32(blockStart[target] - ByteLen(code[..index])) then Err(JumpOverflow)
                else PatchAll(code[index := LongJump(code[index].opcode, blockStart[target] - ByteLen(code[..index]))], pending[1..], blockStart)
    {
      hide ByteLen, ToLe;
    }
  }

  lemma {:induction false} PendingAreJumps(c: Ctx, order: seq<nat>, init: Instruction, b: nat)
    requires AllLocalSsa(c.f) && b <= |c.f| && HoleBlocks(c, order, b).Ok?
    ensures var code, p := [init] + HoleBlocks(c, order, b).value, PendingJumps(c, order, b);
            AreJumps(code, p)
  {
    hide EmitBlock, AllLocalSsa, Skipped, AreJumps, HoleBlock, ExitPending;
    if b == 0 {
      JumpsNone([init] + []);
    } else {
      PendingAreJumps(c, order, init, b - 1);
      if !Skipped(c.f, b - 1) {
        var bc, holes := EmitBlock(c, b - 1, order).value, HoleBlocks(c, order, b - 1).value;
        Regroup([init], holes, HoleBlock(bc));
        JumpsAppend([init] + holes, PendingJumps(c, order, b - 1), bc);
      }
    }
  }

  lemma JumpsNone(code: Code)
    ensures AreJumps(code, [])
  {
  }

  ghost predicate AreJumps(code: Code, p: Pending) {
    forall k :: 0 <= k < |p| ==> p[k].0 < |code| && |code[p[k].0].operands| == 4
  }

  lemma {:induction false} JumpsAppend(front: Code, p: Pending, bc: BlockEmission)
    requires AreJumps(front, p)
    ensures AreJumps(front + HoleBlock(bc), p + ExitPending(bc.exit, |front| + |bc.body|))
  {
    hide HoleBlock, ExitPending;
    ExitAreJumps(bc, front);
    var code, q := front + HoleBlock(bc), ExitPending(bc.exit, |front| + |bc.body|);
    forall k | 0 <= k < |p + q| ensures (p + q)[k].0 < |code| && |code[(p + q)[k].0].operands| == 4 {
      if k < |p| {
        assert (p + q)[k] == p[k] && code[p[k].0] == front[p[k].0];
      } else {
        assert (p + q)[k] == q[k - |p|];
      }
    }
  }

  lemma {:induction false} ExitAreJumps(bc: BlockEmission, front: Code)
    ensures var p := ExitPending(bc.exit, |front| + |bc.body|);
            AreJumps(front + HoleBlock(bc), p)
  {
  }

  /**
   * `compile_ir` after the plan: the routine, its jumps patched and its locals counted. On
   * success the code is `CompileCode`; it succeeds exactly when `CompileCode` does.
   */
  method CompileIr(c: Ctx, order: seq<nat>, locals: nat) returns (r: Result<Code, CodegenError>)
    requires AllLocalSsa(c.f) && locals < 256 && c.argCount < 256
    ensures r.Ok? <==> CompileCode(c, order, locals).Ok?
    ensures r.Ok? ==> r == CompileCode(c, order, locals)
  {
    hide HoleBlocks, PendingJumps, Starts, PlaceBlocks, PatchAll, AllLocalSsa, StartsOf, ByteLen;
    var s := new Stackifier(c);
    var init := Instruction(INITSLOT, [0, c.argCount]);
    s.builder.Push(init);
    ByteLenOne(init);
    assert s.builder.instructions == [init];
    var status := s.EmitIrBlocks(order);
    if status.Failed? {
      NoCode(c, order, |c.f|);
      return Err(status.error);
    }
    MakeStarts(c, order);
    PatchBlocks(c, order, Starts(c, order, |c.f|), init, |c.f|);
    PendingAreJumps(c, order, init, |c.f|);
    status := s.PatchPendingJumps();
    if status.Failed? {
      return Err(status.error);
    }
    var code := s.builder.instructions;
    assert code[0 := Instruction(INITSLOT, [locals, c.argCount])] == [Instruction(INITSLOT, [locals, c.argCount])] + PlaceBlocks(c, order, |c.f|).value;
    r := Ok(code[0 := Instruction(INITSLOT, [locals, c.argCount])]);
  }

  lemma MakeStarts(c: Ctx, order: seq<nat>)
    requires AllLocalSsa(c.f) && HoleBlocks(c, order, |c.f|).Ok?
    ensures StartsOf(c, order, Starts(c, order, |c.f|))
  {
    hide HoleBlocks, AllLocalSsa, BlockStart, Skipped, Starts;
    StartsAre(c, order, |c.f|);
  }

  /** Nothing is placed if some block cannot be emitted. */
  lemma {:induction false} NoCode(c: Ctx, order: seq<nat>, b: nat)
    requires AllLocalSsa(c.f) && b <= |c.f| && HoleBlocks(c, order, b).Err?
    ensures PlaceBlocks(c, order, b).Err?
  {
    hide EmitBlock, AllLocalSsa, Skipped, BlockStart, PlaceBlock;
    if b > 0 && HoleBlocks(c, order, b - 1).Err? {
      NoCode(c, order, b - 1);
    }
  }

  /** What emission reads, on the function's own plan. */
  ghost function PlannedCtx(f: Blocks, argCount: nat, n: nat): Ctx {
    var p := PlanOf(f, 0, n);
    Ctx(f, 0, argCount, p.spill, p.valueSlot, p.paramSlot)
  }

  /** `compile_ir`: the plan of the function, then its code on that plan. */
  method CompileFunctionIr(f: Blocks, argCount: nat, n: nat, order: seq<nat>) returns (r: Result<Code, CodegenError>)
    requires AllLocalSsa(f) && UniqueIds(f) && argCount < 256
    ensures PlanOf(f, 0, n).nextLocal > 254 ==> r == Err(LocalLimitExceeded)
    ensures PlanOf(f, 0, n).nextLocal <= 254 ==>
              var code := CompileCode(PlannedCtx(f, argCount, n), order, PlanOf(f, 0, n).nextLocal);
              (r.Ok? <==> code.Ok?) && (r.Ok? ==> r == code)
  {
    hide AllLocalSsa, UniqueIds, PlanOf, CompileCode;
    var p :- BuildStackifyPlan(f, 0, n);
    r := CompileIr(Ctx(f, 0, argCount, p.spill, p.valueSlot, p.paramSlot), order, p.nextLocal);
  }

  /** That context is a plan the stackifier's theorem speaks about. */
  lemma PlannedIsPlanned(f: Blocks, argCount: nat, n: nat)
    requires PlanOf(f, 0, n).nextLocal <= MAX_PLANNED
    ensures var c := PlannedCtx(f, argCount, n);
            && c.f == f && c.entry == 0 && c.argCount == argCount && (forall id :: id in c.spill <==> Spilled(f, id))
            && PlannedSlots(c, n, PlanOf(f, 0, n).nextLocal)
  {
    hide Spilled, ValueSlots, ParamSlots;
    PlanCounts(f, n, SpillIds(f));
  }

  lemma PlanCounts(f: Blocks, n: nat, spill: set<nat>)
    ensures ValueSlots(spill, n).1 <= SlotPlan(f, 0, n, spill).nextLocal && SlotPlan(f, 0, n, spill).valueSlot == ValueSlots(spill, n).0
  {
    hide ValueSlots, ParamSlots;
    ParamSlotsGrow(f, 0, 0, |f|, ValueSlots(spill, n).1);
  }
}
