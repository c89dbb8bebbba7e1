/**
 * Stack code of an SSA function: what is emitted for each value, block and terminator
 * (ir_codegen/builder.rs, block_emit.rs, branch_emit.rs), as functions on values.
 */
module Stackify {
  import opened Prelude
  import opened Bytecode
  import opened Vm
  import opened Ir
  import opened IrDce
  import opened CodegenSpec
  import opened StackPlan
  import Ast

  /** What emission reads: the function, the routine's argument count and the plan. */
  datatype Ctx = Ctx(f: Blocks, entry: nat, argCount: nat, spill: set<nat>, slot: map<nat, nat>, params: ParamMap)

  /** Code, and the values of this block already stored in their slots. */
  type Emitted = Result<(Code, set<nat>), CodegenError>

  /** Position of the definition of `id` among the first `n` instructions. */
  function LocalPos(instrs: Instrs, n: nat, id: nat): (r: Option<nat>)
    requires n <= |instrs|
    ensures r.Some? ==> r.value < n && instrs[r.value].0 == id
  {
    if n == 0 then None else if instrs[n - 1].0 == id then Some(n - 1) else LocalPos(instrs, n - 1, id)
  }

  function Here(c: Ctx, b: nat, id: nat): Option<nat>
    requires b < |c.f|
  {
    LocalPos(c.f[b].instrs, |c.f[b].instrs|, id)
  }

  /** Operands come from earlier positions of the block, or from other blocks. */
  function Rank(c: Ctx, b: nat, v: ValueRef): nat
    requires b < |c.f|
  {
    if v.Value? && Here(c, b, v.id).Some? then Here(c, b, v.id).value + 1 else 0
  }

  // ----- one instruction -----

  /** Operands in the order they are pushed. */
  function Pushed(i: Instr): seq<ValueRef> {
    match i
    case Copy(v) => if v.Param? then [] else [v]
    case Unary(_, v) => [v]
    case IsNull(v, _) => [v]
    case Binary(_, l, r) => if l == r then [l] else [l, r]
    case Cast(v, _) => [v]
    case StructFieldGet(base, _) => [base]
    case Pure(_, args) => args
    case ArrayPack(elements) => Reverse(elements)
    case StructPack(fields) => fields
    case _ => []
  }

  /** Type operand of the CONVERT after a storage read. */
  function StoredType(ty: Ast.Type): Option<byte> {
    match ty
    case BoolType => Some(0x20)
    case IntType => Some(0x21)
    case StringType => Some(0x28)
    case Hash160Type => Some(0x28)
    case Hash256Type => Some(0x28)
    case BufferType => Some(0x30)
    case _ => None
  }

  /** First four bytes of SHA-256("System.Storage.Local.Get"). */
  const STORAGE_LOCAL_GET: seq<byte> := [0xd5, 0x8d, 0x5e, 0xe8]

  function PackCode(count: nat): Result<Code, CodegenError> {
    if FitsSigned(count, 8) then Ok([PushInt(count), Op(PACK)]) else Err(Unsupported)
  }

  /** What follows the operands. */
  function Tail(c: Ctx, i: Instr): Result<Code, CodegenError> {
    match i
    case Const(lit) => var code :- LiteralCode(lit); Ok([code])
    case Copy(Param(k)) =>
      if k >= 256 || k >= c.argCount then Err(Unsupported) else Ok([LoadCode(Arg(k))])
    case Copy(Value(_)) => Ok([])
    case Unary(op, _) => Ok(UnaryCode(op, []))
    case IsNull(_, eqNull) => Ok(if eqNull then [Op(ISNULL)] else [Op(ISNULL), Op(NOT)])
    case Binary(op, l, r) =>
      if op == Ast.And || op == Ast.Or then Err(Unsupported)
      else Ok((if l == r then [Op(DUP)] else []) + [Op(Ast.BinaryOpCode(op))])
    case Cast(_, ty) =>
      if Ast.StackItemType(ty).None? then Err(Unsupported) else Ok([Instruction(CONVERT, [Ast.StackItemType(ty).value])])
    case StructFieldGet(_, k) => if FitsSigned(k, 8) then Ok([PushInt(k), Op(PICKITEM)]) else Err(Unsupported)
    case Pure(op, _) => Ok([Op(op)])
    case ArrayPack(elements) => PackCode(|elements|)
    case StructPack(fields) => PackCode(|fields|)
    case StorageGet(field, ty) =>
      var name :- PushData(field);
      if StoredType(ty).None? then Err(Unsupported)
      else Ok([name, Instruction(SYSCALL, STORAGE_LOCAL_GET), Instruction(CONVERT, [StoredType(ty).value])])
    case _ => Err(Unsupported)
  }

  predicate Below(c: Ctx, b: nat, vs: seq<ValueRef>, bound: nat)
    requires b < |c.f|
  {
    forall k :: 0 <= k < |vs| ==> Rank(c, b, vs[k]) < bound
  }

  lemma {:induction false} LocalPosUnique(instrs: Instrs, n: nat, p: nat)
    requires LocalSsa(instrs) && p < n <= |instrs|
    ensures LocalPos(instrs, n, instrs[p].0) == Some(p)
  {
    if p < n - 1 {
      LocalPosUnique(instrs, n - 1, p);
    }
  }

  lemma NothingPushed(i: Instr)
    requires i.Const? || Formal(i)
    ensures Pushed(i) == []
  {
  }

  lemma PushedAreOperands(i: Instr)
    ensures forall v :: v in Pushed(i) ==> v in Operands(i)
  {
    if i.ArrayPack? {
      forall v | v in Reverse(i.elements) ensures v in i.elements {
        var k :| 0 <= k < |i.elements| && Reverse(i.elements)[k] == v;
        assert i.elements[|i.elements| - 1 - k] == v;
      }
    }
  }

  lemma {:induction false} OperandsBelow(c: Ctx, b: nat, p: nat)
    requires b < |c.f| && LocalSsa(c.f[b].instrs) && p < |c.f[b].instrs|
    ensures Below(c, b, Operands(c.f[b].instrs[p].1), p + 1) && Below(c, b, Pushed(c.f[b].instrs[p].1), p + 1)
  {
    hide Operands, Pushed;
    var instrs, i := c.f[b].instrs, c.f[b].instrs[p].1;
    assert UsesEarlier(instrs, p);
    PushedAreOperands(i);
    forall v | v in Operands(i) ensures Rank(c, b, v) < p + 1 {
      var k :| 0 <= k < |Operands(i)| && Operands(i)[k] == v;
      assert NotDefinedFrom(instrs, p, Operands(i)[k]);
    }
    assert forall k :: 0 <= k < |Operands(i)| ==> Operands(i)[k] in Operands(i);
    assert forall k :: 0 <= k < |Pushed(i)| ==> Pushed(i)[k] in Pushed(i);
  }

  // ----- values -----

  function LoadLocal(slot: nat): Result<Code, CodegenError> {
    if slot < 256 then Ok([LoadCode(Local(slot))]) else Err(LocalLimitExceeded)
  }

  function StoreLocal(slot: nat): Result<Code, CodegenError> {
    if slot < 256 then Ok([StoreCode(Local(slot))]) else Err(LocalLimitExceeded)
  }

  /** A formal in the entry block, a block parameter elsewhere. */
  function ParamCode(c: Ctx, b: nat, k: nat): Result<Code, CodegenError> {
    if b == c.entry then
      if k % 256 >= c.argCount then Err(Unsupported) else Ok([LoadCode(Arg(k % 256))])
    else if (b, k) in c.params then LoadLocal(c.params[(b, k)])
    else Err(Unsupported)
  }

  function EmitRef(c: Ctx, b: nat, emitted: set<nat>, v: ValueRef): Emitted
    requires b < |c.f| && AllLocalSsa(c.f)
    decreases Rank(c, b, v), 3, 0
  {
    match v
    case Value(id) => EmitId(c, b, emitted, id)
    case Param(k) => var code :- ParamCode(c, b, k); Ok((code, emitted))
  }

  /**
   * A spilled value is loaded if it is in its slot, and otherwise computed, duplicated and
   * stored; any other value is computed where it is used. A value of another block that the plan
   * did not spill is a cheap constant or a formal, and is pushed again.
   */
  function EmitId(c: Ctx, b: nat, emitted: set<nat>, id: nat): Emitted
    requires b < |c.f| && AllLocalSsa(c.f)
    decreases Rank(c, b, Value(id)), 2, 0
  {
    var here := Here(c, b, id);
    if here.Some? then
      OperandsBelow(c, b, here.value);
      var i := c.f[b].instrs[here.value].1;
      if id in c.spill then
        if id !in c.slot then Err(Unsupported)
        else if id in emitted then var code :- LoadLocal(c.slot[id]); Ok((code, emitted))
        else
          var r :- EmitPure(c, b, emitted, i, here.value + 1);
          var store :- StoreLocal(c.slot[id]);
          Ok((r.0 + ([Op(DUP)] + store), r.1 + {id}))
      else if HasSideEffects(i) then Err(Unsupported)
      else EmitPure(c, b, emitted, i, here.value + 1)
    else if id in c.spill then
      if id !in c.slot then Err(Unsupported) else var code :- LoadLocal(c.slot[id]); Ok((code, emitted + {id}))
    else
      var defs := DefsOf(c.f, |c.f|);
      if id !in defs || HasSideEffects(defs[id]) then Err(Unsupported)
      else if !defs[id].Const? && !Formal(defs[id]) then Err(Unsupported)
      else EmitPure(c, b, emitted, defs[id], 0)
  }

  function EmitPure(c: Ctx, b: nat, emitted: set<nat>, i: Instr, bound: nat): Emitted
    requires b < |c.f| && AllLocalSsa(c.f) && Below(c, b, Pushed(i), bound)
    decreases bound, 1, 0
  {
    var r :- EmitRefs(c, b, emitted, Pushed(i), bound);
    var tail :- Tail(c, i);
    Ok((r.0 + tail, r.1))
  }

  function EmitRefs(c: Ctx, b: nat, emitted: set<nat>, vs: seq<ValueRef>, bound: nat): Emitted
    requires b < |c.f| && AllLocalSsa(c.f) && Below(c, b, vs, bound)
    decreases bound, 0, |vs|
  {
    if vs == [] then Ok(([], emitted))
    else
      var first :- EmitRef(c, b, emitted, vs[0]);
      var rest :- EmitRefs(c, b, first.1, vs[1..], bound);
      Ok((first.0 + rest.0, rest.1))
  }

  // ----- blocks -----

  /** `emit`: arguments in order, their count, PACK, the name, the system call; null if its value is used. */
  function EmitEffect(c: Ctx, b: nat, emitted: set<nat>, p: nat): Emitted
    requires b < |c.f| && AllLocalSsa(c.f) && p < |c.f[b].instrs|
  {
    var (id, i) := c.f[b].instrs[p];
    match i
    case Emit(event, args) =>
      OperandsBelow(c, b, p);
      var r :- EmitRefs(c, b, emitted, args, p + 1);
      var pack :- PackCode(|args|);
      var name :- PushData(event);
      var result :- ResultCode(c, id);
      Ok((r.0 + (pack + ([name] + ([Instruction(SYSCALL, NOTIFY)] + result))), if Uses(c.f, id) > 0 && id in c.spill then r.1 + {id} else r.1))
    case _ => Err(Unsupported)
  }

  function ResultCode(c: Ctx, id: nat): Result<Code, CodegenError> {
    if Uses(c.f, id) == 0 then Ok([])
    else if id !in c.spill then Ok([Op(PUSHNULL)])
    else if id !in c.slot then Err(LocalLimitExceeded)
    else var store :- StoreLocal(c.slot[id]); Ok([Op(PUSHNULL)] + store)
  }

  /** Effects in order; everything else waits until it is used. */
  function EmitEffects(c: Ctx, b: nat, emitted: set<nat>, p: nat): Emitted
    requires b < |c.f| && AllLocalSsa(c.f) && p <= |c.f[b].instrs|
    decreases |c.f[b].instrs| - p
  {
    if p == |c.f[b].instrs| then Ok(([], emitted))
    else if !HasSideEffects(c.f[b].instrs[p].1) then EmitEffects(c, b, emitted, p + 1)
    else
      var first :- EmitEffect(c, b, emitted, p);
      var rest :- EmitEffects(c, b, first.1, p + 1);
      Ok((first.0 + rest.0, rest.1))
  }

  /** A value other blocks use that this block defines, spills and has not stored yet. */
  predicate StoresLate(c: Ctx, b: nat, emitted: set<nat>, id: nat)
    requires b < |c.f|
  {
    && id in c.spill && id !in emitted && id in c.slot && Here(c, b, id).Some?
    && !HasSideEffects(c.f[b].instrs[Here(c, b, id).value].1)
  }

  /** Before the terminator, what other blocks will load. `order` lists those values. */
  function EmitSpills(c: Ctx, b: nat, emitted: set<nat>, order: seq<nat>): Emitted
    requires b < |c.f| && AllLocalSsa(c.f)
    decreases |order|
  {
    if order == [] then Ok(([], emitted))
    else if !StoresLate(c, b, emitted, order[0]) then EmitSpills(c, b, emitted, order[1..])
    else
      var p := Here(c, b, order[0]).value;
      OperandsBelow(c, b, p);
      var r :- EmitPure(c, b, emitted, c.f[b].instrs[p].1, p + 1);
      var store :- StoreLocal(c.slot[order[0]]);
      var rest :- EmitSpills(c, b, r.1 + {order[0]}, order[1..]);
      Ok((r.0 + (store + rest.0), rest.1))
  }

  /** How a block ends. Blocks that take or pass arguments are not part of this model. */
  datatype Exit =
    | Leave(code: Code)
    | Go(target: nat)
    | Split(cond: Code, thenTarget: nat, elseTarget: nat)

  predicate JumpsTo(b: BasicBlock, target: nat) { b.term.Jump? && b.term.target == target }

  predicate ElseOf(b: BasicBlock, target: nat) { b.term.Branch? && b.term.elseBb == target }

  predicate ThenOf(b: BasicBlock, target: nat) { b.term.Branch? && b.term.thenBb == target }

  function ElseCount(f: Blocks, n: nat, target: nat): nat
    requires n <= |f|
  {
    if n == 0 then 0 else ElseCount(f, n - 1, target) + if ElseOf(f[n - 1], target) then 1 else 0
  }

  /**
   * Early return: the then-block returns, and the else-block is an empty relay that only this
   * branch reaches. The relay is skipped; the branch jumps to where it led.
   */
  function RelayJoin(f: Blocks, thenBb: nat, elseBb: nat, thenArgs: seq<ValueRef>): Option<nat> {
    if thenArgs != [] || thenBb == elseBb || thenBb >= |f| || !f[thenBb].term.Ret? || elseBb >= |f| then None
    else if f[elseBb].instrs != [] || !f[elseBb].term.Jump? then None
    else
      var join := f[elseBb].term.target;
      if join == elseBb || join == thenBb then None
      else if ElseCount(f, |f|, elseBb) != 1 then None
      else if exists b :: 0 <= b < |f| && JumpsTo(f[b], elseBb) then None
      else if exists b :: 0 <= b < |f| && ThenOf(f[b], elseBb) then None
      else Some(join)
  }

  /** Block `b` is the relay of the branch of block `a`. */
  predicate SkippedBy(f: Blocks, a: nat, b: nat) {
    a < |f| && f[a].term.Branch? && f[a].term.elseBb == b && RelayJoin(f, f[a].term.thenBb, b, f[a].term.thenArgs).Some?
  }

  predicate Skipped(f: Blocks, b: nat) { exists a :: 0 <= a < |f| && SkippedBy(f, a, b) }

  function EmitExit(c: Ctx, b: nat, emitted: set<nat>): Result<Exit, CodegenError>
    requires b < |c.f| && AllLocalSsa(c.f)
  {
    match c.f[b].term
    case Unset => Err(Unsupported)
    case Ret(None) => Ok(Leave([Op(RET)]))
    case Ret(Some(v)) => var r :- EmitRef(c, b, emitted, v); Ok(Leave(r.0 + [Op(RET)]))
    case Jump(target, args) => if args != [] then Err(Unsupported) else Ok(Go(target))
    case Branch(cond, thenBb, thenArgs, elseBb, elseArgs) =>
      if thenArgs != [] || elseArgs != [] then Err(Unsupported)
      else
        var r :- EmitRef(c, b, emitted, cond);
        var join := RelayJoin(c.f, thenBb, elseBb, thenArgs);
        Ok(Split(r.0, thenBb, if join.Some? then join.value else elseBb))
  }

  datatype BlockEmission = BlockEmission(body: Code, exit: Exit)

  function EmitBlock(c: Ctx, b: nat, order: seq<nat>): Result<BlockEmission, CodegenError>
    requires b < |c.f| && AllLocalSsa(c.f)
  {
    if b != c.entry && c.f[b].params != 0 then Err(Unsupported)
    else
      var effects :- EmitEffects(c, b, {}, 0);
      var spills :- EmitSpills(c, b, effects.1, order);
      var exit :- EmitExit(c, b, spills.1);
      Ok(BlockEmission(effects.0 + spills.0, exit))
  }

  function BlockLen(bc: BlockEmission): nat {
    ByteLen(bc.body) +
    match bc.exit
    case Leave(code) => ByteLen(code)
    case Go(_) => 5
    case Split(cond, _, _) => ByteLen(cond) + 10
  }

  // ----- the function -----

  /** Byte offset of block `b`: INITSLOT, then the emitted blocks in order. */
  function BlockStart(c: Ctx, order: seq<nat>, b: nat): Result<nat, CodegenError>
    requires b <= |c.f| && AllLocalSsa(c.f)
  {
    if b == 0 then Ok(3)
    else
      var start :- BlockStart(c, order, b - 1);
      if Skipped(c.f, b - 1) then Ok(start)
      else
        var bc :- EmitBlock(c, b - 1, order);
        Ok(start + BlockLen(bc))
  }

  /** A jump at `pc` to block `target`, if that block has a start. */
  function PatchedJump(c: Ctx, order: seq<nat>, op: byte, pc: nat, target: nat): Result<Instruction, CodegenError>
    requires AllLocalSsa(c.f)
  {
    if target >= |c.f| || Skipped(c.f, target) then Err(Unsupported)
    else
      var start :- BlockStart(c, order, target);
      CodegenSpec.Jump(op, start - pc)
  }

  /** The code of a block that starts at `pc`, its jumps patched. */
  function PlaceBlock(c: Ctx, order: seq<nat>, bc: BlockEmission, pc: nat): Result<Code, CodegenError>
    requires AllLocalSsa(c.f)
  {
    match bc.exit
    case Leave(code) => Ok(bc.body + code)
    case Go(target) =>
      var jump :- PatchedJump(c, order, JMP_L, pc + ByteLen(bc.body), target);
      Ok(bc.body + [jump])
    case Split(cond, thenTarget, elseTarget) =>
      var branch :- PatchedJump(c, order, JMPIF_L, pc + ByteLen(bc.body) + ByteLen(cond), thenTarget);
      var jump :- PatchedJump(c, order, JMP_L, pc + ByteLen(bc.body) + ByteLen(cond) + 5, elseTarget);
      Ok(bc.body + (cond + ([branch] + [jump])))
  }

  /** The first `b` blocks, one after the other. */
  function PlaceBlocks(c: Ctx, order: seq<nat>, b: nat): Result<Code, CodegenError>
    requires b <= |c.f| && AllLocalSsa(c.f)
  {
    if b == 0 then Ok([])
    else
      var front :- PlaceBlocks(c, order, b - 1);
      if Skipped(c.f, b - 1) then Ok(front)
      else
        var start :- BlockStart(c, order, b - 1);
        var bc :- EmitBlock(c, b - 1, order);
        var code :- PlaceBlock(c, order, bc, start);
        Ok(front + code)
  }

  /** `compile_ir`, on a plan. */
  function CompileCode(c: Ctx, order: seq<nat>, locals: nat): Result<Code, CodegenError>
    requires AllLocalSsa(c.f) && locals < 256 && c.argCount < 256
  {
    var code :- PlaceBlocks(c, order, |c.f|);
    Ok([Instruction(INITSLOT, [locals, c.argCount])] + code)
  }
}
