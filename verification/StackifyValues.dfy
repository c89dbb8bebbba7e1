/**
 * Emitted operand code pushes exactly the SSA value it stands for. The invariant through every
 * operand is that each value marked as stored is in its slot; loads, first uses and cheap values
 * pushed again are proved separately and joined by the rank of their definitions.
 */
module StackifyValues {
  import opened Prelude
  import opened Bytecode
  import opened Disasm
  import opened Vm
  import opened Ir
  import opened IrDce
  import opened CodegenSpec
  import opened CodegenSteps
  import opened StackPlan
  import opened Stackify
  import Ast
  import Semantics

  /** A block being run: the machine, the block and the values its ids end up with. */
  datatype Setting = Setting(x: Machine, ops: IrOps, c: Ctx, b: nat, params: seq<Value>, args: seq<Value>, env: Ir.Env)

  /** The machine's instruction `op` is the operator of the same opcode, on `n` operands. */
  ghost predicate OperatorOk(vm: Ops, ops: IrOps, op: byte, n: nat) {
    && IsDataInstruction(Op(op))
    && forall vs, d: Data :: |vs| == n ==>
         ExecData(vm, Op(op), d.(stack := PushAll(d.stack, vs))) ==
         match ops.pure(op, vs)
         case None => None
         case Some(v) => Some(d.Push(v))
  }

  ghost predicate OperatorsOk(vm: Ops, ops: IrOps, instrs: Instrs) {
    forall p :: 0 <= p < |instrs| && instrs[p].1.Pure? ==> OperatorOk(vm, ops, instrs[p].1.opcode, |instrs[p].1.args|)
  }

  /** The instruction at `p` computes the value its id ends up with. */
  ghost predicate ValueAt(s: Setting, p: nat)
    requires s.b < |s.c.f| && p < |s.c.f[s.b].instrs|
  {
    var (id, i) := s.c.f[s.b].instrs[p];
    && id in s.env && !i.StorageGet?
    && ValuesOf(Operands(i), s.params, s.env).Some?
    && (IsPure(i) ==> PureValue(s.ops, i, ValuesOf(Operands(i), s.params, s.env).value) == Some(s.env[id]))
    && (i.Emit? ==> s.env[id] == Null)
  }

  /** Constants and formals have their value wherever they are defined. */
  ghost predicate Constant(f: Blocks, args: seq<Value>, env: Ir.Env, id: nat) {
    var defs := DefsOf(f, |f|);
    id in env && id in defs ==>
      && (defs[id].Const? ==> Semantics.LiteralValue(defs[id].lit) == Some(env[id]))
      && (Formal(defs[id]) ==> defs[id].value.index < |args| && env[id] == args[defs[id].value.index])
  }

  ghost predicate SlotsOk(c: Ctx) {
    && (forall id :: id in c.slot ==> c.slot[id] < 256)
    && (forall id, other :: id in c.slot && other in c.slot && id != other ==> c.slot[id] != c.slot[other])
  }

  ghost predicate Fixed(s: Setting) {
    && s.b < |s.c.f| && AllLocalSsa(s.c.f) && SlotsOk(s.c)
    && s.ops.vm == s.x.ops && OperatorsOk(s.x.ops, s.ops, s.c.f[s.b].instrs)
    && (forall p :: 0 <= p < |s.c.f[s.b].instrs| ==> ValueAt(s, p))
    && (forall id :: Constant(s.c.f, s.args, s.env, id))
    && |s.args| == s.c.argCount < 256
    && s.params == if s.b == s.c.entry then s.args else []
  }

  /** Defined in another block, spilled there, and used here. */
  ghost predicate Foreign(s: Setting, id: nat) {
    && s.b < |s.c.f| && id in s.c.spill && id in s.c.slot && id in s.env
    && Here(s.c, s.b, id).None? && UsedInBlock(s.c.f, s.b, id)
  }

  /** Slots hold the values stored so far, and what other blocks stored. */
  ghost predicate Slots(s: Setting, emitted: set<nat>, d: Data) {
    && d.args == s.args
    && (forall id :: id in s.c.slot ==> s.c.slot[id] < |d.locals|)
    && (forall id :: id in emitted ==> id in s.env && id in s.c.slot && d.locals[s.c.slot[id]] == s.env[id])
    && (forall id :: Foreign(s, id) ==> d.locals[s.c.slot[id]] == s.env[id])
  }

  /** The machine got to `pc` with `ws` pushed; only slots changed. */
  ghost predicate Pushes(s: Setting, a: State, emitted: set<nat>, pc: nat, d: Data, ws: seq<Value>, d': Data) {
    && Leads(s.x, a, At(s.x, pc, d')) && Slots(s, emitted, d')
    && d'.stack == PushAll(d.stack, ws) && d'.trace == d.trace && |d'.locals| == |d.locals| && OtherLocals(s, d, d')
  }

  /** Locals that are no slot of a value defined in this block keep their contents. */
  ghost predicate OtherLocals(s: Setting, d: Data, d': Data) {
    && |d'.locals| == |d.locals|
    && forall id :: id in s.c.slot && s.b < |s.c.f| && Here(s.c, s.b, id).None? && s.c.slot[id] < |d.locals| ==>
         d'.locals[s.c.slot[id]] == d.locals[s.c.slot[id]]
  }

  ghost predicate UsedRef(s: Setting, v: ValueRef) {
    v.Value? ==> UsedInBlock(s.c.f, s.b, v.id)
  }

  ghost predicate UsedRefs(s: Setting, vs: seq<ValueRef>) {
    forall k :: 0 <= k < |vs| ==> UsedRef(s, vs[k])
  }

  // ----- facts about blocks -----

  lemma {:induction false} InstrRefsContain(instrs: Instrs, n: nat, p: nat, v: ValueRef)
    requires p < n <= |instrs| && v in Operands(instrs[p].1)
    ensures v in InstrRefs(instrs, n)
  {
    hide Operands;
    if p < n - 1 {
      InstrRefsContain(instrs, n - 1, p, v);
    }
  }

  lemma {:induction false} OperandsUsed(s: Setting, p: nat)
    requires s.b < |s.c.f| && p < |s.c.f[s.b].instrs|
    ensures UsedRefs(s, Operands(s.c.f[s.b].instrs[p].1)) && UsedRefs(s, Pushed(s.c.f[s.b].instrs[p].1))
  {
    hide Operands, Pushed, InstrRefs, TermOperands;
    var b, i := s.c.f[s.b], s.c.f[s.b].instrs[p].1;
    PushedAreOperands(i);
    forall v | v in Operands(i) ensures UsedRef(s, v) {
      InstrRefsContain(b.instrs, |b.instrs|, p, v);
    }
    assert forall k :: 0 <= k < |Operands(i)| ==> Operands(i)[k] in Operands(i);
    assert forall k :: 0 <= k < |Pushed(i)| ==> Pushed(i)[k] in Pushed(i);
  }

  lemma TermUsed(s: Setting, v: ValueRef)
    requires s.b < |s.c.f| && v in TermOperands(s.c.f[s.b].term)
    ensures UsedRef(s, v)
  {
    hide InstrRefs;
  }

  /** Values of the operands in the order they are pushed. */
  function PushedValues(i: Instr, vs: seq<Value>): seq<Value>
    requires |vs| == |Operands(i)|
  {
    match i
    case Copy(Param(_)) => []
    case Binary(_, l, r) => if l == r then [vs[0]] else vs
    case ArrayPack(_) => Reverse(vs)
    case _ => vs
  }

  lemma {:induction false} ReverseValues(refs: seq<ValueRef>, params: seq<Value>, env: Ir.Env)
    requires ValuesOf(refs, params, env).Some?
    ensures ValuesOf(Reverse(refs), params, env) == Some(Reverse(ValuesOf(refs, params, env).value))
  {
    ValuesAt(refs, params, env);
    var vs := ValuesOf(refs, params, env).value;
    forall k | 0 <= k < |refs| ensures ValueOf(Reverse(refs)[k], params, env) == Some(Reverse(vs)[k]) {
    }
    ValuesFrom(Reverse(refs), Reverse(vs), params, env);
  }

  lemma {:induction false} ValuesAt(refs: seq<ValueRef>, params: seq<Value>, env: Ir.Env)
    requires ValuesOf(refs, params, env).Some?
    ensures forall k :: 0 <= k < |refs| ==> ValueOf(refs[k], params, env) == Some(ValuesOf(refs, params, env).value[k])
  {
    if refs != [] {
      ValuesAt(refs[1..], params, env);
    }
  }

  lemma {:induction false} ValuesFrom(refs: seq<ValueRef>, vs: seq<Value>, params: seq<Value>, env: Ir.Env)
    requires |vs| == |refs| && forall k :: 0 <= k < |refs| ==> ValueOf(refs[k], params, env) == Some(vs[k])
    ensures ValuesOf(refs, params, env) == Some(vs)
  {
    if refs != [] {
      ValuesFrom(refs[1..], vs[1..], params, env);
      assert vs == [vs[0]] + vs[1..];
    }
  }

  lemma {:induction false} PushedHaveValues(i: Instr, params: seq<Value>, env: Ir.Env)
    requires IsPure(i) && ValuesOf(Operands(i), params, env).Some?
    ensures ValuesOf(Pushed(i), params, env) == Some(PushedValues(i, ValuesOf(Operands(i), params, env).value))
  {
    match i
    case Binary(_, l, r) =>
      TwoValues(l, r, params, env);
      OneValue(l, params, env);
    case ArrayPack(elements) => ReverseValues(elements, params, env);
    case Copy(v) => OneValue(v, params, env);
    case _ =>
  }

  // ----- the tail of each instruction -----

  /** Straight-line code computes `after` from `before`. */
  ghost predicate Computes(ops: Ops, code: Code, before: Data, after: Data) {
    if code == [] then after == before
    else IsDataInstruction(code[0]) && ExecData(ops, code[0], before).Some? && Computes(ops, code[1..], ExecData(ops, code[0], before).value, after)
  }

  lemma ComputesNothing(ops: Ops, d: Data)
    ensures Computes(ops, [], d, d)
  {
  }

  lemma ComputesOne(ops: Ops, i: Instruction, d: Data, d': Data)
    requires IsDataInstruction(i) && ExecData(ops, i, d) == Some(d')
    ensures Computes(ops, [i], d, d')
  {
    hide ExecData, IsDataInstruction;
    assert [i][1..] == [];
  }

  lemma ComputesTwo(ops: Ops, i: Instruction, j: Instruction, d: Data, d1: Data, d2: Data)
    requires IsDataInstruction(i) && ExecData(ops, i, d) == Some(d1)
    requires IsDataInstruction(j) && ExecData(ops, j, d1) == Some(d2)
    ensures Computes(ops, [i, j], d, d2)
  {
    hide ExecData, IsDataInstruction;
    ComputesOne(ops, j, d1, d2);
    assert [i, j][1..] == [j];
  }

  lemma {:induction false} ComputesAppend(ops: Ops, c1: Code, c2: Code, d: Data, d1: Data, d2: Data)
    requires Computes(ops, c1, d, d1) && Computes(ops, c2, d1, d2)
    ensures Computes(ops, c1 + c2, d, d2)
    decreases |c1|
  {
    hide ExecData, IsDataInstruction;
    if c1 == [] {
      assert c1 + c2 == c2;
    } else {
      assert (c1 + c2)[1..] == c1[1..] + c2;
      ComputesAppend(ops, c1[1..], c2, ExecData(ops, c1[0], d).value, d1, d2);
    }
  }

  lemma {:induction false} RunCode(x: Machine, a: State, code: Code, pc: nat, d: Data, d': Data)
    requires Computes(x.ops, code, d, d') && Leads(x, a, At(x, pc, d)) && CodeAt(x.script, pc, code)
    ensures Leads(x, a, At(x, pc + ByteLen(code), d'))
    decreases |code|
  {
    hide ExecData, IsDataInstruction, CodeAt, Leads, ByteLen;
    if code == [] {
      ByteLenNone();
    } else {
      assert code == [code[0]] + code[1..];
      DataStep(x, a, code[0], code[1..], pc, d);
      RunCode(x, a, code[1..], pc + EncodedLen(code[0]), ExecData(x.ops, code[0], d).value, d');
    }
  }

  lemma PushedOne(stack: List<Value>, v: Value)
    ensures PushAll(stack, [v]) == Cons(v, stack)
  {
    assert [v][1..] == [];
  }

  lemma PushedTwo(stack: List<Value>, v: Value, w: Value)
    ensures PushAll(stack, [v, w]) == Cons(w, Cons(v, stack))
  {
    assert [v, w][1..] == [w];
    PushedOne(Cons(v, stack), w);
  }

  /** PACK of `ws`, pushed left to right: the array holds them last first. */
  lemma PackComputes(ops: Ops, ws: seq<Value>, d: Data)
    requires PackCode(|ws|).Ok?
    ensures Computes(ops, PackCode(|ws|).value, d.(stack := PushAll(d.stack, ws)), d.Push(Array(Reverse(ws))))
  {
    hide ExecData, IsDataInstruction, PushInt, Take, PushAll, Computes, FitsSigned;
    var d1 := d.(stack := PushAll(d.stack, ws));
    Fits64(|ws|);
    ExecPushInt(ops, |ws|, d1);
    ExecPack(ops, d1.Push(Int(|ws|)));
    TakePushed(d.stack, ws);
    ComputesTwo(ops, PushInt(|ws|), Op(PACK), d1, d1.Push(Int(|ws|)), d.Push(Array(Reverse(ws))));
  }

  lemma Fits64(n: nat)
    requires FitsSigned(n, 8)
    ensures Ast.FitsI128(n)
  {
    WidthRanges();
  }

  /** What each instruction leaves on the stack when its operands were pushed. */
  lemma {:induction false} TailComputes(s: Setting, i: Instr, vs: seq<Value>, v: Value, d: Data)
    requires IsPure(i) && |vs| == |Operands(i)| && PureValue(s.ops, i, vs) == Some(v) && Tail(s.c, i).Ok?
    requires s.ops.vm == s.x.ops && (i.Pure? ==> OperatorOk(s.x.ops, s.ops, i.opcode, |i.args|))
    requires Formal(i) ==> s.c.argCount == |d.args| && i.value.index < |d.args| && d.args[i.value.index] == v
    requires i.Binary? && i.left == i.right ==> vs[0] == vs[1]
    ensures Computes(s.x.ops, Tail(s.c, i).value, d.(stack := PushAll(d.stack, PushedValues(i, vs))), d.Push(v))
  {
    hide ExecData, IsDataInstruction, Semantics.LiteralValue, Computes, PushAll;
    var ops := s.x.ops;
    var ws := PushedValues(i, vs);
    var d1 := d.(stack := PushAll(d.stack, ws));
    match i
    case Const(lit) =>
      PushNone(d.stack);
      ExecLiteral(ops, lit, d);
      ComputesOne(ops, LiteralCode(lit).value, d, d.Push(v));
    case Copy(ref) =>
      if ref.Param? {
        PushNone(d.stack);
        ExecLoadSlot(ops, Arg(ref.index), d);
        ComputesOne(ops, LoadCode(Arg(ref.index)), d, d.Push(v));
      } else {
        assert ws == [v];
        PushedOne(d.stack, v);
        ComputesNothing(ops, d1);
      }
    case Unary(op, _) =>
      assert ws == [vs[0]];
      PushedOne(d.stack, vs[0]);
      UnaryComputes(ops, op, vs[0], v, d);
    case IsNull(_, eqNull) =>
      assert ws == [vs[0]];
      PushedOne(d.stack, vs[0]);
      NullComputes(ops, vs[0], eqNull, d);
    case Binary(op, l, r) =>
      BinaryComputes(ops, op, l == r, vs[0], vs[1], v, d);
      if l == r {
        PushedOne(d.stack, vs[0]);
      } else {
        assert ws == [vs[0], vs[1]];
        PushedTwo(d.stack, vs[0], vs[1]);
      }
    case Cast(_, ty) =>
      assert ws == [vs[0]];
      PushedOne(d.stack, vs[0]);
      CastComputes(ops, ty, vs[0], v, d);
    case StructFieldGet(_, k) =>
      assert ws == [vs[0]];
      PushedOne(d.stack, vs[0]);
      FieldComputes(ops, k, vs[0], v, d);
    case Pure(op, _) =>
      assert ExecData(ops, Op(op), d1) == Some(d.Push(v));
      OperatorIsData(ops, s.ops, op, |vs|);
      ComputesOne(ops, Op(op), d1, d.Push(v));
    case ArrayPack(_) =>
      assert Reverse(Reverse(vs)) == vs;
      PackComputes(ops, Reverse(vs), d);
    case StructPack(_) => PackComputes(ops, vs, d);
  }

  lemma OperatorIsData(vm: Ops, ops: IrOps, op: byte, n: nat)
    requires OperatorOk(vm, ops, op, n)
    ensures IsDataInstruction(Op(op))
  {
  }

  lemma {:induction false} UnaryComputes(ops: Ops, op: Ast.UnaryOp, u: Value, v: Value, d: Data)
    requires Semantics.UnaryMeaning(ops, op, u) == Some(v)
    ensures Computes(ops, UnaryCode(op, []), d.(stack := Cons(u, d.stack)), d.Push(v))
  {
    hide ExecData, IsDataInstruction, Computes;
    var d1 := d.(stack := Cons(u, d.stack));
    if op == Ast.Positive {
      ComputesNothing(ops, d1);
    } else {
      assert WellFormed(Op(UnaryOpCode(op)));
      ExecUnary(ops, Op(UnaryOpCode(op)), d1);
      assert [] + [Op(UnaryOpCode(op))] == [Op(UnaryOpCode(op))];
      ComputesOne(ops, Op(UnaryOpCode(op)), d1, d.Push(v));
    }
  }

  lemma {:induction false} NullComputes(ops: Ops, u: Value, eqNull: bool, d: Data)
    ensures Computes(ops, if eqNull then [Op(ISNULL)] else [Op(ISNULL), Op(NOT)], d.(stack := Cons(u, d.stack)), d.Push(Bool((u == Null) == eqNull)))
  {
    hide ExecData, IsDataInstruction, Computes;
    var d1 := d.(stack := Cons(u, d.stack));
    assert WellFormed(Op(ISNULL)) && WellFormed(Op(NOT));
    ExecUnary(ops, Op(ISNULL), d1);
    if eqNull {
      ComputesOne(ops, Op(ISNULL), d1, d.Push(Bool(u == Null)));
    } else {
      ExecUnary(ops, Op(NOT), d.Push(Bool(u == Null)));
      ComputesTwo(ops, Op(ISNULL), Op(NOT), d1, d.Push(Bool(u == Null)), d.Push(Bool(u != Null)));
    }
  }

  lemma {:induction false} BinaryComputes(ops: Ops, op: Ast.BinaryOp, same: bool, u: Value, w: Value, v: Value, d: Data)
    requires op != Ast.And && op != Ast.Or && BinaryValue(ops, Ast.BinaryOpCode(op), u, w) == Some(v) && (same ==> u == w)
    ensures Computes(ops, (if same then [Op(DUP)] else []) + [Op(Ast.BinaryOpCode(op))],
                     d.(stack := if same then Cons(u, d.stack) else Cons(w, Cons(u, d.stack))), d.Push(v))
  {
    hide ExecData, IsDataInstruction, Computes, BinaryValue;
    var i := Op(Ast.BinaryOpCode(op));
    var d2 := d.Push(u).Push(w);
    BinaryIsOperation(ops, op, u, w);
    ExecBinary(ops, Ast.BinaryOpCode(op), d2);
    assert d2.(stack := Cons(v, d.stack)) == d.Push(v);
    if same {
      ExecDup(ops, d.Push(u));
      assert [Op(DUP)] + [i] == [Op(DUP), i];
      ComputesTwo(ops, Op(DUP), i, d.Push(u), d2, d.Push(v));
    } else {
      assert [] + [i] == [i];
      ComputesOne(ops, i, d2, d.Push(v));
    }
  }

  lemma BinaryIsOperation(ops: Ops, op: Ast.BinaryOp, u: Value, w: Value)
    ensures IsBinary(Ast.BinaryOpCode(op)) && Vm.Binary(ops, Op(Ast.BinaryOpCode(op)), u, w) == BinaryValue(ops, Ast.BinaryOpCode(op), u, w)
  {
    hide BinaryValue;
  }

  lemma {:induction false} CastComputes(ops: Ops, ty: Ast.Type, u: Value, v: Value, d: Data)
    requires Ast.StackItemType(ty).Some? && ops.unary(Instruction(CONVERT, [Ast.StackItemType(ty).value]), u) == Some(v)
    ensures Computes(ops, [Instruction(CONVERT, [Ast.StackItemType(ty).value])], d.(stack := Cons(u, d.stack)), d.Push(v))
  {
    hide ExecData, IsDataInstruction, Computes;
    var i := Instruction(CONVERT, [Ast.StackItemType(ty).value]);
    assert WellFormed(i);
    ExecUnary(ops, i, d.Push(u));
    ComputesOne(ops, i, d.Push(u), d.Push(v));
  }

  lemma {:induction false} FieldComputes(ops: Ops, k: nat, u: Value, v: Value, d: Data)
    requires FitsSigned(k, 8) && Vm.Binary(ops, Op(PICKITEM), u, Int(k)) == Some(v)
    ensures Computes(ops, [PushInt(k), Op(PICKITEM)], d.(stack := Cons(u, d.stack)), d.Push(v))
  {
    hide ExecData, IsDataInstruction, Computes, PushInt, FitsSigned;
    Fits64(k);
    ExecPushInt(ops, k, d.Push(u));
    var d2 := d.Push(u).Push(Int(k));
    ExecBinary(ops, PICKITEM, d2);
    assert d2.(stack := Cons(v, d.stack)) == d.Push(v);
    ComputesTwo(ops, PushInt(k), Op(PICKITEM), d.Push(u), d2, d.Push(v));
  }

  // ----- operands -----

  lemma PushesNothing(s: Setting, a: State, emitted: set<nat>, pc: nat, d: Data)
    requires Leads(s.x, a, At(s.x, pc, d)) && Slots(s, emitted, d)
    ensures Pushes(s, a, emitted, pc, d, [], d)
  {
    hide Leads, Slots;
    PushNone(d.stack);
  }

  lemma PushesTrans(s: Setting, a: State, e1: set<nat>, e2: set<nat>, pc1: nat, pc2: nat, d: Data, ws1: seq<Value>, d1: Data, ws2: seq<Value>, d2: Data)
    requires Pushes(s, a, e1, pc1, d, ws1, d1) && Pushes(s, a, e2, pc2, d1, ws2, d2)
    ensures Pushes(s, a, e2, pc2, d, ws1 + ws2, d2)
  {
    hide Leads, Slots;
    PushAppend(d.stack, ws1, ws2);
  }

  lemma {:induction false} PushAppend(stack: List<Value>, a: seq<Value>, b: seq<Value>)
    ensures PushAll(stack, a + b) == PushAll(PushAll(stack, a), b)
    decreases |a|
  {
    if a == [] {
      assert a + b == b;
    } else {
      assert (a + b)[1..] == a[1..] + b;
      PushAppend(Cons(a[0], stack), a[1..], b);
    }
  }

  /** Code that only rearranges the top of the stack replaces what was pushed. */
  lemma {:induction false} PushesThen(s: Setting, a: State, emitted: set<nat>, code: Code, pc: nat, d: Data, ws: seq<Value>, d1: Data, v: Value)
    requires Pushes(s, a, emitted, pc, d, ws, d1) && CodeAt(s.x.script, pc, code)
    requires Computes(s.x.ops, code, d1, d1.(stack := Cons(v, d.stack)))
    ensures Pushes(s, a, emitted, pc + ByteLen(code), d, [v], d1.(stack := Cons(v, d.stack)))
  {
    hide Leads, CodeAt, Computes, ByteLen, Foreign;
    RunCode(s.x, a, code, pc, d1, d1.(stack := Cons(v, d.stack)));
    PushedOne(d.stack, v);
  }

  /** DUP and store: the value stays, and its slot now holds it. */
  lemma {:induction false} PushesStored(s: Setting, a: State, emitted: set<nat>, id: nat, slot: nat, pc: nat, d: Data, d1: Data) returns (d2: Data)
    requires Fixed(s) && id in s.env && id in s.c.slot && slot == s.c.slot[id] < 256 && Here(s.c, s.b, id).Some?
    requires Pushes(s, a, emitted, pc, d, [s.env[id]], d1)
    requires CodeAt(s.x.script, pc, [Op(DUP)] + [StoreCode(Local(slot))])
    ensures Pushes(s, a, emitted + {id}, pc + ByteLen([Op(DUP)] + [StoreCode(Local(slot))]), d, [s.env[id]], d2)
  {
    hide Leads, CodeAt, ByteLen, Fixed, ExecData, IsDataInstruction, Computes, StoreCode, Foreign;
    FixedSlots(s);
    FixedBlock(s);
    var store := StoreCode(Local(slot));
    d2 := d1.(locals := d1.locals[slot := s.env[id]]);
    PushedOne(d.stack, s.env[id]);
    ExecDup(s.x.ops, d1);
    ExecStoreSlot(s.x.ops, Local(slot), d1.Push(s.env[id]));
    assert StoredData(Local(slot), d1.Push(s.env[id])) == d2;
    ComputesTwo(s.x.ops, Op(DUP), store, d1, d1.Push(s.env[id]), d2);
    assert [Op(DUP)] + [store] == [Op(DUP), store];
    RunCode(s.x, a, [Op(DUP)] + [store], pc, d1, d2);
    StoredSlots(s, emitted, id, d1);
    StoredOthers(s, id, d, d1);
  }

  lemma FixedSlots(s: Setting)
    requires Fixed(s)
    ensures SlotsOk(s.c)
  {
  }

  lemma StoredOthers(s: Setting, id: nat, d: Data, d1: Data)
    requires SlotsOk(s.c) && id in s.c.slot && s.b < |s.c.f| && Here(s.c, s.b, id).Some? && id in s.env
    requires OtherLocals(s, d, d1) && s.c.slot[id] < |d1.locals|
    ensures OtherLocals(s, d, d1.(locals := d1.locals[s.c.slot[id] := s.env[id]]))
  {
  }

  lemma StoredSlots(s: Setting, emitted: set<nat>, id: nat, d: Data)
    requires SlotsOk(s.c) && Slots(s, emitted, d) && id in s.env && id in s.c.slot && s.b < |s.c.f| && Here(s.c, s.b, id).Some?
    ensures Slots(s, emitted + {id}, d.(locals := d.locals[s.c.slot[id] := s.env[id]]))
  {
    hide UsedInBlock;
  }

  lemma LoadsLocal(s: Setting, a: State, emitted: set<nat>, slot: nat, pc: nat, d: Data)
    requires slot < 256 && slot < |d.locals| && Leads(s.x, a, At(s.x, pc, d)) && Slots(s, emitted, d)
    requires CodeAt(s.x.script, pc, [LoadCode(Local(slot))])
    ensures Pushes(s, a, emitted, pc + ByteLen([LoadCode(Local(slot))]), d, [d.locals[slot]], d.Push(d.locals[slot]))
  {
    hide Leads, CodeAt, ByteLen, ExecData, IsDataInstruction, Computes, LoadCode, Foreign;
    ExecLoadSlot(s.x.ops, Local(slot), d);
    ComputesOne(s.x.ops, LoadCode(Local(slot)), d, d.Push(d.locals[slot]));
    RunCode(s.x, a, [LoadCode(Local(slot))], pc, d, d.Push(d.locals[slot]));
    PushedOne(d.stack, d.locals[slot]);
  }

  lemma LoadsArg(s: Setting, a: State, emitted: set<nat>, k: nat, pc: nat, d: Data)
    requires k < 256 && k < |d.args| && Leads(s.x, a, At(s.x, pc, d)) && Slots(s, emitted, d)
    requires CodeAt(s.x.script, pc, [LoadCode(Arg(k))])
    ensures Pushes(s, a, emitted, pc + ByteLen([LoadCode(Arg(k))]), d, [d.args[k]], d.Push(d.args[k]))
  {
    hide Leads, CodeAt, ByteLen, ExecData, IsDataInstruction, Computes, LoadCode, Foreign;
    ExecLoadSlot(s.x.ops, Arg(k), d);
    ComputesOne(s.x.ops, LoadCode(Arg(k)), d, d.Push(d.args[k]));
    RunCode(s.x, a, [LoadCode(Arg(k))], pc, d, d.Push(d.args[k]));
    PushedOne(d.stack, d.args[k]);
  }

  lemma OtherSelf(s: Setting, d: Data)
    ensures OtherLocals(s, d, d)
  {
  }

  /** One reference: its value is pushed. */
  lemma {:induction false} RefRuns(s: Setting, a: State, emitted: set<nat>, v: ValueRef, pc: nat, d: Data) returns (d': Data)
    requires Fixed(s) && EmitRef(s.c, s.b, emitted, v).Ok? && ValueOf(v, s.params, s.env).Some? && UsedRef(s, v)
    requires Leads(s.x, a, At(s.x, pc, d)) && Slots(s, emitted, d)
    requires CodeAt(s.x.script, pc, EmitRef(s.c, s.b, emitted, v).value.0)
    ensures var (code, emitted') := EmitRef(s.c, s.b, emitted, v).value;
            Pushes(s, a, emitted', pc + ByteLen(code), d, [ValueOf(v, s.params, s.env).value], d')
    decreases Rank(s.c, s.b, v), 3, 0
  {
    hide Leads, CodeAt, ByteLen, Slots, Pushes, EmitId, LoadCode, UsedInBlock, ValueAt, Constant, OperatorsOk, AllLocalSsa;
    match v
    case Value(id) => d' := IdRuns(s, a, emitted, id, pc, d);
    case Param(k) =>
      SlotsArgs(s, emitted, d);
      LoadsArg(s, a, emitted, k, pc, d);
      d' := d.Push(d.args[k]);
  }

  lemma SlotsArgs(s: Setting, emitted: set<nat>, d: Data)
    requires Slots(s, emitted, d)
    ensures d.args == s.args
  {
  }

  lemma {:induction false} IdRuns(s: Setting, a: State, emitted: set<nat>, id: nat, pc: nat, d: Data) returns (d': Data)
    requires Fixed(s) && EmitId(s.c, s.b, emitted, id).Ok? && id in s.env && UsedInBlock(s.c.f, s.b, id)
    requires Leads(s.x, a, At(s.x, pc, d)) && Slots(s, emitted, d)
    requires CodeAt(s.x.script, pc, EmitId(s.c, s.b, emitted, id).value.0)
    ensures var (code, emitted') := EmitId(s.c, s.b, emitted, id).value;
            Pushes(s, a, emitted', pc + ByteLen(code), d, [s.env[id]], d')
    decreases Rank(s.c, s.b, Value(id)), 2, 0
  {
    hide Leads, CodeAt, ByteLen, Pushes, EmitPure, LoadCode, StoreCode, UsedInBlock, ValueAt, Constant, OperatorsOk, AllLocalSsa, Operands, Pushed;
    hide LocalPos, DefsOf, SlotsOk;
    var c, here := s.c, Here(s.c, s.b, id);
    if here.Some? {
      var p := here.value;
      var i := c.f[s.b].instrs[p].1;
      BlockLocal(c, s.b);
      OperandsBelow(c, s.b, p);
      if id !in c.spill {
        d' := PureRuns(s, a, emitted, i, p + 1, p, pc, d);
      } else if id in emitted {
        SlotBound(s, id);
        LoadsLocal(s, a, emitted, c.slot[id], pc, d);
        d' := d.Push(d.locals[c.slot[id]]);
      } else {
        SlotBound(s, id);
        var r := EmitPure(c, s.b, emitted, i, p + 1).value;
        var store := [Op(DUP)] + [StoreCode(Local(c.slot[id]))];
        CodeAtSplit(s.x.script, pc, r.0, store);
        ByteLenAppend(r.0, store);
        PureSpilled(c, i, s.b, emitted, p + 1);
        var d1 := PureRuns(s, a, emitted, i, p + 1, p, pc, d);
        d' := PushesStored(s, a, r.1, id, c.slot[id], pc + ByteLen(r.0), d, d1);
      }
    } else if id in c.spill {
      SlotBound(s, id);
      assert Foreign(s, id);
      LoadsLocal(s, a, emitted, c.slot[id], pc, d);
      d' := d.Push(d.locals[c.slot[id]]);
      PushesMore(s, a, emitted, id, pc + ByteLen([LoadCode(Local(c.slot[id]))]), d, d');
    } else {
      d' := ReloadRuns(s, a, emitted, id, pc, d);
    }
  }

  lemma BlockLocal(c: Ctx, b: nat)
    requires AllLocalSsa(c.f) && b < |c.f|
    ensures LocalSsa(c.f[b].instrs)
  {
  }

  lemma SlotBound(s: Setting, id: nat)
    requires Fixed(s) && id in s.c.slot
    ensures s.c.slot[id] < 256
  {
  }

  /** Only instructions without effects have operand code. */
  lemma PureSpilled(c: Ctx, i: Instr, b: nat, emitted: set<nat>, bound: nat)
    requires b < |c.f| && AllLocalSsa(c.f) && Below(c, b, Pushed(i), bound) && EmitPure(c, b, emitted, i, bound).Ok?
    ensures !HasSideEffects(i) && Tail(c, i).Ok?
  {
    hide EmitRefs, LiteralCode, PackCode, PushData, UnaryCode;
  }

  lemma {:induction false} PushesMore(s: Setting, a: State, emitted: set<nat>, id: nat, pc: nat, d: Data, d': Data)
    requires Foreign(s, id) && Pushes(s, a, emitted, pc, d, [s.env[id]], d')
    ensures Pushes(s, a, emitted + {id}, pc, d, [s.env[id]], d')
  {
    hide Leads, UsedInBlock;
  }

  /** A cheap constant or a formal of another block. */
  lemma {:induction false} ReloadRuns(s: Setting, a: State, emitted: set<nat>, id: nat, pc: nat, d: Data) returns (d': Data)
    requires Fixed(s) && EmitId(s.c, s.b, emitted, id).Ok? && id in s.env && Here(s.c, s.b, id).None? && id !in s.c.spill
    requires Leads(s.x, a, At(s.x, pc, d)) && Slots(s, emitted, d)
    requires CodeAt(s.x.script, pc, EmitId(s.c, s.b, emitted, id).value.0)
    ensures var (code, emitted') := EmitId(s.c, s.b, emitted, id).value;
            Pushes(s, a, emitted', pc + ByteLen(code), d, [s.env[id]], d')
  {
    hide Leads, CodeAt, ByteLen, Pushes, LocalPos, DefsOf, LiteralCode, LoadCode, SlotsOk, OperatorsOk, ValueAt, AllLocalSsa, Semantics.LiteralValue, Computes, ExecData, IsDataInstruction;
    var i := DefsOf(s.c.f, |s.c.f|)[id];
    assert Constant(s.c.f, s.args, s.env, id);
    var (code, _) := EmitId(s.c, s.b, emitted, id).value;
    assert EmitRefs(s.c, s.b, emitted, [], 0) == Ok(([], emitted));
    assert Pushed(i) == [];
    d' := d.Push(s.env[id]);
    PushesNothing(s, a, emitted, pc, d);
    if i.Const? {
      var lit := LiteralCode(i.lit).value;
      assert [] + [lit] == [lit] == code;
      ExecLiteral(s.x.ops, i.lit, d);
      ComputesOne(s.x.ops, lit, d, d');
    } else {
      var k := i.value.index;
      assert [] + [LoadCode(Arg(k))] == [LoadCode(Arg(k))] == code;
      ExecLoadSlot(s.x.ops, Arg(k), d);
      ComputesOne(s.x.ops, LoadCode(Arg(k)), d, d');
    }
    PushesThen(s, a, emitted, code, pc, d, [], d, s.env[id]);
  }

  /** The computation at position `p` of the block: its operands, then its own code. */
  lemma {:induction false} PureRuns(s: Setting, a: State, emitted: set<nat>, i: Instr, bound: nat, p: nat, pc: nat, d: Data) returns (d': Data)
    requires Fixed(s) && p < |s.c.f[s.b].instrs| && i == s.c.f[s.b].instrs[p].1 && bound == p + 1
    requires Below(s.c, s.b, Pushed(i), bound) && EmitPure(s.c, s.b, emitted, i, bound).Ok?
    requires Leads(s.x, a, At(s.x, pc, d)) && Slots(s, emitted, d)
    requires CodeAt(s.x.script, pc, EmitPure(s.c, s.b, emitted, i, bound).value.0)
    ensures var (code, emitted') := EmitPure(s.c, s.b, emitted, i, bound).value;
            s.c.f[s.b].instrs[p].0 in s.env && Pushes(s, a, emitted', pc + ByteLen(code), d, [s.env[s.c.f[s.b].instrs[p].0]], d')
    decreases bound, 1, 0
  {
    hide Leads, CodeAt, ByteLen, Pushes, EmitRefs, Tail, Slots, Fixed, Operands, Pushed, PushedValues, PureValue, ValuesOf, UsedRefs, Computes, Below;
    FixedBlock(s);
    PureSpilled(s.c, i, s.b, emitted, bound);
    PureAt(s, p);
    var vs := ValuesOf(Operands(i), s.params, s.env).value;
    var r, tail := EmitRefs(s.c, s.b, emitted, Pushed(i), bound).value, Tail(s.c, i).value;
    OperandsUsed(s, p);
    PushedHaveValues(i, s.params, s.env);
    CodeAtSplit(s.x.script, pc, r.0, tail);
    ByteLenAppend(r.0, tail);
    var d1 := RefsRun(s, a, emitted, Pushed(i), bound, pc, d);
    TailRuns(s, a, r.1, p, pc + ByteLen(r.0), d, vs, d1);
    d' := d1.(stack := Cons(s.env[s.c.f[s.b].instrs[p].0], d.stack));
  }

  lemma PureAt(s: Setting, p: nat)
    requires Fixed(s) && p < |s.c.f[s.b].instrs| && !HasSideEffects(s.c.f[s.b].instrs[p].1)
    ensures var (id, i) := s.c.f[s.b].instrs[p];
            && id in s.env && IsPure(i) && ValuesOf(Operands(i), s.params, s.env).Some?
            && PureValue(s.ops, i, ValuesOf(Operands(i), s.params, s.env).value) == Some(s.env[id])
  {
    hide Operands, PureValue, ValuesOf, AllLocalSsa, OperatorsOk, Constant;
    assert ValueAt(s, p);
  }

  lemma {:induction false} TailRuns(s: Setting, a: State, emitted: set<nat>, p: nat, pc: nat, d: Data, vs: seq<Value>, d1: Data)
    requires Fixed(s) && p < |s.c.f[s.b].instrs|
    requires var (id, i) := s.c.f[s.b].instrs[p];
             && id in s.env && IsPure(i) && Tail(s.c, i).Ok? && ValuesOf(Operands(i), s.params, s.env) == Some(vs)
             && PureValue(s.ops, i, vs) == Some(s.env[id])
             && Pushes(s, a, emitted, pc, d, PushedValues(i, vs), d1) && CodeAt(s.x.script, pc, Tail(s.c, i).value)
    ensures var (id, i) := s.c.f[s.b].instrs[p];
            Pushes(s, a, emitted, pc + ByteLen(Tail(s.c, i).value), d, [s.env[id]], d1.(stack := Cons(s.env[id], d.stack)))
  {
    hide Leads, CodeAt, ByteLen, Pushes, Tail, Slots, Operands, PushedValues, PureValue, ValuesOf, Computes, OperatorsOk, AllLocalSsa, Constant, OperatorOk, ValueAt;
    var (id, i) := s.c.f[s.b].instrs[p];
    TailSetting(s, p, vs);
    PushesShape(s, a, emitted, pc, d, PushedValues(i, vs), d1);
    TailComputes(s, i, vs, s.env[id], d1.(stack := d.stack));
    PushesThen(s, a, emitted, Tail(s.c, i).value, pc, d, PushedValues(i, vs), d1, s.env[id]);
  }

  lemma PushesShape(s: Setting, a: State, emitted: set<nat>, pc: nat, d: Data, ws: seq<Value>, d': Data)
    requires Pushes(s, a, emitted, pc, d, ws, d')
    ensures d'.args == s.args && d'.(stack := d.stack).(stack := PushAll(d.stack, ws)) == d'
    ensures d'.trace == d.trace && |d'.locals| == |d.locals| && d'.stack == PushAll(d.stack, ws)
    ensures Leads(s.x, a, At(s.x, pc, d')) && Slots(s, emitted, d')
  {
    hide PushAll;
  }

  lemma {:induction false} TailSetting(s: Setting, p: nat, vs: seq<Value>)
    requires Fixed(s) && p < |s.c.f[s.b].instrs|
    requires IsPure(s.c.f[s.b].instrs[p].1) && ValuesOf(Operands(s.c.f[s.b].instrs[p].1), s.params, s.env) == Some(vs)
    ensures var (id, i) := s.c.f[s.b].instrs[p];
            && (i.Pure? ==> OperatorOk(s.x.ops, s.ops, i.opcode, |i.args|))
            && (Formal(i) ==> i.value.index < |s.args| && id in s.env && s.args[i.value.index] == s.env[id])
            && (i.Binary? && i.left == i.right ==> vs[0] == vs[1])
  {
    hide OperatorOk, Constant, SlotsOk, AllLocalSsa;
    var (id, i) := s.c.f[s.b].instrs[p];
    assert ValueAt(s, p);
    ValuesAt(Operands(i), s.params, s.env);
  }

  lemma {:induction false} RefsRun(s: Setting, a: State, emitted: set<nat>, vs: seq<ValueRef>, bound: nat, pc: nat, d: Data) returns (d': Data)
    requires Fixed(s) && Below(s.c, s.b, vs, bound) && EmitRefs(s.c, s.b, emitted, vs, bound).Ok?
    requires ValuesOf(vs, s.params, s.env).Some? && UsedRefs(s, vs)
    requires Leads(s.x, a, At(s.x, pc, d)) && Slots(s, emitted, d)
    requires CodeAt(s.x.script, pc, EmitRefs(s.c, s.b, emitted, vs, bound).value.0)
    ensures var (code, emitted') := EmitRefs(s.c, s.b, emitted, vs, bound).value;
            Pushes(s, a, emitted', pc + ByteLen(code), d, ValuesOf(vs, s.params, s.env).value, d')
    decreases bound, 0, |vs|
  {
    hide Leads, CodeAt, ByteLen, Pushes, EmitRef, Slots, Fixed, ValueOf, UsedRef, Rank;
    if vs == [] {
      ByteLenNone();
      PushesNothing(s, a, emitted, pc, d);
      d' := d;
    } else {
      FixedBlock(s);
      var first := EmitRef(s.c, s.b, emitted, vs[0]).value;
      var rest := EmitRefs(s.c, s.b, first.1, vs[1..], bound).value;
      CodeAtSplit(s.x.script, pc, first.0, rest.0);
      ByteLenAppend(first.0, rest.0);
      var d1 := RefRuns(s, a, emitted, vs[0], pc, d);
      var v := ValueOf(vs[0], s.params, s.env).value;
      PushesShape(s, a, first.1, pc + ByteLen(first.0), d, [v], d1);
      d' := RefsRun(s, a, first.1, vs[1..], bound, pc + ByteLen(first.0), d1);
      PushesTrans(s, a, first.1, rest.1, pc + ByteLen(first.0), pc + ByteLen(first.0) + ByteLen(rest.0), d, [v], d1,
                  ValuesOf(vs[1..], s.params, s.env).value, d');
    }
  }

  lemma FixedBlock(s: Setting)
    requires Fixed(s)
    ensures s.b < |s.c.f| && AllLocalSsa(s.c.f)
  {
  }
}
