/** Which computation the operators of the SSA form perform, and their stack code. */
module SsaOperators {
  import opened Prelude
  import opened Bytecode
  import opened Vm
  import opened NeoArithmetic
  import opened Disasm
  import opened CodegenSpec
  import opened CodegenSteps
  import opened Ir
  import opened StackPlan
  import opened Stackify
  import opened StackifyValues
  import opened StackifyFlow
  import opened StackifyCorrect
  import opened StackifyRoutine
  import Ast
  import Operators
  import Semantics

  // ----- what an operator computes -----

  lemma {:induction false} BinaryComputes(ops: IrOps, limit: nat, op: Ast.BinaryOp, l: ValueRef, r: ValueRef, a: int, b: int)
    requires Arithmetic(ops.vm, limit) && !Operators.ShortCircuit(op) && FitsSigned(a, 32) && FitsSigned(b, 32)
    ensures PureValue(ops, Ir.Binary(op, l, r), [Int(a), Int(b)]) == Operators.NumberOf(op, limit, a, b)
  {
    hide Arithmetic, FitsSigned, BinaryValue, Operators.NumberOf, Ast.BinaryOpCode;
    Operators.OperatorValue(ops.vm, limit, op, a, b);
  }

  lemma {:induction false} UnaryComputes(ops: IrOps, limit: nat, op: Ast.UnaryOp, v: ValueRef, a: int)
    requires Arithmetic(ops.vm, limit) && FitsSigned(a, 32)
    ensures PureValue(ops, Ir.Unary(op, v), [Int(a)]) == Operators.SignedNumber(op, a)
  {
    hide Arithmetic, FitsSigned, Semantics.UnaryMeaning, Operators.SignedNumber;
    Operators.UnaryValue(ops.vm, limit, op, a);
  }

  /** A cast is the conversion of its type's number, and faults without one. */
  lemma {:induction false} CastComputes(ops: IrOps, ty: Ast.Type, r: ValueRef, v: Value)
    ensures PureValue(ops, Ir.Cast(r, ty), [v]) ==
            match Operators.TypeByte(ty)
            case Some(n) => ops.vm.unary(Instruction(0xDB, [n]), v)
            case None => None
    ensures Conversions(ops.vm) && Operators.CastTo(ty, v).Some? ==> PureValue(ops, Ir.Cast(r, ty), [v]) == Operators.CastTo(ty, v).value
  {
    hide Truthy, AsInteger;
    assert Conversions(ops.vm) ==> Converts(ops.vm, v);
  }

  // ----- its stack code -----

  /** The code of a binary instruction on two integers pushes the number of its operator. */
  lemma {:induction false} BinaryRuns(s: Setting, from: State, emitted: set<nat>, limit: nat, op: Ast.BinaryOp, l: ValueRef, r: ValueRef, p: nat, pc: nat, d: Data,
                                      a: int, b: int) returns (d': Data)
    requires Fixed(s) && p < |s.c.f[s.b].instrs| && s.c.f[s.b].instrs[p].1 == Ir.Binary(op, l, r) && !Operators.ShortCircuit(op)
    requires Below(s.c, s.b, Pushed(Ir.Binary(op, l, r)), p + 1) && EmitPure(s.c, s.b, emitted, Ir.Binary(op, l, r), p + 1).Ok?
    requires Leads(s.x, from, At(s.x, pc, d)) && Slots(s, emitted, d)
    requires CodeAt(s.x.script, pc, EmitPure(s.c, s.b, emitted, Ir.Binary(op, l, r), p + 1).value.0)
    requires Arithmetic(s.x.ops, limit) && FitsSigned(a, 32) && FitsSigned(b, 32)
    requires ValueOf(l, s.params, s.env) == Some(Int(a)) && ValueOf(r, s.params, s.env) == Some(Int(b))
    ensures Operators.NumberOf(op, limit, a, b).Some?
    ensures var (code, emitted') := EmitPure(s.c, s.b, emitted, Ir.Binary(op, l, r), p + 1).value;
            Pushes(s, from, emitted', pc + ByteLen(code), d, [Operators.NumberOf(op, limit, a, b).value], d')
  {
    hide *;
    d' := PureRuns(s, from, emitted, Ir.Binary(op, l, r), p + 1, p, pc, d);
    ItsValue(s, p, op, l, r, Int(a), Int(b));
    BinaryComputes(s.ops, limit, op, l, r, a, b);
  }

  lemma {:induction false} ItsValue(s: Setting, p: nat, op: Ast.BinaryOp, l: ValueRef, r: ValueRef, v: Value, w: Value)
    requires Fixed(s) && p < |s.c.f[s.b].instrs| && s.c.f[s.b].instrs[p].1 == Ir.Binary(op, l, r)
    requires ValueOf(l, s.params, s.env) == Some(v) && ValueOf(r, s.params, s.env) == Some(w)
    ensures s.ops.vm == s.x.ops && s.c.f[s.b].instrs[p].0 in s.env
    ensures PureValue(s.ops, Ir.Binary(op, l, r), [v, w]) == Some(s.env[s.c.f[s.b].instrs[p].0])
  {
    hide AllLocalSsa, SlotsOk, OperatorsOk, Constant, PureValue, ValueOf;
    TwoValues(l, r, s.params, s.env);
    assert ValueAt(s, p);
  }

  // ----- a whole function: T f(T p, T q) { return p op q; } -----

  function OperatorIr(op: Ast.BinaryOp): Blocks {
    [BasicBlock(2, [(0, Ir.Binary(op, Param(0), Param(1)))], Ret(Some(Value(0))))]
  }

  lemma {:induction false} OperatorIrRuns(ops: IrOps, limit: nat, op: Ast.BinaryOp, a: int, b: int, trace: seq<Event>)
    requires Arithmetic(ops.vm, limit) && !Operators.ShortCircuit(op) && FitsSigned(a, 32) && FitsSigned(b, 32)
    ensures RunIr(ops, OperatorIr(op), AtBlock(0, [Int(a), Int(b)], map[], trace), 1) ==
            match Operators.NumberOf(op, limit, a, b)
            case Some(v) => Finished(Some(v), trace)
            case None => Crashed
  {
    hide Arithmetic, FitsSigned, PureValue, Operators.NumberOf, ValuesOf;
    BinaryComputes(ops, limit, op, Param(0), Param(1), a, b);
    var params: seq<Value>, env: Ir.Env, instrs := [Int(a), Int(b)], map[], OperatorIr(op)[0].instrs;
    TwoValues(Param(0), Param(1), params, env);
    var r := Operators.NumberOf(op, limit, a, b);
    assert ExecInstr(ops, instrs[0].1, params, env, trace) == if r.Some? then Some((r.value, trace)) else None;
    var st := AtBlock(0, params, env, trace);
    if r.Some? {
      assert Ir.Exec(ops, instrs, 1, params, env[0 := r.value], trace) == Some((env[0 := r.value], trace));
      assert Ir.Exec(ops, instrs, 0, params, env, trace) == Some((env[0 := r.value], trace));
      assert StepBlock(ops, OperatorIr(op), st) == Finished(Some(r.value), trace);
    } else {
      assert Ir.Exec(ops, instrs, 0, params, env, trace) == None;
      assert StepBlock(ops, OperatorIr(op), st) == Crashed;
    }
    assert RunIr(ops, OperatorIr(op), st, 1) == StepBlock(ops, OperatorIr(op), st) by { OneBlock(ops, OperatorIr(op), st); }
  }

  lemma OneBlock(ops: IrOps, f: Blocks, st: Run)
    ensures RunIr(ops, f, st, 1) == StepBlock(ops, f, st)
  {
    hide StepBlock;
    assert RunIr(ops, f, StepBlock(ops, f, st), 0) == StepBlock(ops, f, st);
  }

  /** Stackified and run on two integers, it returns the number of its operator. */
  lemma {:induction false} OperatorIrReturns(w: StackifyFlow.Routine, from: State, limit: nat, op: Ast.BinaryOp, n: nat, locals: nat, below: List<Value>,
                                             d: Data, a: int, b: int) returns (d': Data)
    requires Compiled(w, n, locals) && w.c.f == OperatorIr(op) && w.args == [Int(a), Int(b)]
    requires Leads(w.x, from, At(w.x, w.base, d)) && Take(d.stack, 2) == Some((w.args, below))
    requires Arithmetic(w.x.ops, limit) && !Operators.ShortCircuit(op) && FitsSigned(a, 32) && FitsSigned(b, 32)
    requires Operators.NumberOf(op, limit, a, b).Some?
    ensures Leads(w.x, from, Vm.Return(d', w.x.calls)) && d'.trace == d.trace
    ensures d'.stack == Cons(Operators.NumberOf(op, limit, a, b).value, below)
  {
    hide Compiled, Leads, Take, Arithmetic, FitsSigned, Operators.NumberOf, RunIr;
    CompiledOps(w, n, locals);
    OperatorIrRuns(w.ops, limit, op, a, b, d.trace);
    d' := RoutineCorrect(w, from, n, locals, below, d, 1);
  }

  lemma CompiledOps(w: StackifyFlow.Routine, n: nat, locals: nat)
    requires Compiled(w, n, locals)
    ensures w.ops.vm == w.x.ops && |w.args| == w.c.argCount
  {
  }
}
