/**
 * Which computation each operator performs: what `e1 op e2`, `x op= e`, `op e` and `e as T` mean on
 * a machine whose arithmetic is known by opcode number, in the source and in the compiled code.
 */
module Operators {
  import opened Prelude
  import opened Bytecode
  import opened Vm
  import opened NeoArithmetic
  import opened Ast
  import opened Semantics
  import opened CodegenSpec
  import opened CodegenSteps
  import opened CodegenExpr

  predicate ShortCircuit(op: BinaryOp) { op == And || op == Or }

  /** The number, or truth value, of an operator on two integers; `None` is a fault. */
  function NumberOf(op: BinaryOp, limit: nat, a: int, b: int): Option<Value>
    requires !ShortCircuit(op)
  {
    match op
    case Add => Sized(a + b)
    case Sub => Sized(a - b)
    case Mul => Sized(a * b)
    case Div => if b == 0 then None else Sized(Quotient(a, b))
    case Mod => if b == 0 then None else Sized(Remainder(a, b))
    case Shl => if 0 <= b <= limit then Sized(a * Pow2(b)) else None
    case Shr => if 0 <= b <= limit then Sized(a / Pow2(b)) else None
    case BitAnd => Sized(Conjunction(a, b))
    case BitOr => Sized(Disjunction(a, b))
    case BitXor => Sized(Difference(a, b))
    case Eq => Truth(a == b)
    case Ne => Truth(a != b)
    case Lt => Truth(a < b)
    case Le => Truth(a <= b)
    case Gt => Truth(a > b)
    case Ge => Truth(a >= b)
  }

  lemma PairAt(ops: Ops, limit: nat, a: int, b: int)
    requires Arithmetic(ops, limit) && FitsSigned(a, 32) && FitsSigned(b, 32)
    ensures ComputesPair(ops, limit, a, b) && ComputesOne(ops, a)
  {
    hide FitsSigned, ComputesPair, ComputesOne;
  }

  /** The instruction chosen for an operator computes it. */
  lemma {:induction false} OperatorValue(ops: Ops, limit: nat, op: BinaryOp, a: int, b: int)
    requires Arithmetic(ops, limit) && !ShortCircuit(op) && FitsSigned(a, 32) && FitsSigned(b, 32)
    ensures BinaryValue(ops, BinaryOpCode(op), Int(a), Int(b)) == NumberOf(op, limit, a, b)
  {
    hide Sized, Quotient, Remainder, Pow2, Conjunction, Disjunction, Difference, FitsSigned, Arithmetic;
    PairAt(ops, limit, a, b);
  }

  // ----- e1 op e2 -----

  lemma {:induction false} NullIsNull(ops: Ops, e: Expr, s: Store)
    requires IsNullLiteral(e)
    ensures EvalExpr(ops, e, s) == Val(Null, s)
  {
    match e
    case Paren(inner) => NullIsNull(ops, inner, s);
    case _ =>
  }

  /** The two operands evaluate, left first, to integers of at most 32 bytes. */
  ghost predicate Operands(ops: Ops, left: Expr, right: Expr, s: Store, a: int, s1: Store, b: int, s2: Store) {
    && EvalExpr(ops, left, s) == Val(Int(a), s1) && EvalExpr(ops, right, s1) == Val(Int(b), s2)
    && FitsSigned(a, 32) && FitsSigned(b, 32)
  }

  /** In the source, an operator on integers is the mathematical one. */
  lemma {:induction false} OperatorMeans(ops: Ops, limit: nat, op: BinaryOp, left: Expr, right: Expr, s: Store, a: int, s1: Store, b: int, s2: Store)
    requires Arithmetic(ops, limit) && !ShortCircuit(op) && Operands(ops, left, right, s, a, s1, b, s2)
    ensures EvalExpr(ops, BinaryExpr(op, left, right), s) == Computed(NumberOf(op, limit, a, b), s2)
  {
    hide NumberOf, BinaryValue, BinaryOpCode, FitsSigned, Arithmetic;
    if IsNullLiteral(left) {
      NullIsNull(ops, left, s);
    }
    if IsNullLiteral(right) {
      NullIsNull(ops, right, s1);
    }
    OperatorValue(ops, limit, op, a, b);
  }

  /** Compiled, it leaves that number on the otherwise unchanged stack, or faults. */
  ghost predicate LeavesNumber(x: Machine, a: State, end: nat, d: Data, v: Option<Value>, d': Data) {
    if v.Some? then Leads(x, a, At(x, end, d'.Push(v.value))) && d'.stack == d.stack else Leads(x, a, Faulted)
  }

  lemma NumberLeft(x: Machine, a: State, env: Env, end: nat, d: Data, v: Option<Value>, s: Store, d': Data)
    requires CodegenExpr.Computes(x, a, env, end, d, Computed(v, s), d')
    ensures LeavesNumber(x, a, end, d, v, d') && (v.Some? ==> Mirrors(env, s, d'))
  {
    hide Leads, Mirrors;
  }

  lemma {:induction false} OperatorRuns(x: Machine, from: State, env: Env, limit: nat, op: BinaryOp, left: Expr, right: Expr, pc: nat, s: Store, d: Data,
                                        a: int, s1: Store, b: int, s2: Store) returns (d': Data)
    requires Arithmetic(x.ops, limit) && !ShortCircuit(op) && Operands(x.ops, left, right, s, a, s1, b, s2)
    requires ExprCode(env, BinaryExpr(op, left, right)).Ok?
    requires Ready(x, from, env, ExprCode(env, BinaryExpr(op, left, right)).value, pc, s, d)
    ensures LeavesNumber(x, from, pc + ByteLen(ExprCode(env, BinaryExpr(op, left, right)).value), d, NumberOf(op, limit, a, b), d')
  {
    hide *;
    var e := BinaryExpr(op, left, right);
    d' := ExprCorrect(x, from, env, e, pc, s, d);
    OperatorMeans(x.ops, limit, op, left, right, s, a, s1, b, s2);
    NumberLeft(x, from, env, pc + ByteLen(ExprCode(env, e).value), d, NumberOf(op, limit, a, b), s2, d');
  }

  // ----- x op= e -----

  /** Each compound assignment and its operator. */
  const COMPOUND: set<(AssignOp, BinaryOp)> := {
    (PlusAssign, Add), (MinusAssign, Sub), (StarAssign, Mul), (SlashAssign, Div), (PercentAssign, Mod),
    (ShrAssign, Shr), (ShlAssign, Shl), (AmpAssign, BitAnd), (PipeAssign, BitOr), (CaretAssign, BitXor)}

  lemma {:induction false} SameInstruction(aop: AssignOp, bop: BinaryOp)
    requires (aop, bop) in COMPOUND
    ensures AssignOpCode(aop) == BinaryOpCode(bop) && aop != Assign && !ShortCircuit(bop) && bop != Eq && bop != Ne
  {
  }

  /** One variable, one operand, one instruction on both, and the variable assigned. */
  function Assigned(ops: Ops, name: string, op: byte, e: Expr, s: Store): Eval {
    if Lookup(s, name).None? then EvalStuck
    else
      match EvalExpr(ops, e, s)
      case Val(b, s1) =>
        var v := BinaryValue(ops, op, Lookup(s, name).value, b);
        if v.Some? then Val(v.value, Update(s1, name, v.value)) else EvalFault
      case other => other
  }

  lemma {:induction false} CompoundUnfold(ops: Ops, name: string, aop: AssignOp, e: Expr, s: Store)
    requires aop != Assign
    ensures EvalExpr(ops, AssignExpr(Ident(name), aop, e), s) == Assigned(ops, name, AssignOpCode(aop), e, s)
  {
    hide Lookup, Update, BinaryValue, AssignOpCode;
  }

  lemma {:induction false} AssignUnfold(ops: Ops, name: string, bop: BinaryOp, e: Expr, s: Store)
    requires !ShortCircuit(bop) && bop != Eq && bop != Ne
    ensures EvalExpr(ops, AssignExpr(Ident(name), Assign, BinaryExpr(bop, Ident(name), e)), s) == Assigned(ops, name, BinaryOpCode(bop), e, s)
  {
    hide Lookup, Update, BinaryValue, BinaryOpCode;
    assert EvalExpr(ops, Ident(name), s) == if Lookup(s, name).Some? then Val(Lookup(s, name).value, s) else EvalStuck;
  }

  /** `x op= e` is `x = x op e`, for every expression, store and machine; every `op=` is listed. */
  lemma {:induction false} CompoundIsAssignment(ops: Ops, name: string, aop: AssignOp, bop: BinaryOp, e: Expr, s: Store)
    requires (aop, bop) in COMPOUND
    ensures EvalExpr(ops, AssignExpr(Ident(name), aop, e), s) ==
            EvalExpr(ops, AssignExpr(Ident(name), Assign, BinaryExpr(bop, Ident(name), e)), s)
  {
    hide *;
    SameInstruction(aop, bop);
    CompoundUnfold(ops, name, aop, e, s);
    AssignUnfold(ops, name, bop, e, s);
  }

  lemma EveryCompound(aop: AssignOp)
    requires aop != Assign
    ensures exists bop :: (aop, bop) in COMPOUND
  {
    match aop
    case PlusAssign => assert (aop, Add) in COMPOUND;
    case MinusAssign => assert (aop, Sub) in COMPOUND;
    case StarAssign => assert (aop, Mul) in COMPOUND;
    case SlashAssign => assert (aop, Div) in COMPOUND;
    case PercentAssign => assert (aop, Mod) in COMPOUND;
    case ShrAssign => assert (aop, Shr) in COMPOUND;
    case ShlAssign => assert (aop, Shl) in COMPOUND;
    case AmpAssign => assert (aop, BitAnd) in COMPOUND;
    case PipeAssign => assert (aop, BitOr) in COMPOUND;
    case CaretAssign => assert (aop, BitXor) in COMPOUND;
  }

  /** The compiled `x op= e` does what `x = x op e` means. */
  lemma {:induction false} CompoundRuns(x: Machine, a: State, env: Env, name: string, aop: AssignOp, bop: BinaryOp, e: Expr, pc: nat, s: Store, d: Data)
    returns (d': Data)
    requires (aop, bop) in COMPOUND && ExprCode(env, AssignExpr(Ident(name), aop, e)).Ok?
    requires Ready(x, a, env, ExprCode(env, AssignExpr(Ident(name), aop, e)).value, pc, s, d)
    ensures CodegenExpr.Computes(x, a, env, pc + ByteLen(ExprCode(env, AssignExpr(Ident(name), aop, e)).value), d,
                                 EvalExpr(x.ops, AssignExpr(Ident(name), Assign, BinaryExpr(bop, Ident(name), e)), s), d')
  {
    hide *;
    SameInstruction(aop, bop);
    d' := CompoundCorrect(x, a, env, AssignExpr(Ident(name), aop, e), pc, s, d);
    CompoundIsAssignment(x.ops, name, aop, bop, e, s);
  }

  lemma {:induction false} CompoundValue(ops: Ops, limit: nat, name: string, bop: BinaryOp, e: Expr, s: Store, a: int, b: int, s1: Store)
    requires Arithmetic(ops, limit) && !ShortCircuit(bop) && Lookup(s, name) == Some(Int(a)) && EvalExpr(ops, e, s) == Val(Int(b), s1)
    requires FitsSigned(a, 32) && FitsSigned(b, 32)
    ensures EvalExpr(ops, AssignExpr(Ident(name), Assign, BinaryExpr(bop, Ident(name), e)), s) ==
            match NumberOf(bop, limit, a, b)
            case Some(v) => Val(v, Update(s1, name, v))
            case None => EvalFault
  {
    hide NumberOf, Arithmetic, FitsSigned, BinaryOpCode, BinaryValue, Lookup, Update;
    assert EvalExpr(ops, Ident(name), s) == Val(Int(a), s);
    OperatorMeans(ops, limit, bop, Ident(name), e, s, a, s, b, s1);
  }

  /** Compiled, it leaves the number on the stack, and the variable has it. */
  lemma {:induction false} CompoundNumber(x: Machine, from: State, env: Env, limit: nat, name: string, aop: AssignOp, bop: BinaryOp, e: Expr, pc: nat,
                                          s: Store, d: Data, a: int, b: int, s1: Store) returns (d': Data)
    requires (aop, bop) in COMPOUND && ExprCode(env, AssignExpr(Ident(name), aop, e)).Ok?
    requires Ready(x, from, env, ExprCode(env, AssignExpr(Ident(name), aop, e)).value, pc, s, d)
    requires Arithmetic(x.ops, limit) && Lookup(s, name) == Some(Int(a)) && EvalExpr(x.ops, e, s) == Val(Int(b), s1)
    requires FitsSigned(a, 32) && FitsSigned(b, 32)
    ensures !ShortCircuit(bop)
    ensures var v := NumberOf(bop, limit, a, b);
            && LeavesNumber(x, from, pc + ByteLen(ExprCode(env, AssignExpr(Ident(name), aop, e)).value), d, v, d')
            && (v.Some? ==> Mirrors(env, Update(s1, name, v.value), d'))
  {
    hide *;
    SameInstruction(aop, bop);
    d' := CompoundRuns(x, from, env, name, aop, bop, e, pc, s, d);
    CompoundValue(x.ops, limit, name, bop, e, s, a, b, s1);
    var v, end := NumberOf(bop, limit, a, b), pc + ByteLen(ExprCode(env, AssignExpr(Ident(name), aop, e)).value);
    ComputedIs(v, Update(s1, name, if v.Some? then v.value else Null));
    NumberLeft(x, from, env, end, d, v, Update(s1, name, if v.Some? then v.value else Null), d');
  }

  lemma ComputedIs(v: Option<Value>, s: Store)
    ensures Computed(v, s) == match v case Some(w) => Val(w, s) case None => EvalFault
  {
  }

  // ----- e == null, and truth -----

  /** `null` inside any number of parentheses. */
  function NullIn(parens: nat): Expr { if parens == 0 then LiteralExpr(NullLiteral) else Paren(NullIn(parens - 1)) }

  lemma {:induction false} NullInIsNull(parens: nat)
    ensures IsNullLiteral(NullIn(parens))
  {
    if parens > 0 {
      NullInIsNull(parens - 1);
    }
  }

  /** Comparing with null is a test for null on every machine, on either side and in any parentheses. */
  lemma {:induction false} NullCompared(ops: Ops, op: BinaryOp, e: Expr, parens: nat, s: Store, v: Value, s1: Store)
    requires (op == Eq || op == Ne) && EvalExpr(ops, e, s) == Val(v, s1)
    ensures EvalExpr(ops, BinaryExpr(op, e, NullIn(parens)), s) == Val(Bool(if op == Eq then v == Null else v != Null), s1)
    ensures EvalExpr(ops, BinaryExpr(op, NullIn(parens), e), s) == Val(Bool(if op == Eq then v == Null else v != Null), s1)
  {
    hide EvalExpr, NullIn;
    NullInIsNull(parens);
    if IsNullLiteral(e) {
      NullIsNull(ops, NullIn(parens), s);
      NullIsNull(ops, e, s);
    }
    NullTest(ops, op, e, NullIn(parens), s);
    NullTest(ops, op, NullIn(parens), e, s);
  }

  lemma {:induction false} NullTest(ops: Ops, op: BinaryOp, left: Expr, right: Expr, s: Store)
    requires (op == Eq || op == Ne) && (IsNullLiteral(left) || IsNullLiteral(right))
    ensures EvalExpr(ops, BinaryExpr(op, left, right), s) ==
            match EvalExpr(ops, if IsNullLiteral(left) then right else left, s)
            case Val(v, s1) => Val(Bool((v == Null) == (op == Eq)), s1)
            case other => other
  {
    hide IsNullLiteral;
  }

  /** False, null and zero, in whatever form. */
  predicate Falsy(v: Value) {
    || v == Null || v == Bool(false) || v == Int(0)
    || (v.Bytes? && forall k :: 0 <= k < |v.data| ==> v.data[k] == 0)
  }

  /** `!e` is true of exactly these values. */
  lemma {:induction false} NotMeans(ops: Ops, e: Expr, s: Store, v: Value, s1: Store)
    requires EvalExpr(ops, e, s) == Val(v, s1)
    ensures EvalExpr(ops, UnaryExpr(Not, e), s) == Val(Bool(Falsy(v)), s1)
    ensures Truthy(v) <==> !Falsy(v)
  {
    TruthIs(v);
  }

  lemma {:induction false} TruthIs(v: Value)
    ensures Truthy(v) <==> !Falsy(v)
  {
  }

  // ----- op e -----

  function SignedNumber(op: UnaryOp, a: int): Option<Value> {
    match op
    case Positive => Some(Int(a))
    case Negative => Sized(-a)
    case BitNot => Sized(-a - 1)
    case Not => Truth(a == 0)
  }

  lemma {:induction false} UnaryValue(ops: Ops, limit: nat, op: UnaryOp, a: int)
    requires Arithmetic(ops, limit) && FitsSigned(a, 32)
    ensures UnaryMeaning(ops, op, Int(a)) == SignedNumber(op, a)
  {
    hide Sized, FitsSigned;
    PairAt(ops, limit, a, a);
  }

  lemma {:induction false} UnaryRuns(x: Machine, from: State, env: Env, limit: nat, op: UnaryOp, operand: Expr, pc: nat, s: Store, d: Data, a: int, s1: Store)
    returns (d': Data)
    requires Arithmetic(x.ops, limit) && EvalExpr(x.ops, operand, s) == Val(Int(a), s1) && FitsSigned(a, 32)
    requires ExprCode(env, UnaryExpr(op, operand)).Ok? && Ready(x, from, env, ExprCode(env, UnaryExpr(op, operand)).value, pc, s, d)
    ensures EvalExpr(x.ops, UnaryExpr(op, operand), s) == Computed(SignedNumber(op, a), s1)
    ensures LeavesNumber(x, from, pc + ByteLen(ExprCode(env, UnaryExpr(op, operand)).value), d, SignedNumber(op, a), d')
  {
    hide *;
    var e := UnaryExpr(op, operand);
    d' := ExprCorrect(x, from, env, e, pc, s, d);
    UnaryValue(x.ops, limit, op, a);
    UnaryUnfold(x.ops, op, operand, s, Int(a), s1);
    NumberLeft(x, from, env, pc + ByteLen(ExprCode(env, e).value), d, SignedNumber(op, a), s1, d');
  }

  lemma {:induction false} UnaryUnfold(ops: Ops, op: UnaryOp, operand: Expr, s: Store, v: Value, s1: Store)
    requires EvalExpr(ops, operand, s) == Val(v, s1)
    ensures EvalExpr(ops, UnaryExpr(op, operand), s) == Computed(UnaryMeaning(ops, op, v), s1)
  {
    hide UnaryMeaning, Computed;
  }

  // ----- e as T -----

  /** What a cast to `ty` gives, for the types and values on which the conversion is known. */
  function CastTo(ty: Type, v: Value): Option<Option<Value>> {
    match ty
    case BoolType => if v.Null? || v.Bytes? then None else Some(Truth(Truthy(v)))
    case IntType => if v.Null? || v.Array? then None else Some(AsInteger(v))
    case StringType => if v.Bytes? then Some(Some(v)) else None
    case Hash160Type => if v.Bytes? then Some(Some(v)) else None
    case Hash256Type => if v.Bytes? then Some(Some(v)) else None
    case BufferType => if v.Bytes? then Some(Some(v)) else None
    case ArrayType(_) => if v.Array? then Some(Some(v)) else None
    case _ => None
  }

  /** Type operand of CONVERT, by number; no cast to `any`, `void` or a struct. */
  function TypeByte(ty: Type): Option<byte> {
    match ty
    case BoolType => Some(0x20)
    case IntType => Some(0x21)
    case StringType => Some(0x28)
    case Hash160Type => Some(0x28)
    case Hash256Type => Some(0x28)
    case BufferType => Some(0x30)
    case ArrayType(_) => Some(0x40)
    case MapType(_, _) => Some(0x48)
    case VoidType => None
    case AnyType => None
    case NamedType(_) => None
  }

  /** A cast is the conversion of its type's number, and compiles exactly when the type has one. */
  lemma {:induction false} CastMeans(ops: Ops, env: Env, e: Expr, ty: Type, s: Store, v: Value, s1: Store)
    requires EvalExpr(ops, e, s) == Val(v, s1)
    ensures EvalExpr(ops, Cast(e, ty), s) ==
            match TypeByte(ty)
            case Some(n) => Computed(ops.unary(Instruction(0xDB, [n]), v), s1)
            case None => EvalStuck
    ensures ExprCode(env, Cast(e, ty)).Ok? <==> TypeByte(ty).Some? && ExprCode(env, e).Ok?
    ensures Conversions(ops) && CastTo(ty, v).Some? ==> EvalExpr(ops, Cast(e, ty), s) == Computed(CastTo(ty, v).value, s1)
  {
    hide Truthy, AsInteger;
    assert Conversions(ops) ==> Converts(ops, v);
  }

  lemma {:induction false} CastRuns(x: Machine, from: State, env: Env, e: Expr, ty: Type, pc: nat, s: Store, d: Data, v: Value, s1: Store) returns (d': Data)
    requires Conversions(x.ops) && EvalExpr(x.ops, e, s) == Val(v, s1) && CastTo(ty, v).Some?
    requires ExprCode(env, Cast(e, ty)).Ok? && Ready(x, from, env, ExprCode(env, Cast(e, ty)).value, pc, s, d)
    ensures LeavesNumber(x, from, pc + ByteLen(ExprCode(env, Cast(e, ty)).value), d, CastTo(ty, v).value, d')
  {
    hide *;
    d' := ExprCorrect(x, from, env, Cast(e, ty), pc, s, d);
    CastMeans(x.ops, env, e, ty, s, v, s1);
    NumberLeft(x, from, env, pc + ByteLen(ExprCode(env, Cast(e, ty)).value), d, CastTo(ty, v).value, s1, d');
  }
}
