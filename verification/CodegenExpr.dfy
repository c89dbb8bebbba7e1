/**
 * Compiled expressions compute what the expressions mean: for each form of expression, its code
 * run from its first byte pushes the value of the expression on an otherwise unchanged stack.
 */
module CodegenExpr {
  import opened Prelude
  import opened Bytecode
  import opened Disasm
  import opened Vm
  import opened Ast
  import opened Semantics
  import opened CodegenSpec
  import opened CodegenSteps

  /** The machine came from `a` to the start of `code`, which something follows, mirroring `s`. */
  ghost predicate Ready(x: Machine, a: State, env: Env, code: Code, pc: nat, s: Store, d: Data) {
    && Leads(x, a, At(x, pc, d)) && CodeAt(x.script, pc, code) && pc + ByteLen(code) < |x.script|
    && EnvOk(env) && Mirrors(env, s, d)
  }

  /** The code ends with the value on top of the otherwise unchanged stack, or faults with the source. */
  ghost predicate Computes(x: Machine, a: State, env: Env, end: nat, d: Data, r: Eval, d': Data) {
    match r
    case Val(v, s1) =>
      Leads(x, a, At(x, end, d'.Push(v))) && Mirrors(env, s1, d') && Frames(env, |d.locals|, d, d')
    case EvalFault => Leads(x, a, Faulted)
    case EvalStuck => true
  }

  lemma MakeReady(x: Machine, a: State, env: Env, code: Code, pc: nat, s: Store, d: Data)
    requires Leads(x, a, At(x, pc, d)) && CodeAt(x.script, pc, code) && pc + ByteLen(code) < |x.script|
    requires EnvOk(env) && Mirrors(env, s, d)
    ensures Ready(x, a, env, code, pc, s, d)
  {
  }

  lemma ReadyMeans(x: Machine, a: State, env: Env, code: Code, pc: nat, s: Store, d: Data)
    requires Ready(x, a, env, code, pc, s, d)
    ensures EnvOk(env) && Mirrors(env, s, d) && Leads(x, a, At(x, pc, d))
    ensures CodeAt(x.script, pc, code) && pc + ByteLen(code) < |x.script|
  {
  }

  lemma ValMeans(x: Machine, a: State, env: Env, end: nat, d: Data, v: Value, s1: Store, d': Data)
    requires Computes(x, a, env, end, d, Val(v, s1), d')
    ensures Leads(x, a, At(x, end, d'.Push(v))) && Mirrors(env, s1, d') && Frames(env, |d.locals|, d, d')
    ensures d'.stack == d.stack && |d'.locals| == |d.locals|
    ensures d'.Push(v).(stack := d'.stack) == d'
  {
  }

  lemma SplitReady(x: Machine, a: State, env: Env, front: Code, rest: Code, pc: nat, s: Store, d: Data)
    requires Ready(x, a, env, front + rest, pc, s, d) && rest != []
    ensures Ready(x, a, env, front, pc, s, d) && CodeAt(x.script, pc + ByteLen(front), rest)
    ensures ByteLen(front + rest) == ByteLen(front) + ByteLen(rest)
  {
    hide CodeAt, Leads, Mirrors, EnvOk;
    CodeAtSplit(x.script, pc, front, rest);
    ByteLenAppend(front, rest);
  }

  /** Two pieces of code with a jump after each: where everything stands. */
  lemma FivePieces(x: Machine, a: State, env: Env, first: Code, jump: Instruction, second: Code, jump2: Instruction, rest: Code, pc: nat, s: Store, d: Data)
    requires Ready(x, a, env, first + ([jump] + (second + ([jump2] + rest))), pc, s, d)
    requires |jump.operands| == 4 && |jump2.operands| == 4
    ensures Ready(x, a, env, first, pc, s, d)
    ensures var pc1 := pc + ByteLen(first);
            var pc2 := pc1 + 5 + ByteLen(second);
            && CodeAt(x.script, pc1, [jump] + (second + ([jump2] + rest))) && CodeAt(x.script, pc1 + 5, second)
            && CodeAt(x.script, pc2, [jump2] + rest) && CodeAt(x.script, pc2 + 5, rest)
            && pc + ByteLen(first + ([jump] + (second + ([jump2] + rest)))) == pc2 + 5 + ByteLen(rest) < |x.script|
  {
    hide CodeAt, Mirrors, EnvOk, Leads, ByteLen;
    var tail := [jump2] + rest;
    SplitReady(x, a, env, first, [jump] + (second + tail), pc, s, d);
    var pc1 := pc + ByteLen(first);
    PeelCode(x, jump, second + tail, pc1);
    CodeAtSplit(x.script, pc1 + 5, second, tail);
    ByteLenAppend(second, tail);
    PeelCode(x, jump2, rest, pc1 + 5 + ByteLen(second));
  }

  lemma FramesTrans(env: Env, bound: nat, d0: Data, d1: Data, d2: Data)
    requires Frames(env, bound, d0, d1) && Frames(env, bound, d1, d2)
    ensures Frames(env, bound, d0, d2)
  {
  }

  lemma {:induction false} ExprCorrect(x: Machine, a: State, env: Env, e: Expr, pc: nat, s: Store, d: Data)
    returns (d': Data)
    requires ExprCode(env, e).Ok? && Ready(x, a, env, ExprCode(env, e).value, pc, s, d)
    ensures Computes(x, a, env, pc + ByteLen(ExprCode(env, e).value), d, EvalExpr(x.ops, e, s), d')
    decreases e, 5
  {
    hide *;
    match e {
      case LiteralExpr(_) => d' := LeafCorrect(x, a, env, e, pc, s, d);
      case Ident(_) => d' := LeafCorrect(x, a, env, e, pc, s, d);
      case SelfExpr => d' := LeafCorrect(x, a, env, e, pc, s, d);
      case Paren(_) => d' := OneOperandCorrect(x, a, env, e, pc, s, d);
      case Cast(_, _) => d' := OneOperandCorrect(x, a, env, e, pc, s, d);
      case UnaryExpr(_, _) => d' := OneOperandCorrect(x, a, env, e, pc, s, d);
      case BinaryExpr(op, left, right) =>
        if op == And {
          d' := AndCorrect(x, a, env, e, pc, s, d);
        } else if op == Or {
          d' := OrCorrect(x, a, env, e, pc, s, d);
        } else if IsNullTest(e) {
          d' := NullTestCorrect(x, a, env, e, pc, s, d);
        } else {
          d' := TwoOperandsCorrect(x, a, env, e, pc, s, d);
        }
      case Index(_, _) => d' := TwoOperandsCorrect(x, a, env, e, pc, s, d);
      case AssignExpr(target, aop, _) =>
        if !target.Ident? {
          NotCompiled(env, e);
        } else if aop == Assign {
          d' := AssignCorrect(x, a, env, e, pc, s, d);
        } else {
          d' := CompoundCorrect(x, a, env, e, pc, s, d);
        }
      case _ => NotCompiled(env, e);
    }
  }

  ghost predicate IsNullTest(e: Expr) {
    e.BinaryExpr? && (e.bop == Eq || e.bop == Ne) && (IsNullLiteral(e.left) || IsNullLiteral(e.right))
  }

  lemma {:induction false} NotCompiled(env: Env, e: Expr)
    requires e.Member? || e.Call? || e.StructLit? || e.MapLit? || e.ArrayLit? || (e.AssignExpr? && !e.target.Ident?)
    ensures ExprCode(env, e).Err?
  {
  }

  lemma {:induction false} LeafCorrect(x: Machine, a: State, env: Env, e: Expr, pc: nat, s: Store, d: Data) returns (d': Data)
    requires e.LiteralExpr? || e.Ident? || e.SelfExpr?
    requires ExprCode(env, e).Ok? && Ready(x, a, env, ExprCode(env, e).value, pc, s, d)
    ensures Computes(x, a, env, pc + ByteLen(ExprCode(env, e).value), d, EvalExpr(x.ops, e, s), d')
  {
    hide LiteralCode, LiteralValue, VariableCode, Lookup, ByteLen, Ready, Computes;
    d' := d;
    match e
    case LiteralExpr(lit) => LiteralCorrect(x, a, env, lit, pc, s, d);
    case Ident(name) => VariableCorrect(x, a, env, name, pc, s, d);
    case SelfExpr => VariableCorrect(x, a, env, "self", pc, s, d);
  }

  lemma {:induction false} OneOperandCorrect(x: Machine, a: State, env: Env, e: Expr, pc: nat, s: Store, d: Data)
    returns (d': Data)
    requires e.Paren? || e.Cast? || e.UnaryExpr?
    requires ExprCode(env, e).Ok? && Ready(x, a, env, ExprCode(env, e).value, pc, s, d)
    ensures Computes(x, a, env, pc + ByteLen(ExprCode(env, e).value), d, EvalExpr(x.ops, e, s), d')
    decreases e, 3
  {
    hide Ready, Computes, ByteLen, CodeAt, Unary;
    ByteLenNone();
    match e
    case Paren(inner) => d' := ExprCorrect(x, a, env, inner, pc, s, d);
    case Cast(inner, ty) =>
      var i := Instruction(CONVERT, [StackItemType(ty).value]);
      assert [i] + [] == [i];
      d' := ThenUnary(x, a, env, inner, i, [], pc, s, d);
      ConvertMeans(x.ops, i);
    case UnaryExpr(op, operand) =>
      if op == Positive {
        d' := ExprCorrect(x, a, env, operand, pc, s, d);
        PositiveMeans(x.ops, operand, s);
      } else {
        var i := Op(UnaryOpCode(op));
        assert [i] + [] == [i];
        UnaryMeans(x.ops, op, i);
        d' := ThenUnary(x, a, env, operand, i, [], pc, s, d);
      }
  }

  lemma {:induction false} PositiveMeans(ops: Ops, operand: Expr, s: Store)
    ensures EvalExpr(ops, UnaryExpr(Positive, operand), s) == EvalExpr(ops, operand, s)
  {
  }

  lemma ConvertMeans(ops: Ops, i: Instruction)
    requires i.opcode == CONVERT
    ensures forall v :: Unary(ops, i, v) == ops.unary(i, v)
  {
  }

  lemma {:induction false} TwoOperandsCorrect(x: Machine, a: State, env: Env, e: Expr, pc: nat, s: Store, d: Data)
    returns (d': Data)
    requires e.Index? || (e.BinaryExpr? && e.bop != And && e.bop != Or && !IsNullTest(e))
    requires ExprCode(env, e).Ok? && Ready(x, a, env, ExprCode(env, e).value, pc, s, d)
    ensures Computes(x, a, env, pc + ByteLen(ExprCode(env, e).value), d, EvalExpr(x.ops, e, s), d')
    decreases e, 4
  {
    hide Ready, Computes, ByteLen, CodeAt, Binary, ExprCode, EvalExpr;
    var op := if e.Index? then PICKITEM else BinaryOpCode(e.bop);
    var left, right := if e.Index? then e.base else e.left, if e.Index? then e.index else e.right;
    TwoOperandsShape(x.ops, env, e, left, right, op, s);
    d' := OperatorCorrect(x, a, env, e, left, right, op, pc, s, d);
  }

  lemma {:induction false} TwoOperandsShape(ops: Ops, env: Env, e: Expr, left: Expr, right: Expr, op: byte, s: Store)
    requires e.Index? || (e.BinaryExpr? && e.bop != And && e.bop != Or && !IsNullTest(e))
    requires op == if e.Index? then PICKITEM else BinaryOpCode(e.bop)
    requires left == (if e.Index? then e.base else e.left) && right == if e.Index? then e.index else e.right
    requires ExprCode(env, e).Ok?
    ensures left < e && right < e && (IsBinary(op) || op == PICKITEM)
    ensures ExprCode(env, left).Ok? && ExprCode(env, right).Ok?
    ensures ExprCode(env, e).value == ExprCode(env, left).value + (ExprCode(env, right).value + [Op(op)])
    ensures EvalExpr(ops, e, s) ==
            match EvalExpr(ops, left, s)
            case Val(u, s1) =>
              (match EvalExpr(ops, right, s1)
               case Val(v, s2) => Computed(Binary(ops, Op(op), u, v), s2)
               case other => other)
            case other => other
  {
    hide Computed, BinaryValue;
    if e.BinaryExpr? {
      BinaryMeans(ops, op);
    }
  }

  lemma LiteralCorrect(x: Machine, a: State, env: Env, lit: Literal, pc: nat, s: Store, d: Data)
    requires LiteralCode(lit).Ok? && Ready(x, a, env, [LiteralCode(lit).value], pc, s, d)
    ensures LiteralValue(lit).Some?
    ensures Computes(x, a, env, pc + ByteLen([LiteralCode(lit).value]), d, Val(LiteralValue(lit).value, s), d)
  {
    hide CodeAt, Mirrors, EnvOk, ExecData, WellFormed, Leads, LiteralCode, LiteralValue;
    var i := LiteralCode(lit).value;
    assert [i] == [i] + [];
    ExecLiteral(x.ops, lit, d);
    DataStep(x, a, i, [], pc, d);
    ByteLenOne(i);
  }

  lemma UnaryMeans(ops: Ops, op: UnaryOp, i: Instruction)
    requires op != Positive && i == Op(UnaryOpCode(op))
    ensures forall v :: Unary(ops, i, v) == UnaryMeaning(ops, op, v)
    ensures WellFormed(i) && (IsUnary(i.opcode) || i.opcode == NOT)
  {
  }

  lemma BinaryMeans(ops: Ops, op: byte)
    requires IsBinary(op)
    ensures forall a, b :: Binary(ops, Op(op), a, b) == BinaryValue(ops, op, a, b)
  {
  }

  lemma VariableCorrect(x: Machine, a: State, env: Env, name: string, pc: nat, s: Store, d: Data)
    requires VariableCode(env, name, false).Ok? && Ready(x, a, env, [VariableCode(env, name, false).value], pc, s, d)
    ensures Lookup(s, name).Some?
    ensures Computes(x, a, env, pc + ByteLen([VariableCode(env, name, false).value]), d, Val(Lookup(s, name).value, s), d)
  {
    hide CodeAt, Mirrors, EnvOk, ExecData, WellFormed, Leads, Lookup, VariableCode;
    var i := VariableCode(env, name, false).value;
    assert [i] == [i] + [];
    ExecLoad(x.ops, env, name, s, d);
    DataStep(x, a, i, [], pc, d);
    ByteLenOne(i);
  }

  /** An operand, one instruction on its value, then `rest`. */
  lemma {:induction false} ThenUnary(x: Machine, a: State, env: Env, e: Expr, i: Instruction, rest: Code, pc: nat, s: Store, d: Data)
    returns (d': Data)
    requires ExprCode(env, e).Ok? && Ready(x, a, env, ExprCode(env, e).value + ([i] + rest), pc, s, d)
    requires WellFormed(i) && (IsUnary(i.opcode) || i.opcode == ISNULL || i.opcode == NOT)
    ensures var r := match EvalExpr(x.ops, e, s)
                     case Val(v, s1) => Computed(Unary(x.ops, i, v), s1)
                     case other => other;
            var code := ExprCode(env, e).value;
            && Computes(x, a, env, pc + ByteLen(code) + EncodedLen(i), d, r, d')
            && CodeAt(x.script, pc + ByteLen(code) + EncodedLen(i), rest)
            && ByteLen(code + ([i] + rest)) == ByteLen(code) + EncodedLen(i) + ByteLen(rest)
    decreases e, 6
  {
    hide CodeAt, Mirrors, EnvOk, ExecData, WellFormed, Leads, Unary, ByteLen, Frames, ExprCode, EvalExpr, Ready;
    var code := ExprCode(env, e).value;
    SplitReady(x, a, env, code, [i] + rest, pc, s, d);
    d' := ExprCorrect(x, a, env, e, pc, s, d);
    PeelCode(x, i, rest, pc + ByteLen(code));
    match EvalExpr(x.ops, e, s)
    case Val(v, s1) =>
      ExecUnary(x.ops, i, d'.Push(v));
      DataStep(x, a, i, rest, pc + ByteLen(code), d'.Push(v));
      if Unary(x.ops, i, v).Some? {
        assert d'.Push(v).(stack := Cons(Unary(x.ops, i, v).value, d'.stack)) == d'.Push(Unary(x.ops, i, v).value);
      }
    case _ =>
  }

  lemma NotStep(x: Machine, a: State, pc: nat, b: bool, d: Data)
    requires Leads(x, a, At(x, pc, d.Push(Bool(b)))) && CodeAt(x.script, pc, [Op(NOT)])
    ensures Leads(x, a, At(x, pc + 1, d.Push(Bool(!b))))
  {
    hide CodeAt, Leads, ExecData;
    assert [Op(NOT)] == [Op(NOT)] + [];
    ExecUnary(x.ops, Op(NOT), d.Push(Bool(b)));
    DataStep(x, a, Op(NOT), [], pc, d.Push(Bool(b)));
    assert d.Push(Bool(b)).(stack := Cons(Bool(!b), d.stack)) == d.Push(Bool(!b));
  }

  lemma NotSize()
    ensures ByteLen([Op(NOT)]) == 1 && [Op(NOT)] + [] == [Op(NOT)] && EncodedLen(Op(ISNULL)) == 1 && WellFormed(Op(ISNULL)) && Op(ISNULL).opcode == ISNULL
    ensures ByteLen([]) == 0
  {
    ByteLenOne(Op(NOT));
    ByteLenNone();
  }

  lemma IsNullIs(ops: Ops, v: Value)
    ensures Unary(ops, Op(ISNULL), v) == Some(Bool(v == Null))
  {
  }

  lemma {:induction false} NullTestCorrect(x: Machine, a: State, env: Env, e: Expr, pc: nat, s: Store, d: Data)
    returns (d': Data)
    requires IsNullTest(e)
    requires ExprCode(env, e).Ok? && Ready(x, a, env, ExprCode(env, e).value, pc, s, d)
    ensures Computes(x, a, env, pc + ByteLen(ExprCode(env, e).value), d, EvalExpr(x.ops, e, s), d')
    decreases e, 3
  {
    hide CodeAt, Mirrors, EnvOk, ExecData, Leads, ByteLen, Frames, EvalExpr, ExprCode, Ready, Computes, Unary, WellFormed;
    var operand := if IsNullLiteral(e.left) then e.right else e.left;
    var isNe := e.bop == Ne;
    var rest := if isNe then [Op(NOT)] + [] else [];
    NullTestShape(x.ops, env, e, s);
    NotSize();
    var code := ExprCode(env, operand).value;
    d' := ThenUnary(x, a, env, operand, Op(ISNULL), rest, pc, s, d);
    var r, at := EvalExpr(x.ops, operand, s), pc + ByteLen(code) + 1;
    if r.Val? {
      IsNullIs(x.ops, r.v);
      ValMeans(x, a, env, at, d, Bool(r.v == Null), r.store, d');
      if isNe {
        NotStep(x, a, at, r.v == Null, d');
        MakeVal(x, a, env, at + 1, d, Bool(r.v != Null), r.store, d');
      }
    } else {
      NoComputes(x, a, env, at, pc + ByteLen(ExprCode(env, e).value), d, r, d');
    }
  }

  lemma {:induction false} NullTestShape(ops: Ops, env: Env, e: Expr, s: Store)
    requires IsNullTest(e) && ExprCode(env, e).Ok?
    ensures var operand := if IsNullLiteral(e.left) then e.right else e.left;
            && ExprCode(env, operand).Ok?
            && ExprCode(env, e).value ==
               ExprCode(env, operand).value + ([Op(ISNULL)] + if e.bop == Ne then [Op(NOT)] + [] else [])
            && EvalExpr(ops, e, s) ==
               match EvalExpr(ops, operand, s)
               case Val(v, s1) => Val(Bool((v == Null) == (e.bop == Eq)), s1)
               case other => other
  {
    assert [Op(NOT)] == [Op(NOT)] + [];
  }

  lemma Restack(env: Env, s: Store, u: Value, d: Data, d1: Data) returns (d': Data)
    requires Mirrors(env, s, d1) && Frames(env, |d.locals|, d.Push(u), d1)
    ensures d' == d1.(stack := d.stack)
    ensures Mirrors(env, s, d') && Frames(env, |d.locals|, d, d')
  {
    d' := d1.(stack := d.stack);
  }

  /** With `u` already pushed: an operand, one instruction on both, then `rest`. */
  lemma {:induction false} RightOperand(x: Machine, a: State, env: Env, u: Value, e: Expr, op: byte, rest: Code, pc: nat, s: Store, d: Data)
    returns (d': Data)
    requires ExprCode(env, e).Ok? && (IsBinary(op) || op == PICKITEM)
    requires Ready(x, a, env, ExprCode(env, e).value + ([Op(op)] + rest), pc, s, d.Push(u))
    ensures var r := match EvalExpr(x.ops, e, s)
                     case Val(v, s1) => Computed(Binary(x.ops, Op(op), u, v), s1)
                     case other => other;
            var code := ExprCode(env, e).value;
            && Computes(x, a, env, pc + ByteLen(code) + 1, d, r, d')
            && CodeAt(x.script, pc + ByteLen(code) + 1, rest)
            && ByteLen(code + ([Op(op)] + rest)) == ByteLen(code) + 1 + ByteLen(rest)
    decreases e, 6
  {
    hide CodeAt, Mirrors, EnvOk, ExecData, Leads, Binary, ByteLen, Frames, ExprCode, EvalExpr, Ready;
    var code := ExprCode(env, e).value;
    SplitReady(x, a, env, code, [Op(op)] + rest, pc, s, d.Push(u));
    var d1 := ExprCorrect(x, a, env, e, pc, s, d.Push(u));
    PeelCode(x, Op(op), rest, pc + ByteLen(code));
    d' := d1;
    match EvalExpr(x.ops, e, s)
    case Val(v, s1) =>
      d' := Restack(env, s1, u, d, d1);
      assert d1.stack == Cons(u, d.stack) by { FramesStack(env, d.Push(u), d1); }
      ExecBinary(x.ops, op, d1.Push(v));
      DataStep(x, a, Op(op), rest, pc + ByteLen(code), d1.Push(v));
    case _ =>
  }

  lemma FramesStack(env: Env, d: Data, d1: Data)
    requires Frames(env, |d.locals|, d, d1)
    ensures d1.stack == d.stack && |d1.locals| == |d.locals|
  {
  }

  lemma PushedReady(env: Env, s: Store, u: Value, d: Data)
    requires Mirrors(env, s, d)
    ensures Mirrors(env, s, d.Push(u))
  {
  }

  /** Two operands, then one instruction. */
  lemma {:induction false} OperatorCorrect(x: Machine, a: State, env: Env, e: Expr, left: Expr, right: Expr, op: byte, pc: nat, s: Store, d: Data)
    returns (d': Data)
    requires left < e && right < e
    requires ExprCode(env, left).Ok? && ExprCode(env, right).Ok? && (IsBinary(op) || op == PICKITEM)
    requires Ready(x, a, env, ExprCode(env, left).value + (ExprCode(env, right).value + [Op(op)]), pc, s, d)
    ensures var r := match EvalExpr(x.ops, left, s)
                     case Val(u, s1) =>
                       (match EvalExpr(x.ops, right, s1)
                        case Val(v, s2) => Computed(Binary(x.ops, Op(op), u, v), s2)
                        case other => other)
                     case other => other;
            Computes(x, a, env, pc + ByteLen(ExprCode(env, left).value + (ExprCode(env, right).value + [Op(op)])), d, r, d')
    decreases e, 3
  {
    hide CodeAt, Mirrors, EnvOk, ExecData, WellFormed, Leads, Binary, ByteLen, Frames, Ready, Computes, ExprCode, EvalExpr;
    var l, r := ExprCode(env, left).value, ExprCode(env, right).value;
    var all := l + (r + [Op(op)]);
    ReadyMeans(x, a, env, all, pc, s, d);
    SplitReady(x, a, env, l, r + [Op(op)], pc, s, d);
    var d1 := ExprCorrect(x, a, env, left, pc, s, d);
    d' := d1;
    var pc1, end := pc + ByteLen(l), pc + ByteLen(all);
    match EvalExpr(x.ops, left, s)
    case Val(u, s1) =>
      ValMeans(x, a, env, pc1, d, u, s1, d1);
      PushedReady(env, s1, u, d1);
      assert [Op(op)] == [Op(op)] + [];
      MakeReady(x, a, env, r + ([Op(op)] + []), pc1, s1, d1.Push(u));
      d' := RightOperand(x, a, env, u, right, op, [], pc1, s1, d1);
      ByteLenNone();
      var result := match EvalExpr(x.ops, right, s1)
                    case Val(v, s2) => Computed(Binary(x.ops, Op(op), u, v), s2)
                    case other => other;
      if result.Val? {
        ValMeans(x, a, env, end, d1, result.v, result.store, d');
      }
      ExtendComputes(x, a, env, end, end, d, d1, result, d');
    case _ => NoComputes(x, a, env, pc1, end, d, EvalExpr(x.ops, left, s), d1);
  }

  /** Layout and meaning of a short-circuit operator. */
  lemma {:induction false} AndShape(ops: Ops, env: Env, e: Expr, s: Store)
    requires e.BinaryExpr? && e.bop == And && ExprCode(env, e).Ok?
    ensures ExprCode(env, e.left).Ok? && ExprCode(env, e.right).Ok?
    ensures var l, r := ExprCode(env, e.left).value, ExprCode(env, e.right).value;
            && FitsI32(5 + ByteLen(r) + 5)
            && ExprCode(env, e).value == l + ([LongJump(JMPIFNOT_L, 5 + ByteLen(r) + 5)] + (r + ([LongJump(JMP_L, 6)] + [Op(PUSHF)])))
    ensures EvalExpr(ops, e, s) ==
            match EvalExpr(ops, e.left, s)
            case Val(u, s1) => if Truthy(u) then EvalExpr(ops, e.right, s1) else Val(Bool(false), s1)
            case other => other
  {
    hide ToLe, Truthy, ByteLen;
  }

  lemma {:induction false} OrShape(ops: Ops, env: Env, e: Expr, s: Store)
    requires e.BinaryExpr? && e.bop == Or && ExprCode(env, e).Ok?
    ensures ExprCode(env, e.left).Ok? && ExprCode(env, e.right).Ok?
    ensures var l, r := ExprCode(env, e.left).value, ExprCode(env, e.right).value;
            && FitsI32(6 + ByteLen(r))
            && ExprCode(env, e).value == l + ([Op(DUP)] + ([LongJump(JMPIF_L, 6 + ByteLen(r))] + ([Op(DROP)] + r)))
    ensures EvalExpr(ops, e, s) ==
            match EvalExpr(ops, e.left, s)
            case Val(u, s1) => if Truthy(u) then Val(u, s1) else EvalExpr(ops, e.right, s1)
            case other => other
  {
    hide ToLe, Truthy, ByteLen;
  }

  /** The right operand of `&&`, and the jump over the PUSHF after it. */
  lemma {:induction false} AndRight(x: Machine, a: State, env: Env, right: Expr, pc: nat, s: Store, d: Data, d1: Data)
    returns (d': Data)
    requires ExprCode(env, right).Ok? && Ready(x, a, env, ExprCode(env, right).value, pc, s, d1) && Frames(env, |d.locals|, d, d1)
    requires CodeAt(x.script, pc + ByteLen(ExprCode(env, right).value), [LongJump(JMP_L, 6)] + [Op(PUSHF)])
    requires pc + ByteLen(ExprCode(env, right).value) + 6 < |x.script|
    ensures Computes(x, a, env, pc + ByteLen(ExprCode(env, right).value) + 6, d, EvalExpr(x.ops, right, s), d')
    decreases right, 6
  {
    hide *;
    var end := pc + ByteLen(ExprCode(env, right).value);
    d' := ExprCorrect(x, a, env, right, pc, s, d1);
    var r := EvalExpr(x.ops, right, s);
    if r.Val? {
      ValMeans(x, a, env, end, d1, r.v, r.store, d');
      assert IsLongJump(LongJump(JMP_L, 6), JMP_L, 6) by { ShortForward(); }
      JumpStep(x, a, LongJump(JMP_L, 6), 6, [Op(PUSHF)], end, d'.Push(r.v));
    }
    ExtendComputes(x, a, env, end, end + 6, d, d1, r, d');
  }

  lemma ShortForward()
    ensures IsLongJump(LongJump(JMP_L, 6), JMP_L, 6)
  {
    hide ToLe;
  }

  /** The PUSHF that stands in for a right operand not evaluated. */
  lemma {:induction false} AndFalse(x: Machine, a: State, env: Env, pc: nat, s: Store, d: Data, d1: Data)
    requires Leads(x, a, At(x, pc, d1)) && CodeAt(x.script, pc, [Op(PUSHF)]) && Mirrors(env, s, d1) && Frames(env, |d.locals|, d, d1)
    ensures Computes(x, a, env, pc + 1, d, Val(Bool(false), s), d1)
  {
    hide CodeAt, Mirrors, Leads, Frames, ExecData, WellFormed, Computes;
    ExecLiteral(x.ops, BoolLiteral(false), d1);
    assert [Op(PUSHF)] == [Op(PUSHF)] + [];
    DataStep(x, a, Op(PUSHF), [], pc, d1);
    MakeVal(x, a, env, pc + 1, d, Bool(false), s, d1);
  }

  /** JMPIFNOT_L on the left operand. */
  lemma AndTest(x: Machine, a: State, relative: int, rest: Code, pc: nat, u: Value, d: Data)
    requires FitsI32(relative) && Leads(x, a, At(x, pc, d.Push(u))) && CodeAt(x.script, pc, [LongJump(JMPIFNOT_L, relative)] + rest)
    requires 0 <= pc + relative < |x.script|
    ensures Leads(x, a, At(x, pc + if Truthy(u) then 5 else relative, d))
  {
    hide CodeAt, Leads, LongJump, Truthy;
    BranchStep(x, a, LongJump(JMPIFNOT_L, relative), JMPIFNOT_L, relative, rest, pc, d.Push(u));
    assert d.Push(u).(stack := d.Push(u).stack.tail) == d;
  }

  lemma {:induction false} AndCorrect(x: Machine, a: State, env: Env, e: Expr, pc: nat, s: Store, d: Data)
    returns (d': Data)
    requires e.BinaryExpr? && e.bop == And
    requires ExprCode(env, e).Ok? && Ready(x, a, env, ExprCode(env, e).value, pc, s, d)
    ensures Computes(x, a, env, pc + ByteLen(ExprCode(env, e).value), d, EvalExpr(x.ops, e, s), d')
    decreases e, 3
  {
    hide *;
    ReadyMeans(x, a, env, ExprCode(env, e).value, pc, s, d);
    AndShape(x.ops, env, e, s);
    var l, r := ExprCode(env, e.left).value, ExprCode(env, e.right).value;
    var relative := 5 + ByteLen(r) + 5;
    JumpWidths(relative);
    FivePieces(x, a, env, l, LongJump(JMPIFNOT_L, relative), r, LongJump(JMP_L, 6), [Op(PUSHF)], pc, s, d);
    FalseWidth();
    var d1 := ExprCorrect(x, a, env, e.left, pc, s, d);
    d' := d1;
    var pc1 := pc + ByteLen(l);
    match EvalExpr(x.ops, e.left, s)
    case Val(u, s1) =>
      ValMeans(x, a, env, pc1, d, u, s1, d1);
      AndTest(x, a, relative, r + ([LongJump(JMP_L, 6)] + [Op(PUSHF)]), pc1, u, d1);
      if Truthy(u) {
        MakeReady(x, a, env, r, pc1 + 5, s1, d1);
        d' := AndRight(x, a, env, e.right, pc1 + 5, s1, d, d1);
      } else {
        AndFalse(x, a, env, pc1 + relative, s1, d, d1);
      }
    case _ => NoComputes(x, a, env, pc1, pc1 + relative + 1, d, EvalExpr(x.ops, e.left, s), d1);
  }

  lemma JumpWidths(relative: int)
    ensures |LongJump(JMPIFNOT_L, relative).operands| == 4 && |LongJump(JMP_L, 6).operands| == 4
  {
  }

  lemma FalseWidth()
    ensures ByteLen([Op(PUSHF)]) == 1
  {
    ByteLenOne(Op(PUSHF));
  }

  lemma MakeVal(x: Machine, a: State, env: Env, end: nat, d: Data, v: Value, s1: Store, d': Data)
    requires Leads(x, a, At(x, end, d'.Push(v))) && Mirrors(env, s1, d') && Frames(env, |d.locals|, d, d')
    ensures Computes(x, a, env, end, d, Val(v, s1), d')
  {
  }

  lemma NoComputes(x: Machine, a: State, env: Env, end: nat, end': nat, d: Data, r: Eval, d': Data)
    requires Computes(x, a, env, end, d, r, d') && !r.Val?
    ensures Computes(x, a, env, end', d, r, d')
  {
  }

  /** A computation that started from `d1`, itself reached from `d`, and then moved on to `end'`. */
  lemma ExtendComputes(x: Machine, a: State, env: Env, end: nat, end': nat, d: Data, d1: Data, r: Eval, d': Data)
    requires Computes(x, a, env, end, d1, r, d') && Frames(env, |d.locals|, d, d1)
    requires r.Val? ==> Leads(x, a, At(x, end', d'.Push(r.v)))
    ensures Computes(x, a, env, end', d, r, d')
  {
  }

  /** DUP, JMPIF_L, DROP on the left operand. */
  lemma OrTest(x: Machine, a: State, right: Code, pc: nat, u: Value, d: Data)
    requires FitsI32(6 + ByteLen(right)) && Leads(x, a, At(x, pc, d.Push(u)))
    requires CodeAt(x.script, pc, [Op(DUP)] + ([LongJump(JMPIF_L, 6 + ByteLen(right))] + ([Op(DROP)] + right)))
    requires pc + 7 + ByteLen(right) < |x.script|
    ensures CodeAt(x.script, pc + 7, right)
    ensures if Truthy(u) then Leads(x, a, At(x, pc + 7 + ByteLen(right), d.Push(u))) else Leads(x, a, At(x, pc + 7, d))
  {
    hide CodeAt, Leads, LongJump, Truthy, ByteLen, ExecData, IsDataInstruction;
    var toEnd := LongJump(JMPIF_L, 6 + ByteLen(right));
    ExecDup(x.ops, d.Push(u));
    DataStep(x, a, Op(DUP), [toEnd] + ([Op(DROP)] + right), pc, d.Push(u));
    BranchStep(x, a, toEnd, JMPIF_L, 6 + ByteLen(right), [Op(DROP)] + right, pc + 1, d.Push(u).Push(u));
    assert d.Push(u).Push(u).(stack := d.Push(u).stack) == d.Push(u) && d.Push(u).(stack := d.stack) == d;
    PeelCode(x, Op(DROP), right, pc + 6);
    if !Truthy(u) {
      DataStep(x, a, Op(DROP), right, pc + 6, d.Push(u));
    }
  }

  lemma OrSize(right: Code)
    ensures ByteLen([Op(DUP)] + ([LongJump(JMPIF_L, 6 + ByteLen(right))] + ([Op(DROP)] + right))) == 7 + ByteLen(right)
  {
    hide ByteLen;
    var toEnd := LongJump(JMPIF_L, 6 + ByteLen(right));
    ByteLenAppend([Op(DUP)], [toEnd] + ([Op(DROP)] + right));
    ByteLenAppend([toEnd], [Op(DROP)] + right);
    ByteLenAppend([Op(DROP)], right);
    ByteLenOne(Op(DUP));
    ByteLenOne(toEnd);
    ByteLenOne(Op(DROP));
  }

  lemma {:induction false} OrCorrect(x: Machine, a: State, env: Env, e: Expr, pc: nat, s: Store, d: Data)
    returns (d': Data)
    requires e.BinaryExpr? && e.bop == Or
    requires ExprCode(env, e).Ok? && Ready(x, a, env, ExprCode(env, e).value, pc, s, d)
    ensures Computes(x, a, env, pc + ByteLen(ExprCode(env, e).value), d, EvalExpr(x.ops, e, s), d')
    decreases e, 3
  {
    hide *;
    ReadyMeans(x, a, env, ExprCode(env, e).value, pc, s, d);
    OrShape(x.ops, env, e, s);
    var l, r := ExprCode(env, e.left).value, ExprCode(env, e.right).value;
    SplitReady(x, a, env, l, [Op(DUP)] + ([LongJump(JMPIF_L, 6 + ByteLen(r))] + ([Op(DROP)] + r)), pc, s, d);
    OrSize(r);
    var d1 := ExprCorrect(x, a, env, e.left, pc, s, d);
    d' := d1;
    var pc1 := pc + ByteLen(l);
    match EvalExpr(x.ops, e.left, s)
    case Val(u, s1) =>
      ValMeans(x, a, env, pc1, d, u, s1, d1);
      OrTest(x, a, r, pc1, u, d1);
      if !Truthy(u) {
        MakeReady(x, a, env, r, pc1 + 7, s1, d1);
        d' := ExprCorrect(x, a, env, e.right, pc1 + 7, s1, d1);
        var right := EvalExpr(x.ops, e.right, s1);
        if right.Val? {
          ValMeans(x, a, env, pc1 + 7 + ByteLen(r), d1, right.v, right.store, d');
        }
        ExtendComputes(x, a, env, pc1 + 7 + ByteLen(r), pc1 + 7 + ByteLen(r), d, d1, right, d');
      } else {
        MakeVal(x, a, env, pc1 + 7 + ByteLen(r), d, u, s1, d1);
      }
    case _ => NoComputes(x, a, env, pc1, pc1 + 7 + ByteLen(r), d, EvalExpr(x.ops, e.left, s), d1);
  }

  /** A value on the stack: DUP, then the store of a variable. */
  lemma DupStore(x: Machine, a: State, env: Env, name: string, v: Value, pc: nat, s: Store, d: Data) returns (d': Data)
    requires VariableCode(env, name, true).Ok?
    requires var st := VariableCode(env, name, true).value;
             Ready(x, a, env, [Op(DUP)] + [st], pc, s, d.Push(v))
    ensures var st := VariableCode(env, name, true).value;
            Computes(x, a, env, pc + ByteLen([Op(DUP)] + [st]), d, Val(v, Update(s, name, v)), d')
    ensures Lookup(s, name).Some?
  {
    hide CodeAt, Mirrors, EnvOk, ExecData, WellFormed, Leads, ByteLen, Update, Lookup, VariableCode;
    var st := VariableCode(env, name, true).value;
    ExecDup(x.ops, d.Push(v));
    DataStep(x, a, Op(DUP), [st], pc, d.Push(v));
    PushedReady(env, s, v, d.Push(v));
    var d1 := ExecStore(x.ops, env, name, s, d.Push(v).Push(v));
    assert [st] == [st] + [];
    DataStep(x, a, st, [], pc + 1, d.Push(v).Push(v));
    ByteLenOne(st);
    d' := Restack(env, Update(s, name, v), v, d, d1);
  }

  lemma {:induction false} AssignCorrect(x: Machine, a: State, env: Env, e: Expr, pc: nat, s: Store, d: Data)
    returns (d': Data)
    requires e.AssignExpr? && e.target.Ident? && e.aop == Assign
    requires ExprCode(env, e).Ok? && Ready(x, a, env, ExprCode(env, e).value, pc, s, d)
    ensures Computes(x, a, env, pc + ByteLen(ExprCode(env, e).value), d, EvalExpr(x.ops, e, s), d')
    decreases e, 3
  {
    hide CodeAt, Mirrors, EnvOk, ExecData, WellFormed, Leads, ByteLen, Frames, Update, Lookup, VariableCode;
    var code, name := ExprCode(env, e.value).value, e.target.name;
    var st := VariableCode(env, name, true).value;
    SplitReady(x, a, env, code, [Op(DUP)] + [st], pc, s, d);
    var d1 := ExprCorrect(x, a, env, e.value, pc, s, d);
    d' := d1;
    match EvalExpr(x.ops, e.value, s)
    case Val(v, s1) =>
      FramesStack(env, d, d1);
      PushedReady(env, s1, v, d1);
      d' := DupStore(x, a, env, name, v, pc + ByteLen(code), s1, d1);
      FramesTrans(env, |d.locals|, d, d1, d');
    case _ =>
  }

  lemma {:induction false} CompoundCorrect(x: Machine, a: State, env: Env, e: Expr, pc: nat, s: Store, d: Data)
    returns (d': Data)
    requires e.AssignExpr? && e.target.Ident? && e.aop != Assign
    requires ExprCode(env, e).Ok? && Ready(x, a, env, ExprCode(env, e).value, pc, s, d)
    ensures Computes(x, a, env, pc + ByteLen(ExprCode(env, e).value), d, EvalExpr(x.ops, e, s), d')
    decreases e, 3
  {
    hide CodeAt, Mirrors, EnvOk, ExecData, WellFormed, Leads, ByteLen, Frames, Update, Lookup, VariableCode, BinaryValue;
    var code, name, op := ExprCode(env, e.value).value, e.target.name, AssignOpCode(e.aop);
    var ld, st := VariableCode(env, name, false).value, VariableCode(env, name, true).value;
    var finish := [Op(DUP)] + [st];
    assert ExprCode(env, e).value == [ld] + (code + ([Op(op)] + finish));
    ExecLoad(x.ops, env, name, s, d);
    DataStep(x, a, ld, code + ([Op(op)] + finish), pc, d);
    var u := Lookup(s, name).value;
    PushedReady(env, s, u, d);
    var pc1 := pc + EncodedLen(ld);
    var d1 := RightOperand(x, a, env, u, e.value, op, finish, pc1, s, d);
    BinaryMeans(x.ops, op);
    d' := d1;
    match EvalExpr(x.ops, e.value, s)
    case Val(b, s1) =>
      var v := BinaryValue(x.ops, op, u, b);
      if v.Some? {
        PushedReady(env, s1, v.value, d1);
        FramesStack(env, d, d1);
        d' := DupStore(x, a, env, name, v.value, pc1 + ByteLen(code) + 1, s1, d1);
        FramesTrans(env, |d.locals|, d, d1, d');
      }
    case _ =>
  }
}
