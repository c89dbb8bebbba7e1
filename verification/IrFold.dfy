/** Constant folding (ir/opt.rs) and when it keeps the meaning of a block. */
module IrFold {
  import opened Prelude
  import opened Bytecode
  import opened Vm
  import opened Decimal
  import opened NeoArithmetic
  import opened Ir
  import Ast
  import Semantics

  // ----- the pass -----

  /** 64-bit two's complement: what `i64` arithmetic leaves when it does not trap. */
  function Wrap64(n: int): int {
    (n + 0x8000_0000_0000_0000) % 0x1_0000_0000_0000_0000 - 0x8000_0000_0000_0000
  }

  /** `Panic`: `i64` division by zero, or of the least value by -1. */
  datatype Fold = NoFold | Folded(lit: Ast.Literal) | Panic

  function FoldUnary(op: Ast.UnaryOp, lit: Ast.Literal): Fold {
    match (op, lit)
    case (Not, BoolLiteral(b)) => Folded(Ast.BoolLiteral(!b))
    case (Negative, IntLiteral(s)) => Folded(Ast.IntLiteral(['-'] + s))
    case (Positive, IntLiteral(s)) => Folded(Ast.IntLiteral(s))
    case _ => NoFold
  }

  function IntText(n: int): Fold { Folded(Ast.IntLiteral(ToDecimal(n))) }

  /** `+`, `-`, `*` and `/` on texts that read as `i64`; `==` and `!=` on the texts themselves. */
  function FoldBinary(op: Ast.BinaryOp, left: Ast.Literal, right: Ast.Literal): Fold {
    match (left, right)
    case (IntLiteral(x), IntLiteral(y)) =>
      if op == Ast.Eq then Folded(Ast.BoolLiteral(x == y))
      else if op == Ast.Ne then Folded(Ast.BoolLiteral(x != y))
      else if ParseI64(x).None? || ParseI64(y).None? then NoFold
      else
        var a, b := ParseI64(x).value, ParseI64(y).value;
        if op == Ast.Add then IntText(Wrap64(a + b))
        else if op == Ast.Sub then IntText(Wrap64(a - b))
        else if op == Ast.Mul then IntText(Wrap64(a * b))
        else if op == Ast.Div then
          if b == 0 || (a == -0x8000_0000_0000_0000 && b == -1) then Panic else IntText(Quotient(a, b))
        else NoFold
    case (BoolLiteral(x), BoolLiteral(y)) =>
      if op == Ast.Eq then Folded(Ast.BoolLiteral(x == y))
      else if op == Ast.Ne then Folded(Ast.BoolLiteral(x != y))
      else NoFold
    case _ => NoFold
  }

  type Consts = map<nat, Ast.Literal>

  /** Constants defined at positions before `p`. */
  function ConstsOf(instrs: Instrs, p: nat): Consts
    requires p <= |instrs|
  {
    if p == 0 then map[]
    else
      match instrs[p - 1].1
      case Const(lit) => ConstsOf(instrs, p - 1)[instrs[p - 1].0 := lit]
      case _ => ConstsOf(instrs, p - 1)
  }

  function ConstOf(consts: Consts, v: ValueRef): Option<Ast.Literal> {
    if v.Value? && v.id in consts then Some(consts[v.id]) else None
  }

  function FoldOf(i: Instr, consts: Consts): Fold {
    match i
    case Unary(op, v) =>
      var lit := ConstOf(consts, v);
      if lit.Some? then FoldUnary(op, lit.value) else NoFold
    case Binary(op, l, r) =>
      var a, b := ConstOf(consts, l), ConstOf(consts, r);
      if a.Some? && b.Some? then FoldBinary(op, a.value, b.value) else NoFold
    case _ => NoFold
  }

  function FoldInstr(i: Instr, consts: Consts): Instr {
    match FoldOf(i, consts)
    case Folded(lit) => Const(lit)
    case _ => i
  }

  /** No folded division traps. */
  predicate NoPanic(instrs: Instrs) {
    forall p :: 0 <= p < |instrs| ==> !FoldOf(instrs[p].1, ConstsOf(instrs, |instrs|)).Panic?
  }

  /** One block: constants are those the block had before the pass. */
  function FoldInstrs(instrs: Instrs): (r: Instrs)
    ensures |r| == |instrs|
  {
    seq(|instrs|, p requires 0 <= p < |instrs| => (instrs[p].0, FoldInstr(instrs[p].1, ConstsOf(instrs, |instrs|))))
  }

  // ----- when a fold is right -----

  /** What the machine computes for the folded operators: on integers within `i64`, or `i128` where nothing is added, and on booleans. */
  ghost predicate IntegerMachine(ops: Ops) {
    && (forall a, b :: FitsI64Pair(a, b) ==> ops.binary(ADD, Int(a), Int(b)) == Some(Int(a + b)))
    && (forall a, b :: FitsI64Pair(a, b) ==> ops.binary(SUB, Int(a), Int(b)) == Some(Int(a - b)))
    && (forall a, b :: FitsI64Pair(a, b) ==> ops.binary(MUL, Int(a), Int(b)) == Some(Int(a * b)))
    && (forall a, b :: FitsI64Pair(a, b) && b != 0 ==> ops.binary(DIV, Int(a), Int(b)) == Some(Int(Quotient(a, b))))
    && (forall a :: Ast.FitsI128(a) ==> ops.unary(Instruction(NEGATE, []), Int(a)) == Some(Int(-a)))
    && (forall v, w :: SameKind(v, w) ==> ops.binary(EQUAL, v, w) == Some(Bool(v == w)))
    && (forall v, w :: SameKind(v, w) ==> ops.binary(NOTEQUAL, v, w) == Some(Bool(v != w)))
  }

  predicate FitsI64Pair(a: int, b: int) { Ast.FitsI64(a) && Ast.FitsI64(b) }

  predicate SameKind(v: Value, w: Value) {
    (v.Int? && w.Int? && Ast.FitsI128(v.n) && Ast.FitsI128(w.n)) || (v.Bool? && w.Bool?)
  }

  /** The literals are spelled so that folding them gives the value the machine would compute. */
  predicate UnaryExact(op: Ast.UnaryOp, lit: Ast.Literal) {
    op == Ast.Negative && lit.IntLiteral? && FoldUnary(op, lit).Folded? ==>
      AllDigits(Ast.WithoutUnderscores(lit.text))
  }

  predicate BinaryExact(op: Ast.BinaryOp, left: Ast.Literal, right: Ast.Literal) {
    left.IntLiteral? && right.IntLiteral? ==>
      var x, y := left.text, right.text;
      if op == Ast.Eq || op == Ast.Ne then x == y || Ast.ParseIntLiteral(x) != Ast.ParseIntLiteral(y)
      else if ParseI64(x).None? || ParseI64(y).None? then true
      else
        var a, b := ParseI64(x).value, ParseI64(y).value;
        if op == Ast.Add then Ast.FitsI64(a + b)
        else if op == Ast.Sub then Ast.FitsI64(a - b)
        else if op == Ast.Mul then Ast.FitsI64(a * b)
        else true
  }

  predicate FoldExact(i: Instr, consts: Consts) {
    match i
    case Unary(op, v) => ConstOf(consts, v).Some? ==> UnaryExact(op, ConstOf(consts, v).value)
    case Binary(op, l, r) =>
      ConstOf(consts, l).Some? && ConstOf(consts, r).Some? ==> BinaryExact(op, ConstOf(consts, l).value, ConstOf(consts, r).value)
    case _ => true
  }

  /** Every fold of the block is exact and none traps. */
  predicate FoldsExactly(instrs: Instrs) {
    NoPanic(instrs) && forall p :: 0 <= p < |instrs| ==> FoldExact(instrs[p].1, ConstsOf(instrs, |instrs|))
  }

  lemma WrapExact(n: int)
    ensures Wrap64(n) == n <==> Ast.FitsI64(n)
  {
  }

  lemma QuotientFits(a: int, b: int)
    requires FitsI64Pair(a, b) && b != 0
    ensures Ast.FitsI64(Quotient(a, b)) <==> !(a == -0x8000_0000_0000_0000 && b == -1)
  {
    DivBound(Magnitude(a), Magnitude(b));
  }

  lemma DivBound(a: nat, b: nat)
    requires b > 0
    ensures a / b <= a && (b == 1 ==> a / b == a) && (b >= 2 ==> 2 * (a / b) <= a)
  {
    var q := a / b;
    assert a == q * b + a % b;
    if b >= 2 {
      assert q * 2 <= q * b;
    }
  }

  /** A folded negation has the machine's value exactly when the literal is unsigned decimal. */
  lemma {:induction false} FoldUnaryMeaning(ops: Ops, op: Ast.UnaryOp, lit: Ast.Literal)
    requires IntegerMachine(ops) && FoldUnary(op, lit).Folded? && Semantics.LiteralValue(lit).Some?
    ensures Semantics.LiteralValue(FoldUnary(op, lit).lit) == Semantics.UnaryMeaning(ops, op, Semantics.LiteralValue(lit).value) <==>
            UnaryExact(op, lit)
  {
    hide Ast.ParseIntLiteral;
    if op == Ast.Negative && lit.IntLiteral? {
      var n := Ast.ParseIntLiteral(lit.text).value;
      NegatedLiteral(lit.text, n);
      assert ops.unary(Instruction(NEGATE, []), Int(n)) == Some(Int(-n));
      assert FoldUnary(op, lit).lit == Ast.IntLiteral(['-'] + lit.text);
    }
  }

  /** A folded operation has the machine's value exactly when nothing overflowed `i64` and spelling decides equality. */
  lemma {:induction false} FoldBinaryMeaning(ops: Ops, op: Ast.BinaryOp, left: Ast.Literal, right: Ast.Literal)
    requires IntegerMachine(ops) && FoldBinary(op, left, right).Folded?
    requires Semantics.LiteralValue(left).Some? && Semantics.LiteralValue(right).Some?
    ensures var a, b := Semantics.LiteralValue(left).value, Semantics.LiteralValue(right).value;
            Semantics.LiteralValue(FoldBinary(op, left, right).lit) == BinaryValue(ops, Ast.BinaryOpCode(op), a, b) <==>
            BinaryExact(op, left, right)
  {
    hide Ast.ParseIntLiteral, ParseI64, Wrap64, Quotient, ToDecimal, IntegerMachine;
    if left.IntLiteral? && right.IntLiteral? && op != Ast.Eq && op != Ast.Ne {
      FoldArithmetic(ops, op, left.text, right.text);
    } else {
      FoldEquality(ops, op, left, right);
    }
  }

  /**
   * Equality of two texts against equality of two numbers: next to a canonical literal, a literal
   * of the same value must be canonical too. Whatever folding itself prints is canonical.
   */
  lemma {:induction false} EqualityBySpelling(op: Ast.BinaryOp, x: string, y: string)
    requires op == Ast.Eq || op == Ast.Ne
    requires Canonical(x) && Ast.ParseIntLiteral(x).Some? && Ast.ParseIntLiteral(y).Some?
    ensures BinaryExact(op, Ast.IntLiteral(x), Ast.IntLiteral(y)) <==> Canonical(y) || Ast.ParseIntLiteral(x) != Ast.ParseIntLiteral(y)
  {
    hide Canonical, Ast.ParseIntLiteral;
    if Canonical(y) && Ast.ParseIntLiteral(x) == Ast.ParseIntLiteral(y) {
      CanonicalUnique(x, y);
    }
  }

  lemma {:induction false} FoldedIsCanonical(op: Ast.BinaryOp, left: Ast.Literal, right: Ast.Literal)
    requires FoldBinary(op, left, right).Folded? && FoldBinary(op, left, right).lit.IntLiteral?
    ensures Canonical(FoldBinary(op, left, right).lit.text)
  {
    hide Canonical, ParseI64, Wrap64, Quotient, ToDecimal;
    forall n: int ensures Canonical(ToDecimal(n)) {
      PrintedCanonical(n);
    }
  }

  lemma {:induction false} FoldEquality(ops: Ops, op: Ast.BinaryOp, left: Ast.Literal, right: Ast.Literal)
    requires IntegerMachine(ops) && FoldBinary(op, left, right).Folded? && (op == Ast.Eq || op == Ast.Ne)
    requires Semantics.LiteralValue(left).Some? && Semantics.LiteralValue(right).Some?
    ensures var a, b := Semantics.LiteralValue(left).value, Semantics.LiteralValue(right).value;
            Semantics.LiteralValue(FoldBinary(op, left, right).lit) == BinaryValue(ops, Ast.BinaryOpCode(op), a, b) <==>
            BinaryExact(op, left, right)
  {
    hide Ast.ParseIntLiteral, ParseI64, Wrap64, Quotient, ToDecimal;
    var a, b := Semantics.LiteralValue(left).value, Semantics.LiteralValue(right).value;
    assert SameKind(a, b);
  }

  lemma MachineOn(ops: Ops, a: int, b: int)
    requires IntegerMachine(ops) && Ast.FitsI64(a) && Ast.FitsI64(b)
    ensures ops.binary(ADD, Int(a), Int(b)) == Some(Int(a + b))
    ensures ops.binary(SUB, Int(a), Int(b)) == Some(Int(a - b))
    ensures ops.binary(MUL, Int(a), Int(b)) == Some(Int(a * b))
    ensures b != 0 ==> ops.binary(DIV, Int(a), Int(b)) == Some(Int(Quotient(a, b)))
  {
    hide Quotient;
    assert FitsI64Pair(a, b);
  }

  lemma {:induction false} FoldArithmetic(ops: Ops, op: Ast.BinaryOp, x: string, y: string)
    requires IntegerMachine(ops) && op != Ast.Eq && op != Ast.Ne
    requires FoldBinary(op, Ast.IntLiteral(x), Ast.IntLiteral(y)).Folded?
    requires Ast.ParseIntLiteral(x).Some? && Ast.ParseIntLiteral(y).Some?
    ensures var a, b := Int(Ast.ParseIntLiteral(x).value), Int(Ast.ParseIntLiteral(y).value);
            Semantics.LiteralValue(FoldBinary(op, Ast.IntLiteral(x), Ast.IntLiteral(y)).lit) == BinaryValue(ops, Ast.BinaryOpCode(op), a, b) <==>
            BinaryExact(op, Ast.IntLiteral(x), Ast.IntLiteral(y))
  {
    hide Ast.ParseIntLiteral, ParseI64, Wrap64, Quotient, ToDecimal, IntegerMachine;
    var a, b := ParseI64(x).value, ParseI64(y).value;
    ParsedLiteral(x);
    ParsedLiteral(y);
    I64Range(x);
    I64Range(y);
    MachineOn(ops, a, b);
    match op
    case Add => PrintedWrap(a + b);
    case Sub => PrintedWrap(a - b);
    case Mul => PrintedWrap(a * b);
    case Div =>
      QuotientFits(a, b);
      PrintedLiteral(Quotient(a, b));
    case _ =>
  }

  lemma I64Range(s: string)
    requires ParseI64(s).Some?
    ensures Ast.FitsI64(ParseI64(s).value)
  {
  }

  lemma PrintedWrap(n: int)
    ensures Ast.ParseIntLiteral(ToDecimal(Wrap64(n))) == Some(Wrap64(n))
    ensures Wrap64(n) == n <==> Ast.FitsI64(n)
  {
    hide ToDecimal;
    PrintedLiteral(Wrap64(n));
    WrapExact(n);
  }

  /** `0x10 == 16` is true, and is folded to false. */
  lemma SpellingIsNotValue()
    ensures FoldBinary(Ast.Eq, Ast.IntLiteral("0x10"), Ast.IntLiteral("16")) == Folded(Ast.BoolLiteral(false))
    ensures Ast.ParseIntLiteral("0x10") == Ast.ParseIntLiteral("16") == Some(16)
  {
    HexText();
    DecimalText();
  }

  lemma HexText()
    ensures Ast.ParseIntLiteral("0x10") == Some(16)
  {
    NoUnderscores("0x10");
    assert "0x10"[2..] == "10" && "0x10"[..2] == "0x";
    assert "10"[..1] == "1";
    assert Ast.Digits("10", 16) == Some(16);
  }

  lemma DecimalText()
    ensures Ast.ParseIntLiteral("16") == Some(16)
  {
    LiteralIsSigned("16");
    assert "16"[..1] == "1";
    assert Ast.Digits("16", 10) == Some(16);
  }

  // ----- blocks -----

  /** The constants of the block defined so far hold their values. */
  ghost predicate ConstsHold(instrs: Instrs, p: nat, env: Env) {
    forall q :: 0 <= q < p && q < |instrs| && instrs[q].1.Const? ==>
      instrs[q].0 in env && Semantics.LiteralValue(instrs[q].1.lit) == Some(env[instrs[q].0])
  }

  lemma {:induction false} ConstsAre(instrs: Instrs, p: nat, id: nat)
    requires p <= |instrs| && id in ConstsOf(instrs, p)
    ensures exists q :: 0 <= q < p && instrs[q] == (id, Const(ConstsOf(instrs, p)[id]))
  {
    if instrs[p - 1].1.Const? && instrs[p - 1].0 == id {
      assert instrs[p - 1] == (id, Const(ConstsOf(instrs, p)[id]));
    } else {
      ConstsAre(instrs, p - 1, id);
    }
  }

  /** A constant operand of the instruction at `p` has its literal's value. */
  lemma {:induction false} ConstOperand(instrs: Instrs, p: nat, k: nat, params: seq<Value>, env: Env)
    requires LocalSsa(instrs) && p < |instrs| && ConstsHold(instrs, p, env) && k < |Operands(instrs[p].1)|
    requires ConstOf(ConstsOf(instrs, |instrs|), Operands(instrs[p].1)[k]).Some?
    ensures Semantics.LiteralValue(ConstOf(ConstsOf(instrs, |instrs|), Operands(instrs[p].1)[k]).value) ==
            ValueOf(Operands(instrs[p].1)[k], params, env)
  {
    hide Operands, Semantics.LiteralValue;
    var v := Operands(instrs[p].1)[k];
    ConstsAre(instrs, |instrs|, v.id);
    assert UsesEarlier(instrs, p) && NotDefinedFrom(instrs, p, v);
  }

  /** Folding one instruction of a run that does not fault. */
  lemma {:induction false} FoldedInstr(ops: IrOps, instrs: Instrs, p: nat, params: seq<Value>, env: Env, trace: seq<Event>)
    requires LocalSsa(instrs) && p < |instrs| && ConstsHold(instrs, p, env) && IntegerMachine(ops.vm) && FoldsExactly(instrs)
    requires ExecInstr(ops, instrs[p].1, params, env, trace).Some?
    ensures ExecInstr(ops, FoldInstr(instrs[p].1, ConstsOf(instrs, |instrs|)), params, env, trace) ==
            ExecInstr(ops, instrs[p].1, params, env, trace)
  {
    hide FoldUnary, FoldBinary, Semantics.LiteralValue, Semantics.UnaryMeaning, BinaryValue, IntegerMachine, ConstsHold, LocalSsa, UnaryExact, BinaryExact, ConstsOf;
    var i, consts := instrs[p].1, ConstsOf(instrs, |instrs|);
    assert FoldExact(i, consts);
    if FoldOf(i, consts).Folded? {
      var vs := ValuesOf(Operands(i), params, env).value;
      match i
      case Unary(op, v) =>
        ConstOperand(instrs, p, 0, params, env);
        OneValue(v, params, env);
        FoldUnaryMeaning(ops.vm, op, ConstOf(consts, v).value);
      case Binary(op, l, r) =>
        ConstOperand(instrs, p, 0, params, env);
        ConstOperand(instrs, p, 1, params, env);
        TwoValues(l, r, params, env);
        FoldLogical(op, ConstOf(consts, l).value, ConstOf(consts, r).value);
        FoldBinaryMeaning(ops.vm, op, ConstOf(consts, l).value, ConstOf(consts, r).value);
    }
  }

  lemma FoldLogical(op: Ast.BinaryOp, left: Ast.Literal, right: Ast.Literal)
    ensures FoldBinary(op, left, right).Folded? ==> op != Ast.And && op != Ast.Or
  {
  }

  lemma {:induction false} ConstsStep(instrs: Instrs, p: nat, env: Env, v: Value)
    requires LocalSsa(instrs) && p < |instrs| && ConstsHold(instrs, p, env)
    requires instrs[p].1.Const? ==> Semantics.LiteralValue(instrs[p].1.lit) == Some(v)
    ensures ConstsHold(instrs, p + 1, env[instrs[p].0 := v])
  {
    hide UsesEarlier, Semantics.LiteralValue;
  }

  /** Folding a block: a run that does not fault goes through the same values and effects. */
  lemma {:induction false} FoldedExec(ops: IrOps, instrs: Instrs, p: nat, params: seq<Value>, env: Env, trace: seq<Event>)
    requires LocalSsa(instrs) && p <= |instrs| && ConstsHold(instrs, p, env) && IntegerMachine(ops.vm) && FoldsExactly(instrs)
    requires Exec(ops, instrs, p, params, env, trace).Some?
    ensures Exec(ops, FoldInstrs(instrs), p, params, env, trace) == Exec(ops, instrs, p, params, env, trace)
    decreases |instrs| - p
  {
    hide ExecInstr, LocalSsa, ConstsHold, IntegerMachine, FoldsExactly, FoldInstr, ConstsOf;
    if p < |instrs| {
      FoldedInstr(ops, instrs, p, params, env, trace);
      var (v, trace') := ExecInstr(ops, instrs[p].1, params, env, trace).value;
      ConstResult(ops, instrs[p].1, params, env, trace);
      ConstsStep(instrs, p, env, v);
      FoldedExec(ops, instrs, p + 1, params, env[instrs[p].0 := v], trace');
    }
  }

  lemma ConstResult(ops: IrOps, i: Instr, params: seq<Value>, env: Env, trace: seq<Event>)
    requires ExecInstr(ops, i, params, env, trace).Some?
    ensures i.Const? ==> Semantics.LiteralValue(i.lit) == Some(ExecInstr(ops, i, params, env, trace).value.0)
  {
    hide Semantics.LiteralValue;
  }

  lemma {:induction false} FoldedSsa(instrs: Instrs)
    requires LocalSsa(instrs)
    ensures LocalSsa(FoldInstrs(instrs))
  {
    hide Operands, FoldInstr;
    forall p | 0 <= p < |instrs| ensures UsesEarlier(FoldInstrs(instrs), p) {
      assert UsesEarlier(instrs, p);
      FoldedOperands(instrs[p].1, ConstsOf(instrs, |instrs|));
    }
  }

  lemma FoldedOperands(i: Instr, consts: Consts)
    ensures Operands(FoldInstr(i, consts)) == Operands(i) || Operands(FoldInstr(i, consts)) == []
  {
    hide FoldOf;
  }
}
