/**
 * What the first three passes are certain to do, by kind of instruction: which operations fold and
 * to what, which operands a copy replaces, and that no computation is left twice in a block.
 */
module IrSimplified {
  import opened Prelude
  import opened Vm
  import opened Bytecode
  import opened Decimal
  import opened NeoArithmetic
  import opened Ir
  import opened IrFold
  import opened IrCopy
  import Ast
  import Operators

  // ----- folding -----

  function Number(n: int): Ast.Literal { Ast.IntLiteral(ToDecimal(n)) }

  lemma {:induction false} NumberReads(n: int)
    requires Ast.FitsI64(n)
    ensures ParseI64(ToDecimal(n)) == Some(n)
  {
    hide NatText, Ast.Digits;
    var digits := NatText(if n < 0 then -n else n);
    DigitsOfText(if n < 0 then -n else n);
    assert digits[0] in digits;
    assert (['-'] + digits)[1..] == digits;
  }

  /** Which operations on two `i64` numbers are folded, and to which literal. */
  lemma {:induction false} NumbersFold(op: Ast.BinaryOp, a: int, b: int)
    requires Ast.FitsI64(a) && Ast.FitsI64(b)
    ensures FoldBinary(op, Number(a), Number(b)) ==
            match op
            case Add => Folded(Number(Wrap64(a + b)))
            case Sub => Folded(Number(Wrap64(a - b)))
            case Mul => Folded(Number(Wrap64(a * b)))
            case Div =>
              if b == 0 || (a == -0x8000_0000_0000_0000 && b == -1) then Panic else Folded(Number(Quotient(a, b)))
            case Eq => Folded(Ast.BoolLiteral(a == b))
            case Ne => Folded(Ast.BoolLiteral(a != b))
            case _ => NoFold
  {
    hide ToDecimal, ParseI64, Wrap64, Quotient;
    NumberReads(a);
    NumberReads(b);
  }

  /** Negation, identity and negated truth fold; the rest does not. */
  lemma {:induction false} UnaryFolds(op: Ast.UnaryOp, n: int, b: bool)
    requires n >= 0
    ensures FoldUnary(op, Number(n)) ==
            match op
            case Negative => if n == 0 then Folded(Ast.IntLiteral("-0")) else Folded(Number(-n))
            case Positive => Folded(Number(n))
            case _ => NoFold
    ensures FoldUnary(op, Ast.BoolLiteral(b)) == if op == Ast.Not then Folded(Ast.BoolLiteral(!b)) else NoFold
  {
    assert ['-'] + "0" == "-0";
    assert NatText(0) == "0";
  }

  /** Equality of truth values folds too; nothing of two kinds does. */
  lemma {:induction false} TruthsFold(op: Ast.BinaryOp, x: bool, y: bool, n: int, other: Ast.Literal)
    ensures FoldBinary(op, Ast.BoolLiteral(x), Ast.BoolLiteral(y)) ==
            match op
            case Eq => Folded(Ast.BoolLiteral(x == y))
            case Ne => Folded(Ast.BoolLiteral(x != y))
            case _ => NoFold
    ensures FoldBinary(op, Number(n), Ast.BoolLiteral(y)) == NoFold && FoldBinary(op, Ast.BoolLiteral(x), Number(n)) == NoFold
    ensures !other.IntLiteral? && !other.BoolLiteral? ==> FoldBinary(op, other, Number(n)) == NoFold && FoldBinary(op, Number(n), other) == NoFold
  {
    hide ToDecimal, ParseI64;
  }

  predicate ComparesTruths(ops: Ops, x: bool, y: bool) {
    && ops.binary(0x97, Bool(x), Bool(y)) == Truth(x == y)
    && ops.binary(0x98, Bool(x), Bool(y)) == Truth(x != y)
  }

  /** NeoVM's documented arithmetic is the arithmetic the folding theorems ask for. */
  lemma {:induction false} ArithmeticFolds(ops: Ops, limit: nat)
    requires Arithmetic(ops, limit) && forall x, y :: ComparesTruths(ops, x, y)
    ensures IntegerMachine(ops)
  {
    hide FitsI64Pair, SameKind, Quotient, Arithmetic, ComparesTruths;
    AllPairsFold(ops, limit);
    AllOnesFold(ops, limit);
    AllEqualitiesFold(ops, limit);
  }

  lemma {:induction false} AllPairsFold(ops: Ops, limit: nat)
    requires Arithmetic(ops, limit)
    ensures forall a, b :: FitsI64Pair(a, b) ==> ops.binary(ADD, Int(a), Int(b)) == Some(Int(a + b))
    ensures forall a, b :: FitsI64Pair(a, b) ==> ops.binary(SUB, Int(a), Int(b)) == Some(Int(a - b))
    ensures forall a, b :: FitsI64Pair(a, b) ==> ops.binary(MUL, Int(a), Int(b)) == Some(Int(a * b))
    ensures forall a, b :: FitsI64Pair(a, b) && b != 0 ==> ops.binary(DIV, Int(a), Int(b)) == Some(Int(Quotient(a, b)))
  {
    hide FitsI64Pair, Quotient, Arithmetic;
    forall a, b | FitsI64Pair(a, b)
      ensures ops.binary(ADD, Int(a), Int(b)) == Some(Int(a + b)) && ops.binary(SUB, Int(a), Int(b)) == Some(Int(a - b))
      ensures ops.binary(MUL, Int(a), Int(b)) == Some(Int(a * b))
      ensures b != 0 ==> ops.binary(DIV, Int(a), Int(b)) == Some(Int(Quotient(a, b)))
    {
      PairFolds(ops, limit, a, b);
    }
  }

  lemma {:induction false} AllOnesFold(ops: Ops, limit: nat)
    requires Arithmetic(ops, limit)
    ensures forall a :: Ast.FitsI128(a) ==> ops.unary(Instruction(NEGATE, []), Int(a)) == Some(Int(-a))
  {
    hide Arithmetic;
    forall a | Ast.FitsI128(a) ensures ops.unary(Instruction(NEGATE, []), Int(a)) == Some(Int(-a)) {
      OneFolds(ops, limit, a);
    }
  }

  lemma {:induction false} AllEqualitiesFold(ops: Ops, limit: nat)
    requires Arithmetic(ops, limit) && forall x, y :: ComparesTruths(ops, x, y)
    ensures forall v, w :: SameKind(v, w) ==> ops.binary(EQUAL, v, w) == Some(Bool(v == w))
    ensures forall v, w :: SameKind(v, w) ==> ops.binary(NOTEQUAL, v, w) == Some(Bool(v != w))
  {
    hide SameKind, Arithmetic, ComparesTruths;
    forall v, w | SameKind(v, w) ensures ops.binary(EQUAL, v, w) == Some(Bool(v == w)) && ops.binary(NOTEQUAL, v, w) == Some(Bool(v != w)) {
      EqualityFolds(ops, limit, v, w);
    }
  }

  lemma PairFolds(ops: Ops, limit: nat, a: int, b: int)
    requires Arithmetic(ops, limit) && FitsI64Pair(a, b)
    ensures ops.binary(ADD, Int(a), Int(b)) == Some(Int(a + b)) && ops.binary(SUB, Int(a), Int(b)) == Some(Int(a - b))
    ensures ops.binary(MUL, Int(a), Int(b)) == Some(Int(a * b))
    ensures b != 0 ==> ops.binary(DIV, Int(a), Int(b)) == Some(Int(Quotient(a, b)))
  {
    hide FitsSigned, Quotient, Remainder, Conjunction, Disjunction, Difference, Pow2, FitsI64Pair, Arithmetic;
    SmallFits(a, b);
    Operators.PairAt(ops, limit, a, b);
  }

  lemma OneFolds(ops: Ops, limit: nat, a: int)
    requires Arithmetic(ops, limit) && Ast.FitsI128(a)
    ensures ops.unary(Instruction(NEGATE, []), Int(a)) == Some(Int(-a))
  {
    hide FitsSigned, ComputesPair, Arithmetic;
    WideFits(a);
    Operators.PairAt(ops, limit, a, a);
  }

  lemma EqualityFolds(ops: Ops, limit: nat, v: Value, w: Value)
    requires Arithmetic(ops, limit) && SameKind(v, w) && forall x, y :: ComparesTruths(ops, x, y)
    ensures ops.binary(EQUAL, v, w) == Some(Bool(v == w)) && ops.binary(NOTEQUAL, v, w) == Some(Bool(v != w))
  {
    hide FitsSigned, Quotient, Remainder, Conjunction, Disjunction, Difference, Pow2, Arithmetic, Sized;
    if v.Int? {
      WideFits(v.n);
      WideFits(w.n);
      Operators.PairAt(ops, limit, v.n, w.n);
    } else {
      assert ComparesTruths(ops, v.b, w.b);
    }
  }

  lemma WideFits(n: int)
    requires -0x8000_0000_0000_0000_0000_0000_0000_0000 <= n <= 0x8000_0000_0000_0000_0000_0000_0000_0000
    ensures FitsSigned(n, 32) && FitsSigned(-n, 32)
  {
    WidthRanges();
    HalfRangeGrows(17, 32);
    assert HalfRange(17) == 256 * HalfRange(16);
  }

  lemma {:induction false} HalfRangeGrows(a: nat, b: nat)
    requires 0 < a <= b
    ensures HalfRange(a) <= HalfRange(b)
    decreases b
  {
    if a < b {
      HalfRangeGrows(a, b - 1);
    }
  }

  lemma SmallFits(a: int, b: int)
    requires FitsI64Pair(a, b)
    ensures FitsSigned(a, 32) && FitsSigned(b, 32) && FitsSigned(a + b, 32) && FitsSigned(a - b, 32) && FitsSigned(a * b, 32)
    ensures b != 0 ==> FitsSigned(Quotient(a, b), 32)
  {
    hide FitsSigned, Quotient;
    WideFits(a);
    WideFits(b);
    WideFits(a + b);
    WideFits(a - b);
    ProductFits(a, b);
    if b != 0 {
      QuotientSmall(a, b);
      WideFits(Quotient(a, b));
    }
  }

  lemma QuotientSmall(a: int, b: int)
    requires FitsI64Pair(a, b) && b != 0
    ensures -0x8000_0000_0000_0000 <= Quotient(a, b) <= 0x8000_0000_0000_0000
  {
    DivBound(Magnitude(a), Magnitude(b));
  }

  lemma ProductFits(a: int, b: int)
    requires FitsI64Pair(a, b)
    ensures FitsSigned(a * b, 32)
  {
    hide FitsSigned;
    ProductBound(Magnitude(a), Magnitude(b));
    SignedProduct(a, b);
    WideFits(a * b);
  }

  lemma SignedProduct(a: int, b: int)
    ensures a * b == Magnitude(a) * Magnitude(b) || a * b == -(Magnitude(a) * Magnitude(b))
  {
  }

  lemma ProductBound(a: nat, b: nat)
    requires a <= 0x8000_0000_0000_0000 && b <= 0x8000_0000_0000_0000
    ensures a * b <= 0x4000_0000_0000_0000_0000_0000_0000_0000
  {
    MulMonotone(a, b, 0x8000_0000_0000_0000);
    MulMonotone(0x8000_0000_0000_0000, a, 0x8000_0000_0000_0000);
  }

  lemma MulMonotone(a: nat, b: nat, c: nat)
    requires b <= c
    ensures a * b <= a * c
  {
  }

  lemma {:induction false} ConstFound(instrs: Instrs, n: nat, q: nat, lit: Ast.Literal)
    requires LocalSsa(instrs) && q < n <= |instrs| && instrs[q].1 == Const(lit)
    ensures ConstOf(ConstsOf(instrs, n), Value(instrs[q].0)) == Some(lit)
  {
    hide Operands;
    if q < n - 1 {
      ConstFound(instrs, n - 1, q, lit);
      assert instrs[q].0 != instrs[n - 1].0;
    }
  }

  /** An operation on two constants of its block becomes the constant it folds to. */
  lemma {:induction false} OperationFolds(instrs: Instrs, p: nat, op: Ast.BinaryOp, j: nat, k: nat, x: Ast.Literal, y: Ast.Literal)
    requires LocalSsa(instrs) && p < |instrs| && j < |instrs| && k < |instrs|
    requires instrs[p].1 == Binary(op, Value(instrs[j].0), Value(instrs[k].0)) && instrs[j].1 == Const(x) && instrs[k].1 == Const(y)
    ensures FoldInstrs(instrs)[p] == (instrs[p].0, match FoldBinary(op, x, y) case Folded(lit) => Const(lit) case _ => instrs[p].1)
  {
    hide LocalSsa, FoldBinary, ConstsOf, ConstOf;
    ConstFound(instrs, |instrs|, j, x);
    ConstFound(instrs, |instrs|, k, y);
  }

  // ----- copies -----

  predicate CopiedIn(instrs: Instrs, id: nat) { exists q :: 0 <= q < |instrs| && instrs[q].0 == id && instrs[q].1.Copy? }

  lemma {:induction false} CopiesHolds(instrs: Instrs, n: nat, id: nat)
    requires LocalSsa(instrs) && n <= |instrs|
    ensures id in Copies(instrs, n) <==> exists q :: 0 <= q < n && instrs[q].0 == id && instrs[q].1.Copy?
    ensures forall q :: 0 <= q < n && instrs[q].0 == id && instrs[q].1.Copy? ==> Copies(instrs, n)[id] == instrs[q].1.value
  {
    hide Operands;
    if n > 0 {
      CopiesHolds(instrs, n - 1, id);
    }
  }

  /**
   * After copy propagation every operand that a copy of the block defines is what that copy
   * copies, and every other operand is the same; so too for the terminator.
   */
  lemma {:induction false} CopyReplaces(b: BasicBlock, p: nat, k: nat)
    requires LocalSsa(b.instrs) && p < |b.instrs| && k < |Operands(b.instrs[p].1)|
    ensures |Operands(PropagateBlock(b).instrs[p].1)| == |Operands(b.instrs[p].1)| && PropagateBlock(b).instrs[p].0 == b.instrs[p].0
    ensures Replaced(b.instrs, Operands(b.instrs[p].1)[k], Operands(PropagateBlock(b).instrs[p].1)[k])
  {
    hide Operands, Rewrite, LocalSsa, RewriteTerm;
    var s := Copies(b.instrs, |b.instrs|);
    RewriteOperands(b.instrs[p].1, s);
    ReplacedBy(b.instrs, Operands(b.instrs[p].1)[k]);
  }

  lemma {:induction false} CopyReplacesAtEnd(b: BasicBlock, k: nat)
    requires LocalSsa(b.instrs) && k < |TermOperands(b.term)|
    ensures |TermOperands(PropagateBlock(b).term)| == |TermOperands(b.term)|
    ensures Replaced(b.instrs, TermOperands(b.term)[k], TermOperands(PropagateBlock(b).term)[k])
  {
    hide LocalSsa, RewriteInstrs, Copies, Replaced, RewriteTerm, TermOperands;
    RewriteEnd(b.term, Copies(b.instrs, |b.instrs|));
    ReplacedBy(b.instrs, TermOperands(b.term)[k]);
  }

  lemma {:induction false} RewriteEnd(t: Terminator, s: Subst)
    ensures TermOperands(RewriteTerm(t, s)) == ReplaceAll(TermOperands(t), s)
  {
    hide Replace;
    match t
    case Branch(c, a, aArgs, b, bArgs) =>
      assert ReplaceAll([c] + aArgs + bArgs, s) == [Replace(c, s)] + ReplaceAll(aArgs, s) + ReplaceAll(bArgs, s);
    case _ =>
  }

  predicate Replaced(instrs: Instrs, v: ValueRef, w: ValueRef) {
    && (forall q :: 0 <= q < |instrs| && v == Value(instrs[q].0) && instrs[q].1.Copy? ==> w == instrs[q].1.value)
    && (v.Param? || !CopiedIn(instrs, v.id) ==> w == v)
  }

  lemma {:induction false} ReplacedBy(instrs: Instrs, v: ValueRef)
    requires LocalSsa(instrs)
    ensures Replaced(instrs, v, Replace(v, Copies(instrs, |instrs|)))
  {
    hide LocalSsa, Copies;
    if v.Value? {
      CopiesHolds(instrs, |instrs|, v.id);
    }
  }

  // ----- common subexpressions -----

  /** Computations that are made only once in a block; array and struct literals are not among them. */
  predicate Shared(i: Instr) {
    match i
    case Const(_) => true
    case Unary(_, _) => true
    case Binary(_, _, _) => true
    case IsNull(_, _) => true
    case Cast(_, _) => true
    case StructFieldGet(_, _) => true
    case Pure(_, _) => true
    case _ => false
  }

  /** The walk replaced the instruction at `p` by a copy. */
  predicate Dropped(instrs: Instrs, p: nat)
    requires p < |instrs|
  {
    var c := CseUpTo(instrs, p);
    Keyed(instrs[p].1) && Rewrite(instrs[p].1, c.subst) in c.table
  }

  lemma {:induction false} CseAtIs(instrs: Instrs, p: nat)
    requires p < |instrs|
    ensures var (c, i) := (CseUpTo(instrs, p), instrs[p].1);
            CseAt(instrs, p) ==
            (instrs[p].0, if !Keyed(i) then i else if Dropped(instrs, p) then Copy(Value(c.table[Rewrite(i, c.subst)])) else Rewrite(i, c.subst))
    ensures var (c, c', i) := (CseUpTo(instrs, p), CseUpTo(instrs, p + 1), instrs[p].1);
            && c'.subst == (if Dropped(instrs, p) then c.subst[instrs[p].0 := Value(c.table[Rewrite(i, c.subst)])] else c.subst)
            && c'.table == (if Keyed(i) && !Dropped(instrs, p) then c.table[Rewrite(i, c.subst) := instrs[p].0] else c.table)
  {
    hide Rewrite;
  }

  /** Substituted ids are those of replaced instructions; substitutes and holders are kept ones. */
  ghost predicate WalkFacts(instrs: Instrs, p: nat)
    requires p <= |instrs|
  {
    var c := CseUpTo(instrs, p);
    && (forall id :: id in c.subst ==> HasDropped(instrs, p, id))
    && (forall q :: 0 <= q < p && Dropped(instrs, q) ==> instrs[q].0 in c.subst)
    && (forall id :: id in c.subst ==> c.subst[id].Value? && HasKept(instrs, p, c.subst[id].id))
    && (forall key :: key in c.table ==> HasKept(instrs, p, c.table[key]))
    && (forall q :: 0 <= q < p && Keyed(instrs[q].1) && !Dropped(instrs, q) ==> HeldBy(c, CseAt(instrs, q).1, instrs[q].0))
  }

  predicate HasDropped(instrs: Instrs, p: nat, id: nat)
    requires p <= |instrs|
  {
    exists q :: 0 <= q < p && Dropped(instrs, q) && instrs[q].0 == id
  }

  predicate HasKept(instrs: Instrs, p: nat, id: nat)
    requires p <= |instrs|
  {
    exists q :: 0 <= q < p && !Dropped(instrs, q) && instrs[q].0 == id
  }

  predicate HeldBy(c: Cse, i: Instr, id: nat) { i in c.table && c.table[i] == id }

  lemma {:induction false} WalkHolds(instrs: Instrs, p: nat)
    requires p <= |instrs|
    ensures WalkFacts(instrs, p)
    decreases p
  {
    hide Rewrite, Dropped, CseAt, CseUpTo, Keyed;
    if p == 0 {
      WalkStart(instrs);
    } else {
      WalkHolds(instrs, p - 1);
      WalkStep(instrs, p - 1);
    }
  }

  lemma WalkStart(instrs: Instrs)
    ensures WalkFacts(instrs, 0)
  {
  }

  lemma {:induction false} WalkStep(instrs: Instrs, p: nat)
    requires p < |instrs| && WalkFacts(instrs, p)
    ensures WalkFacts(instrs, p + 1)
  {
    hide Rewrite, Dropped, CseAt, CseUpTo, Keyed;
    CseAtIs(instrs, p);
    DroppedHas(instrs, p);
    var c, c' := CseUpTo(instrs, p), CseUpTo(instrs, p + 1);
    forall id | HasDropped(instrs, p, id) ensures HasDropped(instrs, p + 1, id) {
    }
    forall id | HasKept(instrs, p, id) ensures HasKept(instrs, p + 1, id) {
    }
    assert Dropped(instrs, p) ==> HasDropped(instrs, p + 1, instrs[p].0);
    assert !Dropped(instrs, p) ==> HasKept(instrs, p + 1, instrs[p].0);
  }

  lemma DroppedHas(instrs: Instrs, p: nat)
    requires p < |instrs|
    ensures Dropped(instrs, p) <==> Keyed(instrs[p].1) && Rewrite(instrs[p].1, CseUpTo(instrs, p).subst) in CseUpTo(instrs, p).table
  {
  }

  /** The final rewrite leaves a kept computation alone. */
  lemma {:induction false} KeptIsFinal(instrs: Instrs, p: nat)
    requires LocalSsa(instrs) && p < |instrs| && Keyed(instrs[p].1) && !Dropped(instrs, p)
    ensures Rewrite(CseAt(instrs, p).1, CseUpTo(instrs, |instrs|).subst) == CseAt(instrs, p).1
  {
    hide Rewrite, Dropped, CseAt, CseUpTo, Keyed, Operands, LocalSsa;
    CseAtIs(instrs, p);
    var s, last := CseUpTo(instrs, p).subst, CseUpTo(instrs, |instrs|).subst;
    var i, key := instrs[p].1, Rewrite(instrs[p].1, s);
    RewriteOperands(i, s);
    forall k | 0 <= k < |Operands(key)| ensures Replace(Operands(key)[k], last) == Operands(key)[k] {
      UsedEarlier(instrs, p, k);
      FinalOperand(instrs, p, Operands(i)[k]);
    }
    RewriteSame(key, last);
  }

  lemma UsedEarlier(instrs: Instrs, p: nat, k: nat)
    requires LocalSsa(instrs) && p < |instrs| && k < |Operands(instrs[p].1)|
    ensures NotDefinedFrom(instrs, p, Operands(instrs[p].1)[k])
  {
    hide Operands;
    assert UsesEarlier(instrs, p);
  }

  lemma {:induction false} FinalOperand(instrs: Instrs, p: nat, u: ValueRef)
    requires LocalSsa(instrs) && p < |instrs| && NotDefinedFrom(instrs, p, u)
    ensures Replace(Replace(u, CseUpTo(instrs, p).subst), CseUpTo(instrs, |instrs|).subst) == Replace(u, CseUpTo(instrs, p).subst)
  {
    hide Rewrite, Dropped, CseAt, CseUpTo, Keyed, Operands;
    WalkHolds(instrs, p);
    WalkHolds(instrs, |instrs|);
    var v, last := Replace(u, CseUpTo(instrs, p).subst), CseUpTo(instrs, |instrs|).subst;
    if u.Value? && HasDropped(instrs, |instrs|, u.id) {
      DroppedInSubst(instrs, p, u.id);
    }
    if v.Value? && HasDropped(instrs, |instrs|, v.id) {
      NotBoth(instrs, p, v.id);
    }
  }

  lemma {:induction false} DroppedInSubst(instrs: Instrs, p: nat, id: nat)
    requires p <= |instrs| && WalkFacts(instrs, p) && NotDefinedFrom(instrs, p, Value(id)) && HasDropped(instrs, |instrs|, id)
    ensures id in CseUpTo(instrs, p).subst
  {
    hide Dropped, CseAt, CseUpTo, Keyed;
    var q :| 0 <= q < |instrs| && Dropped(instrs, q) && instrs[q].0 == id;
  }

  lemma {:induction false} NotBoth(instrs: Instrs, p: nat, id: nat)
    requires LocalSsa(instrs) && p <= |instrs| && HasDropped(instrs, |instrs|, id)
    ensures !HasKept(instrs, p, id)
  {
    hide Dropped, Operands;
  }

  lemma {:induction false} RewriteSame(i: Instr, s: Subst)
    requires forall k :: 0 <= k < |Operands(i)| ==> Replace(Operands(i)[k], s) == Operands(i)[k]
    ensures Rewrite(i, s) == i
  {
    hide Replace;
    var vs := Operands(i);
    assert ReplaceAll(vs, s) == vs;
    match i
    case Copy(v) => assert vs[0] == v;
    case Unary(_, v) => assert vs[0] == v;
    case Binary(_, l, r) => assert vs[0] == l && vs[1] == r;
    case IsNull(v, _) => assert vs[0] == v;
    case Cast(v, _) => assert vs[0] == v;
    case StructFieldGet(v, _) => assert vs[0] == v;
    case MapCompound(_, key, v) => assert vs[0] == key && vs[1] == v;
    case _ =>
  }

  lemma {:induction false} CseBlockAt(b: BasicBlock, p: nat)
    requires p < |b.instrs|
    ensures |CseBlock(b).instrs| == |b.instrs|
    ensures CseBlock(b).instrs[p] == (b.instrs[p].0, Rewrite(CseAt(b.instrs, p).1, CseUpTo(b.instrs, |b.instrs|).subst))
  {
    hide Rewrite, CseAt, CseUpTo, RewriteTerm;
    CseFinal(b.instrs, p);
  }

  lemma {:induction false} RewriteKind(i: Instr, s: Subst)
    ensures Shared(Rewrite(i, s)) == Shared(i) && Keyed(i) == (Shared(i) || i.Copy?) && Rewrite(i, s).Copy? == i.Copy?
    ensures Rewrite(i, s).ArrayPack? == i.ArrayPack? && Rewrite(i, s).StructPack? == i.StructPack? && Rewrite(i, s).StorageGet? == i.StorageGet?
    ensures Rewrite(i, s).Emit? == i.Emit? && Rewrite(i, s).MapCompound? == i.MapCompound? && Rewrite(i, s).Call? == i.Call?
  {
    hide ReplaceAll, Replace;
  }

  /** After the pass no computation is left twice in a block. */
  lemma {:induction false} ComputedOnce(b: BasicBlock, p: nat, q: nat)
    requires LocalSsa(b.instrs) && p < q < |b.instrs|
    ensures |CseBlock(b).instrs| == |b.instrs|
    ensures Shared(CseBlock(b).instrs[p].1) ==> CseBlock(b).instrs[p].1 != CseBlock(b).instrs[q].1
  {
    hide Rewrite, CseAt, CseUpTo, Keyed, Shared, CseBlock, Operands, Dropped;
    CseBlockAt(b, p);
    CseBlockAt(b, q);
    var out := CseBlock(b).instrs;
    if Shared(out[p].1) && out[p].1 == out[q].1 {
      StillShared(b.instrs, p);
      StillShared(b.instrs, q);
      KeptIsFinal(b.instrs, p);
      KeptIsFinal(b.instrs, q);
      KeptDiffer(b.instrs, p, q);
    }
  }

  lemma {:induction false} KeptDiffer(instrs: Instrs, p: nat, q: nat)
    requires LocalSsa(instrs) && p < q < |instrs| && Keyed(instrs[p].1) && !Dropped(instrs, p) && Keyed(instrs[q].1) && !Dropped(instrs, q)
    ensures CseAt(instrs, p).1 != CseAt(instrs, q).1
  {
    hide Rewrite, CseAt, CseUpTo, Keyed, Dropped, Operands;
    WalkHolds(instrs, |instrs|);
    var c := CseUpTo(instrs, |instrs|);
    assert HeldBy(c, CseAt(instrs, p).1, instrs[p].0) && HeldBy(c, CseAt(instrs, q).1, instrs[q].0);
  }

  lemma {:induction false} StillShared(instrs: Instrs, p: nat)
    requires p < |instrs| && Shared(Rewrite(CseAt(instrs, p).1, CseUpTo(instrs, |instrs|).subst))
    ensures Keyed(instrs[p].1) && !Dropped(instrs, p)
  {
    hide Rewrite, CseAt, CseUpTo, Keyed, Shared, Dropped;
    CseAtIs(instrs, p);
    RewriteKind(CseAt(instrs, p).1, CseUpTo(instrs, |instrs|).subst);
    RewriteKind(instrs[p].1, CseUpTo(instrs, p).subst);
    CopyNotShared();
  }

  lemma CopyNotShared()
    ensures forall v :: !Shared(Copy(v))
  {
  }

  /** What builds an array or struct, reads storage or acts is never merged with another. */
  lemma {:induction false} NeverMerged(b: BasicBlock, p: nat)
    requires p < |b.instrs|
    ensures |CseBlock(b).instrs| == |b.instrs|
    ensures var (i, j) := (b.instrs[p].1, CseBlock(b).instrs[p].1);
            && (i.ArrayPack? ==> j.ArrayPack?) && (i.StructPack? ==> j.StructPack?) && (i.StorageGet? ==> j.StorageGet?)
            && (i.Emit? ==> j.Emit?) && (i.MapCompound? ==> j.MapCompound?) && (i.Call? ==> j.Call?)
  {
    hide Rewrite, CseAt, CseUpTo, Keyed, Shared, CseBlock, Dropped;
    CseBlockAt(b, p);
    CseAtIs(b.instrs, p);
    RewriteKind(b.instrs[p].1, CseUpTo(b.instrs, p).subst);
    RewriteKind(CseAt(b.instrs, p).1, CseUpTo(b.instrs, |b.instrs|).subst);
    SharedKinds(b.instrs[p].1);
  }

  lemma SharedKinds(i: Instr)
    ensures Shared(i) || i.Copy? ==> !i.ArrayPack? && !i.StructPack? && !i.StorageGet? && !i.Emit? && !i.MapCompound? && !i.Call?
  {
  }
}
