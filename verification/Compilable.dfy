/**
 * Exactly which expressions, statements and functions compile, and to how many bytes: names in
 * scope, readable literals, supported forms, at most 255 slots, and jumps within 32 bits.
 */
module Compilable {
  import opened Prelude
  import opened Bytecode
  import opened Ast
  import opened CodegenSpec
  import opened Encodings

  // ----- sizes -----

  function IntSize(n: int): nat {
    if -1 <= n <= 16 then 1
    else if -0x80 <= n <= 0x7F then 2
    else if -0x8000 <= n <= 0x7FFF then 3
    else if -0x8000_0000 <= n <= 0x7FFF_FFFF then 5
    else if -0x8000_0000_0000_0000 <= n <= 0x7FFF_FFFF_FFFF_FFFF then 9
    else 17
  }

  function DataSize(n: nat): nat { n + if n < 0x100 then 2 else if n < 0x1_0000 then 3 else 5 }

  function LiteralSize(lit: Literal): nat {
    match lit
    case NullLiteral => 1
    case BoolLiteral(_) => 1
    case IntLiteral(text) => if ParseIntLiteral(text).Some? then IntSize(ParseIntLiteral(text).value) else 0
    case StringLiteral(data) => DataSize(|data|)
    case BufferLiteral(data) => DataSize(|data|)
  }

  /** A load or a store of the variable. */
  function NameSize(env: Env, name: string): nat {
    match Resolve(env, name)
    case Ok(slot) => if slot.index < 7 then 1 else 2
    case Err(_) => 0
  }

  predicate NullCompared(op: BinaryOp, left: Expr, right: Expr) {
    (op == Eq || op == Ne) && (IsNullLiteral(left) || IsNullLiteral(right))
  }

  /** Bytes of the code of an expression. */
  function ExprSize(env: Env, e: Expr): nat {
    match e
    case LiteralExpr(lit) => LiteralSize(lit)
    case Ident(name) => NameSize(env, name)
    case SelfExpr => NameSize(env, "self")
    case Paren(inner) => ExprSize(env, inner)
    case UnaryExpr(op, operand) => ExprSize(env, operand) + if op == Positive then 0 else 1
    case Cast(inner, _) => ExprSize(env, inner) + 2
    case BinaryExpr(op, left, right) =>
      if op == And then ExprSize(env, left) + 5 + ExprSize(env, right) + 5 + 1
      else if op == Or then ExprSize(env, left) + 1 + 5 + 1 + ExprSize(env, right)
      else if NullCompared(op, left, right) then
        ExprSize(env, if IsNullLiteral(left) then right else left) + if op == Ne then 2 else 1
      else ExprSize(env, left) + ExprSize(env, right) + 1
    case Index(base, index) => ExprSize(env, base) + ExprSize(env, index) + 1
    case AssignExpr(Ident(name), aop, value) =>
      if aop == Assign then ExprSize(env, value) + 1 + NameSize(env, name)
      else NameSize(env, name) + ExprSize(env, value) + 1 + 1 + NameSize(env, name)
    case _ => 0
  }

  // ----- expressions -----

  predicate LiteralFits(lit: Literal) {
    match lit
    case NullLiteral => true
    case BoolLiteral(_) => true
    case IntLiteral(text) => ParseIntLiteral(text).Some?
    case StringLiteral(data) => |data| < 0x1_0000_0000
    case BufferLiteral(data) => |data| < 0x1_0000_0000
  }

  /** The name is in scope, in one of the first 256 slots. */
  predicate InScope(env: Env, name: string) { Resolve(env, name).Ok? && Resolve(env, name).value.index <= 255 }

  /** Types a value can be converted to. */
  predicate Castable(ty: Type) { !ty.VoidType? && !ty.AnyType? && !ty.NamedType? }

  /** A jump forward over this many bytes, its own included. */
  predicate Reachable(distance: nat) { distance <= 0x7FFF_FFFF }

  predicate ExprCompiles(env: Env, e: Expr) {
    match e
    case LiteralExpr(lit) => LiteralFits(lit)
    case Ident(name) => InScope(env, name)
    case SelfExpr => InScope(env, "self")
    case Paren(inner) => ExprCompiles(env, inner)
    case UnaryExpr(_, operand) => ExprCompiles(env, operand)
    case Cast(inner, ty) => ExprCompiles(env, inner) && Castable(ty)
    case BinaryExpr(op, left, right) =>
      if op == And then ExprCompiles(env, left) && ExprCompiles(env, right) && Reachable(5 + ExprSize(env, right) + 5)
      else if op == Or then ExprCompiles(env, left) && ExprCompiles(env, right) && Reachable(5 + 1 + ExprSize(env, right))
      else if NullCompared(op, left, right) then ExprCompiles(env, if IsNullLiteral(left) then right else left)
      else ExprCompiles(env, left) && ExprCompiles(env, right)
    case Index(base, index) => ExprCompiles(env, base) && ExprCompiles(env, index)
    case AssignExpr(target, _, value) => target.Ident? && InScope(env, target.name) && ExprCompiles(env, value)
    case Member(_, _) => false
    case Call(_, _) => false
    case StructLit(_, _) => false
    case MapLit(_, _) => false
    case ArrayLit(_, _) => false
  }

  lemma {:induction false} LiteralBytes(lit: Literal)
    ensures LiteralCode(lit).Ok? <==> LiteralFits(lit)
    ensures LiteralCode(lit).Ok? ==> EncodedLen(LiteralCode(lit).value) == LiteralSize(lit)
  {
    hide ParseIntLiteral, PushInt, PushData;
    LiteralInstruction(lit);
    match lit
    case IntLiteral(text) =>
      if ParseIntLiteral(text).Some? {
        PushIntNarrowest(ParseIntLiteral(text).value);
      }
    case StringLiteral(data) => PushDataShortest(data);
    case BufferLiteral(data) => PushDataShortest(data);
    case _ =>
  }

  lemma VariableBytes(env: Env, name: string, store: bool)
    ensures VariableCode(env, name, store).Ok? <==> InScope(env, name)
    ensures VariableCode(env, name, store).Ok? ==> EncodedLen(VariableCode(env, name, store).value) == NameSize(env, name)
  {
    hide ResolveLocal;
  }

  lemma JumpBytes(op: byte, distance: nat)
    ensures Jump(op, distance).Ok? <==> Reachable(distance)
    ensures Jump(op, distance).Ok? ==> |Jump(op, distance).value.operands| == 4
  {
  }

  lemma Bytes1(i: Instruction)
    ensures ByteLen([i]) == 1 + |i.operands|
  {
    assert [i][1..] == [];
  }

  lemma Bytes2(a: Code, i: Instruction)
    ensures ByteLen(a + [i]) == ByteLen(a) + 1 + |i.operands|
  {
    ByteLenAppend(a, [i]);
    Bytes1(i);
  }

  lemma BytesFirst(i: Instruction, a: Code)
    ensures ByteLen([i] + a) == 1 + |i.operands| + ByteLen(a)
  {
    ByteLenAppend([i], a);
    Bytes1(i);
  }

  lemma AndBytes(l: Code, r: Code)
    ensures AndCode(l, r).Ok? <==> Reachable(5 + ByteLen(r) + 5)
    ensures AndCode(l, r).Ok? ==> ByteLen(AndCode(l, r).value) == ByteLen(l) + 5 + ByteLen(r) + 5 + 1
  {
    hide ByteLen, Jump;
    JumpBytes(JMPIFNOT_L, 5 + ByteLen(r) + 5);
    JumpBytes(JMP_L, 6);
    if AndCode(l, r).Ok? {
      var toFalse, toEnd := Jump(JMPIFNOT_L, 5 + ByteLen(r) + 5).value, Jump(JMP_L, 6).value;
      ByteLenAppend(l, [toFalse] + (r + ([toEnd] + [Op(PUSHF)])));
      BytesFirst(toFalse, r + ([toEnd] + [Op(PUSHF)]));
      ByteLenAppend(r, [toEnd] + [Op(PUSHF)]);
      BytesFirst(toEnd, [Op(PUSHF)]);
      Bytes1(Op(PUSHF));
    }
  }

  lemma OrBytes(l: Code, r: Code)
    ensures OrCode(l, r).Ok? <==> Reachable(5 + 1 + ByteLen(r))
    ensures OrCode(l, r).Ok? ==> ByteLen(OrCode(l, r).value) == ByteLen(l) + 1 + 5 + 1 + ByteLen(r)
  {
    hide ByteLen, Jump;
    JumpBytes(JMPIF_L, 6 + ByteLen(r));
    if OrCode(l, r).Ok? {
      var toEnd := Jump(JMPIF_L, 6 + ByteLen(r)).value;
      ByteLenAppend(l, [Op(DUP)] + ([toEnd] + ([Op(DROP)] + r)));
      BytesFirst(Op(DUP), [toEnd] + ([Op(DROP)] + r));
      BytesFirst(toEnd, [Op(DROP)] + r);
      BytesFirst(Op(DROP), r);
    }
  }

  lemma NullTestBytes(op: BinaryOp, c: Code)
    ensures ByteLen(NullTestCode(op, c)) == ByteLen(c) + if op == Ne then 2 else 1
  {
    hide ByteLen;
    if op == Ne {
      ByteLenAppend(c, [Op(ISNULL)] + [Op(NOT)]);
      BytesFirst(Op(ISNULL), [Op(NOT)]);
      Bytes1(Op(NOT));
    } else {
      Bytes2(c, Op(ISNULL));
    }
  }

  lemma OperatorBytes(l: Code, r: Code, i: Instruction)
    ensures ByteLen(l + (r + [i])) == ByteLen(l) + ByteLen(r) + 1 + |i.operands|
  {
    hide ByteLen;
    ByteLenAppend(l, r + [i]);
    Bytes2(r, i);
  }

  lemma AssignBytes(c: Code, op: byte, st: Instruction)
    ensures ByteLen(c + ([Op(DUP)] + [st])) == ByteLen(c) + 1 + EncodedLen(st)
    ensures ByteLen(c + ([Op(op)] + ([Op(DUP)] + [st]))) == ByteLen(c) + 1 + 1 + EncodedLen(st)
  {
    hide ByteLen;
    ByteLenAppend(c, [Op(DUP)] + [st]);
    ByteLenAppend(c, [Op(op)] + ([Op(DUP)] + [st]));
    BytesFirst(Op(op), [Op(DUP)] + [st]);
    BytesFirst(Op(DUP), [st]);
    Bytes1(st);
  }

  /** An expression compiles exactly when it is of a supported form with names, literals and jumps in range; then its size is known. */
  lemma {:induction false} ExprCompilesExactlyWhen(env: Env, e: Expr)
    ensures ExprCode(env, e).Ok? <==> ExprCompiles(env, e)
    ensures ExprCode(env, e).Ok? ==> ByteLen(ExprCode(env, e).value) == ExprSize(env, e)
    decreases e
  {
    hide LiteralCode, VariableCode, AndCode, OrCode, NullTestCode, ByteLen, NameSize, InScope, LiteralSize, LiteralFits, Reachable;
    match e {
      case LiteralExpr(lit) => LeafBytes(env, e);
      case Ident(name) => LeafBytes(env, e);
      case SelfExpr => LeafBytes(env, e);
      case Paren(inner) => ExprCompilesExactlyWhen(env, inner);
      case UnaryExpr(op, operand) =>
        ExprCompilesExactlyWhen(env, operand);
        if ExprCode(env, operand).Ok? {
          Bytes2(ExprCode(env, operand).value, Op(UnaryOpCode(op)));
        }
      case Cast(inner, ty) =>
        ExprCompilesExactlyWhen(env, inner);
        if ExprCode(env, inner).Ok? && StackItemType(ty).Some? {
          Bytes2(ExprCode(env, inner).value, Instruction(CONVERT, [StackItemType(ty).value]));
        }
      case BinaryExpr(_, _, _) => BinaryBytes(env, e);
      case Index(base, index) =>
        ExprCompilesExactlyWhen(env, base);
        ExprCompilesExactlyWhen(env, index);
        if ExprCode(env, base).Ok? && ExprCode(env, index).Ok? {
          OperatorBytes(ExprCode(env, base).value, ExprCode(env, index).value, Op(PICKITEM));
        }
      case AssignExpr(_, _, _) => AssignmentBytes(env, e);
      case _ =>
    }
  }

  lemma {:induction false} LeafBytes(env: Env, e: Expr)
    requires e.LiteralExpr? || e.Ident? || e.SelfExpr?
    ensures ExprCode(env, e).Ok? <==> ExprCompiles(env, e)
    ensures ExprCode(env, e).Ok? ==> ByteLen(ExprCode(env, e).value) == ExprSize(env, e)
  {
    hide LiteralCode, VariableCode, ByteLen, NameSize, InScope, LiteralSize, LiteralFits;
    match e
    case LiteralExpr(lit) =>
      LiteralBytes(lit);
      if LiteralCode(lit).Ok? {
        Bytes1(LiteralCode(lit).value);
      }
    case Ident(name) => NameBytes(env, name);
    case SelfExpr => NameBytes(env, "self");
  }

  lemma NameBytes(env: Env, name: string)
    ensures VariableCode(env, name, false).Ok? <==> InScope(env, name)
    ensures VariableCode(env, name, false).Ok? ==> ByteLen([VariableCode(env, name, false).value]) == NameSize(env, name)
  {
    hide VariableCode, ByteLen, NameSize, InScope;
    VariableBytes(env, name, false);
    if VariableCode(env, name, false).Ok? {
      Bytes1(VariableCode(env, name, false).value);
    }
  }

  lemma {:induction false} BinaryBytes(env: Env, e: Expr)
    requires e.BinaryExpr?
    ensures ExprCode(env, e).Ok? <==> ExprCompiles(env, e)
    ensures ExprCode(env, e).Ok? ==> ByteLen(ExprCode(env, e).value) == ExprSize(env, e)
    decreases e, 0
  {
    hide ExprCode, ExprCompiles, ExprSize, NullCompared;
    if e.bop != And && e.bop != Or && NullCompared(e.bop, e.left, e.right) {
      ExprCompilesExactlyWhen(env, if IsNullLiteral(e.left) then e.right else e.left);
      ComparedBytes(env, e);
    } else {
      ExprCompilesExactlyWhen(env, e.left);
      ExprCompilesExactlyWhen(env, e.right);
      TwoSidedBytes(env, e);
    }
  }

  /** What is known of an operand's code. */
  predicate Agrees(env: Env, e: Expr) {
    (ExprCode(env, e).Ok? <==> ExprCompiles(env, e)) && (ExprCode(env, e).Ok? ==> ByteLen(ExprCode(env, e).value) == ExprSize(env, e))
  }

  lemma {:induction false} ComparedBytes(env: Env, e: Expr)
    requires e.BinaryExpr? && e.bop != And && e.bop != Or && NullCompared(e.bop, e.left, e.right)
    requires Agrees(env, if IsNullLiteral(e.left) then e.right else e.left)
    ensures Agrees(env, e)
  {
    hide NullTestCode, ByteLen;
    var other := if IsNullLiteral(e.left) then e.right else e.left;
    if ExprCode(env, other).Ok? {
      NullTestBytes(e.bop, ExprCode(env, other).value);
    }
  }

  lemma {:induction false} TwoSidedBytes(env: Env, e: Expr)
    requires e.BinaryExpr? && Agrees(env, e.left) && Agrees(env, e.right)
    requires e.bop == And || e.bop == Or || !NullCompared(e.bop, e.left, e.right)
    ensures Agrees(env, e)
  {
    hide AndCode, OrCode, NullTestCode, ByteLen, Reachable, BinaryOpCode;
    if ExprCode(env, e.left).Ok? && ExprCode(env, e.right).Ok? {
      var l, r := ExprCode(env, e.left).value, ExprCode(env, e.right).value;
      AndBytes(l, r);
      OrBytes(l, r);
      OperatorBytes(l, r, Op(BinaryOpCode(e.bop)));
    }
  }

  lemma {:induction false} AssignmentBytes(env: Env, e: Expr)
    requires e.AssignExpr?
    ensures ExprCode(env, e).Ok? <==> ExprCompiles(env, e)
    ensures ExprCode(env, e).Ok? ==> ByteLen(ExprCode(env, e).value) == ExprSize(env, e)
    decreases e, 0
  {
    hide VariableCode, ByteLen, NameSize, InScope, AssignOpCode;
    if e.target.Ident? {
      var name, op := e.target.name, AssignOpCode(e.aop);
      VariableBytes(env, name, false);
      VariableBytes(env, name, true);
      ExprCompilesExactlyWhen(env, e.value);
      if VariableCode(env, name, true).Ok? && ExprCode(env, e.value).Ok? {
        var c, ld, st := ExprCode(env, e.value).value, VariableCode(env, name, false).value, VariableCode(env, name, true).value;
        AssignBytes(c, op, st);
        BytesFirst(ld, c + ([Op(op)] + ([Op(DUP)] + [st])));
      }
    }
  }
}
