/**
 * Structured codegen emits scripts the layout passes may edit: every patched jump leads to an
 * instruction of its own expression, statement or routine, or to its end.
 */
module CompiledScript {
  import opened Prelude
  import opened Bytecode
  import opened Disasm
  import opened Vm
  import opened Ast
  import opened Semantics
  import opened CodegenSpec
  import opened CodegenSteps
  import opened CodegenEnv
  import opened CodegenStmt
  import opened CodegenFunction
  import opened Layout
  import opened Shorten
  import opened Peephole
  import opened PeepholeCalls
  import opened PeepholeFixpoint
  import opened PeepholeLayout

  // ----- good scripts from good pieces -----

  lemma OffsetPiece(s: Script, at: nat, piece: Script, m: nat)
    requires at + |piece| <= |s| && s[at..at + |piece|] == piece && m <= |piece|
    ensures Offset(s, at + m) == Offset(s, at) + Offset(piece, m)
  {
    assert s[..at + m] == s[..at] + piece[..m];
    ByteLenAppend(s[..at], piece[..m]);
  }

  /** The operands of a good piece lead where they led inside it. */
  lemma PieceTargets(s: Script, at: nat, piece: Script, j: nat, n: nat)
    requires at + |piece| <= |s| && s[at..at + |piece|] == piece && GoodScript(piece)
    requires j < |piece| && n < OffsetCount(piece[j])
    ensures s[at + j] == piece[j] && HasTarget(s, at + j, n)
  {
    hide Offset, OffsetCount, OffsetAt;
    assert HasTarget(piece, j, n);
    var k :| Denotes(piece, j, n, k);
    OffsetPiece(s, at, piece, j);
    OffsetPiece(s, at, piece, k);
    assert s[at + j] == piece[j];
    assert Denotes(s, at + j, n, at + k);
  }

  lemma GoodMembers(s: Script)
    requires GoodScript(s)
    ensures forall i :: i in s ==> WellFormed(i)
  {
  }

  lemma GoodAppend(a: Script, b: Script)
    requires GoodScript(a) && GoodScript(b)
    ensures GoodScript(a + b)
  {
    hide Offset, OffsetCount, OffsetAt, WellFormed, HasTarget;
    var s := a + b;
    assert s[0..|a|] == a && s[|a|..|a| + |b|] == b;
    forall j, n | 0 <= j < |s| && 0 <= n < OffsetCount(s[j]) ensures HasTarget(s, j, n) {
      if j < |a| { PieceTargets(s, 0, a, j, n); } else { PieceTargets(s, |a|, b, j - |a|, n); }
    }
  }

  /** A long jump from the end of `a` to a boundary of the whole. */
  predicate JumpsInside(s: Script, at: nat, op: byte, relative: int, k: nat) {
    && (op == JMP_L || op == JMPIF_L || op == JMPIFNOT_L) && FitsI32(relative)
    && at < |s| && k <= |s| && s[at] == LongJump(op, relative) && Offset(s, at) + relative == Offset(s, k)
  }

  lemma JumpTarget(s: Script, at: nat, op: byte, relative: int, k: nat)
    requires JumpsInside(s, at, op, relative, k)
    ensures WellFormed(s[at]) && OffsetCount(s[at]) == 1 && HasTarget(s, at, 0)
  {
    hide Offset;
    I32RoundTrip(relative);
    assert s[at].operands[0..][..4] == s[at].operands;
    assert Denotes(s, at, 0, k);
  }

  lemma GoodJump(a: Script, op: byte, relative: int, b: Script, k: nat)
    requires GoodScript(a) && GoodScript(b) && JumpsInside(a + ([LongJump(op, relative)] + b), |a|, op, relative, k)
    ensures GoodScript(a + ([LongJump(op, relative)] + b))
  {
    hide Offset, OffsetCount, OffsetAt, WellFormed, HasTarget, LongJump, JumpsInside;
    var s := a + ([LongJump(op, relative)] + b);
    JumpTarget(s, |a|, op, relative, k);
    assert s[0..|a|] == a && s[|a| + 1..|a| + 1 + |b|] == b;
    forall j, n | 0 <= j < |s| && 0 <= n < OffsetCount(s[j]) ensures HasTarget(s, j, n) {
      if j < |a| {
        PieceTargets(s, 0, a, j, n);
      } else if j > |a| {
        PieceTargets(s, |a| + 1, b, j - |a| - 1, n);
      }
    }
    GoodMembers(a);
    GoodMembers(b);
  }

  /** A loop: one jump out of it, one back to its start. */
  lemma GoodLoop(a: Script, out: int, b: Script, back: int)
    requires GoodScript(a) && GoodScript(b)
    requires var s := a + ([LongJump(JMPIFNOT_L, out)] + (b + [LongJump(JMP_L, back)]));
             JumpsInside(s, |a|, JMPIFNOT_L, out, |s|) && JumpsInside(s, |a| + 1 + |b|, JMP_L, back, 0)
    ensures GoodScript(a + ([LongJump(JMPIFNOT_L, out)] + (b + [LongJump(JMP_L, back)])))
  {
    hide Offset, OffsetCount, OffsetAt, WellFormed, HasTarget, LongJump, JumpsInside;
    var s := a + ([LongJump(JMPIFNOT_L, out)] + (b + [LongJump(JMP_L, back)]));
    JumpTarget(s, |a|, JMPIFNOT_L, out, |s|);
    JumpTarget(s, |a| + 1 + |b|, JMP_L, back, 0);
    assert s[0..|a|] == a && s[|a| + 1..|a| + 1 + |b|] == b && |s| == |a| + |b| + 2;
    forall j, n | 0 <= j < |s| && 0 <= n < OffsetCount(s[j]) ensures HasTarget(s, j, n) {
      if j < |a| {
        PieceTargets(s, 0, a, j, n);
      } else if |a| < j < |a| + 1 + |b| {
        PieceTargets(s, |a| + 1, b, j - |a| - 1, n);
      }
    }
    LoopMembers(a, LongJump(JMPIFNOT_L, out), b, LongJump(JMP_L, back));
  }

  lemma LoopMembers(a: Script, i: Instruction, b: Script, j: Instruction)
    requires GoodScript(a) && GoodScript(b) && WellFormed(i) && WellFormed(j)
    ensures forall x :: x in a + ([i] + (b + [j])) ==> WellFormed(x)
  {
    hide WellFormed, GoodScript;
    GoodMembers(a);
    GoodMembers(b);
  }

  // ----- pieces without jumps -----

  lemma DataHasNoOffsets(i: Instruction)
    requires IsDataInstruction(i)
    ensures OffsetCount(i) == 0 && GoodScript([i])
  {
    hide WellFormed;
    assert OffsetWidth(i) == 0;
  }

  lemma GoodThen(a: Script, i: Instruction)
    requires GoodScript(a) && IsDataInstruction(i)
    ensures GoodScript(a + [i])
  {
    hide GoodScript, IsDataInstruction;
    DataHasNoOffsets(i);
    GoodAppend(a, [i]);
  }

  lemma GoodBefore(i: Instruction, a: Script)
    requires GoodScript(a) && IsDataInstruction(i)
    ensures GoodScript([i] + a)
  {
    hide GoodScript, IsDataInstruction;
    DataHasNoOffsets(i);
    GoodAppend([i], a);
  }

  lemma PushIntIsData(n: int)
    requires FitsI128(n)
    ensures IsDataInstruction(PushInt(n))
  {
    WidthRanges();
  }

  lemma PushDataIsData(data: seq<byte>)
    requires PushData(data).Ok?
    ensures IsDataInstruction(PushData(data).value)
  {
    hide ToLe, FromLeUnsigned;
    WidthRanges();
    var i := PushData(data).value;
    var w := DataPrefix(i.opcode);
    UnsignedRoundTrip(|data|, w);
    assert i.operands == ToLe(|data|, w) + data;
    assert i.operands[..w] == ToLe(|data|, w);
  }

  lemma LiteralIsData(lit: Literal)
    requires LiteralCode(lit).Ok?
    ensures IsDataInstruction(LiteralCode(lit).value)
  {
    hide PushInt, PushData;
    match lit
    case IntLiteral(text) => PushIntIsData(ParseIntLiteral(text).value);
    case StringLiteral(data) => PushDataIsData(data);
    case BufferLiteral(data) => PushDataIsData(data);
    case _ =>
  }

  lemma SlotIsData(slot: Slot)
    requires slot.index < 256
    ensures IsDataInstruction(LoadCode(slot)) && IsDataInstruction(StoreCode(slot))
  {
  }

  lemma VariableIsData(env: Env, name: string, store: bool)
    requires VariableCode(env, name, store).Ok?
    ensures IsDataInstruction(VariableCode(env, name, store).value)
  {
    hide LoadCode, StoreCode, IsDataInstruction;
    SlotIsData(Resolve(env, name).value);
  }

  lemma OperatorsAreData(u: UnaryOp, b: BinaryOp, a: AssignOp, ty: Type)
    ensures u != Positive ==> IsDataInstruction(Op(UnaryOpCode(u)))
    ensures IsDataInstruction(Op(BinaryOpCode(b))) && IsDataInstruction(Op(AssignOpCode(a)))
    ensures StackItemType(ty).Some? ==> IsDataInstruction(Instruction(CONVERT, [StackItemType(ty).value]))
  {
    hide IsDataInstruction, BinaryOpCode, AssignOpCode, UnaryOpCode, StackItemType;
    UnaryIsData(u, ty);
    BinaryIsData(b);
    CompoundIsData(a);
  }

  lemma UnaryIsData(u: UnaryOp, ty: Type)
    ensures u != Positive ==> IsDataInstruction(Op(UnaryOpCode(u)))
    ensures StackItemType(ty).Some? ==> IsDataInstruction(Instruction(CONVERT, [StackItemType(ty).value]))
  {
  }

  lemma BinaryIsData(b: BinaryOp)
    ensures IsDataInstruction(Op(BinaryOpCode(b)))
  {
  }

  lemma CompoundIsData(a: AssignOp)
    ensures IsDataInstruction(Op(AssignOpCode(a)))
  {
  }

  lemma SimpleOpsAreData()
    ensures IsDataInstruction(Op(DUP)) && IsDataInstruction(Op(DROP)) && IsDataInstruction(Op(PUSHF)) && IsDataInstruction(Op(PUSHNULL))
    ensures IsDataInstruction(Op(ISNULL)) && IsDataInstruction(Op(NOT)) && IsDataInstruction(Op(PICKITEM)) && IsDataInstruction(Op(PACK))
    ensures IsDataInstruction(Op(SIZE)) && IsDataInstruction(Op(LT)) && IsDataInstruction(Op(INC))
    ensures IsDataInstruction(Instruction(SYSCALL, NOTIFY))
  {
    hide IsDataInstruction;
    StackOpsAreData();
    TestsAreData();
    ArrayOpsAreData();
  }

  lemma StackOpsAreData()
    ensures IsDataInstruction(Op(DUP)) && IsDataInstruction(Op(DROP)) && IsDataInstruction(Op(PUSHF)) && IsDataInstruction(Op(PUSHNULL))
  {
  }

  lemma TestsAreData()
    ensures IsDataInstruction(Op(ISNULL)) && IsDataInstruction(Op(NOT)) && IsDataInstruction(Op(LT)) && IsDataInstruction(Op(INC))
  {
  }

  lemma ArrayOpsAreData()
    ensures IsDataInstruction(Op(SIZE)) && IsDataInstruction(Op(PICKITEM)) && IsDataInstruction(Op(PACK))
    ensures IsDataInstruction(Instruction(SYSCALL, NOTIFY))
  {
  }

  lemma RetIsGood()
    ensures GoodScript([Op(RET)]) && GoodScript([])
  {
  }

  // ----- boundaries -----

  lemma EndOffset(s: Script)
    ensures Offset(s, |s|) == ByteLen(s)
  {
    assert s[..|s|] == s;
  }

  /** Where the pieces of `a; jump; b` begin. */
  lemma JumpOffsets(a: Script, op: byte, relative: int, b: Script, m: nat)
    requires m <= |b|
    ensures var s := a + ([LongJump(op, relative)] + b);
            && Offset(s, |a|) == ByteLen(a) && Offset(s, |a| + 1 + m) == ByteLen(a) + 5 + Offset(b, m)
            && s[|a|] == LongJump(op, relative) && |s| == |a| + 1 + |b|
  {
    hide ByteLen, Offset, LongJump;
    var jump := [LongJump(op, relative)];
    var s := a + (jump + b);
    assert s[0..|a|] == a && s[|a|..|a| + 1] == jump && s[|a| + 1..|a| + 1 + |b|] == b;
    NoOffset(s);
    EndOffset(a);
    EndOffset(jump);
    OffsetPiece(s, 0, a, |a|);
    OffsetPiece(s, |a|, jump, 1);
    OffsetPiece(s, |a| + 1, b, m);
    ByteLenOne(LongJump(op, relative));
    JumpLength(op, relative);
    NoOffset(b);
  }

  lemma NoOffset(s: Script)
    ensures Offset(s, 0) == 0
  {
  }

  lemma JumpLength(op: byte, relative: int)
    ensures EncodedLen(LongJump(op, relative)) == 5
  {
  }

  /** A jump over `mid` to the start of `rest`. */
  lemma GoodForward(a: Script, op: byte, mid: Script, rest: Script)
    requires GoodScript(a) && GoodScript(mid + rest) && FitsI32(5 + ByteLen(mid))
    requires op == JMP_L || op == JMPIF_L || op == JMPIFNOT_L
    ensures GoodScript(a + ([LongJump(op, 5 + ByteLen(mid))] + (mid + rest)))
  {
    hide GoodScript, ByteLen, Offset, LongJump;
    var relative := 5 + ByteLen(mid);
    JumpOffsets(a, op, relative, mid + rest, |mid|);
    assert (mid + rest)[..|mid|] == mid;
    OffsetIsLength(mid + rest, |mid|);
    GoodJump(a, op, relative, mid + rest, |a| + 1 + |mid|);
  }

  lemma OffsetIsLength(s: Script, k: nat)
    requires k <= |s|
    ensures Offset(s, k) == ByteLen(s[..k])
  {
  }

  // ----- expressions -----

  lemma GoodAnd(left: Code, right: Code)
    requires GoodScript(left) && GoodScript(right) && AndCode(left, right).Ok?
    ensures GoodScript(AndCode(left, right).value)
  {
    hide GoodScript, ByteLen, LongJump, IsDataInstruction;
    var toEnd := LongJump(JMP_L, 6);
    var last := [Op(PUSHF)];
    SimpleOpsAreData();
    DataHasNoOffsets(Op(PUSHF));
    RetIsGood();
    PushFLength();
    assert last + [] == last;
    GoodForward(right, JMP_L, last, []);
    var mid := right + [toEnd];
    Regroup(right, [toEnd], last);
    ByteLenAppend(right, [toEnd]);
    ByteLenOne(toEnd);
    JumpLength(JMP_L, 6);
    GoodForward(left, JMPIFNOT_L, mid, last);
  }

  lemma PushFLength()
    ensures ByteLen([Op(PUSHF)]) == 1 && ByteLen([Op(DROP)]) == 1
  {
    ByteLenOne(Op(PUSHF));
    ByteLenOne(Op(DROP));
  }

  lemma GoodOr(left: Code, right: Code)
    requires GoodScript(left) && GoodScript(right) && OrCode(left, right).Ok?
    ensures GoodScript(OrCode(left, right).value)
  {
    hide GoodScript, ByteLen, LongJump, IsDataInstruction;
    SimpleOpsAreData();
    RetIsGood();
    var tail := [Op(DROP)] + right;
    GoodBefore(Op(DROP), right);
    ByteLenAppend([Op(DROP)], right);
    PushFLength();
    assert tail + [] == tail;
    DataHasNoOffsets(Op(DUP));
    GoodForward([Op(DUP)], JMPIF_L, tail, []);
    GoodAppend(left, [Op(DUP)] + ([LongJump(JMPIF_L, 5 + ByteLen(tail))] + tail));
  }

  lemma {:induction false} ExprGood(env: Env, e: Expr)
    requires ExprCode(env, e).Ok?
    ensures GoodScript(ExprCode(env, e).value)
    decreases e
  {
    hide GoodScript, AndCode, OrCode, LiteralCode, VariableCode, UnaryCode, NullTestCode, IsDataInstruction, StackItemType, BinaryOpCode, AssignOpCode;
    SimpleOpsAreData();
    match e
    case LiteralExpr(lit) => LiteralIsData(lit); DataHasNoOffsets(LiteralCode(lit).value);
    case Ident(name) => VariableIsData(env, name, false); DataHasNoOffsets(VariableCode(env, name, false).value);
    case SelfExpr => VariableIsData(env, "self", false); DataHasNoOffsets(VariableCode(env, "self", false).value);
    case Paren(inner) => ExprGood(env, inner);
    case UnaryExpr(op, operand) => ExprGood(env, operand); UnaryGood(op, ExprCode(env, operand).value);
    case Cast(inner, ty) =>
      ExprGood(env, inner);
      OperatorsAreData(Negative, Add, PlusAssign, ty);
      GoodThen(ExprCode(env, inner).value, Instruction(CONVERT, [StackItemType(ty).value]));
    case BinaryExpr(_, _, _) => BinaryGood(env, e);
    case Index(base, index) =>
      ExprGood(env, base);
      ExprGood(env, index);
      GoodThen(ExprCode(env, index).value, Op(PICKITEM));
      GoodAppend(ExprCode(env, base).value, ExprCode(env, index).value + [Op(PICKITEM)]);
    case AssignExpr(target, _, value) =>
      ExprGood(env, value);
      AssignGood(env, e);
    case _ =>
  }

  lemma UnaryGood(op: UnaryOp, operand: Code)
    requires GoodScript(operand)
    ensures GoodScript(UnaryCode(op, operand))
  {
    hide GoodScript, IsDataInstruction, UnaryOpCode;
    OperatorsAreData(op, Add, PlusAssign, BoolType);
    if op != Positive {
      GoodThen(operand, Op(UnaryOpCode(op)));
    }
  }

  lemma {:induction false} BinaryGood(env: Env, e: Expr)
    requires e.BinaryExpr? && ExprCode(env, e).Ok?
    ensures GoodScript(ExprCode(env, e).value)
    decreases e, 0
  {
    hide GoodScript, AndCode, OrCode, IsDataInstruction, BinaryOpCode, IsNullLiteral;
    SimpleOpsAreData();
    OperatorsAreData(Negative, e.bop, PlusAssign, BoolType);
    var op, left, right := e.bop, e.left, e.right;
    if ExprCode(env, left).Ok? { ExprGood(env, left); }
    if ExprCode(env, right).Ok? { ExprGood(env, right); }
    if op == And {
      GoodAnd(ExprCode(env, left).value, ExprCode(env, right).value);
    } else if op == Or {
      GoodOr(ExprCode(env, left).value, ExprCode(env, right).value);
    } else if (op == Eq || op == Ne) && (IsNullLiteral(left) || IsNullLiteral(right)) {
      NullTestGood(op, ExprCode(env, if IsNullLiteral(left) then right else left).value);
    } else {
      GoodThen(ExprCode(env, right).value, Op(BinaryOpCode(op)));
      GoodAppend(ExprCode(env, left).value, ExprCode(env, right).value + [Op(BinaryOpCode(op))]);
    }
  }

  lemma NullTestGood(op: BinaryOp, value: Code)
    requires GoodScript(value)
    ensures GoodScript(NullTestCode(op, value))
  {
    hide GoodScript, IsDataInstruction;
    SimpleOpsAreData();
    DataHasNoOffsets(Op(ISNULL));
    DataHasNoOffsets(Op(NOT));
    GoodAppend([Op(ISNULL)], [Op(NOT)]);
    GoodAppend(value, [Op(ISNULL)]);
    GoodAppend(value, [Op(ISNULL)] + [Op(NOT)]);
  }

  lemma AssignGood(env: Env, e: Expr)
    requires e.AssignExpr? && ExprCode(env, e).Ok? && ExprCode(env, e.value).Ok? && GoodScript(ExprCode(env, e.value).value)
    ensures GoodScript(ExprCode(env, e).value)
  {
    hide GoodScript, VariableCode, IsDataInstruction, AssignOpCode;
    SimpleOpsAreData();
    OperatorsAreData(Negative, Add, e.aop, BoolType);
    var name, c := e.target.name, ExprCode(env, e.value).value;
    VariableIsData(env, name, true);
    var st := VariableCode(env, name, true).value;
    DataHasNoOffsets(st);
    GoodBefore(Op(DUP), [st]);
    GoodAppend(c, [Op(DUP)] + [st]);
    if e.aop != Assign {
      VariableIsData(env, name, false);
      var tail := [Op(AssignOpCode(e.aop))] + ([Op(DUP)] + [st]);
      GoodBefore(Op(AssignOpCode(e.aop)), [Op(DUP)] + [st]);
      GoodAppend(c, tail);
      GoodBefore(VariableCode(env, name, false).value, c + tail);
    }
  }

  lemma {:induction false} ExprsGood(env: Env, es: seq<Expr>)
    requires ExprsCode(env, es).Ok?
    ensures GoodScript(ExprsCode(env, es).value)
  {
    hide GoodScript, ExprCode;
    if es == [] {
      RetIsGood();
    } else {
      ExprGood(env, es[0]);
      ExprsGood(env, es[1..]);
      GoodAppend(ExprCode(env, es[0]).value, ExprsCode(env, es[1..]).value);
    }
  }

  // ----- statements -----

  lemma GoodIf(cond: Code, thenCode: Code)
    requires GoodScript(cond) && GoodScript(thenCode) && IfCode(cond, thenCode).Ok?
    ensures GoodScript(IfCode(cond, thenCode).value)
  {
    hide GoodScript, ByteLen, LongJump;
    assert thenCode + [] == thenCode;
    GoodForward(cond, JMPIFNOT_L, thenCode, []);
  }

  lemma GoodIfElse(cond: Code, thenCode: Code, elseCode: Code)
    requires GoodScript(cond) && GoodScript(thenCode) && GoodScript(elseCode) && IfElseCode(cond, thenCode, elseCode).Ok?
    ensures GoodScript(IfElseCode(cond, thenCode, elseCode).value)
  {
    hide GoodScript, ByteLen, LongJump;
    var toEnd := LongJump(JMP_L, 5 + ByteLen(elseCode));
    assert elseCode + [] == elseCode;
    GoodForward(thenCode, JMP_L, elseCode, []);
    Regroup(thenCode, [toEnd], elseCode);
    ByteLenAppend(thenCode, [toEnd]);
    ByteLenOne(toEnd);
    JumpLength(JMP_L, 5 + ByteLen(elseCode));
    GoodForward(cond, JMPIFNOT_L, thenCode + [toEnd], elseCode);
  }

  lemma GoodWhile(guard: Code, body: Code)
    requires GoodScript(guard) && GoodScript(body) && LoopCode(guard, body).Ok?
    ensures GoodScript(LoopCode(guard, body).value)
  {
    hide GoodScript, ByteLen, LongJump, Offset;
    var back, out := -(ByteLen(guard) + 5 + ByteLen(body)), 5 + ByteLen(body) + 5;
    var toStart := LongJump(JMP_L, back);
    var rest := body + [toStart];
    var s := guard + ([LongJump(JMPIFNOT_L, out)] + rest);
    JumpOffsets(guard, JMPIFNOT_L, out, rest, |body|);
    JumpOffsets(guard, JMPIFNOT_L, out, rest, |rest|);
    OffsetIsLength(rest, |body|);
    assert rest[..|body|] == body;
    EndOffset(rest);
    ByteLenAppend(body, [toStart]);
    ByteLenOne(toStart);
    JumpLength(JMP_L, back);
    NoOffset(s);
    GoodLoop(guard, out, body, back);
  }

  lemma {:induction false} StmtGood(env: Env, stmt: Stmt)
    requires StmtCode(env, stmt).Ok?
    ensures GoodScript(StmtCode(env, stmt).value.0)
    decreases stmt, 1
  {
    hide GoodScript, ExprCode, BlockCode, StmtsCode, IfCode, IfElseCode, LoopCode, EachSetup, EachGuard, EachFetch, EachAdvance;
    hide DeclareLocal, StoreCode, PushInt, PushData, ByteLen, Jump;
    match stmt
    case If(cond, thenBlock, NoElse) =>
      ExprGood(env, cond);
      BlockGood(env, thenBlock);
      GoodIf(ExprCode(env, cond).value, BlockCode(env, thenBlock).value.0);
    case If(cond, thenBlock, Else(elseBlock)) =>
      ExprGood(env, cond);
      BlockGood(env, thenBlock);
      var t := BlockCode(env, thenBlock).value;
      BlockGood(t.1, elseBlock);
      GoodIfElse(ExprCode(env, cond).value, t.0, BlockCode(t.1, elseBlock).value.0);
    case While(guard, body) =>
      ExprGood(env, guard);
      BlockGood(env, body);
      GoodWhile(ExprCode(env, guard).value, BlockCode(env, body).value.0);
    case ForArray(item, iter, each) => EachGood(env, item, iter, each);
    case Block(stmts) => BlockGood(env, stmts);
    case _ => SimpleGood(env, stmt);
  }

  lemma SimpleGood(env: Env, stmt: Stmt)
    requires StmtCode(env, stmt).Ok? && (stmt.Var? || stmt.ExprStmt? || stmt.ReturnStmt? || stmt.Emit?)
    ensures GoodScript(StmtCode(env, stmt).value.0)
  {
    hide GoodScript, ExprCode, ExprsCode, StoreCode, PushInt, PushData, IsDataInstruction;
    SimpleOpsAreData();
    RetIsGood();
    match stmt
    case Var(name, init) =>
      var env1 := DeclareLocal(env, name).value;
      var c := if init.Some? then ExprCode(env1, init.value).value else [Op(PUSHNULL)];
      if init.Some? { ExprGood(env1, init.value); } else { DataHasNoOffsets(Op(PUSHNULL)); }
      SlotIsData(Local(env.next));
      GoodThen(c, StoreCode(Local(env.next)));
    case ExprStmt(e) => ExprGood(env, e); GoodThen(ExprCode(env, e).value, Op(DROP));
    case ReturnStmt(None) =>
    case ReturnStmt(Some(e)) => ExprGood(env, e); GoodAppend(ExprCode(env, e).value, [Op(RET)]);
    case Emit(event, args) =>
      ExprsGood(env, args);
      PushDataIsData(event);
      PushIntIsData(|args|);
      var name, call := PushData(event).value, Instruction(SYSCALL, NOTIFY);
      DataHasNoOffsets(call);
      GoodBefore(name, [call]);
      GoodBefore(Op(PACK), [name] + [call]);
      GoodBefore(PushInt(|args|), [Op(PACK)] + ([name] + [call]));
      GoodAppend(ExprsCode(env, args).value, [PushInt(|args|)] + ([Op(PACK)] + ([name] + [call])));
  }

  lemma EachPiecesGood(arr: nat, item: nat, iter: Code)
    requires arr < MAX_LOCAL && item < MAX_LOCAL && GoodScript(iter)
    ensures GoodScript(EachSetup(arr, iter)) && GoodScript(EachGuard(arr)) && GoodScript(EachFetch(arr, item)) && GoodScript(EachAdvance(arr))
  {
    hide GoodScript, LoadCode, StoreCode, PushInt, IsDataInstruction;
    SimpleOpsAreData();
    SlotIsData(Local(arr));
    SlotIsData(Local(arr + 1));
    SlotIsData(Local(item));
    PushIntIsData(0);
    DataHasNoOffsets(StoreCode(Local(arr + 1)));
    DataHasNoOffsets(StoreCode(Local(item)));
    DataHasNoOffsets(Op(LT));
    GoodBefore(PushInt(0), [StoreCode(Local(arr + 1))]);
    GoodBefore(StoreCode(Local(arr)), [PushInt(0)] + [StoreCode(Local(arr + 1))]);
    GoodAppend(iter, [StoreCode(Local(arr))] + ([PushInt(0)] + [StoreCode(Local(arr + 1))]));
    GoodBefore(Op(SIZE), [Op(LT)]);
    GoodBefore(LoadCode(Local(arr)), [Op(SIZE)] + [Op(LT)]);
    GoodBefore(LoadCode(Local(arr + 1)), [LoadCode(Local(arr))] + ([Op(SIZE)] + [Op(LT)]));
    GoodBefore(Op(PICKITEM), [StoreCode(Local(item))]);
    GoodBefore(LoadCode(Local(arr + 1)), [Op(PICKITEM)] + [StoreCode(Local(item))]);
    GoodBefore(LoadCode(Local(arr)), [LoadCode(Local(arr + 1))] + ([Op(PICKITEM)] + [StoreCode(Local(item))]));
    GoodBefore(Op(INC), [StoreCode(Local(arr + 1))]);
    GoodBefore(LoadCode(Local(arr + 1)), [Op(INC)] + [StoreCode(Local(arr + 1))]);
  }

  lemma {:induction false} EachGood(env: Env, item: string, iter: Expr, each: seq<Stmt>)
    requires StmtCode(env, ForArray(item, iter, each)).Ok?
    ensures GoodScript(StmtCode(env, ForArray(item, iter, each)).value.0)
    decreases ForArray(item, iter, each), 0
  {
    hide GoodScript, ExprCode, StmtsCode, LoopCode, EachSetup, EachGuard, EachFetch, EachAdvance, DeclareLocal;
    var env1 := AllocSlot(env).value;
    var env2 := AllocSlot(env1).value;
    var env3 := DeclareLocal(Enter(env2), item).value;
    var b := StmtsCode(env3, each).value.0;
    var c := ExprCode(env2, iter).value;
    ItemSlot(env2, item);
    ExprGood(env2, iter);
    StmtsGood(env3, each);
    EachPiecesGood(env.next, env2.next, c);
    GoodAppend(b, EachAdvance(env.next));
    GoodAppend(EachFetch(env.next, env2.next), b + EachAdvance(env.next));
    GoodWhile(EachGuard(env.next), EachFetch(env.next, env2.next) + (b + EachAdvance(env.next)));
    GoodAppend(EachSetup(env.next, c), LoopCode(EachGuard(env.next), EachFetch(env.next, env2.next) + (b + EachAdvance(env.next))).value);
  }

  lemma ItemSlot(env: Env, item: string)
    requires DeclareLocal(Enter(env), item).Ok?
    ensures env.next < MAX_LOCAL
  {
  }

  lemma {:induction false} BlockGood(env: Env, stmts: seq<Stmt>)
    requires BlockCode(env, stmts).Ok?
    ensures GoodScript(BlockCode(env, stmts).value.0)
    decreases stmts, 1
  {
    hide GoodScript, StmtsCode;
    StmtsGood(Enter(env), stmts);
  }

  lemma {:induction false} StmtsGood(env: Env, stmts: seq<Stmt>)
    requires StmtsCode(env, stmts).Ok?
    ensures GoodScript(StmtsCode(env, stmts).value.0)
    decreases stmts, 0
  {
    hide GoodScript, StmtCode;
    if stmts == [] {
      RetIsGood();
    } else {
      var first := StmtCode(env, stmts[0]).value;
      StmtGood(env, stmts[0]);
      StmtsGood(first.1, stmts[1..]);
      GoodAppend(first.0, StmtsCode(first.1, stmts[1..]).value.0);
    }
  }

  lemma InitslotIsData(locals: byte, args: byte)
    ensures IsDataInstruction(Instruction(INITSLOT, [locals, args]))
  {
  }

  /** Every jump of a compiled routine leads to an instruction of that routine, or to its end. */
  lemma {:induction false} FunctionGood(params: seq<string>, isVoid: bool, stmts: seq<Stmt>)
    requires FunctionCode(params, isVoid, stmts).Ok?
    ensures GoodScript(FunctionCode(params, isVoid, stmts).value)
  {
    hide GoodScript, BlockCode, IsDataInstruction;
    var b := BlockCode(StartEnv(params), stmts).value;
    BlockGood(StartEnv(params), stmts);
    RetIsGood();
    InitslotIsData(b.1.next, |params|);
    GoodAppend(b.0, Epilogue(isVoid, b.0));
    GoodBefore(Instruction(INITSLOT, [b.1.next, |params|]), b.0 + Epilogue(isVoid, b.0));
  }
}
