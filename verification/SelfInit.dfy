/** A `var` whose initializer names the variable being declared, against the intended reading. */
module SelfInit {
  import opened Prelude
  import opened Bytecode
  import opened Disasm
  import opened Vm
  import opened Ast
  import opened Semantics
  import opened CodegenSpec
  import opened CodegenSteps
  import opened CodegenEnv
  import opened CodegenFunction
  import opened Layout
  import opened PeepholeLayout
  import PeepholeLine

  /** The instruction loads or stores local `k`. */
  predicate Touches(i: Instruction, k: nat) { LoadLocalSlot(i) == Some(k) || StoreSlot(i) == Some(k) }

  ghost predicate CodeTouches(code: Code, k: nat) { exists i :: i in code && Touches(i, k) }

  /** What surrounds variables in emitted expression code: no access to locals. */
  predicate NoLocal(i: Instruction) { LoadLocalSlot(i).None? && StoreSlot(i).None? }

  lemma AppendTouches(a: Code, b: Code, k: nat)
    ensures CodeTouches(a + b, k) <==> CodeTouches(a, k) || CodeTouches(b, k)
  {
    hide Touches;
    if i :| i in a && Touches(i, k) {
      assert i in a + b;
    }
    if i :| i in b && Touches(i, k) {
      assert i in a + b;
    }
  }

  lemma OneTouches(i: Instruction, k: nat)
    ensures CodeTouches([i], k) <==> Touches(i, k)
  {
    assert i in [i];
  }

  lemma LiteralNoLocal(lit: Literal)
    requires LiteralCode(lit).Ok?
    ensures NoLocal(LiteralCode(lit).value)
  {
    hide ToLe, ParseIntLiteral;
  }

  lemma JumpNoLocal(op: byte, relative: int)
    requires IsJump(op) && Jump(op, relative).Ok?
    ensures NoLocal(Jump(op, relative).value)
  {
    hide ToLe;
  }

  lemma OpNoLocal(op: byte, operands: seq<byte>)
    requires op < LDLOC0 || LDARG0 <= op
    ensures NoLocal(Instruction(op, operands))
  {
  }

  lemma OpCodesNoLocal(bop: BinaryOp, aop: AssignOp, uop: UnaryOp)
    ensures LDARG0 <= BinaryOpCode(bop) && (AssignOpCode(aop) < LDLOC0 || LDARG0 <= AssignOpCode(aop))
    ensures UnaryOpCode(uop) < LDLOC0 || LDARG0 <= UnaryOpCode(uop)
  {
  }

  /** Access to a variable touches exactly its own slot. */
  lemma VariableTouches(env: Env, name: string, store: bool, k: nat)
    requires VariableCode(env, name, store).Ok?
    ensures CodeTouches([VariableCode(env, name, store).value], k) <==> Resolve(env, name) == Ok(Local(k))
  {
    hide Resolve;
    OneTouches(VariableCode(env, name, store).value, k);
  }

  /** One of the variables lives in local `k`. */
  ghost predicate InSlot(env: Env, names: set<string>, k: nat) {
    exists n :: n in names && Resolve(env, n) == Ok(Local(k))
  }

  lemma InSlotUnion(env: Env, a: set<string>, b: set<string>, k: nat)
    ensures InSlot(env, a + b, k) <==> InSlot(env, a, k) || InSlot(env, b, k)
    ensures !InSlot(env, {}, k)
  {
    hide Resolve;
  }

  lemma InSlotOne(env: Env, n: string, k: nat)
    ensures InSlot(env, {n}, k) <==> Resolve(env, n) == Ok(Local(k))
  {
    hide Resolve;
    assert n in {n};
  }

  lemma NullNames(e: Expr)
    requires IsNullLiteral(e)
    ensures Names(e) == {}
  {
  }

  /** The code of an expression touches a local exactly when a variable it names lives there. */
  lemma {:induction false} TouchesExactly(env: Env, e: Expr, k: nat)
    requires ExprCode(env, e).Ok?
    ensures CodeTouches(ExprCode(env, e).value, k) <==> InSlot(env, Names(e), k)
    decreases e, 1
  {
    hide LiteralCode, VariableCode, UnaryCode, AndCode, OrCode, NullTestCode, StackItemType, CodeTouches, InSlot, NoLocal;
    match e {
      case LiteralExpr(lit) =>
        LiteralNoLocal(lit);
        PlainTouches(LiteralCode(lit).value, k);
        InSlotUnion(env, {}, {}, k);
      case Ident(name) =>
        VariableTouches(env, name, false, k);
        InSlotOne(env, name, k);
      case SelfExpr =>
        VariableTouches(env, "self", false, k);
        InSlotOne(env, "self", k);
      case Paren(inner) => TouchesExactly(env, inner, k);
      case Cast(inner, ty) =>
        TouchesExactly(env, inner, k);
        ThenPlain(ExprCode(env, inner).value, CONVERT, [StackItemType(ty).value], k);
      case UnaryExpr(op, operand) =>
        TouchesExactly(env, operand, k);
        UnaryTouches(op, ExprCode(env, operand).value, k);
      case BinaryExpr(_, _, _) => BinaryTouches(env, e, k);
      case Index(base, index) =>
        TouchesExactly(env, base, k);
        TouchesExactly(env, index, k);
        var l, r := ExprCode(env, base).value, ExprCode(env, index).value;
        ThenPlain(r, PICKITEM, [], k);
        AppendTouches(l, r + [Op(PICKITEM)], k);
        InSlotUnion(env, Names(base), Names(index), k);
      case AssignExpr(target, aop, value) => AssignTouches(env, e, k);
      case _ =>
    }
  }

  lemma PlainTouches(i: Instruction, k: nat)
    requires NoLocal(i)
    ensures !CodeTouches([i], k)
  {
    OneTouches(i, k);
  }

  lemma ThenPlain(code: Code, op: byte, operands: seq<byte>, k: nat)
    requires op < LDLOC0 || LDARG0 <= op
    ensures CodeTouches(code + [Instruction(op, operands)], k) <==> CodeTouches(code, k)
  {
    hide CodeTouches, NoLocal;
    OpNoLocal(op, operands);
    PlainTouches(Instruction(op, operands), k);
    AppendTouches(code, [Instruction(op, operands)], k);
  }

  lemma PlainThen(i: Instruction, code: Code, k: nat)
    requires NoLocal(i)
    ensures CodeTouches([i] + code, k) <==> CodeTouches(code, k)
  {
    hide CodeTouches, NoLocal;
    PlainTouches(i, k);
    AppendTouches([i], code, k);
  }

  lemma UnaryTouches(op: UnaryOp, operand: Code, k: nat)
    ensures CodeTouches(UnaryCode(op, operand), k) <==> CodeTouches(operand, k)
  {
    hide CodeTouches;
    OpCodesNoLocal(Mul, Assign, op);
    ThenPlain(operand, UnaryOpCode(op), [], k);
  }

  lemma ShortCircuitTouches(left: Code, right: Code, k: nat)
    ensures AndCode(left, right).Ok? ==> (CodeTouches(AndCode(left, right).value, k) <==> CodeTouches(left, k) || CodeTouches(right, k))
    ensures OrCode(left, right).Ok? ==> (CodeTouches(OrCode(left, right).value, k) <==> CodeTouches(left, k) || CodeTouches(right, k))
  {
    hide CodeTouches, Jump, ByteLen, NoLocal;
    if AndCode(left, right).Ok? {
      var toFalse, toEnd := Jump(JMPIFNOT_L, 5 + ByteLen(right) + 5).value, Jump(JMP_L, 6).value;
      JumpNoLocal(JMPIFNOT_L, 5 + ByteLen(right) + 5);
      JumpNoLocal(JMP_L, 6);
      OpNoLocal(PUSHF, []);
      PlainTouches(Op(PUSHF), k);
      PlainThen(toEnd, [Op(PUSHF)], k);
      AppendTouches(right, [toEnd] + [Op(PUSHF)], k);
      PlainThen(toFalse, right + ([toEnd] + [Op(PUSHF)]), k);
      AppendTouches(left, [toFalse] + (right + ([toEnd] + [Op(PUSHF)])), k);
    }
    if OrCode(left, right).Ok? {
      var toEnd := Jump(JMPIF_L, 6 + ByteLen(right)).value;
      JumpNoLocal(JMPIF_L, 6 + ByteLen(right));
      OpNoLocal(DUP, []);
      OpNoLocal(DROP, []);
      PlainThen(Op(DROP), right, k);
      PlainThen(toEnd, [Op(DROP)] + right, k);
      PlainThen(Op(DUP), [toEnd] + ([Op(DROP)] + right), k);
      AppendTouches(left, [Op(DUP)] + ([toEnd] + ([Op(DROP)] + right)), k);
    }
  }

  lemma NullTestTouches(op: BinaryOp, value: Code, k: nat)
    ensures CodeTouches(NullTestCode(op, value), k) <==> CodeTouches(value, k)
  {
    hide CodeTouches;
    ThenPlain(value, ISNULL, [], k);
    ThenPlain(value + [Op(ISNULL)], NOT, [], k);
    Regroup(value, [Op(ISNULL)], [Op(NOT)]);
  }

  lemma {:induction false} BinaryTouches(env: Env, e: Expr, k: nat)
    requires ExprCode(env, e).Ok? && e.BinaryExpr?
    ensures CodeTouches(ExprCode(env, e).value, k) <==> InSlot(env, Names(e), k)
    decreases e, 0
  {
    hide AndCode, OrCode, NullTestCode, CodeTouches, InSlot;
    var op, left, right := e.bop, e.left, e.right;
    InSlotUnion(env, Names(left), Names(right), k);
    if op != And && op != Or && (op == Eq || op == Ne) && (IsNullLiteral(left) || IsNullLiteral(right)) {
      var other := if IsNullLiteral(left) then right else left;
      TouchesExactly(env, other, k);
      NullTestTouches(op, ExprCode(env, other).value, k);
      NullNames(if IsNullLiteral(left) then left else right);
      InSlotUnion(env, {}, {}, k);
    } else {
      TouchesExactly(env, left, k);
      TouchesExactly(env, right, k);
      var l, r := ExprCode(env, left).value, ExprCode(env, right).value;
      ShortCircuitTouches(l, r, k);
      OpCodesNoLocal(op, Assign, Not);
      ThenPlain(r, BinaryOpCode(op), [], k);
      AppendTouches(l, r + [Op(BinaryOpCode(op))], k);
    }
  }

  lemma {:induction false} AssignTouches(env: Env, e: Expr, k: nat)
    requires ExprCode(env, e).Ok? && e.AssignExpr?
    ensures CodeTouches(ExprCode(env, e).value, k) <==> InSlot(env, Names(e), k)
    decreases e, 0
  {
    hide VariableCode, CodeTouches, InSlot, NoLocal;
    var name, aop, value := e.target.name, e.aop, e.value;
    assert e == AssignExpr(Ident(name), aop, value);
    TouchesExactly(env, value, k);
    InSlotOne(env, name, k);
    InSlotUnion(env, Names(e.target), Names(value), k);
    VariableTouches(env, name, true, k);
    var c, st := ExprCode(env, value).value, VariableCode(env, name, true).value;
    OpNoLocal(DUP, []);
    PlainThen(Op(DUP), [st], k);
    if aop == Assign {
      AppendTouches(c, [Op(DUP)] + [st], k);
    } else {
      VariableTouches(env, name, false, k);
      var ld := VariableCode(env, name, false).value;
      OpCodesNoLocal(Mul, aop, Not);
      OpNoLocal(AssignOpCode(aop), []);
      PlainThen(Op(AssignOpCode(aop)), [Op(DUP)] + [st], k);
      AppendTouches(c, [Op(AssignOpCode(aop))] + ([Op(DUP)] + [st]), k);
      AppendTouches([ld], c + ([Op(AssignOpCode(aop))] + ([Op(DUP)] + [st])), k);
    }
  }

  lemma {:induction false} ResolvedInUse(scopes: List<map<string, nat>>, name: string)
    ensures ResolveLocal(scopes, name).Some? ==> ResolveLocal(scopes, name).value in SlotsOf(scopes)
  {
    if scopes.Cons? && name !in scopes.head {
      ResolvedInUse(scopes.tail, name);
    }
  }

  /**
   * The initializer of `var name = e` is compiled after the declaration. That gives the code of `e`
   * before the declaration, the intended reading, exactly when `e` does not name the variable.
   */
  lemma {:induction false} InitializerExactlyWhen(env: Env, name: string, e: Expr)
    requires EnvOk(env) && DeclareLocal(env, name).Ok?
    requires ExprCode(DeclareLocal(env, name).value, e).Ok?
    ensures ExprCode(DeclareLocal(env, name).value, e) == ExprCode(env, e) <==> name !in Names(e)
  {
    hide ExprCode, Names, EnvOk, InSlot, CodeTouches;
    var declared := DeclareLocal(env, name).value;
    DeclareFresh(env, name);
    var k := env.next;
    assert Resolve(declared, name) == Ok(Local(k));
    forall n | n in Names(e) && n != name ensures Resolve(env, n) == Resolve(declared, n) {
    }
    if name !in Names(e) {
      SameCode(env, declared, e);
    } else if ExprCode(env, e).Ok? {
      TouchesExactly(declared, e, k);
      TouchesExactly(env, e, k);
      NotInUse(env, Names(e));
      assert InSlot(declared, Names(e), k) by { NamedInSlot(declared, Names(e), name, k); }
    }
  }

  lemma NamedInSlot(env: Env, names: set<string>, name: string, k: nat)
    requires name in names && Resolve(env, name) == Ok(Local(k))
    ensures InSlot(env, names, k)
  {
  }

  lemma {:induction false} NotInUse(env: Env, names: set<string>)
    requires env.next !in SlotsOf(env.scopes)
    ensures !InSlot(env, names, env.next)
  {
    hide ResolveLocal, SlotsOf;
    forall n | n in names ensures Resolve(env, n) != Ok(Local(env.next)) {
      ResolvedInUse(env.scopes, n);
    }
  }

  // ----- T f(T x) { var x = x; return x; } -----

  function ShadowBody(x: string): seq<Stmt> { [Var(x, Some(Ident(x))), ReturnStmt(Some(Ident(x)))] }

  const SHADOW_CODE: Code := [
    Instruction(INITSLOT, [1, 1]), Instruction(LDLOC0, []), Instruction(STLOC0, []), Instruction(LDLOC0, []), Instruction(RET, [])]

  lemma {:induction false} ShadowCompiled(x: string)
    ensures FunctionCode([x], false, ShadowBody(x)) == Ok(SHADOW_CODE)
  {
    hide ResolveLocal, ByteLen;
    var stmts, env := ShadowBody(x), Enter(StartEnv([x]));
    var env1 := DeclareLocal(env, x).value;
    assert DeclareLocal(env, x) == Ok(env1) && env1.next == 1;
    assert ResolveLocal(env1.scopes, x) == Some(0) by { FirstScope(env1.scopes, x); }
    assert ExprCode(env1, Ident(x)) == Ok([Instruction(LDLOC0, [])]);
    assert stmts[0] == Var(x, Some(Ident(x))) && stmts[1..] == [ReturnStmt(Some(Ident(x)))] && stmts[1..][1..] == [];
    var first := [Instruction(LDLOC0, [])] + [Instruction(STLOC0, [])];
    var second := [Instruction(LDLOC0, [])] + [Op(RET)];
    assert StmtCode(env, stmts[0]) == Ok((first, env1));
    assert StmtCode(env1, ReturnStmt(Some(Ident(x)))) == Ok((second, env1));
    assert StmtsCode(env1, []) == Ok(([], env1));
    assert StmtsCode(env1, stmts[1..]) == Ok((second, env1)) by { assert second + [] == second; }
    assert StmtsCode(env, stmts) == Ok((first + second, env1));
    assert [Instruction(INITSLOT, [1, 1])] + ((first + second) + []) == SHADOW_CODE;
  }

  lemma FirstScope(scopes: List<map<string, nat>>, name: string)
    requires scopes.Cons? && name in scopes.head
    ensures ResolveLocal(scopes, name) == Some(scopes.head[name])
  {
  }

  /** The source returns its argument; the compiled routine returns null. */
  lemma {:induction false} ShadowReturnsNull(ops: Ops, x: string, v: Value) returns (d': Data)
    ensures var o := ExecBlock(ops, ShadowBody(x), Store(Cons(map[], Nil), ArgValues([x], [v]), []), map[], 0);
            o.Return? && o.result == Some(v)
    ensures FunctionCode([x], false, ShadowBody(x)) == Ok(SHADOW_CODE)
    ensures Ends(ops, SHADOW_CODE, Data(Cons(v, Nil), [], [], []), Returned(d')) && d'.stack == Cons(Null, Nil)
  {
    hide ExecBlock, Ends, FunctionCode;
    ShadowCompiled(x);
    ShadowMeaning(ops, x, v);
    d' := ShadowRuns(ops, v);
  }

  lemma {:induction false} ShadowMeaning(ops: Ops, x: string, v: Value)
    ensures var o := ExecBlock(ops, ShadowBody(x), Store(Cons(map[], Nil), ArgValues([x], [v]), []), map[], 0);
            o.Return? && o.result == Some(v)
  {
    ArgSlotsOk([x]);
    assert [x][0] == x && x in [x];
    assert ArgValues([x], [v])[x] == v;
    var s := Store(Cons(map[], Cons(map[], Nil)), ArgValues([x], [v]), []);
    assert LookupScopes(Nil, x) == None;
    assert LookupScopes(Cons(map[], Nil), x) == None;
    assert LookupScopes(s.scopes, x) == None;
    assert EvalExpr(ops, Ident(x), s) == Val(v, s);
    var s1 := Declare(s, x, v);
    assert Exec(ops, Var(x, Some(Ident(x))), s, 0) == Normal(s1);
    assert EvalExpr(ops, Ident(x), s1) == Val(v, s1);
    assert Exec(ops, ReturnStmt(Some(Ident(x))), s1, 0) == Return(Some(v), s1);
    var stmts := ShadowBody(x);
    assert stmts[0] == Var(x, Some(Ident(x))) && stmts[1..] == [ReturnStmt(Some(Ident(x)))];
    assert ExecAll(ops, stmts[1..], s1, 0) == Return(Some(v), s1);
    assert ExecAll(ops, stmts, s, 0) == Return(Some(v), s1);
  }

  lemma {:induction false} ShadowRuns(ops: Ops, v: Value) returns (d': Data)
    ensures Ends(ops, SHADOW_CODE, Data(Cons(v, Nil), [], [], []), Returned(d')) && d'.stack == Cons(Null, Nil)
  {
    hide Ends, PeepholeLine.BranchFree, PeepholeLine.CallFree, PeepholeLine.Line;
    var call: PeepholeLine.Calls := (k, stack, trace) => None;
    var d := Data(Cons(v, Nil), [], [], []);
    ShadowStraight();
    d' := Data(Cons(Null, Nil), [Null], [v], []);
    PeepholeLine.LineEnds(ops, call, SHADOW_CODE, d);
    ShadowLine(ops, call, v);
  }

  lemma ShadowStraight()
    ensures PeepholeLine.BranchFree(SHADOW_CODE) && PeepholeLine.CallFree(SHADOW_CODE)
  {
    hide PeepholeLine.IsStraight, WellFormed;
    forall i | i in SHADOW_CODE ensures PeepholeLine.IsStraight(i) && i.opcode != CALL_L && WellFormed(i) {
      var k :| 0 <= k < |SHADOW_CODE| && SHADOW_CODE[k] == i;
      ShadowInstruction(k);
    }
  }

  lemma ShadowInstruction(k: nat)
    requires k < 5
    ensures PeepholeLine.IsStraight(SHADOW_CODE[k]) && SHADOW_CODE[k].opcode != CALL_L && WellFormed(SHADOW_CODE[k])
  {
  }

  lemma {:induction false} ShadowLine(ops: Ops, call: PeepholeLine.Calls, v: Value)
    ensures PeepholeLine.Line(ops, call, SHADOW_CODE, 0, 0, Data(Cons(v, Nil), [], [], [])) == Some(Data(Cons(Null, Nil), [Null], [v], []))
  {
    hide Unary, Binary;
    var d := Data(Cons(v, Nil), [], [], []);
    var d1 := Data(Nil, [Null], [v], []);
    assert Take(d.stack, 1) == Some(([v], Nil)) by {
      assert Take(d.stack.tail, 0) == Some(([], Nil)) && [v] + [] == [v];
    }
    assert seq(1, _ => Null) == [Null];
    assert ExecData(ops, SHADOW_CODE[0], d) == Some(d1);
    assert ExecData(ops, SHADOW_CODE[1], d1) == Some(d1.Push(Null));
    assert [Null][0 := Null] == [Null];
    assert ExecData(ops, SHADOW_CODE[2], d1.Push(Null)) == Some(d1);
    assert PeepholeLine.Line(ops, call, SHADOW_CODE, 4, 0, d1.Push(Null)) == Some(d1.Push(Null));
    assert PeepholeLine.Line(ops, call, SHADOW_CODE, 3, 0, d1) == Some(d1.Push(Null));
    assert PeepholeLine.Line(ops, call, SHADOW_CODE, 2, 0, d1.Push(Null)) == Some(d1.Push(Null));
    assert PeepholeLine.Line(ops, call, SHADOW_CODE, 1, 0, d1) == Some(d1.Push(Null));
  }
}
