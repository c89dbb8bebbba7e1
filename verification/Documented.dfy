/** Where the emitted code differs from what the compiler's documentation says, and exactly when. */
module Documented {
  import opened Prelude
  import opened Bytecode
  import opened Disasm
  import opened Vm
  import opened Ast
  import opened Semantics
  import opened CodegenSpec
  import opened CodegenSteps
  import opened CodegenEnv
  import opened CodegenStmt
  import opened CodegenFunction
  import Ir

  // ----- the order of packed values -----

  /** Pushing values in order and packing them leaves them in an array back to front. */
  lemma PackReverses(ops: Ops, vs: seq<Value>, stack: List<Value>, d: Data)
    requires d.stack == Cons(Int(|vs|), PushAll(stack, vs))
    ensures ExecData(ops, Op(PACK), d) == Some(d.(stack := Cons(Array(Reverse(vs)), stack)))
  {
    hide IsUnary, IsBinary;
    TakePushed(stack, vs);
  }

  /** Reading field `k` of a struct literal gives the field that far from the end. */
  lemma FieldOfLiteral(ops: Ir.IrOps, literal: Ir.Instr, read: Ir.Instr, vs: seq<Value>)
    requires literal.StructPack? && read.StructFieldGet? && |vs| == |literal.fields| && read.index < |vs|
    ensures Ir.PureValue(ops, literal, vs).Some?
    ensures Ir.PureValue(ops, read, [Ir.PureValue(ops, literal, vs).value]) == Some(vs[|vs| - 1 - read.index])
  {
  }

  /** What the read gives, and what the documentation promises, on a literal with these values. */
  predicate FieldKept(ops: Ir.IrOps, literal: Ir.Instr, read: Ir.Instr, vs: seq<Value>)
    requires literal.StructPack? && read.StructFieldGet? && |vs| == |literal.fields| && read.index < |vs|
  {
    && Ir.PureValue(ops, literal, vs).Some?
    && Ir.PureValue(ops, read, [Ir.PureValue(ops, literal, vs).value]) == Some(vs[read.index])
  }

  /** Only the middle field of an odd number of fields is always the documented one. */
  lemma FieldKeptExactlyWhen(ops: Ir.IrOps, literal: Ir.Instr, read: Ir.Instr)
    requires literal.StructPack? && read.StructFieldGet? && read.index < |literal.fields|
    ensures (forall vs: seq<Value> :: |vs| == |literal.fields| ==> FieldKept(ops, literal, read, vs))
            <==> 2 * read.index + 1 == |literal.fields|
  {
    hide Ir.PureValue;
    var n, k := |literal.fields|, read.index;
    forall vs: seq<Value> | |vs| == n ensures FieldKept(ops, literal, read, vs) <==> vs[n - 1 - k] == vs[k] {
      FieldOfLiteral(ops, literal, read, vs);
    }
    var vs := seq(n, j => Int(j));
    assert |vs| == n && vs[n - 1 - k] == Int(n - 1 - k) && vs[k] == Int(k);
    assert FieldKept(ops, literal, read, vs) <==> n - 1 - k == k;
  }

  // ----- the implicit return of a void function -----

  /** Statements for which nothing is emitted. */
  predicate NoCode(stmt: Stmt) { stmt.Block? && AllNoCode(stmt.stmts) }

  predicate AllNoCode(stmts: seq<Stmt>) { stmts == [] || (NoCode(stmts[0]) && AllNoCode(stmts[1..])) }

  /** A `return` stands last, through blocks and the last branch of conditionals. */
  predicate EndsInReturn(stmt: Stmt)
    decreases stmt, 0
  {
    match stmt
    case ReturnStmt(_) => true
    case If(_, thenBlock, NoElse) => ListEndsInReturn(thenBlock)
    case If(_, _, Else(elseBlock)) => ListEndsInReturn(elseBlock)
    case Block(stmts) => ListEndsInReturn(stmts)
    case _ => false
  }

  predicate ListEndsInReturn(stmts: seq<Stmt>)
    decreases stmts, 0
  {
    stmts != [] && (ListEndsInReturn(stmts[1..]) || (AllNoCode(stmts[1..]) && EndsInReturn(stmts[0])))
  }

  predicate EndsInRet(code: Code) { code != [] && code[|code| - 1].opcode == RET }

  /** The code is empty, or ends in RET, exactly when the source says so. */
  predicate EndMatches(code: Code, none: bool, inReturn: bool) {
    (code == [] <==> none) && (EndsInRet(code) <==> inReturn)
  }

  lemma AppendEnd(a: Code, b: Code)
    ensures b != [] ==> (EndsInRet(a + b) <==> EndsInRet(b))
    ensures b == [] ==> (EndsInRet(a + b) <==> EndsInRet(a))
    ensures a + b == [] <==> a == [] && b == []
  {
  }

  lemma OneEnd(a: Code, i: Instruction)
    ensures a + [i] != [] && (EndsInRet(a + [i]) <==> i.opcode == RET)
  {
  }

  lemma OpcodesAreNotRet(slot: Slot, relative: int)
    requires slot.index < 256
    ensures StoreCode(slot).opcode != RET
    ensures Jump(JMP_L, relative).Ok? ==> Jump(JMP_L, relative).value.opcode == JMP_L
    ensures Jump(JMPIFNOT_L, relative).Ok? ==> Jump(JMPIFNOT_L, relative).value.opcode == JMPIFNOT_L
  {
  }

  lemma {:induction false} StmtEnd(env: Env, stmt: Stmt)
    requires StmtCode(env, stmt).Ok?
    ensures EndMatches(StmtCode(env, stmt).value.0, NoCode(stmt), EndsInReturn(stmt))
    decreases stmt, 1
  {
    hide ExprCode, BlockCode, StmtsCode, IfCode, IfElseCode, LoopCode, StoreCode, EndMatches, EndsInRet, PushInt, PushData;
    hide EachSetup, EachGuard, EachFetch, EachAdvance, ListEndsInReturn, AllNoCode;
    match stmt
    case If(_, _, _) => IfEnd(env, stmt);
    case While(guard, body) => LoopEnd([], ExprCode(env, guard).value, BlockCode(env, body).value.0);
    case ForArray(item, iter, each) => EachEnd(env, item, iter, each);
    case Block(stmts) => BlockEnd(env, stmts);
    case _ => SimpleEnd(env, stmt);
  }

  lemma SimpleEnd(env: Env, stmt: Stmt)
    requires StmtCode(env, stmt).Ok? && (stmt.Var? || stmt.ExprStmt? || stmt.ReturnStmt? || stmt.Emit?)
    ensures EndMatches(StmtCode(env, stmt).value.0, NoCode(stmt), EndsInReturn(stmt))
  {
    hide ExprCode, ExprsCode, StoreCode, PushInt, PushData, DeclareLocal, EndsInRet;
    match stmt
    case Var(name, init) =>
      SlotBound(env, name);
      var c := if init.Some? then ExprCode(DeclareLocal(env, name).value, init.value).value else [Op(PUSHNULL)];
      OpcodesAreNotRet(Local(env.next), 0);
      OneEnd(c, StoreCode(Local(env.next)));
    case ExprStmt(e) => OneEnd(ExprCode(env, e).value, Op(DROP));
    case ReturnStmt(None) => OneEnd([], Op(RET)); assert [] + [Op(RET)] == [Op(RET)];
    case ReturnStmt(Some(e)) => OneEnd(ExprCode(env, e).value, Op(RET));
    case Emit(event, args) =>
      var c, name := ExprsCode(env, args).value, PushData(event).value;
      var last := [name] + [Instruction(SYSCALL, NOTIFY)];
      OneEnd([name], Instruction(SYSCALL, NOTIFY));
      AppendEnd([Op(PACK)], last);
      AppendEnd([PushInt(|args|)], [Op(PACK)] + last);
      AppendEnd(c, [PushInt(|args|)] + ([Op(PACK)] + last));
  }

  lemma SlotBound(env: Env, name: string)
    requires DeclareLocal(env, name).Ok?
    ensures env.next < 256
  {
  }

  lemma {:induction false} IfEnd(env: Env, stmt: Stmt)
    requires StmtCode(env, stmt).Ok? && stmt.If?
    ensures EndMatches(StmtCode(env, stmt).value.0, NoCode(stmt), EndsInReturn(stmt))
    decreases stmt, 0
  {
    hide ExprCode, BlockCode, StmtsCode, EndsInRet, ListEndsInReturn, AllNoCode, ByteLen, Jump;
    var c := ExprCode(env, stmt.cond).value;
    var t := BlockCode(env, stmt.thenBlock).value;
    BlockEnd(env, stmt.thenBlock);
    match stmt.elseBranch
    case NoElse =>
      var jump := Jump(JMPIFNOT_L, 5 + ByteLen(t.0)).value;
      OpcodesAreNotRet(Local(0), 5 + ByteLen(t.0));
      OneEnd([], jump);
      assert [] + [jump] == [jump];
      AppendEnd([jump], t.0);
      AppendEnd(c, [jump] + t.0);
      EmptyEnd(stmt.thenBlock);
    case Else(elseBlock) =>
      var f := BlockCode(t.1, elseBlock).value;
      BlockEnd(t.1, elseBlock);
      var toElse, toEnd := Jump(JMPIFNOT_L, 5 + ByteLen(t.0) + 5).value, Jump(JMP_L, 5 + ByteLen(f.0)).value;
      OpcodesAreNotRet(Local(0), 5 + ByteLen(f.0));
      OneEnd([], toEnd);
      assert [] + [toEnd] == [toEnd];
      AppendEnd([toEnd], f.0);
      AppendEnd(t.0, [toEnd] + f.0);
      AppendEnd([toElse], t.0 + ([toEnd] + f.0));
      AppendEnd(c, [toElse] + (t.0 + ([toEnd] + f.0)));
      EmptyEnd(elseBlock);
  }

  /** What emits nothing does not end in a return. */
  lemma {:induction false} EmptyEnd(stmts: seq<Stmt>)
    ensures AllNoCode(stmts) ==> !ListEndsInReturn(stmts)
  {
    if stmts != [] {
      EmptyEnd(stmts[1..]);
      assert AllNoCode(stmts) ==> NoCode(stmts[0]) && AllNoCode(stmts[1..]);
      if stmts[0].Block? {
        EmptyEnd(stmts[0].stmts);
        BlockReturns(stmts[0].stmts);
        assert stmts[0] == Block(stmts[0].stmts);
      }
    }
  }

  lemma BlockReturns(stmts: seq<Stmt>)
    ensures EndsInReturn(Block(stmts)) == ListEndsInReturn(stmts) && NoCode(Block(stmts)) == AllNoCode(stmts)
  {
  }

  lemma LoopEnd(front: Code, guard: Code, body: Code)
    requires LoopCode(guard, body).Ok?
    ensures EndMatches(front + LoopCode(guard, body).value, false, false) && EndMatches(LoopCode(guard, body).value, false, false)
  {
    hide ByteLen, EndsInRet, Jump;
    var toStart := Jump(JMP_L, -(ByteLen(guard) + 5 + ByteLen(body))).value;
    var toEnd := Jump(JMPIFNOT_L, 5 + ByteLen(body) + 5).value;
    OpcodesAreNotRet(Local(0), -(ByteLen(guard) + 5 + ByteLen(body)));
    OneEnd(body, toStart);
    AppendEnd([toEnd], body + [toStart]);
    AppendEnd(guard, [toEnd] + (body + [toStart]));
    AppendEnd(front, guard + ([toEnd] + (body + [toStart])));
  }

  lemma EachEnd(env: Env, item: string, iter: Expr, each: seq<Stmt>)
    requires StmtCode(env, ForArray(item, iter, each)).Ok?
    ensures EndMatches(StmtCode(env, ForArray(item, iter, each)).value.0, false, false)
  {
    hide ExprCode, StmtsCode, LoopCode, EachSetup, EachGuard, EachFetch, EachAdvance, DeclareLocal, EndMatches;
    var env1 := AllocSlot(env).value;
    var env2 := AllocSlot(env1).value;
    var b := StmtsCode(DeclareLocal(Enter(env2), item).value, each).value;
    var c := ExprCode(env2, iter).value;
    EachSlots(env, item);
    var body := EachFetch(env.next, env2.next) + (b.0 + EachAdvance(env.next));
    LoopEnd(EachSetup(env.next, c), EachGuard(env.next), body);
  }

  lemma EachSlots(env: Env, item: string)
    requires AllocSlot(env).Ok? && AllocSlot(AllocSlot(env).value).Ok?
    requires DeclareLocal(Enter(AllocSlot(AllocSlot(env).value).value), item).Ok?
    ensures env.next < MAX_LOCAL && AllocSlot(AllocSlot(env).value).value.next < MAX_LOCAL
  {
  }

  lemma {:induction false} BlockEnd(env: Env, stmts: seq<Stmt>)
    requires BlockCode(env, stmts).Ok?
    ensures EndMatches(BlockCode(env, stmts).value.0, AllNoCode(stmts), ListEndsInReturn(stmts))
    decreases stmts, 1
  {
    hide StmtsCode, AllNoCode, ListEndsInReturn, EndMatches;
    StmtsEnd(Enter(env), stmts);
  }

  lemma {:induction false} StmtsEnd(env: Env, stmts: seq<Stmt>)
    requires StmtsCode(env, stmts).Ok?
    ensures EndMatches(StmtsCode(env, stmts).value.0, AllNoCode(stmts), ListEndsInReturn(stmts))
    decreases stmts, 0
  {
    hide StmtCode, NoCode, EndsInReturn, EndsInRet;
    if stmts != [] {
      var first := StmtCode(env, stmts[0]).value;
      var rest := StmtsCode(first.1, stmts[1..]).value;
      StmtEnd(env, stmts[0]);
      StmtsEnd(first.1, stmts[1..]);
      AppendEnd(first.0, rest.0);
      EmptyEnd(stmts[1..]);
    } else {
      assert !EndsInRet([]) by { AppendNothing(); }
    }
  }

  lemma AppendNothing()
    ensures !EndsInRet([])
  {
  }

  /**
   * A void function gets its RET exactly when no `return` stands last in its body, a return inside
   * a final conditional included. With such a return, a run that does not take it leaves the routine
   * through its end, into the bytes of the next one.
   */
  lemma RetAppendedExactlyWhen(env: Env, stmts: seq<Stmt>)
    requires BlockCode(env, stmts).Ok?
    ensures AppendsRet(true, BlockCode(env, stmts).value.0) <==> !ListEndsInReturn(stmts)
  {
    hide BlockCode, ListEndsInReturn, AllNoCode;
    BlockEnd(env, stmts);
  }

  // ----- void f(bool c) { if c { return; } } -----

  function GuardedReturn(c: string): seq<Stmt> { [If(Ident(c), [ReturnStmt(None)], NoElse)] }

  const GUARDED_CODE: Code := [Instruction(INITSLOT, [0, 1])] + ([Op(LDARG0)] + ([LongJump(JMPIFNOT_L, 6)] + [Op(RET)]))

  lemma {:induction false} GuardedReturnCode(c: string)
    ensures BlockCode(StartEnv([c]), GuardedReturn(c)) == Ok(([Op(LDARG0)] + ([LongJump(JMPIFNOT_L, 6)] + [Op(RET)]), StartEnv([c])))
    ensures FunctionCode([c], true, GuardedReturn(c)) == Ok(GUARDED_CODE)
    ensures !AppendsRet(true, [Op(LDARG0)] + ([LongJump(JMPIFNOT_L, 6)] + [Op(RET)]))
  {
    hide ToLe;
    var stmts, env := GuardedReturn(c), Enter(StartEnv([c]));
    var inner := [ReturnStmt(None)];
    ParameterCode(c, env);
    ByteLenOne(Op(RET));
    assert inner[0] == ReturnStmt(None) && inner[1..] == [] && [Op(RET)] + [] == [Op(RET)];
    assert StmtsCode(Enter(env), []) == Ok(([], Enter(env)));
    assert StmtsCode(Enter(env), inner) == Ok(([Op(RET)], Enter(env)));
    assert BlockCode(env, inner) == Ok(([Op(RET)], env));
    var code := [Op(LDARG0)] + ([LongJump(JMPIFNOT_L, 6)] + [Op(RET)]);
    assert StmtCode(env, stmts[0]) == Ok((code, env));
    assert stmts[1..] == [] && code + [] == code;
    assert StmtsCode(env, []) == Ok(([], env));
    assert StmtsCode(env, stmts) == Ok((code, env));
    assert code + [] == code;
  }

  lemma {:induction false} ParameterCode(c: string, env: Env)
    requires env == Enter(StartEnv([c]))
    ensures ExprCode(env, Ident(c)) == Ok([Op(LDARG0)])
  {
    assert [c][..|[c]| - 1] == [];
    assert ArgSlots([]) == map[] && ArgSlots([c]) == map[][c := 0];
    assert ResolveLocal(Nil, c) == None;
    assert ResolveLocal(StartEnv([c]).scopes, c) == None;
    assert ResolveLocal(env.scopes, c) == None;
  }

  lemma {:induction false} GuardedReturnMeaning(ops: Ops, c: string, v: Value, trace: seq<Event>)
    requires !Truthy(v)
    ensures var s := Store(Cons(map[], Nil), ArgValues([c], [v]), trace); ExecBlock(ops, GuardedReturn(c), s, map[], 0) == Normal(s)
  {
    hide Truthy;
    ArgSlotsOk([c]);
    assert [c][0] == c && c in [c];
    var s := Store(Cons(map[], Cons(map[], Nil)), ArgValues([c], [v]), trace);
    assert LookupScopes(Nil, c) == None;
    assert LookupScopes(Cons(map[], Nil), c) == None;
    assert LookupScopes(s.scopes, c) == None;
    assert EvalExpr(ops, Ident(c), s) == Val(v, s);
    var stmts := GuardedReturn(c);
    assert Exec(ops, stmts[0], s, 0) == Normal(s);
    assert stmts[1..] == [] && ExecAll(ops, [], s, 0) == Normal(s);
    assert ExecAll(ops, stmts, s, 0) == Normal(s);
  }

  /** When `c` is false, the machine arrives at the byte after the routine, in the same context. */
  lemma {:induction false} ConditionalReturnFallsThrough(c: string, x: Machine, a: State, pc: nat, v: Value, below: List<Value>, d: Data) returns (d': Data)
    requires !Truthy(v) && Entered(x, a, GUARDED_CODE, pc, [c], [v], below, d) && pc + ByteLen(GUARDED_CODE) < |x.script|
    ensures FunctionCode([c], true, GuardedReturn(c)) == Ok(GUARDED_CODE)
    ensures Leads(x, a, At(x, pc + ByteLen(GUARDED_CODE), d')) && d'.stack == below && d'.trace == d.trace
  {
    hide FunctionCode, BlockCode, ExecBlock, Leads, Reaches, CodeAt, ByteLen, Truthy, Take, ArgValues, ToLe;
    GuardedReturnCode(c);
    assert AllNoSelfInit(GuardedReturn(c)) by {
      var stmts, inner := GuardedReturn(c), [ReturnStmt(None)];
      assert inner[1..] == [] && AllNoSelfInit(inner);
      assert stmts[1..] == [] && NoSelfInit(stmts[0]);
    }
    GuardedReturnMeaning(x.ops, c, v, d.trace);
    d' := FunctionCorrect(x, a, [c], true, GuardedReturn(c), 0, pc, [v], below, d);
  }
}
