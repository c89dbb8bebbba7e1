/** Whole routines of one operator, run on the machine: the number they return. */
module OperatorRoutines {
  import opened Prelude
  import opened Bytecode
  import opened Vm
  import opened NeoArithmetic
  import opened Ast
  import opened Semantics
  import opened CodegenSpec
  import opened CodegenSteps
  import opened CodegenEnv
  import opened CodegenStmt
  import opened CodegenFunction
  import opened CompiledScript
  import opened PeepholeLayout
  import opened Layout
  import opened LaidOut
  import opened EventOrder
  import opened Operators
  import Miscompiled

  /** `T f(T p, T q) { return p op q; }` */
  function OperatorBody(op: BinaryOp, p: string, q: string): seq<Stmt> {
    [ReturnStmt(Some(BinaryExpr(op, Ident(p), Ident(q))))]
  }

  /** `T f(T p, T q) { p op= q; return p; }` */
  function CompoundBody(aop: AssignOp, p: string, q: string): seq<Stmt> {
    [ExprStmt(AssignExpr(Ident(p), aop, Ident(q))), ReturnStmt(Some(Ident(p)))]
  }

  /** Called alone with `values`, the routine returns `v` and nothing else, or faults without one. */
  ghost predicate Answers(ops: Ops, code: Code, values: seq<Value>, v: Option<Value>) {
    if v.Some? then exists d' :: Ends(ops, code, Called(values), Returned(d')) && d'.stack == Cons(v.value, Nil) && d'.trace == []
    else Ends(ops, code, Called(values), Faulted)
  }

  function Start(p: string, q: string, v: Value, w: Value): Store {
    Store(Cons(map[], Nil), ArgValues([p, q], [v, w]), [])
  }

  lemma {:induction false} Parameters(p: string, q: string, v: Value, w: Value)
    requires p != q
    ensures var s := EnterScope(Start(p, q, v, w), map[]);
            && Lookup(s, p) == Some(v) && Lookup(s, q) == Some(w)
            && LookupScopes(s.scopes, p) == None && s.args == map[p := v, q := w]
    ensures forall n :: n == p || n == q ==> VariableCode(Enter(StartEnv([p, q])), n, false).Ok? && VariableCode(Enter(StartEnv([p, q])), n, true).Ok?
  {
    var s := EnterScope(Start(p, q, v, w), map[]);
    ArgSlotsOk([p, q]);
    assert [p, q][0] == p && [p, q][1] == q && p in [p, q] && q in [p, q];
    NoVariables(p);
    NoVariables(q);
    assert ArgValues([p, q], [v, w]) == map[p := v, q := w];
  }

  lemma NoVariables(name: string)
    ensures LookupScopes(Cons(map[], Cons(map[], Nil)), name) == None && ResolveLocal(Cons(map[], Cons(map[], Nil)), name) == None
  {
    assert LookupScopes(Nil, name) == None && ResolveLocal(Nil, name) == None;
    assert LookupScopes(Cons(map[], Nil), name) == None && ResolveLocal(Cons(map[], Nil), name) == None;
  }

  // ----- return p op q -----

  lemma {:induction false} OperatorCompiled(op: BinaryOp, p: string, q: string)
    requires p != q && !ShortCircuit(op)
    ensures BlockCode(StartEnv([p, q]), OperatorBody(op, p, q)).Ok? && FunctionCode([p, q], false, OperatorBody(op, p, q)).Ok?
    ensures AllNoSelfInit(OperatorBody(op, p, q))
  {
    hide VariableCode, StartEnv, BinaryOpCode;
    Parameters(p, q, Null, Null);
    var env, stmts := Enter(StartEnv([p, q])), OperatorBody(op, p, q);
    assert ExprCode(env, Ident(p)).Ok? && ExprCode(env, Ident(q)).Ok?;
    assert ExprCode(env, BinaryExpr(op, Ident(p), Ident(q))).Ok?;
    OneStatement(env, stmts);
    StartNext([p, q]);
    assert stmts[1..] == [];
  }

  lemma StartNext(params: seq<string>)
    ensures StartEnv(params).next == 0 && Enter(StartEnv(params)).next == 0
  {
  }

  lemma {:induction false} OneStatement(env: Env, stmts: seq<Stmt>)
    requires |stmts| == 1 && StmtCode(env, stmts[0]).Ok?
    ensures StmtsCode(env, stmts) == StmtCode(env, stmts[0])
  {
    hide StmtCode;
    var (code, env1) := StmtCode(env, stmts[0]).value;
    assert stmts[1..] == [] && code + [] == code;
    assert StmtsCode(env1, []) == Ok(([], env1));
  }

  lemma {:induction false} OperatorBodyMeaning(ops: Ops, limit: nat, op: BinaryOp, p: string, q: string, a: int, b: int)
    requires p != q && !ShortCircuit(op) && Arithmetic(ops, limit) && FitsSigned(a, 32) && FitsSigned(b, 32)
    ensures var o := ExecBlock(ops, OperatorBody(op, p, q), Start(p, q, Int(a), Int(b)), map[], 0);
            match NumberOf(op, limit, a, b)
            case Some(v) => o.Return? && o.result == Some(v) && o.store.trace == []
            case None => o == Fault
  {
    hide NumberOf, Arithmetic, FitsSigned, Lookup, Start, EnterScope;
    var s := EnterScope(Start(p, q, Int(a), Int(b)), map[]);
    Parameters(p, q, Int(a), Int(b));
    OperatorMeans(ops, limit, op, Ident(p), Ident(q), s, a, s, b, s);
    var stmts := OperatorBody(op, p, q);
    StartTrace(p, q, Int(a), Int(b));
    assert stmts[0] == ReturnStmt(Some(BinaryExpr(op, Ident(p), Ident(q))));
    assert ExecAll(ops, stmts, s, 0) == Exec(ops, stmts[0], s, 0);
  }

  lemma StartTrace(p: string, q: string, v: Value, w: Value)
    ensures EnterScope(Start(p, q, v, w), map[]).trace == []
  {
  }

  /** A two-parameter routine without self-initialization, from its source outcome. */
  lemma {:induction false} RoutineAnswers(ops: Ops, p: string, q: string, stmts: seq<Stmt>, v: Value, w: Value, r: Option<Value>)
    requires BlockCode(StartEnv([p, q]), stmts).Ok? && FunctionCode([p, q], false, stmts).Ok? && AllNoSelfInit(stmts)
    requires var o := ExecBlock(ops, stmts, Start(p, q, v, w), map[], 0);
             if r.Some? then o.Return? && o.result == r && o.store.trace == [] else o == Fault
    ensures Answers(ops, FunctionCode([p, q], false, stmts).value, [v, w], r)
  {
    hide FunctionCode, BlockCode, ExecBlock, AllNoSelfInit, Take, Stacked, ArgValues, Ends, AppendsRet;
    TakeStacked([v, w]);
    EmptyGood();
    var code := FunctionCode([p, q], false, stmts).value;
    var d' := CompiledRuns(ops, [p, q], false, stmts, [], 0, [v, w], Nil, Called([v, w]));
    assert code + [] == code;
  }

  /** `return p op q` returns the number of the operator. */
  lemma {:induction false} OperatorAnswers(ops: Ops, limit: nat, op: BinaryOp, p: string, q: string, a: int, b: int)
    requires p != q && !ShortCircuit(op) && Arithmetic(ops, limit) && FitsSigned(a, 32) && FitsSigned(b, 32)
    ensures FunctionCode([p, q], false, OperatorBody(op, p, q)).Ok?
    ensures Answers(ops, FunctionCode([p, q], false, OperatorBody(op, p, q)).value, [Int(a), Int(b)], NumberOf(op, limit, a, b))
  {
    hide *;
    OperatorCompiled(op, p, q);
    OperatorBodyMeaning(ops, limit, op, p, q, a, b);
    RoutineAnswers(ops, p, q, OperatorBody(op, p, q), Int(a), Int(b), NumberOf(op, limit, a, b));
  }

  // ----- p op= q; return p -----

  lemma {:induction false} CompoundCompiled(aop: AssignOp, p: string, q: string)
    requires p != q
    ensures BlockCode(StartEnv([p, q]), CompoundBody(aop, p, q)).Ok? && FunctionCode([p, q], false, CompoundBody(aop, p, q)).Ok?
    ensures AllNoSelfInit(CompoundBody(aop, p, q))
  {
    hide VariableCode, StartEnv, AssignOpCode;
    Parameters(p, q, Null, Null);
    var env, stmts := Enter(StartEnv([p, q])), CompoundBody(aop, p, q);
    assert ExprCode(env, Ident(p)).Ok? && ExprCode(env, Ident(q)).Ok?;
    assert ExprCode(env, AssignExpr(Ident(p), aop, Ident(q))).Ok?;
    var first, second := StmtCode(env, stmts[0]).value.0, StmtCode(env, stmts[1]).value.0;
    assert StmtCode(env, stmts[0]) == Ok((first, env)) && StmtCode(env, stmts[1]) == Ok((second, env));
    Miscompiled.TwoStatements(env, stmts, first, env, second, env);
    StartNext([p, q]);
    assert stmts[1..][1..] == [] && stmts[1..][0] == stmts[1];
    assert AllNoSelfInit(stmts[1..]);
  }

  lemma {:induction false} UpdatedParameter(p: string, q: string, v: Value, w: Value, u: Value)
    requires p != q
    ensures var s := EnterScope(Start(p, q, v, w), map[]);
            Lookup(Update(s, p, u), p) == Some(u) && Update(s, p, u).trace == []
  {
    hide Start;
    Parameters(p, q, v, w);
    StartTrace(p, q, v, w);
  }

  lemma {:induction false} CompoundBodyMeaning(ops: Ops, limit: nat, aop: AssignOp, bop: BinaryOp, p: string, q: string, a: int, b: int)
    requires p != q && (aop, bop) in COMPOUND && Arithmetic(ops, limit) && FitsSigned(a, 32) && FitsSigned(b, 32)
    ensures !ShortCircuit(bop)
    ensures var o := ExecBlock(ops, CompoundBody(aop, p, q), Start(p, q, Int(a), Int(b)), map[], 0);
            match NumberOf(bop, limit, a, b)
            case Some(v) => o.Return? && o.result == Some(v) && o.store.trace == []
            case None => o == Fault
  {
    hide NumberOf, Arithmetic, FitsSigned, Lookup, Start, EnterScope, AssignOpCode, Update, COMPOUND, BinaryValue, EvalExpr;
    SameInstruction(aop, bop);
    var s, stmts := EnterScope(Start(p, q, Int(a), Int(b)), map[]), CompoundBody(aop, p, q);
    Parameters(p, q, Int(a), Int(b));
    IdentIs(ops, s, q);
    CompoundIsAssignment(ops, p, aop, bop, Ident(q), s);
    CompoundValue(ops, limit, p, bop, Ident(q), s, a, b, s);
    var r := NumberOf(bop, limit, a, b);
    assert stmts[0] == ExprStmt(AssignExpr(Ident(p), aop, Ident(q))) && stmts[1..] == [ReturnStmt(Some(Ident(p)))];
    if r.Some? {
      var s1 := Update(s, p, r.value);
      UpdatedParameter(p, q, Int(a), Int(b), r.value);
      IdentIs(ops, s1, p);
      assert Exec(ops, stmts[0], s, 0) == Normal(s1);
      assert Exec(ops, stmts[1..][0], s1, 0) == Return(r, s1);
      assert ExecAll(ops, stmts[1..], s1, 0) == Return(r, s1);
    } else {
      assert Exec(ops, stmts[0], s, 0) == Fault;
    }
  }

  lemma IdentIs(ops: Ops, s: Store, name: string)
    requires Lookup(s, name).Some?
    ensures EvalExpr(ops, Ident(name), s) == Val(Lookup(s, name).value, s)
  {
  }

  /** `p op= q; return p` returns the number of the operator the assignment is named after. */
  lemma {:induction false} CompoundAnswers(ops: Ops, limit: nat, aop: AssignOp, bop: BinaryOp, p: string, q: string, a: int, b: int)
    requires p != q && (aop, bop) in COMPOUND && Arithmetic(ops, limit) && FitsSigned(a, 32) && FitsSigned(b, 32)
    ensures !ShortCircuit(bop) && FunctionCode([p, q], false, CompoundBody(aop, p, q)).Ok?
    ensures Answers(ops, FunctionCode([p, q], false, CompoundBody(aop, p, q)).value, [Int(a), Int(b)], NumberOf(bop, limit, a, b))
  {
    hide *;
    CompoundCompiled(aop, p, q);
    CompoundBodyMeaning(ops, limit, aop, bop, p, q, a, b);
    RoutineAnswers(ops, p, q, CompoundBody(aop, p, q), Int(a), Int(b), NumberOf(bop, limit, a, b));
  }
}
