/**
 * What compiling a statement does to the slot environment: declarations take fresh slots, blocks
 * give back the variables they found, and code does not depend on variables it does not name.
 */
module CodegenEnv {
  import opened Prelude
  import opened Bytecode
  import opened Vm
  import opened Ast
  import opened Semantics
  import opened CodegenSpec
  import opened CodegenSteps

  /** Variables an expression reads or writes. */
  function Names(e: Expr): set<string> {
    match e
    case Ident(name) => {name}
    case SelfExpr => {"self"}
    case Paren(inner) => Names(inner)
    case Cast(inner, _) => Names(inner)
    case UnaryExpr(_, operand) => Names(operand)
    case BinaryExpr(_, left, right) => Names(left) + Names(right)
    case Index(base, index) => Names(base) + Names(index)
    case AssignExpr(target, _, value) => Names(target) + Names(value)
    case _ => {}
  }

  /** No `var` initialiser mentions the variable being declared. */
  predicate NoSelfInit(stmt: Stmt)
    decreases stmt, 0
  {
    match stmt
    case Var(name, Some(e)) => name !in Names(e)
    case If(_, thenBlock, NoElse) => AllNoSelfInit(thenBlock)
    case If(_, thenBlock, Else(elseBlock)) => AllNoSelfInit(thenBlock) && AllNoSelfInit(elseBlock)
    case While(_, body) => AllNoSelfInit(body)
    case ForArray(_, _, each) => AllNoSelfInit(each)
    case Block(stmts) => AllNoSelfInit(stmts)
    case _ => true
  }

  predicate AllNoSelfInit(stmts: seq<Stmt>)
    decreases stmts, 1
  {
    stmts == [] || (NoSelfInit(stmts[0]) && AllNoSelfInit(stmts[1..]))
  }

  lemma SameBinary(env: Env, env': Env, e: Expr)
    requires e.BinaryExpr? && ExprCode(env, e.left) == ExprCode(env', e.left) && ExprCode(env, e.right) == ExprCode(env', e.right)
    ensures ExprCode(env, e) == ExprCode(env', e)
  {
    hide AndCode, OrCode, NullTestCode, IsNullLiteral;
  }

  lemma SameAssign(env: Env, env': Env, e: Expr)
    requires e.AssignExpr? && (e.target.Ident? ==> Resolve(env, e.target.name) == Resolve(env', e.target.name))
    requires e.target.Ident? ==> ExprCode(env, e.value) == ExprCode(env', e.value)
    ensures ExprCode(env, e) == ExprCode(env', e)
  {
    hide Resolve;
  }

  /** The code of an expression depends only on how its own names resolve. */
  lemma {:induction false} SameCode(env: Env, env': Env, e: Expr)
    requires forall n :: n in Names(e) ==> Resolve(env, n) == Resolve(env', n)
    ensures ExprCode(env, e) == ExprCode(env', e)
  {
    hide Resolve, LiteralCode, UnaryCode, StackItemType;
    match e
    case Paren(inner) => SameCode(env, env', inner);
    case Cast(inner, _) => SameCode(env, env', inner);
    case UnaryExpr(_, operand) => SameCode(env, env', operand);
    case BinaryExpr(_, left, right) =>
      SameCode(env, env', left);
      SameCode(env, env', right);
      SameBinary(env, env', e);
    case Index(base, index) =>
      SameCode(env, env', base);
      SameCode(env, env', index);
    case AssignExpr(target, _, value) =>
      if target.Ident? {
        assert target.name in Names(target);
        SameCode(env, env', value);
      }
      SameAssign(env, env', e);
    case _ =>
  }

  /** Later statements see the earlier variables in their old slots, and new ones in fresh slots. */
  ghost predicate Extends(env: Env, env': Env) {
    && env'.args == env.args && env.next <= env'.next
    && env.scopes.Cons? && env'.scopes.Cons? && env'.scopes.tail == env.scopes.tail
    && (forall n :: n in env.scopes.head ==> n in env'.scopes.head && env'.scopes.head[n] == env.scopes.head[n])
    && (forall n :: n in env'.scopes.head && n !in env.scopes.head ==> env'.scopes.head[n] >= env.next)
  }

  lemma ExtendsTrans(env: Env, env1: Env, env2: Env)
    requires Extends(env, env1) && Extends(env1, env2)
    ensures Extends(env, env2)
  {
  }

  /** A declared variable's slot is none of the slots in use. */
  lemma {:induction false} DeclareFresh(env: Env, name: string)
    requires EnvOk(env) && DeclareLocal(env, name).Ok?
    ensures EnvOk(DeclareLocal(env, name).value) && Extends(env, DeclareLocal(env, name).value)
    ensures env.next !in SlotsOf(env.scopes)
    ensures SlotsOf(DeclareLocal(env, name).value.scopes) == SlotsOf(env.scopes) + {env.next}
  {
    hide Distinct;
    AddedValues(env.scopes.head, name, env.next);
    var top := env.scopes.head;
    assert forall n :: n in top ==> top[n] in SlotsOf(env.scopes);
    assert Distinct(DeclareLocal(env, name).value.scopes) by { DeclareDistinct(env.scopes, name, env.next); }
  }

  lemma {:induction false} AddedValues(top: map<string, nat>, name: string, k: nat)
    requires name !in top
    ensures top[name := k].Values == top.Values + {k}
  {
    var top1 := top[name := k];
    assert top1[name] == k;
    forall v | v in top.Values ensures v in top1.Values {
      var n :| n in top && top[n] == v;
      assert top1[n] == v;
    }
  }

  lemma {:induction false} DeclareDistinct(scopes: List<map<string, nat>>, name: string, k: nat)
    requires scopes.Cons? && Distinct(scopes) && name !in scopes.head && k !in SlotsOf(scopes)
    ensures Distinct(Cons(scopes.head[name := k], scopes.tail))
  {
    AddedValues(scopes.head, name, k);
    var top := scopes.head;
    assert forall n :: n in top ==> top[n] in top.Values;
  }

  lemma EnterOk(env: Env)
    requires EnvOk(env)
    ensures EnvOk(Enter(env)) && SlotsOf(Enter(env).scopes) == SlotsOf(env.scopes)
  {
  }

  lemma {:induction false} EnvAfterStmt(env: Env, stmt: Stmt)
    requires EnvOk(env) && StmtCode(env, stmt).Ok?
    ensures EnvOk(StmtCode(env, stmt).value.1) && Extends(env, StmtCode(env, stmt).value.1)
    decreases stmt, 0
  {
    hide ExprCode, ExprsCode, IfCode, IfElseCode, LoopCode, PushData, EnvOk;
    match stmt
    case Var(name, _) => DeclareFresh(env, name);
    case If(_, thenBlock, NoElse) => EnvAfterBlock(env, thenBlock);
    case If(_, thenBlock, Else(elseBlock)) =>
      EnvAfterBlock(env, thenBlock);
      EnvAfterBlock(BlockCode(env, thenBlock).value.1, elseBlock);
    case While(_, body) => EnvAfterBlock(env, body);
    case ForArray(item, _, each) => EnvAfterEach(env, item, each);
    case Block(stmts) => EnvAfterBlock(env, stmts);
    case _ => assert Extends(env, env) by { ExtendsSelf(env); }
  }

  lemma ExtendsSelf(env: Env)
    requires EnvOk(env)
    ensures Extends(env, env)
  {
  }

  lemma {:induction false} EnvAfterStmts(env: Env, stmts: seq<Stmt>)
    requires EnvOk(env) && StmtsCode(env, stmts).Ok?
    ensures EnvOk(StmtsCode(env, stmts).value.1) && Extends(env, StmtsCode(env, stmts).value.1)
    decreases stmts, 0
  {
    hide EnvOk, StmtCode;
    if stmts == [] {
      ExtendsSelf(env);
    } else {
      var env1 := StmtCode(env, stmts[0]).value.1;
      EnvAfterStmt(env, stmts[0]);
      EnvAfterStmts(env1, stmts[1..]);
      ExtendsTrans(env, env1, StmtsCode(env, stmts).value.1);
    }
  }

  /** Leaving a block restores the visible variables; only the slot counter has moved. */
  lemma {:induction false} EnvAfterBlock(env: Env, stmts: seq<Stmt>)
    requires EnvOk(env) && BlockCode(env, stmts).Ok?
    ensures var env1 := BlockCode(env, stmts).value.1;
            EnvOk(env1) && Extends(env, env1) && env1.scopes == env.scopes
    decreases stmts, 1
  {
    hide StmtsCode;
    EnterOk(env);
    EnvAfterStmts(Enter(env), stmts);
  }

  lemma {:induction false} EnvAfterEach(env: Env, item: string, each: seq<Stmt>)
    requires EnvOk(env) && env.next + 2 <= MAX_LOCAL
    requires var env2 := env.(next := env.next + 2);
             && DeclareLocal(Enter(env2), item).Ok?
             && StmtsCode(DeclareLocal(Enter(env2), item).value, each).Ok?
    ensures var env2 := env.(next := env.next + 2);
            var env3 := DeclareLocal(Enter(env2), item).value;
            var env4 := StmtsCode(env3, each).value.1;
            && EnvOk(env3) && SlotsOf(env3.scopes) == SlotsOf(env.scopes) + {env.next + 2}
            && env3.next == env.next + 3 <= env4.next
            && EnvOk(Exit(env4)) && Extends(env, Exit(env4)) && Exit(env4).scopes == env.scopes
    decreases each, 1
  {
    hide StmtsCode;
    var env2 := env.(next := env.next + 2);
    assert EnvOk(env2);
    EnterOk(env2);
    DeclareFresh(Enter(env2), item);
    EnvAfterStmts(DeclareLocal(Enter(env2), item).value, each);
  }
}
