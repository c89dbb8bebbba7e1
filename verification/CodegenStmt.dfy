/** Compiled statements do what the statements mean: the compiler correctness theorem. */
module CodegenStmt {
  import opened Prelude
  import opened Bytecode
  import opened Disasm
  import opened Vm
  import opened Ast
  import opened Semantics
  import opened CodegenSpec
  import opened CodegenSteps
  import opened CodegenExpr
  import opened CodegenEnv

  /** As `Ready`, with room for every local the code allocates. */
  ghost predicate StmtReady(x: Machine, a: State, env: Env, code: Code, env': Env, pc: nat, s: Store, d: Data) {
    Ready(x, a, env, code, pc, s, d) && env'.next <= |d.locals|
  }

  /**
   * What the machine, having come from `a`, does on code that ends at `end`:
   * a normal run ends there with the stack as before and the slots mirroring the new store;
   * `return` performs RET with the returned value on the stack; a fault is a fault; and a run
   * that is still going after `fuel` loop iterations keeps the machine going for `fuel` steps.
   */
  ghost predicate Executes(x: Machine, a: State, env: Env, env': Env, end: nat, d: Data, o: Outcome, fuel: nat, d': Data) {
    match o
    case Normal(s1) => Leads(x, a, At(x, end, d')) && Mirrors(env', s1, d') && Frames(env, env.next, d, d')
    case Return(v, s1) =>
      && Leads(x, a, Vm.Return(d', x.calls)) && d'.trace == s1.trace
      && d'.stack == if v.Some? then Cons(v.value, d.stack) else d.stack
    case Fault => Leads(x, a, Faulted)
    case OutOfFuel => Outlasts(x.ops, x.script, a, fuel)
    case Stuck => true
  }

  // ----- composing executions -----

  lemma LeadsTrans(x: Machine, a: State, b: State, c: State)
    requires Leads(x, a, b) && Leads(x, b, c)
    ensures Leads(x, a, c)
  {
    ReachesTrans(x.ops, x.script, a, b, c);
  }

  lemma LeadsSelf(x: Machine, a: State)
    ensures Leads(x, a, a)
  {
    ReachesSelf(x.ops, x.script, a);
  }

  /** Continue, from `b`, an execution that came from `a` and has run through `d` to `d1`. */
  lemma Continue(x: Machine, a: State, b: State, env: Env, env1: Env, env': Env, end: nat, d: Data, d1: Data, o: Outcome, fuel: nat, d': Data)
    requires Leads(x, a, b) && Executes(x, b, env1, env', end, d1, o, fuel, d')
    requires Frames(env, env.next, d, d1) && env.next <= env1.next
    requires forall k :: k < env.next && k !in SlotsOf(env.scopes) ==> k !in SlotsOf(env1.scopes)
    ensures Executes(x, a, env, env', end, d, o, fuel, d')
  {
    hide Mirrors, Reaches;
    match o
    case Normal(_) => LeadsTrans(x, a, b, At(x, end, d'));
    case Return(_, _) => LeadsTrans(x, a, b, Vm.Return(d', x.calls));
    case Fault => LeadsTrans(x, a, b, Faulted);
    case OutOfFuel => OutlastsAfter(x.ops, x.script, a, b, fuel);
    case Stuck =>
  }

  /** The same when `b` is one machine step after a point `c` on the way: one more step outlasted. */
  lemma ContinueStep(x: Machine, a: State, c: State, b: State, env: Env, env': Env, end: nat, d: Data, d1: Data, o: Outcome, fuel: nat, d': Data)
    requires Leads(x, a, c) && Step(x.ops, x.script, c) == b && Executes(x, b, env, env', end, d1, o, fuel, d')
    requires Frames(env, env.next, d, d1)
    ensures Executes(x, a, env, env', end, d, o, fuel + 1, d')
  {
    hide Step, Mirrors, Executes;
    assert Leads(x, c, b) by {
      assert Run(x.ops, x.script, c, 1) == Run(x.ops, x.script, b, 0);
    }
    LeadsTrans(x, a, c, b);
    Continue(x, a, b, env, env, env', end, d, d1, o, fuel, d');
    if o.OutOfFuel? {
      assert Outlasts(x.ops, x.script, b, fuel) by { OutOfFuelMeans(x, b, env, env', end, d1, fuel, d'); }
      OutlastsAfter(x.ops, x.script, c, b, fuel);
      OutlastsAfter(x.ops, x.script, a, c, fuel + 1);
    }
    FuelOnlyOutlasts(x, a, env, env', end, d, o, fuel, d');
  }

  lemma OutOfFuelMeans(x: Machine, a: State, env: Env, env': Env, end: nat, d: Data, fuel: nat, d': Data)
    ensures Executes(x, a, env, env', end, d, OutOfFuel, fuel, d') == Outlasts(x.ops, x.script, a, fuel)
  {
  }

  lemma FuelOnlyOutlasts(x: Machine, a: State, env: Env, env': Env, end: nat, d: Data, o: Outcome, fuel: nat, d': Data)
    requires Executes(x, a, env, env', end, d, o, fuel, d')
    requires o.OutOfFuel? ==> Outlasts(x.ops, x.script, a, fuel + 1)
    ensures Executes(x, a, env, env', end, d, o, fuel + 1, d')
  {
  }

  /** An expression that did not produce a value decides the statement. */
  lemma NoValue(x: Machine, a: State, env: Env, env': Env, end: nat, end': nat, d: Data, r: Eval, o: Outcome, fuel: nat, d': Data)
    requires Computes(x, a, env, end, d, r, d') && !r.Val?
    requires o == if r.EvalFault? then Fault else Stuck
    ensures Executes(x, a, env, env', end', d, o, fuel, d')
  {
  }

  lemma FaultOrStuck(x: Machine, a: State, env: Env, env': Env, end: nat, d: Data, o: Outcome, fuel: nat, d': Data)
    requires o.Stuck? || (o.Fault? && Leads(x, a, Faulted))
    ensures Executes(x, a, env, env', end, d, o, fuel, d')
  {
  }

  lemma NarrowFrames(env: Env, d: Data, d': Data)
    requires Frames(env, |d.locals|, d, d')
    ensures Frames(env, env.next, d, d')
  {
  }

  /** A value, then DROP / STLOC / RET: the rest of `code + [i]` after the expression. */
  lemma SplitLast(x: Machine, a: State, env: Env, code: Code, i: Instruction, pc: nat, s: Store, d: Data)
    requires Ready(x, a, env, code + [i], pc, s, d)
    ensures Ready(x, a, env, code, pc, s, d) && CodeAt(x.script, pc + ByteLen(code), [i] + [])
    ensures ByteLen(code + [i]) == ByteLen(code) + EncodedLen(i)
  {
    hide Ready, ByteLen, CodeAt;
    SplitReady(x, a, env, code, [i], pc, s, d);
    ByteLenOne(i);
    assert [i] + [] == [i];
  }

  // ----- simple statements -----

  lemma {:induction false} ExprStmtCorrect(x: Machine, a: State, env: Env, e: Expr, fuel: nat, pc: nat, s: Store, d: Data) returns (d': Data)
    requires StmtCode(env, ExprStmt(e)).Ok?
    requires Ready(x, a, env, StmtCode(env, ExprStmt(e)).value.0, pc, s, d)
    ensures Executes(x, a, env, env, pc + ByteLen(StmtCode(env, ExprStmt(e)).value.0), d, Exec(x.ops, ExprStmt(e), s, fuel), fuel, d')
  {
    hide ExprCode, EvalExpr, CodeAt, Mirrors, EnvOk, ExecData, Leads, ByteLen, Frames;
    var code := ExprCode(env, e).value;
    SplitLast(x, a, env, code, Op(DROP), pc, s, d);
    d' := ExprCorrect(x, a, env, e, pc, s, d);
    match EvalExpr(x.ops, e, s)
    case Val(v, s1) =>
      ExecDup(x.ops, d'.Push(v));
      DataStep(x, a, Op(DROP), [], pc + ByteLen(code), d'.Push(v));
      assert d'.Push(v).(stack := d'.stack) == d';
      NarrowFrames(env, d, d');
    case _ =>
  }

  lemma {:induction false} ReturnCorrect(x: Machine, a: State, env: Env, result: Option<Expr>, fuel: nat, pc: nat, s: Store, d: Data) returns (d': Data)
    requires StmtCode(env, ReturnStmt(result)).Ok?
    requires Ready(x, a, env, StmtCode(env, ReturnStmt(result)).value.0, pc, s, d)
    ensures Executes(x, a, env, env, pc + ByteLen(StmtCode(env, ReturnStmt(result)).value.0), d, Exec(x.ops, ReturnStmt(result), s, fuel), fuel, d')
  {
    hide ExprCode, EvalExpr, CodeAt, MirrorScopes, MirrorArgs, EnvOk, ExecData, Leads, ByteLen;
    if result.None? {
      ReturnStep(x, a, pc, d);
      d' := d;
    } else {
      var code := ExprCode(env, result.value).value;
      SplitLast(x, a, env, code, Op(RET), pc, s, d);
      assert [Op(RET)] + [] == [Op(RET)];
      d' := ExprCorrect(x, a, env, result.value, pc, s, d);
      match EvalExpr(x.ops, result.value, s)
      case Val(v, s1) =>
        ReturnStep(x, a, pc + ByteLen(code), d'.Push(v));
        d' := d'.Push(v);
      case _ =>
    }
  }

  /** STLOC of a freshly declared variable. */
  lemma {:induction false} DeclareStore(x: Machine, a: State, env: Env, name: string, v: Value, pc: nat, s: Store, d0: Data, d: Data) returns (d': Data)
    requires EnvOk(env) && DeclareLocal(env, name).Ok? && env.next < |d.locals| && Mirrors(env, s, d)
    requires Leads(x, a, At(x, pc, d.Push(v))) && CodeAt(x.script, pc, [StoreCode(Local(env.next))] + [])
    requires Frames(env, env.next, d0, d)
    ensures Leads(x, a, At(x, pc + EncodedLen(StoreCode(Local(env.next))), d'))
    ensures Mirrors(DeclareLocal(env, name).value, Declare(s, name, v), d') && Frames(env, env.next, d0, d')
  {
    hide CodeAt, ExecData, Leads, WellFormed, SlotInstruction, Mirrors, Frames, EnvOk;
    var i := StoreCode(Local(env.next));
    ExecStoreSlot(x.ops, Local(env.next), d.Push(v));
    DataStep(x, a, i, [], pc, d.Push(v));
    d' := d.(locals := d.locals[env.next := v]);
    assert d' == StoredData(Local(env.next), d.Push(v));
    DeclareMirrors(env, name, v, s, d);
    StoredFrames(env, v, d0, d);
  }

  lemma {:induction false} DeclareMirrors(env: Env, name: string, v: Value, s: Store, d: Data)
    requires EnvOk(env) && DeclareLocal(env, name).Ok? && env.next < |d.locals| && Mirrors(env, s, d)
    ensures Mirrors(DeclareLocal(env, name).value, Declare(s, name, v), d.(locals := d.locals[env.next := v]))
  {
    hide Distinct;
    MirrorOther(env.scopes, s.scopes, d.locals, d.locals[env.next := v]);
    hide SlotsOf;
  }

  lemma StoredFrames(env: Env, v: Value, d0: Data, d: Data)
    requires Frames(env, env.next, d0, d) && env.next < |d.locals|
    ensures Frames(env, env.next, d0, d.(locals := d.locals[env.next := v]))
  {
    hide SlotsOf;
  }

  lemma {:induction false} VarCorrect(x: Machine, a: State, env: Env, name: string, init: Option<Expr>, fuel: nat, pc: nat, s: Store, d: Data) returns (d': Data)
    requires StmtCode(env, Var(name, init)).Ok? && (init.Some? ==> name !in Names(init.value))
    requires StmtReady(x, a, env, StmtCode(env, Var(name, init)).value.0, StmtCode(env, Var(name, init)).value.1, pc, s, d)
    ensures var (code, env') := StmtCode(env, Var(name, init)).value;
            Executes(x, a, env, env', pc + ByteLen(code), d, Exec(x.ops, Var(name, init), s, fuel), fuel, d')
  {
    hide ExprCode, EvalExpr, CodeAt, Mirrors, EnvOk, ExecData, Leads, ByteLen, Frames, WellFormed;
    var i := StoreCode(Local(env.next));
    var env1 := DeclareLocal(env, name).value;
    if init.None? {
      assert [Op(PUSHNULL)] + [i] == [Op(PUSHNULL)] + ([i] + []);
      ExecLiteral(x.ops, NullLiteral, d);
      DataStep(x, a, Op(PUSHNULL), [i] + [], pc, d);
      PeelCode(x, i, [], pc + 1);
      ByteLenNone();
      FramesOwn(env, d);
      d' := DeclareStore(x, a, env, name, Null, pc + 1, s, d, d);
    } else {
      var e := init.value;
      assert forall n :: n in Names(e) ==> Resolve(env, n) == Resolve(env1, n);
      SameCode(env, env1, e);
      var code := ExprCode(env, e).value;
      SplitLast(x, a, env, code, i, pc, s, d);
      d' := ExprCorrect(x, a, env, e, pc, s, d);
      match EvalExpr(x.ops, e, s)
      case Val(v, s1) =>
        NarrowFrames(env, d, d');
        FramesStack(env, d, d');
        d' := DeclareStore(x, a, env, name, v, pc + ByteLen(code), s1, d, d');
      case _ =>
    }
  }

  lemma FramesOwn(env: Env, d: Data)
    ensures Frames(env, env.next, d, d)
  {
  }

  // ----- emit -----

  ghost predicate ComputesAll(x: Machine, a: State, env: Env, end: nat, d: Data, r: EvalList, d': Data) {
    match r
    case Vals(vs, s1) =>
      && Leads(x, a, At(x, end, d'.(stack := PushAll(d.stack, vs))))
      && Mirrors(env, s1, d') && Frames(env, |d.locals|, d, d')
    case ListFault => Leads(x, a, Faulted)
    case ListStuck => true
  }

  lemma {:induction false} ExprsCorrect(x: Machine, a: State, env: Env, es: seq<Expr>, pc: nat, s: Store, d: Data) returns (d': Data)
    requires ExprsCode(env, es).Ok? && Ready(x, a, env, ExprsCode(env, es).value, pc, s, d)
    ensures ComputesAll(x, a, env, pc + ByteLen(ExprsCode(env, es).value), d, EvalAll(x.ops, es, s), d')
    ensures EvalAll(x.ops, es, s).Vals? ==> |EvalAll(x.ops, es, s).vs| == |es|
    decreases |es|
  {
    hide ExprCode, EvalExpr, CodeAt, Mirrors, EnvOk, Leads, Frames, Ready, Computes, PushAll, ByteLen;
    d' := d;
    ByteLenNone();
    var all := ExprsCode(env, es).value;
    ReadyMeans(x, a, env, all, pc, s, d);
    if es == [] {
      assert PushAll(d.stack, []) == d.stack by { PushNone(d.stack); }
      assert Frames(env, |d.locals|, d, d) by { FramesAll(env, d); }
    } else {
      var first, rest := ExprCode(env, es[0]).value, ExprsCode(env, es[1..]).value;
      SplitFront(x, a, env, first, rest, pc, s, d);
      var d1 := ExprCorrect(x, a, env, es[0], pc, s, d);
      d' := d1;
      match EvalExpr(x.ops, es[0], s)
      case Val(v, s1) =>
        ValMeans(x, a, env, pc + ByteLen(first), d, v, s1, d1);
        PushedReady(env, s1, v, d1);
        MakeReady(x, a, env, rest, pc + ByteLen(first), s1, d1.Push(v));
        var d2 := ExprsCorrect(x, a, env, es[1..], pc + ByteLen(first), s1, d1.Push(v));
        d' := d2;
        if EvalAll(x.ops, es[1..], s1).Vals? {
          var vs := EvalAll(x.ops, es[1..], s1).vs;
          PushFirst(d.stack, v, vs);
          d' := Restack(env, EvalAll(x.ops, es[1..], s1).store, v, d1, d2);
          FramesTrans(env, |d.locals|, d, d1, d');
        }
      case _ => NoneComputed(x, a, env, pc + ByteLen(first), pc + ByteLen(all), d, EvalExpr(x.ops, es[0], s), d1);
    }
  }

  lemma NoneComputed(x: Machine, a: State, env: Env, end: nat, end': nat, d: Data, r: Eval, d': Data)
    requires Computes(x, a, env, end, d, r, d') && !r.Val?
    ensures ComputesAll(x, a, env, end', d, if r.EvalFault? then ListFault else ListStuck, d')
  {
  }

  lemma FramesAll(env: Env, d: Data)
    ensures Frames(env, |d.locals|, d, d)
  {
  }

  /** As `SplitReady`, when nothing is known of what follows `front`. */
  lemma SplitFront(x: Machine, a: State, env: Env, front: Code, rest: Code, pc: nat, s: Store, d: Data)
    requires Ready(x, a, env, front + rest, pc, s, d)
    ensures Ready(x, a, env, front, pc, s, d) && CodeAt(x.script, pc + ByteLen(front), rest)
    ensures ByteLen(front + rest) == ByteLen(front) + ByteLen(rest)
  {
    hide CodeAt, Leads, Mirrors, EnvOk;
    CodeAtSplit(x.script, pc, front, rest);
    ByteLenAppend(front, rest);
  }

  lemma {:induction false} EmitCorrect(x: Machine, a: State, env: Env, event: seq<byte>, args: seq<Expr>, fuel: nat, pc: nat, s: Store, d: Data) returns (d': Data)
    requires StmtCode(env, Emit(event, args)).Ok?
    requires Ready(x, a, env, StmtCode(env, Emit(event, args)).value.0, pc, s, d)
    ensures Executes(x, a, env, env, pc + ByteLen(StmtCode(env, Emit(event, args)).value.0), d, Exec(x.ops, Emit(event, args), s, fuel), fuel, d')
  {
    hide ExprsCode, EvalAll, CodeAt, MirrorScopes, MirrorArgs, EnvOk, ExecData, Leads, ByteLen, WellFormed, PushInt, PushData, Frames, Take, PushAll;
    var code := ExprsCode(env, args).value;
    var n, name, notify := PushInt(|args|), PushData(event).value, Instruction(SYSCALL, NOTIFY);
    var tail := [name] + [notify];
    SplitReady(x, a, env, code, [n] + ([Op(PACK)] + tail), pc, s, d);
    d' := ExprsCorrect(x, a, env, args, pc, s, d);
    var pc1 := pc + ByteLen(code);
    PeelCode(x, n, [Op(PACK)] + tail, pc1);
    PeelCode(x, Op(PACK), tail, pc1 + EncodedLen(n));
    PeelCode(x, name, [notify], pc1 + EncodedLen(n) + 1);
    ByteLenOne(notify);
    match EvalAll(x.ops, args, s)
    case Vals(vs, s1) =>
      var d1 := d'.(stack := PushAll(d.stack, vs));
      ExecPushInt(x.ops, |args|, d1);
      DataStep(x, a, n, [Op(PACK)] + tail, pc1, d1);
      TakePushed(d.stack, vs);
      ExecPack(x.ops, d1.Push(Int(|args|)));
      DataStep(x, a, Op(PACK), tail, pc1 + EncodedLen(n), d1.Push(Int(|args|)));
      var packed := Array(Reverse(vs));
      FramesStack(env, d, d');
      assert d1.Push(Int(|args|)).(stack := Cons(packed, d.stack)) == d'.Push(packed);
      ExecPushData(x.ops, event, d'.Push(packed));
      DataStep(x, a, name, [notify], pc1 + EncodedLen(n) + 1, d'.Push(packed));
      var d2 := d'.Push(packed).Push(Bytes(event));
      ExecNotify(x.ops, d2);
      assert [notify] == [notify] + [];
      DataStep(x, a, notify, [], pc1 + EncodedLen(n) + 1 + EncodedLen(name), d2);
      d' := Noted(env, d, d', Event(event, packed));
    case _ =>
  }

  lemma Noted(env: Env, d: Data, d1: Data, event: Event) returns (d': Data)
    requires Frames(env, |d.locals|, d, d1)
    ensures d' == d1.(trace := d1.trace + [event]) && Frames(env, env.next, d, d')
  {
    d' := d1.(trace := d1.trace + [event]);
  }

  // ----- control flow -----

  lemma {:induction false} StmtCorrect(x: Machine, a: State, env: Env, stmt: Stmt, fuel: nat, pc: nat, s: Store, d: Data) returns (d': Data)
    requires StmtCode(env, stmt).Ok? && NoSelfInit(stmt)
    requires StmtReady(x, a, env, StmtCode(env, stmt).value.0, StmtCode(env, stmt).value.1, pc, s, d)
    ensures var (code, env') := StmtCode(env, stmt).value;
            Executes(x, a, env, env', pc + ByteLen(code), d, Exec(x.ops, stmt, s, fuel), fuel, d')
    decreases fuel, stmt, 5, 0
  {
    hide Executes, Ready, ExprCode, ExprsCode, EvalExpr, EvalAll, ByteLen, IfCode, IfElseCode, LoopCode, PushData, PushInt;
    match stmt
    case Var(name, init) => d' := VarCorrect(x, a, env, name, init, fuel, pc, s, d);
    case ExprStmt(e) => d' := ExprStmtCorrect(x, a, env, e, fuel, pc, s, d);
    case ReturnStmt(result) => d' := ReturnCorrect(x, a, env, result, fuel, pc, s, d);
    case Emit(event, args) => d' := EmitCorrect(x, a, env, event, args, fuel, pc, s, d);
    case Block(stmts) => d' := BlockCorrect(x, a, env, stmts, fuel, pc, s, d);
    case If(_, _, _) => d' := IfCorrect(x, a, env, stmt, fuel, pc, s, d);
    case While(_, _) => d' := WhileCorrect(x, a, env, stmt, fuel, pc, s, d);
    case ForArray(_, _, _) => d' := ForArrayCorrect(x, a, env, stmt, fuel, pc, s, d);
  }

  lemma {:induction false} StmtsCorrect(x: Machine, a: State, env: Env, stmts: seq<Stmt>, fuel: nat, pc: nat, s: Store, d: Data) returns (d': Data)
    requires StmtsCode(env, stmts).Ok? && AllNoSelfInit(stmts)
    requires StmtReady(x, a, env, StmtsCode(env, stmts).value.0, StmtsCode(env, stmts).value.1, pc, s, d)
    ensures var (code, env') := StmtsCode(env, stmts).value;
            Executes(x, a, env, env', pc + ByteLen(code), d, ExecAll(x.ops, stmts, s, fuel), fuel, d')
    decreases fuel, stmts, 0, 0
  {
    hide StmtCode, Exec, CodeAt, Mirrors, EnvOk, Leads, Frames, NoSelfInit, ByteLen;
    d' := d;
    if stmts == [] {
      FramesOwn(env, d);
      ByteLenNone();
    } else {
      var (first, env1) := StmtCode(env, stmts[0]).value;
      var (rest, env') := StmtsCode(env1, stmts[1..]).value;
      EnvAfterStmt(env, stmts[0]);
      EnvAfterStmts(env1, stmts[1..]);
      SplitFront(x, a, env, first, rest, pc, s, d);
      d' := StmtCorrect(x, a, env, stmts[0], fuel, pc, s, d);
      match Exec(x.ops, stmts[0], s, fuel)
      case Normal(s1) =>
        FramesShape(env, d, d');
        var d2 := StmtsCorrect(x, a, env1, stmts[1..], fuel, pc + ByteLen(first), s1, d');
        LeadsSelf(x, a);
        ExtendsSlots(env, env1);
        Continue(x, a, a, env, env1, env', pc + ByteLen(first + rest), d, d', ExecAll(x.ops, stmts[1..], s1, fuel), fuel, d2);
        d' := d2;
      case _ =>
    }
  }

  lemma FramesShape(env: Env, d: Data, d': Data)
    requires Frames(env, env.next, d, d')
    ensures d'.stack == d.stack && |d'.locals| == |d.locals|
  {
  }

  lemma ExtendsSlots(env: Env, env': Env)
    requires Extends(env, env')
    ensures forall k :: k < env.next && k !in SlotsOf(env.scopes) ==> k !in SlotsOf(env'.scopes)
  {
    assert forall n :: n in env.scopes.head ==> env.scopes.head[n] in SlotsOf(env.scopes);
  }

  lemma {:induction false} BlockCorrect(x: Machine, a: State, env: Env, stmts: seq<Stmt>, fuel: nat, pc: nat, s: Store, d: Data) returns (d': Data)
    requires BlockCode(env, stmts).Ok? && AllNoSelfInit(stmts)
    requires StmtReady(x, a, env, BlockCode(env, stmts).value.0, BlockCode(env, stmts).value.1, pc, s, d)
    ensures var (code, env') := BlockCode(env, stmts).value;
            Executes(x, a, env, env', pc + ByteLen(code), d, ExecBlock(x.ops, stmts, s, map[], fuel), fuel, d')
    decreases fuel, stmts, 1, 0
  {
    hide *;
    BlockShape(x.ops, env, stmts, s, fuel);
    var (code, env2) := StmtsCode(Enter(env), stmts).value;
    BlockReady(x, a, env, code, env2, pc, s, d);
    EnvAfterStmts(Enter(env), stmts);
    d' := StmtsCorrect(x, a, Enter(env), stmts, fuel, pc, EnterScope(s, map[]), d);
    LeaveBlock(x, a, env, env2, pc + ByteLen(code), d, ExecAll(x.ops, stmts, EnterScope(s, map[]), fuel), fuel, d');
  }

  /** A block is its statements between entering and leaving a scope. */
  lemma {:induction false} BlockShape(ops: Ops, env: Env, stmts: seq<Stmt>, s: Store, fuel: nat)
    requires BlockCode(env, stmts).Ok?
    ensures StmtsCode(Enter(env), stmts).Ok?
    ensures var (code, env2) := StmtsCode(Enter(env), stmts).value; BlockCode(env, stmts).value == (code, Exit(env2))
    ensures ExecBlock(ops, stmts, s, map[], fuel) == Left(ExecAll(ops, stmts, EnterScope(s, map[]), fuel))
  {
    hide StmtsCode, ExecAll;
  }

  function Left(o: Outcome): Outcome {
    match o
    case Normal(s1) => Normal(ExitScope(s1))
    case other => other
  }

  lemma BlockReady(x: Machine, a: State, env: Env, code: Code, env2: Env, pc: nat, s: Store, d: Data)
    requires StmtReady(x, a, env, code, Exit(env2), pc, s, d)
    ensures EnvOk(env) && EnvOk(Enter(env)) && StmtReady(x, a, Enter(env), code, env2, pc, EnterScope(s, map[]), d)
  {
    hide CodeAt, Leads, ByteLen, EnvOk;
    EnterOk(env);
  }

  lemma LeaveBlock(x: Machine, a: State, env: Env, env2: Env, end: nat, d: Data, o: Outcome, fuel: nat, d': Data)
    requires EnvOk(env) && Extends(Enter(env), env2) && Executes(x, a, Enter(env), env2, end, d, o, fuel, d')
    ensures Executes(x, a, env, Exit(env2), end, d, Left(o), fuel, d')
  {
    hide Leads, Outlasts, EnvOk;
    EnterOk(env);
  }

  lemma {:induction false} IfCorrect(x: Machine, a: State, env: Env, stmt: Stmt, fuel: nat, pc: nat, s: Store, d: Data) returns (d': Data)
    requires stmt.If? && StmtCode(env, stmt).Ok? && NoSelfInit(stmt)
    requires StmtReady(x, a, env, StmtCode(env, stmt).value.0, StmtCode(env, stmt).value.1, pc, s, d)
    ensures var (code, env') := StmtCode(env, stmt).value;
            Executes(x, a, env, env', pc + ByteLen(code), d, Exec(x.ops, stmt, s, fuel), fuel, d')
    decreases fuel, stmt, 4, 0
  {
    hide ExprCode, BlockCode, Exec, Ready, Executes, AllNoSelfInit, ByteLen, EnvOk;
    assert EnvOk(env) by { ReadyMeans(x, a, env, StmtCode(env, stmt).value.0, pc, s, d); }
    var cond := ExprCode(env, stmt.cond).value;
    var (thenCode, env1) := BlockCode(env, stmt.thenBlock).value;
    EnvAfterBlock(env, stmt.thenBlock);
    match stmt.elseBranch
    case NoElse => d' := IfThenCorrect(x, a, env, stmt, cond, thenCode, env1, fuel, pc, s, d);
    case Else(elseBlock) =>
      var (elseCode, env2) := BlockCode(env1, elseBlock).value;
      EnvAfterBlock(env1, elseBlock);
      d' := IfElseCorrect(x, a, env, stmt, cond, thenCode, elseCode, env1, env2, fuel, pc, s, d);
  }

  lemma {:induction false} IfMeaning(ops: Ops, stmt: Stmt, s: Store, fuel: nat, v: Value, s1: Store)
    requires stmt.If? && EvalExpr(ops, stmt.cond, s) == Val(v, s1)
    ensures Exec(ops, stmt, s, fuel) ==
            if Truthy(v) then ExecBlock(ops, stmt.thenBlock, s1, map[], fuel)
            else if stmt.elseBranch.Else? then ExecBlock(ops, stmt.elseBranch.elseBlock, s1, map[], fuel)
            else Normal(s1)
  {
    hide Truthy, EvalExpr, ExecBlock;
  }

  lemma {:induction false} IfNoValue(ops: Ops, stmt: Stmt, s: Store, fuel: nat)
    requires stmt.If? && !EvalExpr(ops, stmt.cond, s).Val?
    ensures Exec(ops, stmt, s, fuel) == if EvalExpr(ops, stmt.cond, s).EvalFault? then Fault else Stuck
  {
    hide EvalExpr, ExecBlock;
  }

  lemma {:induction false} IfThenCorrect(x: Machine, a: State, env: Env, stmt: Stmt, cond: Code, thenCode: Code,
                                         env1: Env, fuel: nat, pc: nat, s: Store, d: Data) returns (d': Data)
    requires stmt.If? && stmt.elseBranch.NoElse? && NoSelfInit(stmt)
    requires ExprCode(env, stmt.cond) == Ok(cond) && BlockCode(env, stmt.thenBlock) == Ok((thenCode, env1))
    requires IfCode(cond, thenCode).Ok? && env1.scopes == env.scopes && env1.args == env.args
    requires StmtReady(x, a, env, IfCode(cond, thenCode).value, env1, pc, s, d)
    ensures Executes(x, a, env, env1, pc + ByteLen(IfCode(cond, thenCode).value), d, Exec(x.ops, stmt, s, fuel), fuel, d')
    decreases fuel, stmt, 3, 0
  {
    hide ExprCode, BlockCode, EvalExpr, ExecBlock, AllNoSelfInit, CodeAt, Mirrors, EnvOk, Leads, Frames, ByteLen, ToLe, Truthy, Executes, Extends;
    hide Ready, Computes;
    hide Exec, StmtCode, IfElseCode, WellFormed, Reaches, Step;
    ReadyMeans(x, a, env, IfCode(cond, thenCode).value, pc, s, d);
    var out := 5 + ByteLen(thenCode);
    var jump := LongJump(JMPIFNOT_L, out);
    SplitReady(x, a, env, cond, [jump] + thenCode, pc, s, d);
    var pc1 := pc + ByteLen(cond);
    PeelCode(x, jump, thenCode, pc1);
    var d1 := ExprCorrect(x, a, env, stmt.cond, pc, s, d);
    d' := d1;
    match EvalExpr(x.ops, stmt.cond, s)
    case Val(v, s1) =>
      ValMeans(x, a, env, pc1, d, v, s1, d1);
      IfMeaning(x.ops, stmt, s, fuel, v, s1);
      BranchStep(x, a, jump, JMPIFNOT_L, out, thenCode, pc1, d1.Push(v));
      NarrowFrames(env, d, d1);
      if Truthy(v) {
        MakeReady(x, a, env, thenCode, pc1 + 5, s1, d1);
        d' := BlockCorrect(x, a, env, stmt.thenBlock, fuel, pc1 + 5, s1, d1);
        LeadsSelf(x, a);
        Continue(x, a, a, env, env, env1, pc1 + out, d, d1, ExecBlock(x.ops, stmt.thenBlock, s1, map[], fuel), fuel, d');
      } else {
        NormalExecutes(x, a, env, env1, pc1 + out, s1, d, d1, fuel);
      }
    case _ =>
      IfNoValue(x.ops, stmt, s, fuel);
      NoValue(x, a, env, env1, pc1, pc1 + out, d, EvalExpr(x.ops, stmt.cond, s), Exec(x.ops, stmt, s, fuel), fuel, d1);
  }

  lemma CondShape(env: Env, v: Value, d: Data, d1: Data)
    requires Frames(env, |d.locals|, d, d1)
    ensures d1.Push(v).(stack := d1.Push(v).stack.tail) == d1
    ensures Frames(env, env.next, d, d1) && |d1.locals| == |d.locals|
  {
  }

  lemma SameScopes(env: Env, env1: Env, s: Store, d: Data)
    requires env1.scopes == env.scopes && env1.args == env.args
    ensures Mirrors(env, s, d) == Mirrors(env1, s, d)
  {
  }

  lemma {:induction false} IfElseShape(cond: Code, thenCode: Code, elseCode: Code)
    requires IfElseCode(cond, thenCode, elseCode).Ok?
    ensures var toElse, toEnd := LongJump(JMPIFNOT_L, 5 + ByteLen(thenCode) + 5), LongJump(JMP_L, 5 + ByteLen(elseCode));
            && IfElseCode(cond, thenCode, elseCode).value == cond + ([toElse] + (thenCode + ([toEnd] + elseCode)))
            && FitsI32(5 + ByteLen(thenCode) + 5) && FitsI32(5 + ByteLen(elseCode))
  {
    hide ByteLen, ToLe;
  }

  /** The then-block of an if-else, with the jump over the else-block. */
  lemma {:induction false} ThenBranchCorrect(x: Machine, a: State, env: Env, env2: Env, block: seq<Stmt>, toEnd: Instruction, over: nat, elseCode: Code,
                                             fuel: nat, pc: nat, s: Store, d: Data) returns (d': Data)
    requires BlockCode(env, block).Ok? && AllNoSelfInit(block) && IsLongJump(toEnd, JMP_L, over)
    requires var (code, env1) := BlockCode(env, block).value;
             && StmtReady(x, a, env, code, env1, pc, s, d) && env2.scopes == env1.scopes == env.scopes && env2.args == env1.args == env.args
             && CodeAt(x.script, pc + ByteLen(code), [toEnd] + elseCode) && pc + ByteLen(code) + over < |x.script|
    ensures Executes(x, a, env, env2, pc + ByteLen(BlockCode(env, block).value.0) + over, d, ExecBlock(x.ops, block, s, map[], fuel), fuel, d')
    decreases fuel, block, 2, 0
  {
    hide BlockCode, ExecBlock, AllNoSelfInit, CodeAt, Mirrors, EnvOk, Leads, Frames, ByteLen, ToLe, Executes, Ready;
    var (code, env1) := BlockCode(env, block).value;
    var end := pc + ByteLen(code);
    var o := ExecBlock(x.ops, block, s, map[], fuel);
    d' := BlockCorrect(x, a, env, block, fuel, pc, s, d);
    if o.Normal? {
      NormalMeans(x, a, env, env1, end, o.store, d, d', fuel);
      JumpStep(x, a, toEnd, over, elseCode, end, d');
      SameScopes(env1, env, o.store, d');
      NormalExecutes(x, a, env, env2, end + over, o.store, d, d', fuel);
    } else {
      AnyEnd(x, a, env, env1, end, end + over, d, o, fuel, d');
      AnyEnv(x, a, env, env1, env2, end + over, d, o, fuel, d');
    }
  }

  lemma {:induction false} IfElseCorrect(x: Machine, a: State, env: Env, stmt: Stmt, cond: Code, thenCode: Code, elseCode: Code,
                                         env1: Env, env2: Env, fuel: nat, pc: nat, s: Store, d: Data) returns (d': Data)
    requires stmt.If? && stmt.elseBranch.Else? && NoSelfInit(stmt)
    requires ExprCode(env, stmt.cond) == Ok(cond) && BlockCode(env, stmt.thenBlock) == Ok((thenCode, env1))
    requires BlockCode(env1, stmt.elseBranch.elseBlock) == Ok((elseCode, env2)) && IfElseCode(cond, thenCode, elseCode).Ok?
    requires env1.scopes == env.scopes && env2.scopes == env.scopes && env1.args == env.args && env2.args == env.args
    requires env.next <= env1.next <= env2.next && EnvOk(env1)
    requires StmtReady(x, a, env, IfElseCode(cond, thenCode, elseCode).value, env2, pc, s, d)
    ensures Executes(x, a, env, env2, pc + ByteLen(IfElseCode(cond, thenCode, elseCode).value), d, Exec(x.ops, stmt, s, fuel), fuel, d')
    decreases fuel, stmt, 3, 0
  {
    hide ExprCode, BlockCode, EvalExpr, ExecBlock, AllNoSelfInit, CodeAt, Mirrors, EnvOk, Leads, Frames, ByteLen, ToLe, Truthy;
    hide Ready, Computes;
    hide Exec, StmtCode, Executes, Extends, IfElseCode, WellFormed, Reaches, Step;
    ReadyMeans(x, a, env, IfElseCode(cond, thenCode, elseCode).value, pc, s, d);
    var skip, over := 5 + ByteLen(thenCode) + 5, 5 + ByteLen(elseCode);
    var toElse, toEnd := LongJump(JMPIFNOT_L, skip), LongJump(JMP_L, over);
    IfElseShape(cond, thenCode, elseCode);
    FivePieces(x, a, env, cond, toElse, thenCode, toEnd, elseCode, pc, s, d);
    var pc1 := pc + ByteLen(cond);
    var pc2 := pc1 + 5 + ByteLen(thenCode);
    var d1 := ExprCorrect(x, a, env, stmt.cond, pc, s, d);
    d' := d1;
    match EvalExpr(x.ops, stmt.cond, s)
    case Val(v, s1) =>
      ValMeans(x, a, env, pc1, d, v, s1, d1);
      IfMeaning(x.ops, stmt, s, fuel, v, s1);
      BranchStep(x, a, toElse, JMPIFNOT_L, skip, thenCode + ([toEnd] + elseCode), pc1, d1.Push(v));
      NarrowFrames(env, d, d1);
      SameScopes(env, env1, s1, d1);
      LeadsSelf(x, a);
      if Truthy(v) {
        MakeReady(x, a, env, thenCode, pc1 + 5, s1, d1);
        d' := ThenBranchCorrect(x, a, env, env2, stmt.thenBlock, toEnd, over, elseCode, fuel, pc1 + 5, s1, d1);
        Continue(x, a, a, env, env, env2, pc2 + over, d, d1, ExecBlock(x.ops, stmt.thenBlock, s1, map[], fuel), fuel, d');
      } else {
        MakeReady(x, a, env1, elseCode, pc2 + 5, s1, d1);
        d' := BlockCorrect(x, a, env1, stmt.elseBranch.elseBlock, fuel, pc2 + 5, s1, d1);
        Continue(x, a, a, env, env1, env2, pc2 + over, d, d1, ExecBlock(x.ops, stmt.elseBranch.elseBlock, s1, map[], fuel), fuel, d');
      }
    case _ =>
      IfNoValue(x.ops, stmt, s, fuel);
      NoValue(x, a, env, env2, pc1, pc2 + over, d, EvalExpr(x.ops, stmt.cond, s), Exec(x.ops, stmt, s, fuel), fuel, d1);
  }

  lemma {:induction false} WhileCorrect(x: Machine, a: State, env: Env, stmt: Stmt, fuel: nat, pc: nat, s: Store, d: Data) returns (d': Data)
    requires stmt.While? && StmtCode(env, stmt).Ok? && NoSelfInit(stmt)
    requires StmtReady(x, a, env, StmtCode(env, stmt).value.0, StmtCode(env, stmt).value.1, pc, s, d)
    ensures var (code, env') := StmtCode(env, stmt).value;
            Executes(x, a, env, env', pc + ByteLen(code), d, Exec(x.ops, stmt, s, fuel), fuel, d')
    decreases fuel, stmt, 4, 0
  {
    hide ExprCode, BlockCode, EvalExpr, ExecBlock, AllNoSelfInit, CodeAt, Mirrors, EnvOk, Frames, ByteLen, ToLe, Truthy, Step, Reaches;
    d' := d;
    if fuel == 0 {
      assert Outlasts(x.ops, x.script, At(x, pc, d), 0);
      OutlastsAfter(x.ops, x.script, a, At(x, pc, d), 0);
    } else {
      var guard := ExprCode(env, stmt.guard).value;
      var (body, env1) := BlockCode(env, stmt.body).value;
      EnvAfterBlock(env, stmt.body);
      var out, back := 5 + ByteLen(body) + 5, -(ByteLen(guard) + 5 + ByteLen(body));
      var toEnd, toStart := LongJump(JMPIFNOT_L, out), LongJump(JMP_L, back);
      assert [toStart] + [] == [toStart];
      FivePieces(x, a, env, guard, toEnd, body, toStart, [], pc, s, d);
      ByteLenNone();
      var pc1 := pc + ByteLen(guard);
      var d1 := ExprCorrect(x, a, env, stmt.guard, pc, s, d);
      d' := d1;
      match EvalExpr(x.ops, stmt.guard, s)
      case Val(v, s1) =>
        BranchStep(x, a, toEnd, JMPIFNOT_L, out, body + [toStart], pc1, d1.Push(v));
        CondShape(env, v, d, d1);
        SameScopes(env, env1, s1, d1);
        if Truthy(v) {
          var b := At(x, pc1 + 5, d1);
          LeadsSelf(x, b);
          var o := ExecBlock(x.ops, stmt.body, s1, map[], fuel - 1);
          var d2 := BlockCorrect(x, b, env, stmt.body, fuel - 1, pc1 + 5, s1, d1);
          var end := pc1 + out;
          if o.Normal? {
            d' := LoopBack(x, a, b, env, env1, stmt, toStart, back, fuel, pc, end - 5, o.store, d, d1, d2);
          } else {
            d' := d2;
            AnyEnd(x, b, env, env1, end - 5, end, d1, o, fuel - 1, d2);
            ContinueStep(x, a, At(x, pc1, d1.Push(v)), b, env, env1, end, d, d1, o, fuel - 1, d2);
          }
        }
      case _ =>
    }
  }

  lemma AnyEnd(x: Machine, a: State, env: Env, env': Env, end: nat, end': nat, d: Data, o: Outcome, fuel: nat, d': Data)
    requires Executes(x, a, env, env', end, d, o, fuel, d') && !o.Normal?
    ensures Executes(x, a, env, env', end', d, o, fuel, d')
  {
  }

  /** From the end of a loop body, `d2`, back to the test and on with the remaining iterations. */
  lemma {:induction false} LoopBack(x: Machine, a: State, b: State, env: Env, env1: Env, stmt: Stmt, toStart: Instruction, back: int,
                                    fuel: nat, pc: nat, pc2: nat, s2: Store, d: Data, d1: Data, d2: Data) returns (d': Data)
    requires stmt.While? && StmtCode(env, stmt).Ok? && NoSelfInit(stmt) && fuel > 0
    requires StmtCode(env, stmt).value.1 == env1 && env1.scopes == env.scopes && env1.args == env.args
    requires CodeAt(x.script, pc, StmtCode(env, stmt).value.0) && pc + ByteLen(StmtCode(env, stmt).value.0) == pc2 + 5 < |x.script|
    requires EnvOk(env) && env1.next <= |d.locals|
    requires Leads(x, a, b) && Leads(x, b, At(x, pc2, d2)) && Mirrors(env1, s2, d2)
    requires Frames(env, env.next, d, d1) && Frames(env, env.next, d1, d2)
    requires IsLongJump(toStart, JMP_L, back) && pc2 + back == pc && CodeAt(x.script, pc2, [toStart])
    ensures Executes(x, a, env, env1, pc2 + 5, d, Exec(x.ops, stmt, s2, fuel - 1), fuel, d')
    decreases fuel, stmt, 3, 0
  {
    hide StmtCode, Exec, NoSelfInit, CodeAt, EnvOk, Executes, ByteLen, ToLe, Step, Reaches, Mirrors;
    var c := At(x, pc, d2);
    assert [toStart] == [toStart] + [];
    LeadsTrans(x, a, b, At(x, pc2, d2));
    JumpStep(x, a, toStart, back, [], pc2, d2);
    LeadsSelf(x, c);
    SameScopes(env, env1, s2, d2);
    d' := StmtCorrect(x, c, env, stmt, fuel - 1, pc, s2, d2);
    ContinueStep(x, a, At(x, pc2, d2), c, env, env1, pc2 + 5, d, d2, Exec(x.ops, stmt, s2, fuel - 1), fuel - 1, d');
  }

  // ----- for item in iter -----

  /** The hidden slots of a running `for`: the array being walked and the next index. */
  ghost predicate Walking(env: Env, items: seq<Value>, k: nat, d: Data) {
    && env.next + 1 < |d.locals| && d.locals[env.next] == Array(items) && d.locals[env.next + 1] == Int(k)
  }

  lemma {:induction false} EachSetupCorrect(x: Machine, a: State, env: Env, iter: Expr, rest: Code, pc: nat, s: Store, d: Data) returns (d': Data)
    requires var env2 := env.(next := env.next + 2);
             && EnvOk(env) && env.next + 2 < MAX_LOCAL && env.next + 1 < |d.locals| && ExprCode(env2, iter).Ok?
             && Ready(x, a, env2, EachSetup(env.next, ExprCode(env2, iter).value) + rest, pc, s, d)
    ensures var setup := EachSetup(env.next, ExprCode(env.(next := env.next + 2), iter).value);
            && CodeAt(x.script, pc + ByteLen(setup), rest) && ByteLen(setup + rest) == ByteLen(setup) + ByteLen(rest)
            && match EvalExpr(x.ops, iter, s)
               case Val(v, s1) =>
                 && Leads(x, a, At(x, pc + ByteLen(setup), d')) && Mirrors(env, s1, d') && Frames(env, env.next, d, d')
                 && d'.locals[env.next] == v && d'.locals[env.next + 1] == Int(0)
               case EvalFault => Leads(x, a, Faulted)
               case EvalStuck => true
  {
    hide ExprCode, EvalExpr, CodeAt, Mirrors, ExecData, Leads, ByteLen, WellFormed, PushInt, SlotInstruction, Distinct;
    var env2, n := env.(next := env.next + 2), env.next;
    var code := ExprCode(env2, iter).value;
    var st0, zero, st1 := StoreCode(Local(n)), PushInt(0), StoreCode(Local(n + 1));
    var setup := EachSetup(n, code);
    CodeAtSplit(x.script, pc, setup, rest);
    ByteLenAppend(setup, rest);
    SplitFront(x, a, env2, setup, rest, pc, s, d);
    SplitReady(x, a, env2, code, [st0] + ([zero] + [st1]), pc, s, d);
    var pc1 := pc + ByteLen(code);
    PeelCode(x, st0, [zero] + [st1], pc1);
    PeelCode(x, zero, [st1], pc1 + EncodedLen(st0));
    ByteLenOne(st1);
    d' := ExprCorrect(x, a, env2, iter, pc, s, d);
    match EvalExpr(x.ops, iter, s)
    case Val(v, s1) =>
      ExecStoreSlot(x.ops, Local(n), d'.Push(v));
      DataStep(x, a, st0, [zero] + [st1], pc1, d'.Push(v));
      var d1 := StoredData(Local(n), d'.Push(v));
      ExecPushInt(x.ops, 0, d1);
      DataStep(x, a, zero, [st1], pc1 + EncodedLen(st0), d1);
      ExecStoreSlot(x.ops, Local(n + 1), d1.Push(Int(0)));
      assert [st1] == [st1] + [];
      DataStep(x, a, st1, [], pc1 + EncodedLen(st0) + EncodedLen(zero), d1.Push(Int(0)));
      var d2 := StoredData(Local(n + 1), d1.Push(Int(0)));
      HiddenSlots(env, s1, d', d2);
      d' := d2;
    case _ =>
  }

  /** Writing slots no variable owns keeps the mirror. */
  lemma {:induction false} HiddenSlots(env: Env, s: Store, d: Data, d': Data)
    requires EnvOk(env) && (Mirrors(env, s, d) || Mirrors(env.(next := env.next + 2), s, d))
    requires d'.args == d.args && d'.trace == d.trace && |d'.locals| == |d.locals|
    requires forall k :: 0 <= k < env.next && k < |d.locals| ==> d'.locals[k] == d.locals[k]
    ensures Mirrors(env, s, d')
  {
    MirrorOther(env.scopes, s.scopes, d.locals, d'.locals);
  }

  /** The test of a `for` leaves whether an element remains. */
  lemma EachGuardCorrect(x: Machine, a: State, env: Env, items: seq<Value>, k: nat, rest: Code, pc: nat, d: Data)
    requires Walking(env, items, k, d) && env.next + 2 < MAX_LOCAL
    requires Leads(x, a, At(x, pc, d)) && CodeAt(x.script, pc, EachGuard(env.next) + rest)
    ensures var g := EachGuard(env.next);
            && Leads(x, a, At(x, pc + ByteLen(g), d.Push(Bool(k < |items|))))
            && CodeAt(x.script, pc + ByteLen(g), rest) && ByteLen(g + rest) == ByteLen(g) + ByteLen(rest)
  {
    hide CodeAt, ExecData, Leads, ByteLen, WellFormed, SlotInstruction;
    var n := env.next;
    var ld1, ld0 := LoadCode(Local(n + 1)), LoadCode(Local(n));
    var g := EachGuard(n);
    CodeAtSplit(x.script, pc, g, rest);
    ByteLenAppend(g, rest);
    ExecLoadSlot(x.ops, Local(n + 1), d);
    DataStep(x, a, ld1, [ld0] + ([Op(SIZE)] + [Op(LT)]), pc, d);
    var d1, pc1 := d.Push(Int(k)), pc + EncodedLen(ld1);
    ExecLoadSlot(x.ops, Local(n), d1);
    DataStep(x, a, ld0, [Op(SIZE)] + [Op(LT)], pc1, d1);
    var d2, pc2 := d1.Push(Array(items)), pc1 + EncodedLen(ld0);
    ExecUnary(x.ops, Op(SIZE), d2) by { assert WellFormed(Op(SIZE)) by { SizeWellFormed(); } }
    DataStep(x, a, Op(SIZE), [Op(LT)], pc2, d2);
    var d3 := d1.Push(Int(|items|));
    assert d2.(stack := Cons(Int(|items|), d1.stack)) == d3;
    ExecBinary(x.ops, LT, d3);
    assert [Op(LT)] == [Op(LT)] + [];
    DataStep(x, a, Op(LT), [], pc2 + 1, d3);
    ByteLenOne(Op(LT));
    assert d3.(stack := Cons(Bool(k < |items|), d.stack)) == d.Push(Bool(k < |items|));
  }

  lemma SizeWellFormed()
    ensures WellFormed(Op(SIZE)) && WellFormed(Op(INC))
  {
  }

  /** Fetching the next element declares the loop variable. */
  lemma {:induction false} EachFetchCorrect(x: Machine, a: State, env: Env, item: string, items: seq<Value>, k: nat, rest: Code, pc: nat, s: Store, d: Data)
    returns (d': Data)
    requires Walking(env, items, k, d) && k < |items| && EnvOk(env) && env.next + 2 < MAX_LOCAL && env.next + 2 < |d.locals|
    requires Mirrors(env, s, d)
    requires Leads(x, a, At(x, pc, d)) && CodeAt(x.script, pc, EachFetch(env.next, env.next + 2) + rest)
    ensures var f := EachFetch(env.next, env.next + 2);
            && Leads(x, a, At(x, pc + ByteLen(f), d'))
            && CodeAt(x.script, pc + ByteLen(f), rest) && ByteLen(f + rest) == ByteLen(f) + ByteLen(rest)
    ensures d' == d.(locals := d.locals[env.next + 2 := items[k]]) && Walking(env, items, k, d')
    ensures Mirrors(env.(scopes := Cons(map[item := env.next + 2], env.scopes)), EnterScope(s, map[item := items[k]]), d')
  {
    hide CodeAt, ExecData, Leads, ByteLen, WellFormed, SlotInstruction, Distinct;
    var n := env.next;
    var ld1, ld0, st := LoadCode(Local(n + 1)), LoadCode(Local(n)), StoreCode(Local(n + 2));
    var f := EachFetch(n, n + 2);
    CodeAtSplit(x.script, pc, f, rest);
    ByteLenAppend(f, rest);
    ExecLoadSlot(x.ops, Local(n), d);
    DataStep(x, a, ld0, [ld1] + ([Op(PICKITEM)] + [st]), pc, d);
    var d1, pc1 := d.Push(Array(items)), pc + EncodedLen(ld0);
    ExecLoadSlot(x.ops, Local(n + 1), d1);
    DataStep(x, a, ld1, [Op(PICKITEM)] + [st], pc1, d1);
    var d2, pc2 := d1.Push(Int(k)), pc1 + EncodedLen(ld1);
    ExecBinary(x.ops, PICKITEM, d2);
    DataStep(x, a, Op(PICKITEM), [st], pc2, d2);
    var d3 := d.Push(items[k]);
    assert d2.(stack := Cons(items[k], d.stack)) == d3;
    ExecStoreSlot(x.ops, Local(n + 2), d3);
    assert [st] == [st] + [];
    DataStep(x, a, st, [], pc2 + 1, d3);
    ByteLenOne(st);
    d' := d.(locals := d.locals[n + 2 := items[k]]);
    assert StoredData(Local(n + 2), d3) == d';
    MirrorOther(env.scopes, s.scopes, d.locals, d'.locals);
  }

  lemma EachAdvanceCorrect(x: Machine, a: State, env: Env, items: seq<Value>, k: nat, rest: Code, pc: nat, d: Data) returns (d': Data)
    requires Walking(env, items, k, d) && env.next + 2 < MAX_LOCAL
    requires Leads(x, a, At(x, pc, d)) && CodeAt(x.script, pc, EachAdvance(env.next) + rest)
    ensures var g := EachAdvance(env.next);
            && Leads(x, a, At(x, pc + ByteLen(g), d'))
            && CodeAt(x.script, pc + ByteLen(g), rest) && ByteLen(g + rest) == ByteLen(g) + ByteLen(rest)
    ensures d' == d.(locals := d.locals[env.next + 1 := Int(k + 1)])
  {
    hide CodeAt, ExecData, Leads, ByteLen, WellFormed, SlotInstruction;
    var n := env.next;
    var ld, st := LoadCode(Local(n + 1)), StoreCode(Local(n + 1));
    var g := EachAdvance(n);
    CodeAtSplit(x.script, pc, g, rest);
    ByteLenAppend(g, rest);
    ExecLoadSlot(x.ops, Local(n + 1), d);
    DataStep(x, a, ld, [Op(INC)] + [st], pc, d);
    var d1, pc1 := d.Push(Int(k)), pc + EncodedLen(ld);
    ExecUnary(x.ops, Op(INC), d1) by { assert WellFormed(Op(INC)) by { SizeWellFormed(); } }
    DataStep(x, a, Op(INC), [st], pc1, d1);
    var d2 := d.Push(Int(k + 1));
    assert d1.(stack := Cons(Int(k + 1), d.stack)) == d2;
    ExecStoreSlot(x.ops, Local(n + 1), d2);
    assert [st] == [st] + [];
    DataStep(x, a, st, [], pc1 + 1, d2);
    ByteLenOne(st);
    d' := d.(locals := d.locals[n + 1 := Int(k + 1)]);
    assert StoredData(Local(n + 1), d2) == d';
  }

  /** Environment in which the body of a `for` is compiled. */
  function EachEnv(env: Env, item: string): Env {
    Env(env.args, Cons(map[item := env.next + 2], env.scopes), env.next + 3)
  }

  function EachLoop(env: Env, item: string, each: seq<Stmt>): Result<Code, CodegenError>
    requires env.next + 2 < MAX_LOCAL && StmtsCode(EachEnv(env, item), each).Ok?
  {
    LoopCode(EachGuard(env.next), EachFetch(env.next, env.next + 2) + (StmtsCode(EachEnv(env, item), each).value.0 + EachAdvance(env.next)))
  }

  /** After the body and the increment, the loop stands before the next element. */
  lemma {:induction false} NextElement(env: Env, item: string, env4: Env, items: seq<Value>, k: nat, v: Value, s3: Store, d: Data, d2: Data, d3: Data, d4: Data)
    requires EnvOk(env) && Extends(EachEnv(env, item), env4)
    requires env.next + 2 < |d.locals| && Walking(env, items, k, d2) && d2 == d.(locals := d.locals[env.next + 2 := v])
    requires |d2.locals| == |d.locals| && Frames(EachEnv(env, item), env.next + 3, d2, d3) && Mirrors(env4, s3, d3)
    requires |d3.locals| == |d.locals| && d4 == d3.(locals := d3.locals[env.next + 1 := Int(k + 1)])
    ensures Walking(env, items, k, d3)
    ensures Walking(env, items, k + 1, d4) && Mirrors(env, ExitScope(s3), d4) && Frames(env, env.next, d, d4)
  {
    hide Distinct;
    var env3 := EachEnv(env, item);
    assert SlotsOf(env3.scopes) == SlotsOf(env.scopes) + {env.next + 2} by {
      var top := map[item := env.next + 2];
      assert item in top && top.Values == {env.next + 2};
    }
    MirrorOther(env.scopes, s3.scopes.tail, d3.locals, d4.locals);
  }

  /** The guard and the branch after it: into the body while elements are left, past the loop otherwise. */
  lemma EachTest(x: Machine, a: State, env: Env, items: seq<Value>, k: nat, out: nat, rest: Code, pc: nat, d: Data)
    requires Walking(env, items, k, d) && env.next + 2 < MAX_LOCAL && k <= |items|
    requires IsLongJump(LongJump(JMPIFNOT_L, out), JMPIFNOT_L, out)
    requires Leads(x, a, At(x, pc, d)) && CodeAt(x.script, pc, EachGuard(env.next) + ([LongJump(JMPIFNOT_L, out)] + rest))
    requires pc + ByteLen(EachGuard(env.next)) + out < |x.script|
    ensures var pc1 := pc + ByteLen(EachGuard(env.next));
            Leads(x, a, At(x, pc1 + if k < |items| then 5 else out, d)) && CodeAt(x.script, pc1 + 5, rest)
  {
    hide CodeAt, Leads, ByteLen, EachGuard, Walking, Truthy, LongJump, IsLongJump;
    var toEnd := LongJump(JMPIFNOT_L, out);
    EachGuardCorrect(x, a, env, items, k, [toEnd] + rest, pc, d);
    TruthyBool(k < |items|);
    BranchStep(x, a, toEnd, JMPIFNOT_L, out, rest, pc + ByteLen(EachGuard(env.next)), d.Push(Bool(k < |items|)));
    assert d.Push(Bool(k < |items|)).(stack := d.stack) == d;
  }

  /** Byte lengths and positions of the pieces of a for-in loop. */
  lemma EachLoopShape(env: Env, item: string, each: seq<Stmt>)
    requires env.next + 2 < MAX_LOCAL && StmtsCode(EachEnv(env, item), each).Ok? && EachLoop(env, item, each).Ok?
    ensures var n, body := env.next, StmtsCode(EachEnv(env, item), each).value.0;
            var work := EachFetch(n, n + 2) + (body + EachAdvance(n));
            var out, back := 5 + ByteLen(work) + 5, -(ByteLen(EachGuard(n)) + 5 + ByteLen(work));
            && EachLoop(env, item, each).value ==
               EachGuard(n) + ([LongJump(JMPIFNOT_L, out)] + (work + [LongJump(JMP_L, back)]))
            && IsLongJump(LongJump(JMPIFNOT_L, out), JMPIFNOT_L, out) && IsLongJump(LongJump(JMP_L, back), JMP_L, back)
            && ByteLen(EachLoop(env, item, each).value) == ByteLen(EachGuard(n)) + out
  {
    hide StmtsCode, ByteLen, EachFetch, EachAdvance, EachGuard, ToLe;
    var n, body := env.next, StmtsCode(EachEnv(env, item), each).value.0;
    var work := EachFetch(n, n + 2) + (body + EachAdvance(n));
    var out, back := 5 + ByteLen(work) + 5, -(ByteLen(EachGuard(n)) + 5 + ByteLen(work));
    var toEnd, toStart := LongJump(JMPIFNOT_L, out), LongJump(JMP_L, back);
    ByteLenAppend(EachGuard(n), [toEnd] + (work + [toStart]));
    ByteLenAppend([toEnd], work + [toStart]);
    ByteLenAppend(work, [toStart]);
    ByteLenOne(toEnd);
    ByteLenOne(toStart);
  }

  lemma {:induction false} EachCorrect(x: Machine, a: State, env: Env, item: string, each: seq<Stmt>, items: seq<Value>, k: nat,
                                       fuel: nat, pc: nat, s: Store, d: Data) returns (d': Data)
    requires env.next + 2 < MAX_LOCAL && StmtsCode(EachEnv(env, item), each).Ok? && EachLoop(env, item, each).Ok? && AllNoSelfInit(each)
    requires StmtReady(x, a, env, EachLoop(env, item, each).value, StmtsCode(EachEnv(env, item), each).value.1, pc, s, d)
    requires EnvOk(EachEnv(env, item)) && Walking(env, items, k, d) && k <= |items|
    ensures Executes(x, a, env, Exit(StmtsCode(EachEnv(env, item), each).value.1), pc + ByteLen(EachLoop(env, item, each).value), d,
                     ExecEach(x.ops, item, each, items[k..], s, fuel), fuel, d')
    decreases fuel, each, 2, |items| - k
  {
    hide StmtsCode, ExecAll, ExecEach, AllNoSelfInit, CodeAt, Mirrors, EnvOk, Leads, Frames, ByteLen, EachGuard, EachFetch, EachAdvance, Executes, Walking, Ready, ExecBlock;
    hide LongJump, IsLongJump, EachLoop, WellFormed, Reaches, Taken, Step;
    ReadyMeans(x, a, env, EachLoop(env, item, each).value, pc, s, d);
    EachLoopShape(env, item, each);
    var (body, env4) := StmtsCode(EachEnv(env, item), each).value;
    var n := env.next;
    var work := EachFetch(n, n + 2) + (body + EachAdvance(n));
    var out, back := 5 + ByteLen(work) + 5, -(ByteLen(EachGuard(n)) + 5 + ByteLen(work));
    var toStart := LongJump(JMP_L, back);
    EnvAfterStmts(EachEnv(env, item), each);
    EachMeaning(x.ops, item, each, items, k, s, fuel);
    EachTest(x, a, env, items, k, out, work + [toStart], pc, d);
    var pc1 := pc + ByteLen(EachGuard(n));
    CodeAtSplit(x.script, pc1 + 5, work, [toStart]);
    var end := pc1 + out;
    if k == |items| {
      d' := d;
      FramesOwn(env, d);
      NormalExecutes(x, a, env, Exit(env4), end, s, d, d, fuel);
    } else {
      d' := EachStep(x, a, env, item, each, items, k, fuel, pc1 + 5, s, d, toStart, back);
      var o := ExecBlock(x.ops, each, s, map[item := items[k]], fuel);
      if o.Normal? {
        var d4 := d';
        NormalMeans(x, a, env, env, end - 5, o.store, d, d4, fuel);
        assert [toStart] == [toStart] + [];
        JumpStep(x, a, toStart, back, [], end - 5, d4);
        MakeReady(x, a, env, EachLoop(env, item, each).value, pc, o.store, d4);
        d' := EachCorrect(x, a, env, item, each, items, k + 1, fuel, pc, o.store, d4);
        LeadsSelf(x, a);
        Continue(x, a, a, env, env, Exit(env4), end, d, d4, ExecEach(x.ops, item, each, items[k + 1..], o.store, fuel), fuel, d');
      } else {
        AnyEnd(x, a, env, env, end - 5, end, d, o, fuel, d');
        AnyEnv(x, a, env, env, Exit(env4), end, d, o, fuel, d');
      }
    }
  }

  lemma TruthyBool(b: bool)
    ensures Truthy(Bool(b)) == b
  {
  }

  lemma {:induction false} EachMeaning(ops: Ops, item: string, each: seq<Stmt>, items: seq<Value>, k: nat, s: Store, fuel: nat)
    requires k <= |items|
    ensures ExecEach(ops, item, each, items[k..], s, fuel) ==
            if k == |items| then Normal(s)
            else
              match ExecBlock(ops, each, s, map[item := items[k]], fuel)
              case Normal(s1) => ExecEach(ops, item, each, items[k + 1..], s1, fuel)
              case other => other
  {
    hide ExecBlock;
    if k < |items| {
      assert items[k..][1..] == items[k + 1..];
    }
  }

  lemma NormalExecutes(x: Machine, a: State, env: Env, env': Env, end: nat, s: Store, d: Data, d': Data, fuel: nat)
    requires Leads(x, a, At(x, end, d')) && Mirrors(env, s, d') && Frames(env, env.next, d, d')
    requires env'.scopes == env.scopes && env'.args == env.args
    ensures Executes(x, a, env, env', end, d, Normal(s), fuel, d')
  {
  }

  lemma NormalMeans(x: Machine, a: State, env: Env, env': Env, end: nat, s: Store, d: Data, d': Data, fuel: nat)
    requires Executes(x, a, env, env', end, d, Normal(s), fuel, d')
    ensures Leads(x, a, At(x, end, d')) && Mirrors(env', s, d') && Frames(env, env.next, d, d')
  {
  }

  lemma AnyEnv(x: Machine, a: State, env: Env, env1: Env, env2: Env, end: nat, d: Data, o: Outcome, fuel: nat, d': Data)
    requires Executes(x, a, env, env1, end, d, o, fuel, d') && !o.Normal?
    ensures Executes(x, a, env, env2, end, d, o, fuel, d')
  {
  }

  /** One element: fetch it, run the body, advance the index; a normal run stands before the jump back. */
  lemma {:induction false} EachStep(x: Machine, a: State, env: Env, item: string, each: seq<Stmt>, items: seq<Value>, k: nat,
                                    fuel: nat, pc: nat, s: Store, d: Data, toStart: Instruction, back: int) returns (d': Data)
    requires env.next + 2 < MAX_LOCAL && StmtsCode(EachEnv(env, item), each).Ok? && AllNoSelfInit(each)
    requires var (body, env4) := StmtsCode(EachEnv(env, item), each).value;
             var work := EachFetch(env.next, env.next + 2) + (body + EachAdvance(env.next));
             && Leads(x, a, At(x, pc, d)) && CodeAt(x.script, pc, work) && pc + ByteLen(work) + 5 < |x.script|
             && env4.next <= |d.locals|
    requires EnvOk(env) && EnvOk(EachEnv(env, item)) && Mirrors(env, s, d) && Walking(env, items, k, d) && k < |items|
    ensures var (body, env4) := StmtsCode(EachEnv(env, item), each).value;
            var work := EachFetch(env.next, env.next + 2) + (body + EachAdvance(env.next));
            var o := ExecBlock(x.ops, each, s, map[item := items[k]], fuel);
            Executes(x, a, env, env, pc + ByteLen(work), d, o, fuel, d') && (o.Normal? ==> Walking(env, items, k + 1, d') && |d'.locals| == |d.locals|)
    decreases fuel, each, 1, 0
  {
    hide StmtsCode, ExecAll, AllNoSelfInit, CodeAt, MirrorScopes, MirrorArgs, Distinct, Leads, ByteLen, EachFetch, EachAdvance, Walking;
    var env3, n := EachEnv(env, item), env.next;
    var (body, env4) := StmtsCode(env3, each).value;
    var fetch, advance := EachFetch(n, n + 2), EachAdvance(n);
    EnvAfterStmts(env3, each);
    var d2 := EachFetchCorrect(x, a, env, item, items, k, body + advance, pc, s, d);
    var s2, pc2 := EnterScope(s, map[item := items[k]]), pc + ByteLen(fetch);
    CodeAtSplit(x.script, pc2, body, advance);
    ByteLenAppend(body, advance);
    assert advance + [] == advance;
    var d3 := StmtsCorrect(x, a, env3, each, fuel, pc2, s2, d2);
    var o := ExecAll(x.ops, each, s2, fuel);
    d' := d3;
    match o
    case Normal(s3) =>
      NextElement(env, item, env4, items, k, items[k], s3, d, d2, d3, d3.(locals := d3.locals[n + 1 := Int(k + 1)]));
      d' := EachAdvanceCorrect(x, a, env, items, k, [], pc2 + ByteLen(body), d3);
    case _ =>
  }

  /** Code and meaning of a for-in statement, piece by piece. */
  lemma {:induction false} ForArrayShape(ops: Ops, env: Env, stmt: Stmt, s: Store, fuel: nat)
    requires stmt.ForArray? && StmtCode(env, stmt).Ok?
    ensures env.next + 2 < MAX_LOCAL && ExprCode(env.(next := env.next + 2), stmt.iter).Ok?
    ensures StmtsCode(EachEnv(env, stmt.item), stmt.each).Ok? && EachLoop(env, stmt.item, stmt.each).Ok?
    ensures StmtCode(env, stmt).value ==
            (EachSetup(env.next, ExprCode(env.(next := env.next + 2), stmt.iter).value) + EachLoop(env, stmt.item, stmt.each).value,
             Exit(StmtsCode(EachEnv(env, stmt.item), stmt.each).value.1))
    ensures Exec(ops, stmt, s, fuel) ==
            match EvalExpr(ops, stmt.iter, s)
            case Val(v, s1) => if v.Array? then ExecEach(ops, stmt.item, stmt.each, v.items, s1, fuel) else Stuck
            case EvalFault => Fault
            case EvalStuck => Stuck
  {
    hide StmtsCode, ExprCode, EvalExpr, ExecEach, LoopCode, EachSetup, EachGuard, EachFetch, EachAdvance;
    var env2 := env.(next := env.next + 2);
    assert map[][stmt.item := env.next + 2] == map[stmt.item := env.next + 2];
    assert DeclareLocal(Enter(env2), stmt.item) == Ok(EachEnv(env, stmt.item));
  }

  lemma {:induction false} ForArrayCorrect(x: Machine, a: State, env: Env, stmt: Stmt, fuel: nat, pc: nat, s: Store, d: Data) returns (d': Data)
    requires stmt.ForArray? && StmtCode(env, stmt).Ok? && NoSelfInit(stmt)
    requires StmtReady(x, a, env, StmtCode(env, stmt).value.0, StmtCode(env, stmt).value.1, pc, s, d)
    ensures var (code, env') := StmtCode(env, stmt).value;
            Executes(x, a, env, env', pc + ByteLen(code), d, Exec(x.ops, stmt, s, fuel), fuel, d')
    decreases fuel, stmt, 4, 0
  {
    hide StmtsCode, ExprCode, EvalExpr, ExecEach, AllNoSelfInit, CodeAt, Mirrors, Distinct, Leads, Frames, ByteLen, EachSetup, EachLoop, Ready, Executes;
    hide Exec, StmtCode, WellFormed, Reaches, Step;
    ReadyMeans(x, a, env, StmtCode(env, stmt).value.0, pc, s, d);
    ForArrayShape(x.ops, env, stmt, s, fuel);
    var env2 := env.(next := env.next + 2);
    EnvAfterEach(env, stmt.item, stmt.each);
    var loop := EachLoop(env, stmt.item, stmt.each).value;
    var env' := StmtCode(env, stmt).value.1;
    var setup := EachSetup(env.next, ExprCode(env2, stmt.iter).value);
    SameScopes(env, env2, s, d);
    MakeReady(x, a, env2, setup + loop, pc, s, d);
    var d1 := EachSetupCorrect(x, a, env, stmt.iter, loop, pc, s, d);
    d' := d1;
    match EvalExpr(x.ops, stmt.iter, s)
    case Val(v, s1) =>
      if v.Array? {
        FramesShape(env, d, d1);
        assert v.items[0..] == v.items;
        MakeReady(x, a, env, loop, pc + ByteLen(setup), s1, d1);
        d' := EachCorrect(x, a, env, stmt.item, stmt.each, v.items, 0, fuel, pc + ByteLen(setup), s1, d1);
        LeadsSelf(x, a);
        Continue(x, a, a, env, env, env', pc + ByteLen(setup + loop), d, d1, ExecEach(x.ops, stmt.item, stmt.each, v.items, s1, fuel), fuel, d');
      } else {
        FaultOrStuck(x, a, env, env', pc + ByteLen(setup + loop), d, Stuck, fuel, d1);
      }
    case _ => FaultOrStuck(x, a, env, env', pc + ByteLen(setup + loop), d, Exec(x.ops, stmt, s, fuel), fuel, d1);
  }
}
