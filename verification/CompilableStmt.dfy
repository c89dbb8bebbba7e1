/** Exactly which statements and functions compile, to how many bytes, and which slots they take. */
module CompilableStmt {
  import opened Prelude
  import opened Bytecode
  import opened Ast
  import opened CodegenSpec
  import opened Vm
  import opened Encodings
  import opened Compilable

  // ----- slots -----

  /** Local slots a statement takes: one a variable, three a loop over an array; none is given back. */
  function Taken(stmt: Stmt): nat
    decreases stmt, 0
  {
    match stmt
    case Var(_, _) => 1
    case If(_, thenBlock, NoElse) => TakenAll(thenBlock)
    case If(_, thenBlock, Else(elseBlock)) => TakenAll(thenBlock) + TakenAll(elseBlock)
    case While(_, body) => TakenAll(body)
    case ForArray(_, _, each) => 3 + TakenAll(each)
    case Block(stmts) => TakenAll(stmts)
    case ExprStmt(_) => 0
    case ReturnStmt(_) => 0
    case Emit(_, _) => 0
  }

  function TakenAll(stmts: seq<Stmt>): nat
    decreases stmts, 0
  {
    if stmts == [] then 0 else Taken(stmts[0]) + TakenAll(stmts[1..])
  }

  /** What is in scope for the next statement. */
  function After(env: Env, stmt: Stmt): Env {
    match stmt
    case Var(name, _) =>
      if env.scopes.Nil? then env else Env(env.args, Cons(env.scopes.head[name := env.next], env.scopes.tail), env.next + 1)
    case _ => env.(next := env.next + Taken(stmt))
  }

  /** After a block, whose variables are gone. */
  function AfterBlock(env: Env, stmts: seq<Stmt>): Env { env.(next := env.next + TakenAll(stmts)) }

  // ----- sizes -----

  function SlotSize(k: nat): nat { if k < 7 then 1 else 2 }

  function SizeOfExprs(env: Env, es: seq<Expr>): nat {
    if es == [] then 0 else ExprSize(env, es[0]) + SizeOfExprs(env, es[1..])
  }

  /** In the body of a loop over an array: the item is a variable of its scope. */
  function EachEnv(env: Env, item: string): Env {
    Env(env.args, Cons(map[item := env.next + 2], env.scopes), env.next + 3)
  }

  function Counted(env: Env): Env { env.(next := env.next + 2) }

  function StmtSize(env: Env, stmt: Stmt): nat
    decreases stmt, 0
  {
    match stmt
    case Var(name, None) => 1 + SlotSize(env.next)
    case Var(name, Some(e)) => ExprSize(After(env, stmt), e) + SlotSize(env.next)
    case ExprStmt(e) => ExprSize(env, e) + 1
    case If(cond, thenBlock, NoElse) => ExprSize(env, cond) + 5 + SizeOf(Enter(env), thenBlock)
    case If(cond, thenBlock, Else(elseBlock)) =>
      ExprSize(env, cond) + 5 + SizeOf(Enter(env), thenBlock) + 5 + SizeOf(Enter(AfterBlock(env, thenBlock)), elseBlock)
    case While(guard, body) => ExprSize(env, guard) + 5 + SizeOf(Enter(env), body) + 5
    case ForArray(item, iter, each) =>
      ExprSize(Counted(env), iter) + SlotSize(env.next) + 1 + SlotSize(env.next + 1) + GuardSize(env) + 5 + EachSize(env, item, each) + 5
    case ReturnStmt(None) => 1
    case ReturnStmt(Some(e)) => ExprSize(env, e) + 1
    case Emit(event, args) => SizeOfExprs(env, args) + IntSize(|args|) + 1 + DataSize(|event|) + 5
    case Block(stmts) => SizeOf(Enter(env), stmts)
  }

  function SizeOf(env: Env, stmts: seq<Stmt>): nat
    decreases stmts, 0
  {
    if stmts == [] then 0 else StmtSize(env, stmts[0]) + SizeOf(After(env, stmts[0]), stmts[1..])
  }

  /** Counter, array, SIZE, LT. */
  function GuardSize(env: Env): nat { SlotSize(env.next + 1) + SlotSize(env.next) + 2 }

  /** Fetch of the item, the body, and the step of the counter. */
  function EachSize(env: Env, item: string, each: seq<Stmt>): nat
    decreases each, 1
  {
    SlotSize(env.next) + SlotSize(env.next + 1) + 1 + SlotSize(env.next + 2) +
    SizeOf(EachEnv(env, item), each) + SlotSize(env.next + 1) + 1 + SlotSize(env.next + 1)
  }

  // ----- statements -----

  predicate AllExprsCompile(env: Env, es: seq<Expr>) { es == [] || (ExprCompiles(env, es[0]) && AllExprsCompile(env, es[1..])) }

  /** Out of the loop forward, and back to its start. */
  predicate LoopReaches(guard: nat, body: nat) { Reachable(5 + body + 5) && guard + 5 + body <= 0x8000_0000 }

  predicate StmtCompiles(env: Env, stmt: Stmt)
    decreases stmt, 0
  {
    match stmt
    case Var(name, init) =>
      && env.next < 255 && env.scopes.Cons? && name !in env.scopes.head
      && (init.Some? ==> ExprCompiles(After(env, stmt), init.value))
    case ExprStmt(e) => ExprCompiles(env, e)
    case If(cond, thenBlock, NoElse) =>
      ExprCompiles(env, cond) && AllCompile(Enter(env), thenBlock) && Reachable(5 + SizeOf(Enter(env), thenBlock))
    case If(cond, thenBlock, Else(elseBlock)) =>
      && ExprCompiles(env, cond) && AllCompile(Enter(env), thenBlock) && AllCompile(Enter(AfterBlock(env, thenBlock)), elseBlock)
      && Reachable(5 + SizeOf(Enter(env), thenBlock) + 5) && Reachable(5 + SizeOf(Enter(AfterBlock(env, thenBlock)), elseBlock))
    case While(guard, body) =>
      ExprCompiles(env, guard) && AllCompile(Enter(env), body) && LoopReaches(ExprSize(env, guard), SizeOf(Enter(env), body))
    case ForArray(item, iter, each) =>
      && env.next + 2 < 255 && ExprCompiles(Counted(env), iter) && AllCompile(EachEnv(env, item), each)
      && LoopReaches(GuardSize(env), EachSize(env, item, each))
    case ReturnStmt(None) => true
    case ReturnStmt(Some(e)) => ExprCompiles(env, e)
    case Emit(event, args) => AllExprsCompile(env, args) && |event| < 0x1_0000_0000 && |args| <= 0x7FFF_FFFF_FFFF_FFFF
    case Block(stmts) => AllCompile(Enter(env), stmts)
  }

  predicate AllCompile(env: Env, stmts: seq<Stmt>)
    decreases stmts, 0
  {
    stmts == [] || (StmtCompiles(env, stmts[0]) && AllCompile(After(env, stmts[0]), stmts[1..]))
  }

  // ----- the code generator agrees -----

  /** The result is there exactly when it should be, of the right size, leaving the right environment. */
  ghost predicate AsExpected(r: Result<(Code, Env), CodegenError>, ok: bool, size: nat, env: Env) {
    && (r.Ok? <==> ok)
    && (r.Ok? ==> ByteLen(r.value.0) == size && r.value.1 == env)
  }

  lemma {:induction false} StmtCompilesExactlyWhen(env: Env, stmt: Stmt)
    ensures AsExpected(StmtCode(env, stmt), StmtCompiles(env, stmt), StmtSize(env, stmt), After(env, stmt))
    decreases stmt, 1
  {
    hide *;
    match stmt {
      case Var(_, _) => VarBytes(env, stmt);
      case ExprStmt(_) => PlainBytes(env, stmt);
      case If(_, _, NoElse) => IfBytes(env, stmt);
      case If(_, _, Else(_)) => IfElseBytes(env, stmt);
      case While(_, _) => WhileBytes(env, stmt);
      case ForArray(_, _, _) => EachBytes(env, stmt);
      case ReturnStmt(_) => PlainBytes(env, stmt);
      case Emit(_, _) => EmitBytes(env, stmt);
      case Block(_) => NestedBytes(env, stmt);
    }
  }

  lemma {:induction false} AllCompileExactlyWhen(env: Env, stmts: seq<Stmt>) returns (end: Env)
    ensures AsExpected(StmtsCode(env, stmts), AllCompile(env, stmts), SizeOf(env, stmts), end)
    ensures end.args == env.args && end.scopes.Cons? == env.scopes.Cons? && (env.scopes.Cons? ==> end.scopes.tail == env.scopes.tail)
    ensures AllCompile(env, stmts) ==> end.next == env.next + TakenAll(stmts)
    decreases stmts, 0
  {
    hide StmtCode, StmtSize, StmtCompiles, Taken, ByteLen;
    end := env;
    if stmts == [] {
      NoBytes();
    } else {
      StmtCompilesExactlyWhen(env, stmts[0]);
      var env1 := After(env, stmts[0]);
      AfterKeeps(env, stmts[0]);
      var rest := AllCompileExactlyWhen(env1, stmts[1..]);
      end := rest;
      if StmtCode(env, stmts[0]).Ok? && StmtsCode(env1, stmts[1..]).Ok? {
        ByteLenAppend(StmtCode(env, stmts[0]).value.0, StmtsCode(env1, stmts[1..]).value.0);
      }
    }
  }

  lemma NoBytes()
    ensures ByteLen([]) == 0
  {
  }

  lemma AfterKeeps(env: Env, stmt: Stmt)
    ensures var end := After(env, stmt);
            end.args == env.args && end.scopes.Cons? == env.scopes.Cons? && (env.scopes.Cons? ==> end.scopes.tail == env.scopes.tail)
    ensures StmtCompiles(env, stmt) ==> After(env, stmt).next == env.next + Taken(stmt)
  {
  }

  lemma {:induction false} BlockCompilesExactlyWhen(env: Env, stmts: seq<Stmt>)
    ensures AsExpected(BlockCode(env, stmts), AllCompile(Enter(env), stmts), SizeOf(Enter(env), stmts), AfterBlock(env, stmts))
    decreases stmts, 1
  {
    hide StmtsCode, AllCompile, SizeOf, TakenAll, ByteLen;
    var end := AllCompileExactlyWhen(Enter(env), stmts);
  }

  lemma {:induction false} VarBytes(env: Env, stmt: Stmt)
    requires stmt.Var?
    ensures AsExpected(StmtCode(env, stmt), StmtCompiles(env, stmt), StmtSize(env, stmt), After(env, stmt))
  {
    hide ByteLen, ExprCode, ExprCompiles, ExprSize, StoreCode;
    if env.next < 255 {
      SlotBytes(env.next);
      var env1, st := After(env, stmt), StoreCode(Local(env.next));
      if stmt.init.Some? {
        ExprCompilesExactlyWhen(env1, stmt.init.value);
        if ExprCode(env1, stmt.init.value).Ok? {
          Bytes2(ExprCode(env1, stmt.init.value).value, st);
        }
      } else {
        Bytes2([Op(PUSHNULL)], st);
        Bytes1(Op(PUSHNULL));
      }
    }
  }

  lemma SlotBytes(k: nat)
    requires k < 256
    ensures EncodedLen(LoadCode(Local(k))) == SlotSize(k) && EncodedLen(StoreCode(Local(k))) == SlotSize(k)
  {
  }

  lemma {:induction false} PlainBytes(env: Env, stmt: Stmt)
    requires stmt.ExprStmt? || stmt.ReturnStmt?
    ensures AsExpected(StmtCode(env, stmt), StmtCompiles(env, stmt), StmtSize(env, stmt), After(env, stmt))
  {
    hide ByteLen, ExprCode, ExprCompiles, ExprSize;
    Bytes1(Op(RET));
    assert env.(next := env.next + 0) == env;
    if stmt.ExprStmt? || stmt.result.Some? {
      var e := if stmt.ExprStmt? then stmt.expr else stmt.result.value;
      ExprCompilesExactlyWhen(env, e);
      if ExprCode(env, e).Ok? {
        Bytes2(ExprCode(env, e).value, Op(RET));
        Bytes2(ExprCode(env, e).value, Op(DROP));
      }
    }
  }

  lemma BranchBytes(c: Code, t: Code)
    ensures IfCode(c, t).Ok? <==> Reachable(5 + ByteLen(t))
    ensures IfCode(c, t).Ok? ==> ByteLen(IfCode(c, t).value) == ByteLen(c) + 5 + ByteLen(t)
  {
    hide ByteLen, Jump;
    JumpBytes(JMPIFNOT_L, 5 + ByteLen(t));
    if IfCode(c, t).Ok? {
      var toEnd := Jump(JMPIFNOT_L, 5 + ByteLen(t)).value;
      ByteLenAppend(c, [toEnd] + t);
      BytesFirst(toEnd, t);
    }
  }

  lemma TwoBranchBytes(c: Code, t: Code, f: Code)
    ensures IfElseCode(c, t, f).Ok? <==> Reachable(5 + ByteLen(t) + 5) && Reachable(5 + ByteLen(f))
    ensures IfElseCode(c, t, f).Ok? ==> ByteLen(IfElseCode(c, t, f).value) == ByteLen(c) + 5 + ByteLen(t) + 5 + ByteLen(f)
  {
    hide ByteLen, Jump;
    JumpBytes(JMPIFNOT_L, 5 + ByteLen(t) + 5);
    JumpBytes(JMP_L, 5 + ByteLen(f));
    if IfElseCode(c, t, f).Ok? {
      var toElse, toEnd := Jump(JMPIFNOT_L, 5 + ByteLen(t) + 5).value, Jump(JMP_L, 5 + ByteLen(f)).value;
      ByteLenAppend(c, [toElse] + (t + ([toEnd] + f)));
      BytesFirst(toElse, t + ([toEnd] + f));
      ByteLenAppend(t, [toEnd] + f);
      BytesFirst(toEnd, f);
    }
  }

  lemma LoopBytes(g: Code, b: Code)
    ensures LoopCode(g, b).Ok? <==> LoopReaches(ByteLen(g), ByteLen(b))
    ensures LoopCode(g, b).Ok? ==> ByteLen(LoopCode(g, b).value) == ByteLen(g) + 5 + ByteLen(b) + 5
  {
    hide ByteLen, ToLe;
    if LoopCode(g, b).Ok? {
      var toStart, toEnd := Jump(JMP_L, -(ByteLen(g) + 5 + ByteLen(b))).value, Jump(JMPIFNOT_L, 5 + ByteLen(b) + 5).value;
      ByteLenAppend(g, [toEnd] + (b + [toStart]));
      BytesFirst(toEnd, b + [toStart]);
      Bytes2(b, toStart);
    }
  }

  lemma {:induction false} IfBytes(env: Env, stmt: Stmt)
    requires stmt.If? && stmt.elseBranch.NoElse?
    ensures AsExpected(StmtCode(env, stmt), StmtCompiles(env, stmt), StmtSize(env, stmt), After(env, stmt))
    decreases stmt, 0
  {
    hide ByteLen, ExprCode, ExprCompiles, ExprSize, BlockCode, AllCompile, SizeOf, IfCode, Reachable, TakenAll;
    ExprCompilesExactlyWhen(env, stmt.cond);
    BlockCompilesExactlyWhen(env, stmt.thenBlock);
    if ExprCode(env, stmt.cond).Ok? && BlockCode(env, stmt.thenBlock).Ok? {
      BranchBytes(ExprCode(env, stmt.cond).value, BlockCode(env, stmt.thenBlock).value.0);
    }
  }

  lemma {:induction false} IfElseBytes(env: Env, stmt: Stmt)
    requires stmt.If? && stmt.elseBranch.Else?
    ensures AsExpected(StmtCode(env, stmt), StmtCompiles(env, stmt), StmtSize(env, stmt), After(env, stmt))
    decreases stmt, 0
  {
    hide ByteLen, ExprCode, ExprCompiles, ExprSize, BlockCode, AllCompile, SizeOf, IfElseCode, Reachable, TakenAll, Jump;
    var env1 := AfterBlock(env, stmt.thenBlock);
    ExprCompilesExactlyWhen(env, stmt.cond);
    BlockCompilesExactlyWhen(env, stmt.thenBlock);
    BlockCompilesExactlyWhen(env1, stmt.elseBranch.elseBlock);
    if ExprCode(env, stmt.cond).Ok? && BlockCode(env, stmt.thenBlock).Ok? {
      JumpBytes(JMPIFNOT_L, 5 + ByteLen(BlockCode(env, stmt.thenBlock).value.0) + 5);
      if BlockCode(env1, stmt.elseBranch.elseBlock).Ok? {
        TwoBranchBytes(ExprCode(env, stmt.cond).value, BlockCode(env, stmt.thenBlock).value.0, BlockCode(env1, stmt.elseBranch.elseBlock).value.0);
      }
    }
  }

  lemma {:induction false} WhileBytes(env: Env, stmt: Stmt)
    requires stmt.While?
    ensures AsExpected(StmtCode(env, stmt), StmtCompiles(env, stmt), StmtSize(env, stmt), After(env, stmt))
    decreases stmt, 0
  {
    hide ByteLen, ExprCode, ExprCompiles, ExprSize, BlockCode, AllCompile, SizeOf, LoopCode, LoopReaches, TakenAll;
    ExprCompilesExactlyWhen(env, stmt.guard);
    BlockCompilesExactlyWhen(env, stmt.body);
    if ExprCode(env, stmt.guard).Ok? && BlockCode(env, stmt.body).Ok? {
      LoopBytes(ExprCode(env, stmt.guard).value, BlockCode(env, stmt.body).value.0);
    }
  }

  lemma EachPieces(env: Env, iter: Code, body: Code)
    requires env.next + 2 < 255
    ensures ByteLen(EachSetup(env.next, iter)) == ByteLen(iter) + SlotSize(env.next) + 1 + SlotSize(env.next + 1)
    ensures ByteLen(EachGuard(env.next)) == GuardSize(env)
    ensures ByteLen(EachFetch(env.next, env.next + 2) + (body + EachAdvance(env.next))) ==
            SlotSize(env.next) + SlotSize(env.next + 1) + 1 + SlotSize(env.next + 2) + ByteLen(body) + SlotSize(env.next + 1) + 1 + SlotSize(env.next + 1)
  {
    hide ByteLen, LoadCode, StoreCode, SlotSize;
    var arr := env.next;
    SlotBytes(arr);
    SlotBytes(arr + 1);
    SlotBytes(arr + 2);
    var ld0, ld1, st0, st1, st2 := LoadCode(Local(arr)), LoadCode(Local(arr + 1)), StoreCode(Local(arr)), StoreCode(Local(arr + 1)), StoreCode(Local(arr + 2));
    ThreeBytes(st0, PushInt(0), st1);
    ByteLenAppend(iter, [st0] + ([PushInt(0)] + [st1]));
    FourInstructions(ld1, ld0, Op(SIZE), Op(LT));
    FourInstructions(ld0, ld1, Op(PICKITEM), st2);
    ThreeBytes(ld1, Op(INC), st1);
    ByteLenAppend(EachFetch(arr, arr + 2), body + EachAdvance(arr));
    ByteLenAppend(body, EachAdvance(arr));
  }

  lemma ThreeBytes(a: Instruction, b: Instruction, c: Instruction)
    ensures ByteLen([a] + ([b] + [c])) == EncodedLen(a) + EncodedLen(b) + EncodedLen(c)
  {
    hide ByteLen;
    BytesFirst(a, [b] + [c]);
    BytesFirst(b, [c]);
    Bytes1(c);
  }

  lemma FourInstructions(a: Instruction, b: Instruction, c: Instruction, d: Instruction)
    ensures ByteLen([a] + ([b] + ([c] + [d]))) == EncodedLen(a) + EncodedLen(b) + EncodedLen(c) + EncodedLen(d)
  {
    hide ByteLen;
    BytesFirst(a, [b] + ([c] + [d]));
    ThreeBytes(b, c, d);
  }

  lemma {:induction false} EachBytes(env: Env, stmt: Stmt)
    requires stmt.ForArray?
    ensures AsExpected(StmtCode(env, stmt), StmtCompiles(env, stmt), StmtSize(env, stmt), After(env, stmt))
    decreases stmt, 0
  {
    hide ByteLen, ExprCode, ExprCompiles, ExprSize, StmtsCode, AllCompile, SizeOf, LoopCode, LoopReaches, TakenAll, SlotSize, GuardSize, LoadCode, StoreCode;
    var env3 := EachEnv(env, stmt.item);
    if env.next + 2 < 255 {
      ExprCompilesExactlyWhen(Counted(env), stmt.iter);
      var end := AllCompileExactlyWhen(env3, stmt.each);
      assert DeclareLocal(Enter(Counted(env)), stmt.item) == Ok(env3);
      if ExprCode(Counted(env), stmt.iter).Ok? && StmtsCode(env3, stmt.each).Ok? {
        var c, b := ExprCode(Counted(env), stmt.iter).value, StmtsCode(env3, stmt.each).value.0;
        EachPieces(env, c, b);
        var guard, body := EachGuard(env.next), EachFetch(env.next, env.next + 2) + (b + EachAdvance(env.next));
        LoopBytes(guard, body);
        if LoopCode(guard, body).Ok? {
          ByteLenAppend(EachSetup(env.next, c), LoopCode(guard, body).value);
        }
      }
    }
  }

  lemma {:induction false} ExprsBytes(env: Env, es: seq<Expr>)
    ensures ExprsCode(env, es).Ok? <==> AllExprsCompile(env, es)
    ensures ExprsCode(env, es).Ok? ==> ByteLen(ExprsCode(env, es).value) == SizeOfExprs(env, es)
    decreases |es|
  {
    hide ExprCode, ExprCompiles, ExprSize, ByteLen;
    if es == [] {
      NoBytes();
    } else {
      ExprCompilesExactlyWhen(env, es[0]);
      ExprsBytes(env, es[1..]);
      if ExprCode(env, es[0]).Ok? && ExprsCode(env, es[1..]).Ok? {
        ByteLenAppend(ExprCode(env, es[0]).value, ExprsCode(env, es[1..]).value);
      }
    }
  }

  lemma CountSize(n: nat)
    requires n <= 0x7FFF_FFFF_FFFF_FFFF
    ensures EncodedLen(PushInt(n)) == IntSize(n)
  {
    hide PushInt;
    PushIntNarrowest(n);
  }

  lemma EventSize(event: seq<byte>)
    ensures PushData(event).Ok? <==> |event| < 0x1_0000_0000
    ensures PushData(event).Ok? ==> EncodedLen(PushData(event).value) == DataSize(|event|)
  {
    hide PushData;
    PushDataShortest(event);
  }

  lemma {:induction false} EmitBytes(env: Env, stmt: Stmt)
    requires stmt.Emit?
    ensures AsExpected(StmtCode(env, stmt), StmtCompiles(env, stmt), StmtSize(env, stmt), After(env, stmt))
  {
    hide ByteLen, ExprsCode, AllExprsCompile, SizeOfExprs, PushInt, PushData, IntSize, DataSize;
    var event, args := stmt.event, stmt.args;
    ExprsBytes(env, args);
    EventSize(event);
    assert env.(next := env.next + 0) == env;
    if ExprsCode(env, args).Ok? && PushData(event).Ok? && |args| <= 0x7FFF_FFFF_FFFF_FFFF {
      var c, name, count, notify := ExprsCode(env, args).value, PushData(event).value, PushInt(|args|), Instruction(SYSCALL, NOTIFY);
      CountSize(|args|);
      FourInstructions(count, Op(PACK), name, notify);
      ByteLenAppend(c, [count] + ([Op(PACK)] + ([name] + [notify])));
      NotifySize();
    }
  }

  lemma NotifySize()
    ensures |NOTIFY| == 4
  {
  }

  /** The code of an `emit` ends with the count, PACK, the event's name and the call of System.Runtime.Notify. */
  lemma {:induction false} EmitEnds(env: Env, event: seq<byte>, args: seq<Expr>)
    requires StmtCode(env, Emit(event, args)).Ok?
    ensures ExprsCode(env, args).Ok? && |args| <= 0x7FFF_FFFF_FFFF_FFFF && PushData(event).Ok?
    ensures StmtCode(env, Emit(event, args)).value.0 ==
            ExprsCode(env, args).value +
            [PushInt(|args|), Instruction(0xC0, []), PushData(event).value, Instruction(0x41, [0x95, 0x01, 0x6f, 0x61])]
  {
    hide ExprsCode, PushInt, PushData;
  }

  lemma {:induction false} NestedBytes(env: Env, stmt: Stmt)
    requires stmt.Block?
    ensures AsExpected(StmtCode(env, stmt), StmtCompiles(env, stmt), StmtSize(env, stmt), After(env, stmt))
    decreases stmt, 0
  {
    hide BlockCode, AllCompile, SizeOf, TakenAll;
    BlockCompilesExactlyWhen(env, stmt.stmts);
  }

  // ----- functions -----

  /** The scope of a function's own block: no variable yet, the parameters in their places. */
  function BodyEnv(params: seq<string>): Env { Enter(StartEnv(params)) }

  /** The last instruction emitted for the body is RET. */
  predicate EndsInRet(params: seq<string>, stmts: seq<Stmt>)
    requires StmtsCode(BodyEnv(params), stmts).Ok?
  {
    var body := StmtsCode(BodyEnv(params), stmts).value.0;
    body != [] && body[|body| - 1].opcode == 0x40
  }

  /**
   * A function compiles exactly when it has at most 255 parameters and its body compiles in their
   * scope; INITSLOT then reserves as many locals as the body takes, at most 255.
   */
  lemma {:induction false} FunctionCompilesExactlyWhen(params: seq<string>, isVoid: bool, stmts: seq<Stmt>)
    ensures FunctionCode(params, isVoid, stmts).Ok? <==> |params| <= 255 && AllCompile(BodyEnv(params), stmts) && TakenAll(stmts) <= 255
    ensures FunctionCode(params, isVoid, stmts).Ok? ==>
              && var code := FunctionCode(params, isVoid, stmts).value;
                 && |code| > 0 && code[0] == Instruction(0x57, [TakenAll(stmts), |params|])
                 && StmtsCode(BodyEnv(params), stmts).Ok?
                 && ByteLen(code) == 3 + SizeOf(BodyEnv(params), stmts) + if isVoid && !EndsInRet(params, stmts) then 1 else 0
  {
    hide StmtsCode, AllCompile, SizeOf, TakenAll, ByteLen, ArgSlots;
    BlockCompilesExactlyWhen(StartEnv(params), stmts);
    var body := BlockCode(StartEnv(params), stmts);
    if FunctionCode(params, isVoid, stmts).Ok? {
      var init, end := Instruction(INITSLOT, [body.value.1.next, |params|]), Epilogue(isVoid, body.value.0);
      BytesFirst(init, body.value.0 + end);
      ByteLenAppend(body.value.0, end);
      NoBytes();
      Bytes1(Op(RET));
    }
  }
}
