/**
 * The code generator as it runs: a builder that appends instructions and patches jumps it
 * emitted earlier, an environment it mutates, and methods that walk the syntax tree. Every
 * method is proved to emit what `CodegenSpec` says.
 */
module Compiler {
  import opened Prelude
  import opened Bytecode
  import opened Disasm
  import opened Vm
  import opened Ast
  import opened CodegenSpec

  datatype Status = Done | Failed(error: CodegenError)

  // ----- sequences under construction -----

  lemma ReplaceMiddle<T>(a: seq<T>, x: T, c: seq<T>, y: T)
    ensures (a + ([x] + c))[|a|] == x && (a + ([x] + c))[|a| := y] == a + ([y] + c) && (a + ([x] + c))[..|a|] == a
  {
  }

  lemma JoinAround(start: Code, a: Code, i: Instruction, b: Code, rest: Code)
    ensures ((start + a) + ([i] + b)) + rest == start + (a + ([i] + (b + rest)))
  {
    Regroup(start + a, [i] + b, rest);
    Regroup(start, a, ([i] + b) + rest);
    Regroup([i], b, rest);
  }

  lemma AndShape(a: Code, b: Code)
    ensures AndCode(a, b) ==
            if FitsI32(5 + ByteLen(b) + 5)
            then Ok(a + ([LongJump(JMPIFNOT_L, 5 + ByteLen(b) + 5)] + (b + ([LongJump(JMP_L, 6)] + [Op(PUSHF)]))))
            else Err(JumpOverflow)
  {
    hide ByteLen, LongJump;
  }

  /** Code between two placeholders: what patching the first and adding `rest` leaves. */
  lemma TwoHoles(front: Code, b: Code, rest: Code)
    ensures var hole, hole2 := Instruction(JMPIFNOT_L, [0, 0, 0, 0]), Instruction(JMP_L, [0, 0, 0, 0]);
            var code, jump := ((front + [hole]) + b) + [hole2], LongJump(JMPIFNOT_L, 5 + ByteLen(b) + 5);
            && code[|front|] == hole && ByteLen(code[..|front|]) == ByteLen(front)
            && ByteLen(code) == ByteLen(front) + 5 + ByteLen(b) + 5
            && code[|front| := jump] + rest == (front + ([jump] + b)) + ([hole2] + rest)
  {
    hide ByteLen, LongJump;
    var hole, hole2 := Instruction(JMPIFNOT_L, [0, 0, 0, 0]), Instruction(JMP_L, [0, 0, 0, 0]);
    var jump := LongJump(JMPIFNOT_L, 5 + ByteLen(b) + 5);
    Regroup(front, [hole], b);
    Regroup(front, [hole] + b, [hole2]);
    Regroup([hole], b, [hole2]);
    PatchShape(front, hole, b + [hole2], jump);
    ByteLenAppend(b, [hole2]);
    ByteLenOne(hole2);
    Regroup([jump], b, [hole2]);
    Regroup(front, [jump] + b, [hole2]);
    Regroup(front + ([jump] + b), [hole2], rest);
  }

  /** Patching the placeholder `i` that stands after `front`. */
  lemma PatchShape(front: Code, i: Instruction, rest: Code, j: Instruction)
    ensures (front + ([i] + rest))[|front|] == i
    ensures (front + ([i] + rest))[|front| := j] == front + ([j] + rest)
    ensures (front + ([i] + rest))[..|front|] == front
    ensures ByteLen(front + ([i] + rest)) == ByteLen(front) + EncodedLen(i) + ByteLen(rest)
  {
    hide ByteLen;
    ReplaceMiddle(front, i, rest, j);
    ByteLenAppend(front, [i] + rest);
    ByteLenAppend([i], rest);
    ByteLenOne(i);
  }

  lemma {:induction false} IfElseStmtShape(env: Env, cond: Expr, thenBlock: seq<Stmt>, elseBlock: seq<Stmt>)
    ensures StmtCode(env, If(cond, thenBlock, Else(elseBlock))) ==
            match ExprCode(env, cond)
            case Err(x) => Err(x)
            case Ok(c) =>
              (match BlockCode(env, thenBlock)
               case Err(x) => Err(x)
               case Ok((t, env1)) =>
                 if !FitsI32(5 + ByteLen(t) + 5) then Err(JumpOverflow)
                 else
                   match BlockCode(env1, elseBlock)
                   case Err(x) => Err(x)
                   case Ok((f, env2)) =>
                     if !FitsI32(5 + ByteLen(f)) then Err(JumpOverflow)
                     else
                       Ok((c + ([LongJump(JMPIFNOT_L, 5 + ByteLen(t) + 5)] + (t + ([LongJump(JMP_L, 5 + ByteLen(f))] + f))), env2)))
  {
    hide ExprCode, BlockCode, ByteLen, ToLe;
  }

  /** `target::Builder`. */
  class Builder {
    var instructions: Code

    constructor ()
      ensures instructions == []
    {
      instructions := [];
    }

    method Push(i: Instruction)
      modifies this
      ensures instructions == old(instructions) + [i]
    {
      instructions := instructions + [i];
    }

    /** Byte length of the script so far. */
    method Cursor() returns (n: nat)
      ensures n == ByteLen(instructions)
    {
      n := BytesBefore(|instructions|);
      assert instructions[..|instructions|] == instructions;
    }

    method BytesBefore(index: nat) returns (n: nat)
      requires index <= |instructions|
      ensures n == ByteLen(instructions[..index])
    {
      n := 0;
      for k := 0 to index
        invariant n == ByteLen(instructions[..k])
      {
        assert instructions[..k + 1] == instructions[..k] + [instructions[k]];
        ByteLenAppend(instructions[..k], [instructions[k]]);
        ByteLenOne(instructions[k]);
        n := n + EncodedLen(instructions[k]);
      }
    }

    /** A jump with a zero operand, to be patched; returns its index. */
    method EmitPlaceholder(op: byte) returns (index: nat)
      modifies this
      ensures index == |old(instructions)| && instructions == old(instructions) + [Instruction(op, [0, 0, 0, 0])]
    {
      index := |instructions|;
      Push(Instruction(op, [0, 0, 0, 0]));
    }

    /** `patch_jmp_target_at_instruction`: write target pc minus own pc. */
    method Patch(index: nat, target: nat) returns (r: Status)
      requires index < |instructions| && |instructions[index].operands| == 4
      modifies this
      ensures var relative := target - ByteLen(old(instructions)[..index]);
              if FitsI32(relative)
              then r == Done && instructions == old(instructions)[index := LongJump(old(instructions)[index].opcode, relative)]
              else r == Failed(JumpOverflow)
    {
      var pc := BytesBefore(index);
      var relative := target - pc;
      if !FitsI32(relative) {
        return Failed(JumpOverflow);
      }
      instructions := instructions[index := LongJump(instructions[index].opcode, relative)];
      r := Done;
    }
  }

  /** `VarEnv`, with the stack of scopes innermost first. */
  class VarEnv {
    var args: map<string, nat>
    var scopes: List<map<string, nat>>
    var nextLocal: nat

    ghost function View(): Env
      reads this
    {
      Env(args, scopes, nextLocal)
    }

    constructor (params: seq<string>)
      ensures View() == StartEnv(params)
    {
      var slots: map<string, nat> := map[];
      for k := 0 to |params|
        invariant slots == ArgSlots(params[..k])
      {
        assert params[..k + 1][..k] == params[..k];
        slots := slots[params[k] := k];
      }
      assert params[..|params|] == params;
      args, scopes, nextLocal := slots, Cons(map[], Nil), 0;
    }

    method EnterBlock()
      modifies this
      ensures View() == Enter(old(View()))
    {
      scopes := Cons(map[], scopes);
    }

    method ExitBlock()
      modifies this
      ensures View() == Exit(old(View()))
    {
      if scopes.Cons? {
        scopes := scopes.tail;
      }
    }

    method Alloc() returns (r: Result<nat, CodegenError>)
      modifies this
      ensures match AllocSlot(old(View()))
              case Ok(env) => View() == env && r == Ok(old(nextLocal)) && nextLocal == old(nextLocal) + 1
              case Err(e) => r == Err(e)
    {
      if nextLocal >= MAX_LOCAL {
        return Err(LocalLimitExceeded);
      }
      r := Ok(nextLocal);
      nextLocal := nextLocal + 1;
    }

    method Declare(name: string) returns (r: Result<nat, CodegenError>)
      modifies this
      ensures match DeclareLocal(old(View()), name)
              case Ok(env) => View() == env && r == Ok(old(nextLocal)) && old(nextLocal) < MAX_LOCAL
              case Err(e) => r == Err(e)
    {
      if nextLocal >= MAX_LOCAL {
        return Err(LocalLimitExceeded);
      }
      if scopes.Nil? {
        return Err(NoScope);
      }
      if name in scopes.head {
        return Err(DuplicateLocal(name));
      }
      r := Ok(nextLocal);
      scopes := Cons(scopes.head[name := nextLocal], scopes.tail);
      nextLocal := nextLocal + 1;
    }

    /** Walk the scopes from the innermost one out, then the parameters. */
    method Find(name: string) returns (r: Result<Slot, CodegenError>)
      ensures r == Resolve(View(), name)
    {
      var rest := scopes;
      while rest.Cons?
        invariant ResolveLocal(scopes, name) == ResolveLocal(rest, name)
        decreases rest
      {
        if name in rest.head {
          return Ok(Local(rest.head[name]));
        }
        rest := rest.tail;
      }
      r := if name in args then Ok(Arg(args[name])) else Err(UndefinedVariable(name));
    }
  }

  /** `FunctionCompiler` and the `ExprGen` it lends its builder to. */
  class FunctionCompiler {
    const builder: Builder
    const env: VarEnv

    constructor (params: seq<string>)
      ensures fresh(builder) && fresh(env)
      ensures builder.instructions == [] && env.View() == StartEnv(params)
    {
      builder := new Builder();
      env := new VarEnv(params);
    }

    method EmitVariable(name: string, store: bool) returns (r: Status)
      modifies builder
      ensures match VariableCode(env.View(), name, store)
              case Ok(i) => r == Done && builder.instructions == old(builder.instructions) + [i]
              case Err(e) => r == Failed(e)
    {
      var slot := env.Find(name);
      if slot.Err? {
        return Failed(slot.error);
      }
      if slot.value.index >= 256 {
        return Failed(LocalLimitExceeded);
      }
      builder.Push(if store then StoreCode(slot.value) else LoadCode(slot.value));
      r := Done;
    }

    method CompileExpr(e: Expr) returns (r: Status)
      modifies builder
      ensures match ExprCode(env.View(), e)
              case Ok(code) => r == Done && builder.instructions == old(builder.instructions) + code
              case Err(x) => r == Failed(x)
      decreases e, 1
    {
      hide ByteLen, ToLe, LiteralCode, VariableCode, AndCode, OrCode, NullTestCode;
      match e
      case LiteralExpr(lit) =>
        var i := LiteralCode(lit);
        if i.Err? {
          return Failed(i.error);
        }
        builder.Push(i.value);
        r := Done;
      case Ident(name) => r := EmitVariable(name, false);
      case SelfExpr =>
        r := EmitVariable("self", false);
        if r.Failed? {
          r := Failed(Unsupported);
        }
      case Paren(inner) => r := CompileExpr(inner);
      case Cast(inner, ty) =>
        if StackItemType(ty).None? {
          return Failed(Unsupported);
        }
        r := CompileExpr(inner);
        if r.Done? {
          builder.Push(Instruction(CONVERT, [StackItemType(ty).value]));
        }
      case UnaryExpr(op, operand) =>
        r := CompileExpr(operand);
        if r.Done? && op != Positive {
          builder.Push(Op(UnaryOpCode(op)));
        }
      case BinaryExpr(op, left, right) =>
        if op == And {
          r := CompileAnd(e, left, right);
        } else if op == Or {
          r := CompileOr(e, left, right);
        } else if (op == Eq || op == Ne) && (IsNullLiteral(left) || IsNullLiteral(right)) {
          r := CompileNullTest(op, if IsNullLiteral(left) then right else left);
        } else {
          r := CompileTwo(e, left, right, BinaryOpCode(op));
        }
      case Index(base, index) => r := CompileTwo(e, base, index, PICKITEM);
      case AssignExpr(target, aop, value) =>
        if !target.Ident? {
          r := Failed(Unsupported);
        } else if aop == Assign {
          r := CompileAssign(target.name, value);
        } else {
          r := CompileCompoundAssign(target.name, aop, value);
        }
      case _ => r := Failed(Unsupported);
    }

    /** Two operands, then one instruction. */
    method CompileTwo(ghost e: Expr, left: Expr, right: Expr, op: byte) returns (r: Status)
      requires left < e && right < e
      modifies builder
      ensures match (ExprCode(env.View(), left), ExprCode(env.View(), right))
              case (Ok(a), Ok(b)) => r == Done && builder.instructions == old(builder.instructions) + (a + (b + [Op(op)]))
              case (Ok(_), Err(x)) => r == Failed(x)
              case (Err(x), _) => r == Failed(x)
      decreases e, 0
    {
      hide ExprCode;
      r := CompileExpr(left);
      if r.Failed? {
        return;
      }
      r := CompileExpr(right);
      if r.Failed? {
        return;
      }
      builder.Push(Op(op));
    }

    method CompileNullTest(op: BinaryOp, value: Expr) returns (r: Status)
      modifies builder
      ensures match ExprCode(env.View(), value)
              case Ok(c) => r == Done && builder.instructions == old(builder.instructions) + NullTestCode(op, c)
              case Err(x) => r == Failed(x)
      decreases value, 2
    {
      hide ExprCode;
      r := CompileExpr(value);
      if r.Failed? {
        return;
      }
      builder.Push(Op(ISNULL));
      if op == Ne {
        builder.Push(Op(NOT));
      }
    }

    /** left; JMPIFNOT_L false; right; JMP_L end; false: PUSHF; end: */
    method CompileAnd(ghost e: Expr, left: Expr, right: Expr) returns (r: Status)
      requires left < e && right < e
      modifies builder
      ensures match (ExprCode(env.View(), left), ExprCode(env.View(), right))
              case (Ok(a), Ok(b)) =>
                (match AndCode(a, b)
                 case Ok(code) => r == Done && builder.instructions == old(builder.instructions) + code
                 case Err(x) => r == Failed(x))
              case (Ok(_), Err(x)) => r == Failed(x)
              case (Err(x), _) => r == Failed(x)
      decreases e, 0
    {
      hide ExprCode, ByteLen, ToLe, LongJump, AndCode;
      ghost var start := builder.instructions;
      r := CompileExpr(left);
      if r.Failed? {
        return;
      }
      ghost var front := builder.instructions;
      var jumpShort := builder.EmitPlaceholder(JMPIFNOT_L);
      r := CompileExpr(right);
      if r.Failed? {
        return;
      }
      ghost var a, b := ExprCode(env.View(), left).value, ExprCode(env.View(), right).value;
      var jumpEnd := builder.EmitPlaceholder(JMP_L);
      TwoHoles(front, b, [Op(PUSHF)]);
      AndShape(a, b);
      var falseLabel := builder.Cursor();
      r := builder.Patch(jumpShort, falseLabel);
      if r.Failed? {
        return;
      }
      builder.Push(Op(PUSHF));
      ghost var toFalse, toEnd := LongJump(JMPIFNOT_L, 5 + ByteLen(b) + 5), LongJump(JMP_L, 6);
      PatchShape(front + ([toFalse] + b), Instruction(JMP_L, [0, 0, 0, 0]), [Op(PUSHF)], toEnd);
      ByteLenOne(Op(PUSHF));
      var end := builder.Cursor();
      r := builder.Patch(jumpEnd, end);
      JoinAround(start, a, toFalse, b, [toEnd] + [Op(PUSHF)]);
    }

    /** left; DUP; JMPIF_L end; DROP; right; end: */
    method CompileOr(ghost e: Expr, left: Expr, right: Expr) returns (r: Status)
      requires left < e && right < e
      modifies builder
      ensures match (ExprCode(env.View(), left), ExprCode(env.View(), right))
              case (Ok(a), Ok(b)) =>
                (match OrCode(a, b)
                 case Ok(code) => r == Done && builder.instructions == old(builder.instructions) + code
                 case Err(x) => r == Failed(x))
              case (Ok(_), Err(x)) => r == Failed(x)
              case (Err(x), _) => r == Failed(x)
      decreases e, 0
    {
      hide ExprCode, ByteLen, ToLe;
      ghost var start := builder.instructions;
      r := CompileExpr(left);
      if r.Failed? {
        return;
      }
      builder.Push(Op(DUP));
      ghost var front := builder.instructions;
      var jumpDone := builder.EmitPlaceholder(JMPIF_L);
      builder.Push(Op(DROP));
      r := CompileExpr(right);
      if r.Failed? {
        return;
      }
      ghost var a, b := ExprCode(env.View(), left).value, ExprCode(env.View(), right).value;
      var hole := Instruction(JMPIF_L, [0, 0, 0, 0]);
      ghost var toEnd := LongJump(JMPIF_L, 6 + ByteLen(b));
      assert builder.instructions == front + ([hole] + ([Op(DROP)] + b));
      PatchShape(front, hole, [Op(DROP)] + b, toEnd);
      ByteLenAppend([Op(DROP)], b);
      ByteLenOne(Op(DROP));
      var end := builder.Cursor();
      r := builder.Patch(jumpDone, end);
      assert front + ([toEnd] + ([Op(DROP)] + b)) == start + (a + ([Op(DUP)] + ([toEnd] + ([Op(DROP)] + b))));
    }

    method CompileAssign(name: string, value: Expr) returns (r: Status)
      modifies builder
      ensures match (ExprCode(env.View(), value), VariableCode(env.View(), name, true))
              case (Ok(c), Ok(st)) => r == Done && builder.instructions == old(builder.instructions) + (c + ([Op(DUP)] + [st]))
              case (Ok(_), Err(x)) => r == Failed(x)
              case (Err(x), _) => r == Failed(x)
      decreases value, 2
    {
      hide ExprCode, VariableCode;
      r := CompileExpr(value);
      if r.Failed? {
        return;
      }
      builder.Push(Op(DUP));
      r := EmitVariable(name, true);
    }

    method CompileCompoundAssign(name: string, aop: AssignOp, value: Expr) returns (r: Status)
      modifies builder
      ensures match (VariableCode(env.View(), name, false), ExprCode(env.View(), value), VariableCode(env.View(), name, true))
              case (Ok(ld), Ok(c), Ok(st)) =>
                r == Done && builder.instructions ==
                             old(builder.instructions) + ([ld] + (c + ([Op(AssignOpCode(aop))] + ([Op(DUP)] + [st]))))
              case (Ok(_), Ok(_), Err(x)) => r == Failed(x)
              case (Ok(_), Err(x), _) => r == Failed(x)
              case (Err(x), _, _) => r == Failed(x)
      decreases value, 2
    {
      hide ExprCode, VariableCode;
      r := EmitVariable(name, false);
      if r.Failed? {
        return;
      }
      r := CompileExpr(value);
      if r.Failed? {
        return;
      }
      builder.Push(Op(AssignOpCode(aop)));
      builder.Push(Op(DUP));
      r := EmitVariable(name, true);
    }

    // ----- statements -----

    method CompileStmt(stmt: Stmt) returns (r: Status)
      modifies builder, env
      ensures match StmtCode(old(env.View()), stmt)
              case Ok((code, env1)) => r == Done && builder.instructions == old(builder.instructions) + code && env.View() == env1
              case Err(x) => r == Failed(x)
      decreases stmt, 2
    {
      hide ExprCode, ExprsCode, BlockCode, StmtsCode, IfCode, IfElseCode, LoopCode, PushData, PushInt, DeclareLocal, AllocSlot, VarEnv.View;
      match stmt
      case Var(name, init) => r := CompileVar(name, init);
      case ExprStmt(e) =>
        r := CompileExpr(e);
        if r.Done? {
          builder.Push(Op(DROP));
        }
      case ReturnStmt(result) =>
        r := Done;
        if result.Some? {
          r := CompileExpr(result.value);
        }
        if r.Done? {
          builder.Push(Op(RET));
        }
      case Emit(event, args) => r := CompileEmit(event, args);
      case Block(stmts) => r := CompileBlock(stmts);
      case If(cond, thenBlock, NoElse) => r := CompileIf(stmt, cond, thenBlock);
      case If(cond, thenBlock, Else(elseBlock)) => r := CompileIfElse(stmt, cond, thenBlock, elseBlock);
      case While(guard, body) => r := CompileWhile(stmt, guard, body);
      case ForArray(item, iter, each) => r := CompileForArray(stmt);
    }

    method CompileVar(name: string, init: Option<Expr>) returns (r: Status)
      modifies builder, env
      ensures match StmtCode(old(env.View()), Var(name, init))
              case Ok((code, env1)) => r == Done && builder.instructions == old(builder.instructions) + code && env.View() == env1
              case Err(x) => r == Failed(x)
    {
      hide ExprCode, DeclareLocal;
      var slot := env.Declare(name);
      if slot.Err? {
        return Failed(slot.error);
      }
      if init.Some? {
        r := CompileExpr(init.value);
        if r.Failed? {
          return;
        }
      } else {
        builder.Push(Op(PUSHNULL));
        r := Done;
      }
      builder.Push(StoreCode(Local(slot.value)));
    }

    method CompileEmit(event: seq<byte>, args: seq<Expr>) returns (r: Status)
      modifies builder
      ensures match StmtCode(env.View(), Emit(event, args))
              case Ok((code, _)) => r == Done && builder.instructions == old(builder.instructions) + code
              case Err(x) => r == Failed(x)
    {
      hide ExprCode, PushData, PushInt;
      ghost var goal := ExprsCode(env.View(), args);
      ghost var start, code := builder.instructions, [];
      assert args[0..] == args && (goal.Ok? ==> [] + goal.value == goal.value);
      for k := 0 to |args|
        invariant builder.instructions == start + code
        invariant goal == match ExprsCode(env.View(), args[k..])
                          case Ok(rest) => Ok(code + rest)
                          case Err(x) => Err(x)
      {
        assert args[k..][1..] == args[k + 1..];
        ghost var before := code;
        r := CompileExpr(args[k]);
        if r.Failed? {
          // The name is encoded after the arguments, so an argument's error comes first.
          return;
        }
        code := code + ExprCode(env.View(), args[k]).value;
        ghost var rest := ExprsCode(env.View(), args[k + 1..]);
        if rest.Ok? {
          assert before + (ExprCode(env.View(), args[k]).value + rest.value) == code + rest.value;
        }
      }
      assert args[|args|..] == [] && code + [] == code;
      var name := PushData(event);
      if name.Err? {
        return Failed(name.error);
      }
      if |args| > 0x7FFF_FFFF_FFFF_FFFF {
        return Failed(Unsupported);
      }
      builder.Push(PushInt(|args|));
      builder.Push(Op(PACK));
      builder.Push(name.value);
      builder.Push(Instruction(SYSCALL, NOTIFY));
      r := Done;
    }

    method CompileStmts(stmts: seq<Stmt>) returns (r: Status)
      modifies builder, env
      ensures match StmtsCode(old(env.View()), stmts)
              case Ok((code, env1)) => r == Done && builder.instructions == old(builder.instructions) + code && env.View() == env1
              case Err(x) => r == Failed(x)
      decreases stmts, 0
    {
      hide StmtCode;
      ghost var goal := StmtsCode(env.View(), stmts);
      ghost var start, code := builder.instructions, [];
      assert stmts[0..] == stmts && (goal.Ok? ==> [] + goal.value.0 == goal.value.0);
      for k := 0 to |stmts|
        invariant builder.instructions == start + code
        invariant goal == match StmtsCode(env.View(), stmts[k..])
                          case Ok((rest, env1)) => Ok((code + rest, env1))
                          case Err(x) => Err(x)
      {
        assert stmts[k..][1..] == stmts[k + 1..];
        ghost var before, env0 := code, env.View();
        r := CompileStmt(stmts[k]);
        if r.Failed? {
          return;
        }
        code := code + StmtCode(env0, stmts[k]).value.0;
        ghost var rest := StmtsCode(env.View(), stmts[k + 1..]);
        if rest.Ok? {
          assert before + (StmtCode(env0, stmts[k]).value.0 + rest.value.0) == code + rest.value.0;
        }
      }
      assert stmts[|stmts|..] == [] && code + [] == code;
      r := Done;
    }

    method CompileBlock(stmts: seq<Stmt>) returns (r: Status)
      modifies builder, env
      ensures match BlockCode(old(env.View()), stmts)
              case Ok((code, env1)) => r == Done && builder.instructions == old(builder.instructions) + code && env.View() == env1
              case Err(x) => r == Failed(x)
      decreases stmts, 1
    {
      hide StmtsCode;
      env.EnterBlock();
      r := CompileStmts(stmts);
      if r.Failed? {
        return;
      }
      env.ExitBlock();
    }

    /** cond; JMPIFNOT_L end; then; end: */
    method CompileIf(ghost stmt: Stmt, cond: Expr, thenBlock: seq<Stmt>) returns (r: Status)
      requires stmt == If(cond, thenBlock, NoElse)
      modifies builder, env
      ensures match StmtCode(old(env.View()), stmt)
              case Ok((code, env1)) => r == Done && builder.instructions == old(builder.instructions) + code && env.View() == env1
              case Err(x) => r == Failed(x)
      decreases stmt, 1
    {
      hide ExprCode, BlockCode, ByteLen, ToLe;
      ghost var start, env0 := builder.instructions, env.View();
      r := CompileExpr(cond);
      if r.Failed? {
        return;
      }
      ghost var front := builder.instructions;
      var jumpOver := builder.EmitPlaceholder(JMPIFNOT_L);
      r := CompileBlock(thenBlock);
      if r.Failed? {
        return;
      }
      ghost var c, t := ExprCode(env0, cond).value, BlockCode(env0, thenBlock).value.0;
      var hole := Instruction(JMPIFNOT_L, [0, 0, 0, 0]);
      ghost var jump := LongJump(JMPIFNOT_L, 5 + ByteLen(t));
      assert builder.instructions == front + ([hole] + t);
      PatchShape(front, hole, t, jump);
      var end := builder.Cursor();
      r := builder.Patch(jumpOver, end);
      assert front + ([jump] + t) == start + (c + ([jump] + t));
    }

    /** cond; JMPIFNOT_L else; then; JMP_L end; else: ...; end: */
    method CompileIfElse(ghost stmt: Stmt, cond: Expr, thenBlock: seq<Stmt>, elseBlock: seq<Stmt>) returns (r: Status)
      requires stmt == If(cond, thenBlock, Else(elseBlock))
      modifies builder, env
      ensures match StmtCode(old(env.View()), stmt)
              case Ok((code, env1)) => r == Done && builder.instructions == old(builder.instructions) + code && env.View() == env1
              case Err(x) => r == Failed(x)
      decreases stmt, 1
    {
      hide ExprCode, BlockCode, ByteLen, ToLe, StmtCode, LongJump;
      IfElseStmtShape(env.View(), cond, thenBlock, elseBlock);
      ghost var start, env0 := builder.instructions, env.View();
      r := CompileExpr(cond);
      if r.Failed? {
        return;
      }
      ghost var front := builder.instructions;
      var jumpElse := builder.EmitPlaceholder(JMPIFNOT_L);
      r := CompileBlock(thenBlock);
      if r.Failed? {
        return;
      }
      ghost var env1 := env.View();
      ghost var c, t := ExprCode(env0, cond).value, BlockCode(env0, thenBlock).value.0;
      var jumpEnd := builder.EmitPlaceholder(JMP_L);
      TwoHoles(front, t, []);
      var elseStart := builder.Cursor();
      r := builder.Patch(jumpElse, elseStart);
      if r.Failed? {
        return;
      }
      r := CompileBlock(elseBlock);
      if r.Failed? {
        return;
      }
      ghost var f := BlockCode(env1, elseBlock).value.0;
      ghost var toElse, toEnd := LongJump(JMPIFNOT_L, 5 + ByteLen(t) + 5), LongJump(JMP_L, 5 + ByteLen(f));
      TwoHoles(front, t, f);
      PatchShape(front + ([toElse] + t), Instruction(JMP_L, [0, 0, 0, 0]), f, toEnd);
      var end := builder.Cursor();
      r := builder.Patch(jumpEnd, end);
      JoinAround(start, c, toElse, t, [toEnd] + f);
    }

    /** From the end of a loop body: the jump back, then the exit jump is patched. */
    method CloseLoop(ghost start: Code, ghost guard: Code, jumpOut: nat, ghost body: Code, loopStart: nat) returns (r: Status)
      requires jumpOut == |start + guard| && loopStart == ByteLen(start)
      requires builder.instructions == start + guard + ([Instruction(JMPIFNOT_L, [0, 0, 0, 0])] + body)
      modifies builder
      ensures match LoopCode(guard, body)
              case Ok(code) => r == Done && builder.instructions == start + code
              case Err(x) => r == Failed(x)
    {
      hide ByteLen, ToLe;
      ghost var front := start + guard;
      var hole := Instruction(JMPIFNOT_L, [0, 0, 0, 0]);
      ghost var toEnd := LongJump(JMPIFNOT_L, 5 + ByteLen(body) + 5);
      PatchShape(front, hole, body, toEnd);
      ByteLenAppend(start, guard);
      var jumpPc := builder.Cursor();
      var relative := loopStart - jumpPc;
      if !FitsI32(relative) {
        return Failed(JumpOverflow);
      }
      var back := LongJump(JMP_L, relative);
      builder.Push(back);
      assert builder.instructions == front + ([hole] + (body + [back]));
      PatchShape(front, hole, body + [back], toEnd);
      ByteLenAppend(body, [back]);
      ByteLenOne(back);
      var after := builder.Cursor();
      r := builder.Patch(jumpOut, after);
      assert front + ([toEnd] + (body + [back])) == start + (guard + ([toEnd] + (body + [back])));
    }

    method CompileWhile(ghost stmt: Stmt, guard: Expr, body: seq<Stmt>) returns (r: Status)
      requires stmt == While(guard, body)
      modifies builder, env
      ensures match StmtCode(old(env.View()), stmt)
              case Ok((code, env1)) => r == Done && builder.instructions == old(builder.instructions) + code && env.View() == env1
              case Err(x) => r == Failed(x)
      decreases stmt, 1
    {
      hide ExprCode, BlockCode, ByteLen, LoopCode;
      ghost var start, env0 := builder.instructions, env.View();
      var loopStart := builder.Cursor();
      r := CompileExpr(guard);
      if r.Failed? {
        return;
      }
      var jumpOut := builder.EmitPlaceholder(JMPIFNOT_L);
      r := CompileBlock(body);
      if r.Failed? {
        return;
      }
      ghost var c, b := ExprCode(env0, guard).value, BlockCode(env0, body).value.0;
      assert builder.instructions == start + c + ([Instruction(JMPIFNOT_L, [0, 0, 0, 0])] + b);
      r := CloseLoop(start, c, jumpOut, b, loopStart);
    }

    /** The hidden locals of a `for` are the array's slot and, right after it, the index's. */
    method EmitEachSetup(arr: nat)
      requires arr < MAX_LOCAL
      modifies builder
      ensures builder.instructions == old(builder.instructions) + ([StoreCode(Local(arr))] + ([PushInt(0)] + [StoreCode(Local(arr + 1))]))
    {
      builder.Push(StoreCode(Local(arr)));
      builder.Push(PushInt(0));
      builder.Push(StoreCode(Local(arr + 1)));
    }

    method EmitEachGuard(arr: nat)
      requires arr < MAX_LOCAL
      modifies builder
      ensures builder.instructions == old(builder.instructions) + EachGuard(arr)
    {
      builder.Push(LoadCode(Local(arr + 1)));
      builder.Push(LoadCode(Local(arr)));
      builder.Push(Op(SIZE));
      builder.Push(Op(LT));
    }

    method EmitEachFetch(arr: nat, item: nat)
      requires arr < MAX_LOCAL && item < MAX_LOCAL
      modifies builder
      ensures builder.instructions == old(builder.instructions) + EachFetch(arr, item)
    {
      builder.Push(LoadCode(Local(arr)));
      builder.Push(LoadCode(Local(arr + 1)));
      builder.Push(Op(PICKITEM));
      builder.Push(StoreCode(Local(item)));
    }

    method EmitEachAdvance(arr: nat)
      requires arr < MAX_LOCAL
      modifies builder
      ensures builder.instructions == old(builder.instructions) + EachAdvance(arr)
    {
      builder.Push(LoadCode(Local(arr + 1)));
      builder.Push(Op(INC));
      builder.Push(StoreCode(Local(arr + 1)));
    }

    method CompileForArray(stmt: Stmt) returns (r: Status)
      requires stmt.ForArray?
      modifies builder, env
      ensures match StmtCode(old(env.View()), stmt)
              case Ok((code, env1)) => r == Done && builder.instructions == old(builder.instructions) + code && env.View() == env1
              case Err(x) => r == Failed(x)
      decreases stmt, 1
    {
      hide ExprCode, StmtsCode, ByteLen, LoopCode, PushInt, LoadCode, StoreCode, EachGuard, EachFetch, EachAdvance;
      ghost var start := builder.instructions;
      var arr := env.Alloc();
      if arr.Err? {
        return Failed(arr.error);
      }
      var index := env.Alloc();
      if index.Err? {
        return Failed(index.error);
      }
      ghost var env2 := env.View();
      r := CompileExpr(stmt.iter);
      if r.Failed? {
        return;
      }
      EmitEachSetup(arr.value);
      assert builder.instructions == start + EachSetup(arr.value, ExprCode(env2, stmt.iter).value);
      r := CompileEachLoop(stmt, arr.value);
    }

    /** start: index < SIZE(array); JMPIFNOT_L end; item := array[index]; body; index++; JMP_L start; end: */
    method CompileEachLoop(stmt: Stmt, arr: nat) returns (r: Status)
      requires stmt.ForArray? && arr < MAX_LOCAL
      modifies builder, env
      ensures match DeclareLocal(Enter(old(env.View())), stmt.item)
              case Err(x) => r == Failed(x)
              case Ok(env3) =>
                (match StmtsCode(env3, stmt.each)
                 case Err(x) => r == Failed(x)
                 case Ok((b, env4)) =>
                   (match LoopCode(EachGuard(arr), EachFetch(arr, old(env.nextLocal)) + (b + EachAdvance(arr)))
                    case Err(x) => r == Failed(x)
                    case Ok(code) => r == Done && builder.instructions == old(builder.instructions) + code && env.View() == Exit(env4)))
      decreases stmt, 0
    {
      hide StmtsCode, ByteLen, LoopCode, EachGuard, EachFetch, EachAdvance;
      ghost var start := builder.instructions;
      var loopStart := builder.Cursor();
      EmitEachGuard(arr);
      ghost var guard, hole := EachGuard(arr), Instruction(JMPIFNOT_L, [0, 0, 0, 0]);
      var jumpOut := builder.EmitPlaceholder(JMPIFNOT_L);
      env.EnterBlock();
      var item := env.Declare(stmt.item);
      if item.Err? {
        return Failed(item.error);
      }
      EmitEachFetch(arr, item.value);
      ghost var env3 := env.View();
      r := CompileStmts(stmt.each);
      if r.Failed? {
        return;
      }
      env.ExitBlock();
      EmitEachAdvance(arr);
      ghost var b := StmtsCode(env3, stmt.each).value.0;
      ghost var body := EachFetch(arr, item.value) + (b + EachAdvance(arr));
      assert builder.instructions == start + guard + ([hole] + body);
      r := CloseLoop(start, guard, jumpOut, body, loopStart);
    }
  }

  /** `compile_function` on the structured path: prologue, body, epilogue, local count. */
  method CompileFunction(params: seq<string>, isVoid: bool, stmts: seq<Stmt>) returns (r: Result<Code, CodegenError>)
    ensures r == FunctionCode(params, isVoid, stmts)
  {
    hide BlockCode, ArgSlots;
    if |params| > 255 {
      return Err(LocalLimitExceeded);
    }
    var c := new FunctionCompiler(params);
    c.builder.Push(Instruction(INITSLOT, [0, |params|]));
    var status := c.CompileBlock(stmts);
    if status.Failed? {
      return Err(status.error);
    }
    ghost var body := BlockCode(StartEnv(params), stmts).value.0;
    var emitted := c.builder.instructions;
    assert emitted == [Instruction(INITSLOT, [0, |params|])] + body;
    if isVoid && emitted[|emitted| - 1].opcode != RET {
      c.builder.Push(Op(RET));
    }
    if c.env.nextLocal >= 256 {
      return Err(LocalLimitExceeded);
    }
    var code := c.builder.instructions;
    r := Ok(code[0 := Instruction(INITSLOT, [c.env.nextLocal, |params|])]);
    assert r.value == [Instruction(INITSLOT, [c.env.nextLocal, |params|])] + (body + Epilogue(isVoid, body));
  }
}
