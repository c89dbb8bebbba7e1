/**
 * What structured code generation emits. Every jump is relative to its own first byte, so the
 * code of a construct does not depend on where it is placed.
 */
module CodegenSpec {
  import opened Prelude
  import opened Bytecode
  import opened Ast
  import opened Vm

  datatype CodegenError =
    | UndefinedVariable(name: string)
    | DuplicateLocal(name: string)
    | BadIntegerLiteral(text: string)
    | LocalLimitExceeded
    | Unsupported
    | JumpOverflow    // `i32::try_from` on a jump offset: an error for `while`, a panic elsewhere
    | DataTooLong     // panic in `push_data`
    | NoScope         // panic: "scope stack"

  type Code = seq<Instruction>

  // ----- slots of variables (env.rs) -----

  datatype Slot = Arg(index: nat) | Local(index: nat)

  /** `VarEnv`: scopes innermost first. */
  datatype Env = Env(args: map<string, nat>, scopes: List<map<string, nat>>, next: nat)

  const MAX_LOCAL := 255

  function ResolveLocal(scopes: List<map<string, nat>>, name: string): Option<nat> {
    match scopes
    case Nil => None
    case Cons(top, rest) => if name in top then Some(top[name]) else ResolveLocal(rest, name)
  }

  function Resolve(env: Env, name: string): Result<Slot, CodegenError> {
    match ResolveLocal(env.scopes, name)
    case Some(k) => Ok(Local(k))
    case None => if name in env.args then Ok(Arg(env.args[name])) else Err(UndefinedVariable(name))
  }

  function Enter(env: Env): Env { env.(scopes := Cons(map[], env.scopes)) }

  function Exit(env: Env): Env { if env.scopes.Cons? then env.(scopes := env.scopes.tail) else env }

  function AllocSlot(env: Env): Result<Env, CodegenError> {
    if env.next >= MAX_LOCAL then Err(LocalLimitExceeded) else Ok(env.(next := env.next + 1))
  }

  /** The new variable gets slot `env.next`. */
  function DeclareLocal(env: Env, name: string): Result<Env, CodegenError> {
    if env.next >= MAX_LOCAL then Err(LocalLimitExceeded)
    else if env.scopes.Nil? then Err(NoScope)
    else if name in env.scopes.head then Err(DuplicateLocal(name))
    else Ok(Env(env.args, Cons(env.scopes.head[name := env.next], env.scopes.tail), env.next + 1))
  }

  // ----- single instructions (target/mod.rs, env.rs) -----

  function Op(op: byte): Instruction { Instruction(op, []) }

  function SlotInstruction(base: byte, index: nat): Instruction
    requires base <= 0xF0 && index < 256
  {
    if index < 7 then Instruction(base + index, []) else Instruction(base + 7, [index])
  }

  function LoadCode(slot: Slot): Instruction
    requires slot.index < 256
  {
    SlotInstruction(if slot.Arg? then LDARG0 else LDLOC0, slot.index)
  }

  function StoreCode(slot: Slot): Instruction
    requires slot.index < 256
  {
    SlotInstruction(if slot.Arg? then STARG0 else STLOC0, slot.index)
  }

  /** The narrowest PUSH for an i128. */
  function PushInt(n: int): Instruction {
    if -1 <= n <= 16 then Instruction(PUSH0 + n, [])
    else if FitsSigned(n, 1) then Instruction(PUSHINT8, ToLe(n, 1))
    else if FitsSigned(n, 2) then Instruction(PUSHINT16, ToLe(n, 2))
    else if FitsSigned(n, 4) then Instruction(PUSHINT32, ToLe(n, 4))
    else if FitsSigned(n, 8) then Instruction(PUSHINT64, ToLe(n, 8))
    else Instruction(PUSHINT128, ToLe(n, 16))
  }

  function PushData(data: seq<byte>): Result<Instruction, CodegenError> {
    if |data| <= 0xFF then Ok(Instruction(PUSHDATA1, ToLe(|data|, 1) + data))
    else if |data| <= 0xFFFF then Ok(Instruction(PUSHDATA2, ToLe(|data|, 2) + data))
    else if |data| <= 0xFFFF_FFFF then Ok(Instruction(PUSHDATA4, ToLe(|data|, 4) + data))
    else Err(DataTooLong)
  }

  function LongJump(op: byte, relative: int): Instruction { Instruction(op, ToLe(relative, 4)) }

  function Jump(op: byte, relative: int): Result<Instruction, CodegenError> {
    if FitsI32(relative) then Ok(LongJump(op, relative)) else Err(JumpOverflow)
  }

  // ----- expressions -----

  function LiteralCode(lit: Literal): Result<Instruction, CodegenError> {
    match lit
    case NullLiteral => Ok(Op(PUSHNULL))
    case BoolLiteral(b) => Ok(Op(if b then PUSHT else PUSHF))
    case IntLiteral(text) =>
      var n := ParseIntLiteral(text);
      if n.None? then Err(BadIntegerLiteral(text)) else Ok(PushInt(n.value))
    case StringLiteral(data) => PushData(data)
    case BufferLiteral(data) => PushData(data)
  }

  function VariableCode(env: Env, name: string, store: bool): Result<Instruction, CodegenError> {
    var slot :- Resolve(env, name);
    if slot.index >= 256 then Err(LocalLimitExceeded)
    else Ok(if store then StoreCode(slot) else LoadCode(slot))
  }

  function UnaryOpCode(op: UnaryOp): byte {
    match op
    case Positive => NOP
    case Negative => NEGATE
    case Not => NOT
    case BitNot => INVERT
  }

  function UnaryCode(op: UnaryOp, operand: Code): Code {
    if op == Positive then operand else operand + [Op(UnaryOpCode(op))]
  }

  /** left; JMPIFNOT_L false; right; JMP_L end; false: PUSHF; end: */
  function AndCode(left: Code, right: Code): Result<Code, CodegenError> {
    var toFalse :- Jump(JMPIFNOT_L, 5 + ByteLen(right) + 5);
    var toEnd :- Jump(JMP_L, 6);
    Ok(left + ([toFalse] + (right + ([toEnd] + [Op(PUSHF)]))))
  }

  /** left; DUP; JMPIF_L end; DROP; right; end: */
  function OrCode(left: Code, right: Code): Result<Code, CodegenError> {
    var toEnd :- Jump(JMPIF_L, 6 + ByteLen(right));
    Ok(left + ([Op(DUP)] + ([toEnd] + ([Op(DROP)] + right))))
  }

  function NullTestCode(op: BinaryOp, value: Code): Code {
    value + if op == Ne then [Op(ISNULL)] + [Op(NOT)] else [Op(ISNULL)]
  }

  function ExprCode(env: Env, e: Expr): Result<Code, CodegenError> {
    match e
    case LiteralExpr(lit) => var i :- LiteralCode(lit); Ok([i])
    case Ident(name) => var i :- VariableCode(env, name, false); Ok([i])
    case SelfExpr =>
      var i := VariableCode(env, "self", false);
      if i.Ok? then Ok([i.value]) else Err(Unsupported)
    case Paren(inner) => ExprCode(env, inner)
    case UnaryExpr(op, operand) => var c :- ExprCode(env, operand); Ok(UnaryCode(op, c))
    case Cast(inner, ty) =>
      if StackItemType(ty).None? then Err(Unsupported)
      else
        var c :- ExprCode(env, inner);
        Ok(c + [Instruction(CONVERT, [StackItemType(ty).value])])
    case BinaryExpr(op, left, right) =>
      if op == And then
        var l :- ExprCode(env, left);
        var r :- ExprCode(env, right);
        AndCode(l, r)
      else if op == Or then
        var l :- ExprCode(env, left);
        var r :- ExprCode(env, right);
        OrCode(l, r)
      else if (op == Eq || op == Ne) && (IsNullLiteral(left) || IsNullLiteral(right)) then
        var c :- ExprCode(env, if IsNullLiteral(left) then right else left);
        Ok(NullTestCode(op, c))
      else
        var l :- ExprCode(env, left);
        var r :- ExprCode(env, right);
        Ok(l + (r + [Op(BinaryOpCode(op))]))
    case Index(base, index) =>
      var l :- ExprCode(env, base);
      var r :- ExprCode(env, index);
      Ok(l + (r + [Op(PICKITEM)]))
    case AssignExpr(Ident(name), aop, value) =>
      if aop == Assign then
        var c :- ExprCode(env, value);
        var st :- VariableCode(env, name, true);
        Ok(c + ([Op(DUP)] + [st]))
      else
        var ld :- VariableCode(env, name, false);
        var c :- ExprCode(env, value);
        var st :- VariableCode(env, name, true);
        Ok([ld] + (c + ([Op(AssignOpCode(aop))] + ([Op(DUP)] + [st]))))
    case _ => Err(Unsupported)
  }

  function ExprsCode(env: Env, es: seq<Expr>): Result<Code, CodegenError> {
    if es == [] then Ok([])
    else
      var first :- ExprCode(env, es[0]);
      var rest :- ExprsCode(env, es[1..]);
      Ok(first + rest)
  }

  // ----- statements -----

  /** cond; JMPIFNOT_L end; then; end: */
  function IfCode(cond: Code, thenCode: Code): Result<Code, CodegenError> {
    var toEnd :- Jump(JMPIFNOT_L, 5 + ByteLen(thenCode));
    Ok(cond + ([toEnd] + thenCode))
  }

  /** cond; JMPIFNOT_L else; then; JMP_L end; else: ...; end: */
  function IfElseCode(cond: Code, thenCode: Code, elseCode: Code): Result<Code, CodegenError> {
    var toElse :- Jump(JMPIFNOT_L, 5 + ByteLen(thenCode) + 5);
    var toEnd :- Jump(JMP_L, 5 + ByteLen(elseCode));
    Ok(cond + ([toElse] + (thenCode + ([toEnd] + elseCode))))
  }

  /** start: guard; JMPIFNOT_L end; body; JMP_L start; end: */
  function LoopCode(guard: Code, body: Code): Result<Code, CodegenError> {
    var toStart :- Jump(JMP_L, -(ByteLen(guard) + 5 + ByteLen(body)));
    var toEnd :- Jump(JMPIFNOT_L, 5 + ByteLen(body) + 5);
    Ok(guard + ([toEnd] + (body + [toStart])))
  }

  function EachGuard(arr: nat): Code
    requires arr < MAX_LOCAL
  {
    [LoadCode(Local(arr + 1))] + ([LoadCode(Local(arr))] + ([Op(SIZE)] + [Op(LT)]))
  }

  function EachFetch(arr: nat, item: nat): Code
    requires arr < MAX_LOCAL && item < MAX_LOCAL
  {
    [LoadCode(Local(arr))] + ([LoadCode(Local(arr + 1))] + ([Op(PICKITEM)] + [StoreCode(Local(item))]))
  }

  function EachAdvance(arr: nat): Code
    requires arr < MAX_LOCAL
  {
    [LoadCode(Local(arr + 1))] + ([Op(INC)] + [StoreCode(Local(arr + 1))])
  }

  function EachSetup(arr: nat, iter: Code): Code
    requires arr < MAX_LOCAL
  {
    iter + ([StoreCode(Local(arr))] + ([PushInt(0)] + [StoreCode(Local(arr + 1))]))
  }

  /** Code of a statement, and the environment for the statements after it. */
  function StmtCode(env: Env, stmt: Stmt): Result<(Code, Env), CodegenError>
    decreases stmt, 0
  {
    match stmt
    case Var(name, init) =>
      var env1 :- DeclareLocal(env, name);
      var c :- if init.Some? then ExprCode(env1, init.value) else Ok([Op(PUSHNULL)]);
      Ok((c + [StoreCode(Local(env.next))], env1))
    case ExprStmt(e) => var c :- ExprCode(env, e); Ok((c + [Op(DROP)], env))
    case If(cond, thenBlock, NoElse) =>
      var c :- ExprCode(env, cond);
      var t :- BlockCode(env, thenBlock);
      var code :- IfCode(c, t.0);
      Ok((code, t.1))
    case If(cond, thenBlock, Else(elseBlock)) =>
      var c :- ExprCode(env, cond);
      var t :- BlockCode(env, thenBlock);
      var _ :- Jump(JMPIFNOT_L, 5 + ByteLen(t.0) + 5);  // patched before the else-block is compiled
      var f :- BlockCode(t.1, elseBlock);
      var code :- IfElseCode(c, t.0, f.0);
      Ok((code, f.1))
    case While(guard, body) =>
      var c :- ExprCode(env, guard);
      var b :- BlockCode(env, body);
      var code :- LoopCode(c, b.0);
      Ok((code, b.1))
    case ForArray(item, iter, each) =>
      var env1 :- AllocSlot(env);
      var env2 :- AllocSlot(env1);
      var c :- ExprCode(env2, iter);
      var env3 :- DeclareLocal(Enter(env2), item);
      var b :- StmtsCode(env3, each);
      var loop :- LoopCode(EachGuard(env.next), EachFetch(env.next, env2.next) + (b.0 + EachAdvance(env.next)));
      Ok((EachSetup(env.next, c) + loop, Exit(b.1)))
    case ReturnStmt(None) => Ok(([Op(RET)], env))
    case ReturnStmt(Some(e)) => var c :- ExprCode(env, e); Ok((c + [Op(RET)], env))
    case Emit(event, args) =>
      var c :- ExprsCode(env, args);
      var name :- PushData(event);
      if |args| > 0x7FFF_FFFF_FFFF_FFFF then Err(Unsupported)
      else Ok((c + ([PushInt(|args|)] + ([Op(PACK)] + ([name] + [Instruction(SYSCALL, NOTIFY)]))), env))
    case Block(stmts) => BlockCode(env, stmts)
  }

  function StmtsCode(env: Env, stmts: seq<Stmt>): Result<(Code, Env), CodegenError>
    decreases stmts, 0
  {
    if stmts == [] then Ok(([], env))
    else
      var first :- StmtCode(env, stmts[0]);
      var rest :- StmtsCode(first.1, stmts[1..]);
      Ok((first.0 + rest.0, rest.1))
  }

  function BlockCode(env: Env, stmts: seq<Stmt>): Result<(Code, Env), CodegenError>
    decreases stmts, 1
  {
    var b :- StmtsCode(Enter(env), stmts);
    Ok((b.0, Exit(b.1)))
  }

  // ----- functions -----

  /** Parameter slots; a repeated name keeps its last position (`HashMap::insert`). */
  function ArgSlots(params: seq<string>): map<string, nat> {
    if params == [] then map[]
    else ArgSlots(params[..|params| - 1])[params[|params| - 1] := |params| - 1]
  }

  function StartEnv(params: seq<string>): Env { Env(ArgSlots(params), Cons(map[], Nil), 0) }

  /** A `void` function whose last emitted instruction is not RET gets one. */
  predicate AppendsRet(isVoid: bool, body: Code) {
    isVoid && (body == [] || body[|body| - 1].opcode != RET)
  }

  function Epilogue(isVoid: bool, body: Code): Code {
    if AppendsRet(isVoid, body) then [Op(RET)] else []
  }

  function FunctionCode(params: seq<string>, isVoid: bool, stmts: seq<Stmt>): Result<Code, CodegenError> {
    if |params| > 255 then Err(LocalLimitExceeded)
    else
      var b :- BlockCode(StartEnv(params), stmts);
      if b.1.next >= 256 then Err(LocalLimitExceeded)
      else Ok([Instruction(INITSLOT, [b.1.next, |params|])] + (b.0 + Epilogue(isVoid, b.0)))
  }
}
