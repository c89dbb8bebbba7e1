/** Abstract syntax of neo-lang expressions and statements (syntax/ast.rs). */
module Ast {
  import opened Prelude
  import opened Bytecode

  datatype UnaryOp = Positive | Negative | Not | BitNot

  datatype BinaryOp =
    | Mul | Div | Mod | Add | Sub | Shl | Shr | BitAnd | BitOr | BitXor
    | Eq | Ne | Lt | Le | Gt | Ge | And | Or

  datatype AssignOp =
    | Assign | PlusAssign | MinusAssign | StarAssign | SlashAssign | PercentAssign
    | ShrAssign | ShlAssign | AmpAssign | PipeAssign | CaretAssign

  datatype Type =
    | VoidType | BoolType | IntType | StringType | Hash160Type | Hash256Type | BufferType | AnyType
    | NamedType(name: string) | ArrayType(element: Type) | MapType(key: Type, val: Type)

  /** An integer literal keeps the text the lexer read. */
  datatype Literal =
    | NullLiteral
    | BoolLiteral(b: bool)
    | IntLiteral(text: string)
    | StringLiteral(data: seq<byte>)
    | BufferLiteral(data: seq<byte>)

  datatype Expr =
    | AssignExpr(target: Expr, aop: AssignOp, value: Expr)
    | LiteralExpr(lit: Literal)
    | Ident(name: string)
    | SelfExpr
    | Cast(inner: Expr, ty: Type)
    | BinaryExpr(bop: BinaryOp, left: Expr, right: Expr)
    | UnaryExpr(uop: UnaryOp, operand: Expr)
    | Member(base: Expr, field: string)
    | Index(base: Expr, index: Expr)
    | Call(callee: Expr, arguments: seq<Expr>)
    | StructLit(structName: string, fields: seq<FieldInit>)
    | MapLit(mapType: Type, pairs: seq<MapEntry>)
    | ArrayLit(arrayType: Type, elements: seq<Expr>)
    | Paren(paren: Expr)

  datatype FieldInit = FieldInit(name: string, value: Expr)

  datatype MapEntry = MapEntry(key: Expr, value: Expr)

  datatype Stmt =
    | Var(name: string, init: Option<Expr>)
    | ExprStmt(expr: Expr)
    | If(cond: Expr, thenBlock: seq<Stmt>, elseBranch: ElseBranch)
    | While(guard: Expr, body: seq<Stmt>)
    | ForArray(item: string, iter: Expr, each: seq<Stmt>)
    | ReturnStmt(result: Option<Expr>)
    | Emit(event: seq<byte>, args: seq<Expr>)
    | Block(stmts: seq<Stmt>)

  datatype ElseBranch = NoElse | Else(elseBlock: seq<Stmt>)

  function BinaryOpCode(op: BinaryOp): byte {
    match op
    case Mul => MUL case Div => DIV case Mod => MOD case Add => ADD case Sub => SUB
    case Shl => SHL case Shr => SHR case BitAnd => AND case BitOr => OR case BitXor => XOR
    case Eq => EQUAL case Ne => NOTEQUAL case Lt => LT case Le => LE case Gt => GT case Ge => GE
    case And => AND case Or => OR
  }

  function AssignOpCode(op: AssignOp): byte {
    match op
    case PlusAssign => ADD case MinusAssign => SUB case StarAssign => MUL case SlashAssign => DIV
    case PercentAssign => MOD case ShrAssign => SHR case ShlAssign => SHL case AmpAssign => AND
    case PipeAssign => OR case CaretAssign => XOR case Assign => DUP
  }

  /** `null`, possibly parenthesized. */
  predicate IsNullLiteral(e: Expr) {
    match e
    case LiteralExpr(NullLiteral) => true
    case Paren(inner) => IsNullLiteral(inner)
    case _ => false
  }

  /** Type operand of CONVERT; no cast to `any`, `void` or a struct. */
  function StackItemType(ty: Type): Option<byte> {
    match ty
    case BoolType => Some(0x20)
    case IntType => Some(0x21)
    case StringType => Some(0x28)
    case Hash160Type => Some(0x28)
    case Hash256Type => Some(0x28)
    case BufferType => Some(0x30)
    case ArrayType(_) => Some(0x40)
    case MapType(_, _) => Some(0x48)
    case _ => None
  }

  // ----- integer literals -----

  function DigitValue(c: char): nat {
    if '0' <= c <= '9' then c as int - '0' as int
    else if 'a' <= c <= 'f' then 10 + (c as int - 'a' as int)
    else if 'A' <= c <= 'F' then 10 + (c as int - 'A' as int)
    else 99
  }

  /** Value of a non-empty digit string, most significant digit first. */
  function Digits(s: string, radix: nat): Option<nat>
    decreases |s|
  {
    if s == [] then None
    else
      var d := DigitValue(s[|s| - 1]);
      if d >= radix then None
      else if |s| == 1 then Some(d)
      else
        match Digits(s[..|s| - 1], radix)
        case None => None
        case Some(high) => Some(radix * high + d)
  }

  /** `from_str_radix` on a signed type: one optional sign, then digits. */
  function ParseSigned(s: string, radix: nat): Option<int> {
    if s != [] && s[0] == '-' then
      var magnitude := Digits(s[1..], radix);
      if magnitude.Some? then Some(-(magnitude.value as int)) else None
    else
      var magnitude := Digits(if s != [] && s[0] == '+' then s[1..] else s, radix);
      if magnitude.Some? then Some(magnitude.value) else None
  }

  function WithoutUnderscores(s: string): string {
    if s == [] then []
    else if s[0] == '_' then WithoutUnderscores(s[1..])
    else [s[0]] + WithoutUnderscores(s[1..])
  }

  predicate FitsI64(n: int) { -0x8000_0000_0000_0000 <= n < 0x8000_0000_0000_0000 }
  predicate FitsI128(n: int) {
    -0x8000_0000_0000_0000_0000_0000_0000_0000 <= n < 0x8000_0000_0000_0000_0000_0000_0000_0000
  }

  /** Decimal, `0x` or `0b` text, underscores ignored, value within i128. */
  function ParseIntLiteral(text: string): (r: Option<int>)
    ensures r.Some? ==> FitsI128(r.value)
  {
    var raw := WithoutUnderscores(text);
    var n :=
      if |raw| > 2 && (raw[..2] == "0x" || raw[..2] == "0X") then ParseSigned(raw[2..], 16)
      else if |raw| > 2 && (raw[..2] == "0b" || raw[..2] == "0B") then ParseSigned(raw[2..], 2)
      else ParseSigned(raw, 10);
    if n.Some? && FitsI128(n.value) then n else None
  }
}

/** Big-step meaning of neo-lang statements, on named variables. */
module Semantics {
  import opened Prelude
  import opened Bytecode
  import opened Ast
  import opened Vm

  /** Variables by scope, innermost first; then the parameters; then the events emitted so far. */
  datatype Store = Store(scopes: List<map<string, Value>>, args: map<string, Value>, trace: seq<Event>)

  function LookupScopes(scopes: List<map<string, Value>>, name: string): Option<Value> {
    match scopes
    case Nil => None
    case Cons(top, rest) => if name in top then Some(top[name]) else LookupScopes(rest, name)
  }

  function Lookup(s: Store, name: string): Option<Value> {
    match LookupScopes(s.scopes, name)
    case Some(v) => Some(v)
    case None => if name in s.args then Some(s.args[name]) else None
  }

  function UpdateScopes(scopes: List<map<string, Value>>, name: string, v: Value): List<map<string, Value>> {
    match scopes
    case Nil => Nil
    case Cons(top, rest) =>
      if name in top then Cons(top[name := v], rest) else Cons(top, UpdateScopes(rest, name, v))
  }

  /** Assign the innermost variable of that name. */
  function Update(s: Store, name: string, v: Value): Store {
    if LookupScopes(s.scopes, name).Some? then s.(scopes := UpdateScopes(s.scopes, name, v))
    else s.(args := s.args[name := v])
  }

  function EnterScope(s: Store, top: map<string, Value>): Store { s.(scopes := Cons(top, s.scopes)) }

  function ExitScope(s: Store): Store {
    if s.scopes.Cons? then s.(scopes := s.scopes.tail) else s
  }

  function Declare(s: Store, name: string, v: Value): Store {
    if s.scopes.Cons? then s.(scopes := Cons(s.scopes.head[name := v], s.scopes.tail)) else s
  }

  /** Stuck: outside the modelled language, about which nothing is claimed. */
  datatype Eval = Val(v: Value, store: Store) | EvalFault | EvalStuck

  function LiteralValue(lit: Literal): Option<Value> {
    match lit
    case NullLiteral => Some(Null)
    case BoolLiteral(b) => Some(Bool(b))
    case IntLiteral(text) =>
      var n := ParseIntLiteral(text);
      if n.Some? then Some(Int(n.value)) else None
    case StringLiteral(data) => Some(Bytes(data))
    case BufferLiteral(data) => Some(Bytes(data))
  }

  function Computed(v: Option<Value>, s: Store): Eval {
    if v.Some? then Val(v.value, s) else EvalFault
  }

  function UnaryMeaning(ops: Ops, op: UnaryOp, v: Value): Option<Value> {
    match op
    case Positive => Some(v)
    case Negative => ops.unary(Instruction(NEGATE, []), v)
    case Not => Some(Bool(!Truthy(v)))
    case BitNot => ops.unary(Instruction(INVERT, []), v)
  }

  /** Evaluation is left to right; `&&` and `||` evaluate their right operand only when needed. */
  function EvalExpr(ops: Ops, e: Expr, s: Store): Eval {
    match e
    case LiteralExpr(lit) =>
      var v := LiteralValue(lit);
      if v.Some? then Val(v.value, s) else EvalStuck
    case Ident(name) =>
      var v := Lookup(s, name);
      if v.Some? then Val(v.value, s) else EvalStuck
    case SelfExpr =>
      var v := Lookup(s, "self");
      if v.Some? then Val(v.value, s) else EvalStuck
    case Paren(inner) => EvalExpr(ops, inner, s)
    case UnaryExpr(op, operand) =>
      (match EvalExpr(ops, operand, s)
       case Val(v, s1) => Computed(UnaryMeaning(ops, op, v), s1)
       case other => other)
    case Cast(inner, ty) =>
      (match EvalExpr(ops, inner, s)
       case Val(v, s1) =>
         if StackItemType(ty).Some? then
           Computed(ops.unary(Instruction(CONVERT, [StackItemType(ty).value]), v), s1)
         else EvalStuck
       case other => other)
    case BinaryExpr(op, left, right) =>
      if (op == Eq || op == Ne) && (IsNullLiteral(left) || IsNullLiteral(right)) then
        match EvalExpr(ops, if IsNullLiteral(left) then right else left, s)
        case Val(v, s1) => Val(Bool((v == Null) == (op == Eq)), s1)
        case other => other
      else
        (match EvalExpr(ops, left, s)
         case Val(a, s1) =>
           if op == And && !Truthy(a) then Val(Bool(false), s1)
           else if op == Or && Truthy(a) then Val(a, s1)
           else
             (match EvalExpr(ops, right, s1)
              case Val(b, s2) =>
                if op == And || op == Or then Val(b, s2)
                else Computed(BinaryValue(ops, BinaryOpCode(op), a, b), s2)
              case other => other)
         case other => other)
    case Index(base, index) =>
      (match EvalExpr(ops, base, s)
       case Val(a, s1) =>
         (match EvalExpr(ops, index, s1)
          case Val(b, s2) => Computed(Binary(ops, Instruction(PICKITEM, []), a, b), s2)
          case other => other)
       case other => other)
    case AssignExpr(Ident(name), aop, value) =>
      if Lookup(s, name).None? then EvalStuck
      else
        (match EvalExpr(ops, value, s)
         case Val(b, s1) =>
           if aop == Assign then Val(b, Update(s1, name, b))
           else
             var v := BinaryValue(ops, AssignOpCode(aop), Lookup(s, name).value, b);
             if v.Some? then Val(v.value, Update(s1, name, v.value)) else EvalFault
         case other => other)
    case _ => EvalStuck
  }

  /** Values left to right, as the arguments of an `emit`. */
  datatype EvalList = Vals(vs: seq<Value>, store: Store) | ListFault | ListStuck

  function EvalAll(ops: Ops, es: seq<Expr>, s: Store): EvalList {
    if es == [] then Vals([], s)
    else
      match EvalExpr(ops, es[0], s)
      case EvalFault => ListFault
      case EvalStuck => ListStuck
      case Val(v, s1) =>
        match EvalAll(ops, es[1..], s1)
        case Vals(vs, s2) => Vals([v] + vs, s2)
        case other => other
  }

  datatype Outcome =
    | Normal(store: Store)
    | Return(result: Option<Value>, store: Store)
    | Fault
    | OutOfFuel
    | Stuck

  /** `fuel` bounds the iterations of nested `while` loops; a run that ends ends for all larger fuel. */
  function Exec(ops: Ops, stmt: Stmt, s: Store, fuel: nat): Outcome
    decreases fuel, stmt, 1, 0
  {
    match stmt
    case Var(name, None) => Normal(Declare(s, name, Null))
    case Var(name, Some(e)) =>
      (match EvalExpr(ops, e, s)
       case Val(v, s1) => Normal(Declare(s1, name, v))
       case EvalFault => Fault
       case EvalStuck => Stuck)
    case ExprStmt(e) =>
      (match EvalExpr(ops, e, s)
       case Val(_, s1) => Normal(s1)
       case EvalFault => Fault
       case EvalStuck => Stuck)
    case If(cond, thenBlock, NoElse) =>
      (match EvalExpr(ops, cond, s)
       case Val(v, s1) =>
         if Truthy(v) then ExecBlock(ops, thenBlock, s1, map[], fuel) else Normal(s1)
       case EvalFault => Fault
       case EvalStuck => Stuck)
    case If(cond, thenBlock, Else(elseBlock)) =>
      (match EvalExpr(ops, cond, s)
       case Val(v, s1) => ExecBlock(ops, if Truthy(v) then thenBlock else elseBlock, s1, map[], fuel)
       case EvalFault => Fault
       case EvalStuck => Stuck)
    case While(guard, body) =>
      if fuel == 0 then OutOfFuel
      else
        (match EvalExpr(ops, guard, s)
         case Val(v, s1) =>
           if !Truthy(v) then Normal(s1)
           else
             (match ExecBlock(ops, body, s1, map[], fuel - 1)
              case Normal(s2) => Exec(ops, stmt, s2, fuel - 1)
              case other => other)
         case EvalFault => Fault
         case EvalStuck => Stuck)
    case ForArray(item, iter, each) =>
      (match EvalExpr(ops, iter, s)
       case Val(v, s1) => if v.Array? then ExecEach(ops, item, each, v.items, s1, fuel) else Stuck
       case EvalFault => Fault
       case EvalStuck => Stuck)
    case ReturnStmt(None) => Return(None, s)
    case ReturnStmt(Some(e)) =>
      (match EvalExpr(ops, e, s)
       case Val(v, s1) => Return(Some(v), s1)
       case EvalFault => Fault
       case EvalStuck => Stuck)
    case Emit(event, args) =>
      (match EvalAll(ops, args, s)
       case Vals(vs, s1) => Normal(s1.(trace := s1.trace + [Event(event, Array(Reverse(vs)))]))
       case ListFault => Fault
       case ListStuck => Stuck)
    case Block(stmts) => ExecBlock(ops, stmts, s, map[], fuel)
  }

  function ExecAll(ops: Ops, stmts: seq<Stmt>, s: Store, fuel: nat): Outcome
    decreases fuel, stmts, 0, 0
  {
    if stmts == [] then Normal(s)
    else
      match Exec(ops, stmts[0], s, fuel)
      case Normal(s1) => ExecAll(ops, stmts[1..], s1, fuel)
      case other => other
  }

  /** A block in its own scope, which starts with the bindings of `top`. */
  function ExecBlock(ops: Ops, stmts: seq<Stmt>, s: Store, top: map<string, Value>, fuel: nat): Outcome
    decreases fuel, stmts, 1, 0
  {
    match ExecAll(ops, stmts, EnterScope(s, top), fuel)
    case Normal(s1) => Normal(ExitScope(s1))
    case other => other
  }

  function ExecEach(ops: Ops, item: string, each: seq<Stmt>, items: seq<Value>, s: Store, fuel: nat): Outcome
    decreases fuel, each, 2, |items|
  {
    if items == [] then Normal(s)
    else
      match ExecBlock(ops, each, s, map[item := items[0]], fuel)
      case Normal(s1) => ExecEach(ops, item, each, items[1..], s1, fuel)
      case other => other
  }
}
