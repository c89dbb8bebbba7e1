/** Tokens, and what it means for an expression tree to spell a token sequence (syntax/lexer.rs, syntax/ast.rs). */
module Grammar {
  import opened Prelude
  import opened Bytecode
  import opened Ast

  /** `Keyword` stands for the tokens that no expression contains (`contract`, `if`, `in`, ...). */
  datatype Token =
    | As | VoidWord | BoolWord | IntWord | StringWord | Hash160Word | Hash256Word | MapWord | BufferWord | AnyWord
    | NullWord | TrueWord | FalseWord | SelfWord
    | ShrEq | ShlEq | Shr | Shl | Ge | Le | EqEq | Ne | AmpAmp | PipePipe
    | PlusEq | MinusEq | StarEq | SlashEq | PercentEq | AmpEq | PipeEq | CaretEq
    | Plus | Minus | Star | Slash | Percent | Bang | Tilde | Amp | Pipe | Caret | Lt | Gt | Eq
    | LParen | RParen | LBracket | RBracket | LBrace | RBrace | Semi | Comma | Dot | Colon
    | Word(name: string) | Text(data: seq<byte>) | Bytes(data: seq<byte>) | Number(text: string)
    | Keyword(spelling: string)
    | Eof

  datatype Infix = Binary(bop: BinaryOp) | Assignment(aop: AssignOp)

  function BinaryToken(op: BinaryOp): Token {
    match op
    case Mul => Star case Div => Slash case Mod => Percent case Add => Plus case Sub => Minus
    case Shl => Token.Shl case Shr => Token.Shr case BitAnd => Amp case BitOr => Pipe case BitXor => Caret
    case Eq => EqEq case Ne => Token.Ne case Lt => Token.Lt case Le => Token.Le case Gt => Token.Gt case Ge => Token.Ge
    case And => AmpAmp case Or => PipePipe
  }

  function AssignToken(op: AssignOp): Token {
    match op
    case Assign => Token.Eq case PlusAssign => PlusEq case MinusAssign => MinusEq case StarAssign => StarEq
    case SlashAssign => SlashEq case PercentAssign => PercentEq case ShrAssign => ShrEq case ShlAssign => ShlEq
    case AmpAssign => AmpEq case PipeAssign => PipeEq case CaretAssign => CaretEq
  }

  function InfixToken(op: Infix): Token {
    match op
    case Binary(b) => BinaryToken(b)
    case Assignment(a) => AssignToken(a)
  }

  function UnaryToken(op: UnaryOp): Token {
    match op
    case Positive => Plus case Negative => Minus case Not => Bang case BitNot => Tilde
  }

  function LiteralToken(lit: Literal): Token {
    match lit
    case NullLiteral => NullWord
    case BoolLiteral(b) => if b then TrueWord else FalseWord
    case IntLiteral(text) => Number(text)
    case StringLiteral(data) => Text(data)
    case BufferLiteral(data) => Bytes(data)
  }

  // ----- what a tree spells -----

  function TypeYield(ty: Type): (s: seq<Token>)
    ensures s != []
  {
    match ty
    case VoidType => [VoidWord] case BoolType => [BoolWord] case IntType => [IntWord] case StringType => [StringWord]
    case Hash160Type => [Hash160Word] case Hash256Type => [Hash256Word] case BufferType => [BufferWord]
    case AnyType => [AnyWord]
    case NamedType(name) => [Word(name)]
    case ArrayType(element) => TypeYield(element) + [LBracket, RBracket]
    case MapType(key, val) => [MapWord, LBracket] + TypeYield(key) + [Comma] + TypeYield(val) + [RBracket]
  }

  /** The tokens of a tree, left to right. */
  function Yield(e: Expr): (s: seq<Token>)
    ensures s != []
    decreases e, 0
  {
    match e
    case AssignExpr(target, op, value) => Yield(target) + [AssignToken(op)] + Yield(value)
    case LiteralExpr(lit) => [LiteralToken(lit)]
    case Ident(name) => [Word(name)]
    case SelfExpr => [SelfWord]
    case Cast(inner, ty) => Yield(inner) + [As] + TypeYield(ty)
    case BinaryExpr(op, left, right) => Yield(left) + [BinaryToken(op)] + Yield(right)
    case UnaryExpr(op, operand) => [UnaryToken(op)] + Yield(operand)
    case Member(base, field) => Yield(base) + [Dot, Word(field)]
    case Index(base, index) => Yield(base) + [LBracket] + Yield(index) + [RBracket]
    case Call(callee, arguments) => Yield(callee) + [LParen] + ListYield(arguments) + [RParen]
    case StructLit(name, fields) => [Word(name)] + [LBrace] + FieldsYield(fields) + [RBrace]
    case MapLit(ty, pairs) => TypeYield(ty) + [LBrace] + PairsYield(pairs) + [RBrace]
    case ArrayLit(ty, elements) => TypeYield(ty) + [LBrace] + ListYield(elements) + [RBrace]
    case Paren(inner) => [LParen] + Yield(inner) + [RParen]
  }

  function ListYield(es: seq<Expr>): seq<Token>
    decreases es, 1
  {
    if es == [] then []
    else if |es| == 1 then Yield(es[0])
    else Yield(es[0]) + [Comma] + ListYield(es[1..])
  }

  function FieldsYield(fields: seq<FieldInit>): seq<Token>
    decreases fields, 1
  {
    if fields == [] then []
    else
      var head := FieldYield(fields[0]);
      if |fields| == 1 then head else head + [Comma] + FieldsYield(fields[1..])
  }

  function FieldYield(field: FieldInit): seq<Token>
    decreases field, 0
  {
    [Word(field.name)] + [Colon] + Yield(field.value)
  }

  function PairsYield(pairs: seq<MapEntry>): seq<Token>
    decreases pairs, 1
  {
    if pairs == [] then []
    else
      var head := PairYield(pairs[0]);
      if |pairs| == 1 then head else head + [Comma] + PairsYield(pairs[1..])
  }

  function PairYield(pair: MapEntry): seq<Token>
    decreases pair, 0
  {
    Yield(pair.key) + [Colon] + Yield(pair.value)
  }

  // ----- precedence -----

  const ASSIGNMENT := 1
  const CAST := 12
  const PREFIX := 13
  const ATOM := 14

  /** 14 minus the operator's place in the documented precedence list, so that more binds tighter. */
  function Tightness(op: BinaryOp): (n: nat)
    ensures ASSIGNMENT < n < CAST && n != 5
  {
    match op
    case Mul => 11 case Div => 11 case Mod => 11
    case Add => 10 case Sub => 10
    case Shl => 9 case Shr => 9
    case BitAnd => 8
    case BitOr => 7
    case BitXor => 6
    case Eq => 4 case Ne => 4 case Lt => 4 case Le => 4 case Gt => 4 case Ge => 4
    case And => 3
    case Or => 2
  }

  function InfixTightness(op: Infix): (n: nat)
    ensures ASSIGNMENT <= n < CAST && n != 5
  {
    match op
    case Binary(b) => Tightness(b)
    case Assignment(_) => ASSIGNMENT
  }

  /** How tightly the outermost construct of a tree binds. */
  function Level(e: Expr): (n: nat)
    ensures ASSIGNMENT <= n <= ATOM && n != 5
  {
    match e
    case AssignExpr(_, _, _) => ASSIGNMENT
    case BinaryExpr(op, _, _) => Tightness(op)
    case Cast(_, _) => CAST
    case UnaryExpr(_, _) => PREFIX
    case _ => ATOM
  }

  /** Only a name that starts with an ASCII capital can name a struct literal. */
  predicate PascalCase(name: string) { name != [] && 'A' <= name[0] <= 'Z' }

  /**
   * A tree that needs no more parentheses than it has: every operand binds at least as tightly as
   * its place demands. Binary operators associate to the left, assignment to the right.
   */
  predicate Respects(e: Expr)
    decreases e, 0
  {
    match e
    case AssignExpr(target, _, value) =>
      Respects(target) && Respects(value) && Level(target) > ASSIGNMENT && Level(value) >= ASSIGNMENT
    case BinaryExpr(op, left, right) =>
      Respects(left) && Respects(right) && Level(left) >= Tightness(op) && Level(right) > Tightness(op)
    case Cast(inner, _) => Respects(inner) && Level(inner) >= CAST
    case UnaryExpr(_, operand) => Respects(operand) && Level(operand) >= PREFIX
    case Member(base, _) => Respects(base) && Level(base) >= ATOM
    case Index(base, index) => Respects(base) && Level(base) >= ATOM && Respects(index)
    case Call(callee, arguments) => Respects(callee) && Level(callee) >= ATOM && AllRespect(arguments)
    case StructLit(name, fields) => PascalCase(name) && FieldsRespect(fields)
    case MapLit(ty, pairs) => ty.MapType? && PairsRespect(pairs)
    case ArrayLit(ty, elements) => ty.ArrayType? && AllRespect(elements)
    case Paren(inner) => Respects(inner)
    case LiteralExpr(_) => true
    case Ident(_) => true
    case SelfExpr => true
  }

  predicate AllRespect(es: seq<Expr>)
    decreases es, 1
  {
    es == [] || (Respects(es[0]) && AllRespect(es[1..]))
  }

  predicate FieldsRespect(fields: seq<FieldInit>)
    decreases fields, 1
  {
    fields == [] || (Respects(fields[0].value) && FieldsRespect(fields[1..]))
  }

  predicate PairsRespect(pairs: seq<MapEntry>)
    decreases pairs, 1
  {
    pairs == [] || (PairRespects(pairs[0]) && PairsRespect(pairs[1..]))
  }

  predicate PairRespects(pair: MapEntry)
    decreases pair, 0
  {
    Respects(pair.key) && Respects(pair.value)
  }
}
