/**
 * The expression parser, as a function of the tokens and a position (syntax/parser.rs): precedence
 * climbing over operators, operands with their prefixes, postfixes and casts, types and literals.
 */
module Parser {
  import opened Prelude
  import opened Bytecode
  import opened Ast
  import opened Grammar

  /** A tree and the position after it. */
  datatype Parsed<+T> = Parsed(tree: T, next: nat)

  datatype ParseError =
    | Expected(want: Token) | ExpectedIdentifier | ExpectedType
    | UnexpectedToken | ArrayNeedsType | MapNeedsType

  /** The current token; the last token of every input is the end of file. */
  function Peek(s: seq<Token>, i: nat): Token { if i < |s| then s[i] else Eof }

  // ----- types -----

  predicate EmptyBrackets(s: seq<Token>, i: nat) { Peek(s, i) == LBracket && i + 1 < |s| && s[i + 1] == RBracket }

  function ParseType(s: seq<Token>, i: nat): (r: Result<Parsed<Type>, ParseError>)
    ensures r.Ok? ==> i < r.value.next <= |s|
    decreases |s| - i, 1
  {
    var base :- ParseTypeBase(s, i);
    Ok(TypeSuffix(s, base.next, base.tree))
  }

  function TypeSuffix(s: seq<Token>, j: nat, ty: Type): (r: Parsed<Type>)
    requires j <= |s|
    ensures j <= r.next <= |s|
    decreases |s| - j
  {
    if EmptyBrackets(s, j) then TypeSuffix(s, j + 2, ArrayType(ty)) else Parsed(ty, j)
  }

  function ParseTypeBase(s: seq<Token>, i: nat): (r: Result<Parsed<Type>, ParseError>)
    ensures r.Ok? ==> i < r.value.next <= |s|
    decreases |s| - i, 0
  {
    match Peek(s, i)
    case VoidWord => Ok(Parsed(VoidType, i + 1))
    case BoolWord => Ok(Parsed(BoolType, i + 1))
    case IntWord => Ok(Parsed(IntType, i + 1))
    case StringWord => Ok(Parsed(StringType, i + 1))
    case Hash160Word => Ok(Parsed(Hash160Type, i + 1))
    case Hash256Word => Ok(Parsed(Hash256Type, i + 1))
    case BufferWord => Ok(Parsed(BufferType, i + 1))
    case AnyWord => Ok(Parsed(AnyType, i + 1))
    case Word(name) => Ok(Parsed(NamedType(name), i + 1))
    case MapWord =>
      if Peek(s, i + 1) != LBracket then Err(Expected(LBracket))
      else
        var key :- ParseType(s, i + 2);
        ParseMapValue(s, key)
    case _ => Err(ExpectedType)
  }

  /** The second half of `map[key, value]`. */
  function ParseMapValue(s: seq<Token>, key: Parsed<Type>): (r: Result<Parsed<Type>, ParseError>)
    ensures r.Ok? ==> key.next < r.value.next <= |s|
    decreases |s| - key.next, 2
  {
    if Peek(s, key.next) != Comma then Err(Expected(Comma))
    else
      var val :- ParseType(s, key.next + 1);
      if Peek(s, val.next) != RBracket then Err(Expected(RBracket))
      else Ok(Parsed(MapType(key.tree, val.tree), val.next + 1))
  }

  predicate StartsType(t: Token) {
    || t.VoidWord? || t.BoolWord? || t.IntWord? || t.StringWord? || t.Hash160Word? || t.Hash256Word?
    || t.BufferWord? || t.AnyWord? || t.MapWord? || t.Word?
  }

  // ----- operators -----

  /** The operator a token stands for after an operand. */
  function InfixOf(t: Token): Option<Infix> {
    match BinaryOf(t)
    case Some(b) => Some(Binary(b))
    case None => match AssignOf(t) case Some(a) => Some(Assignment(a)) case None => None
  }

  function BinaryOf(t: Token): Option<BinaryOp> {
    match t
    case PipePipe => Some(Or) case AmpAmp => Some(And)
    case EqEq => Some(BinaryOp.Eq) case Ne => Some(BinaryOp.Ne)
    case Lt => Some(BinaryOp.Lt) case Le => Some(BinaryOp.Le)
    case Gt => Some(BinaryOp.Gt) case Ge => Some(BinaryOp.Ge)
    case Caret => Some(BitXor) case Pipe => Some(BitOr) case Amp => Some(BitAnd)
    case Shl => Some(BinaryOp.Shl) case Shr => Some(BinaryOp.Shr)
    case Plus => Some(Add) case Minus => Some(Sub)
    case Star => Some(Mul) case Slash => Some(Div) case Percent => Some(Mod)
    case _ => None
  }

  function AssignOf(t: Token): Option<AssignOp> {
    match t
    case Eq => Some(Assign)
    case PlusEq => Some(PlusAssign) case MinusEq => Some(MinusAssign)
    case StarEq => Some(StarAssign) case SlashEq => Some(SlashAssign) case PercentEq => Some(PercentAssign)
    case ShrEq => Some(ShrAssign) case ShlEq => Some(ShlAssign)
    case AmpEq => Some(AmpAssign) case PipeEq => Some(PipeAssign) case CaretEq => Some(CaretAssign)
    case _ => None
  }

  function UnaryOf(t: Token): Option<UnaryOp> {
    match t
    case Plus => Some(Positive) case Minus => Some(Negative) case Bang => Some(Not) case Tilde => Some(BitNot)
    case _ => None
  }

  /** Left and right binding power; the right one is larger for a left-associative operator. */
  function LeftPower(op: Infix): nat {
    match op
    case Assignment(_) => 10
    case Binary(b) => BinaryPower(b)
  }

  function RightPower(op: Infix): nat {
    match op
    case Assignment(_) => 10
    case Binary(b) => BinaryPower(b) + 1
  }

  function BinaryPower(op: BinaryOp): nat {
    match op
    case Or => 20
    case And => 30
    case Eq => 40 case Ne => 40 case Lt => 40 case Le => 40 case Gt => 40 case Ge => 40
    case BitXor => 50
    case BitOr => 60
    case BitAnd => 70
    case Shl => 80 case Shr => 80
    case Add => 90 case Sub => 90
    case Mul => 100 case Div => 100 case Mod => 100
  }

  function Combine(op: Infix, lhs: Expr, rhs: Expr): Expr {
    match op
    case Binary(b) => BinaryExpr(b, lhs, rhs)
    case Assignment(a) => AssignExpr(lhs, a, rhs)
  }

  // ----- expressions -----

  /** `parse_expr_bp`: operators whose left power is below `min` are left for the caller. */
  function ParseExpr(s: seq<Token>, i: nat, min: nat): (r: Result<Parsed<Expr>, ParseError>)
    ensures r.Ok? ==> i < r.value.next <= |s|
    decreases |s| - i, 5
  {
    var lhs :- ParseOperand(s, i);
    Climb(s, lhs.next, lhs.tree, min)
  }

  /** The loop of `parse_expr_bp`, from a left operand already parsed. */
  function Climb(s: seq<Token>, j: nat, lhs: Expr, min: nat): (r: Result<Parsed<Expr>, ParseError>)
    requires j <= |s|
    ensures r.Ok? ==> j <= r.value.next <= |s|
    decreases |s| - j, 4
  {
    match InfixOf(Peek(s, j))
    case None => Ok(Parsed(lhs, j))
    case Some(op) =>
      if LeftPower(op) < min then Ok(Parsed(lhs, j))
      else
        var rhs :- ParseExpr(s, j + 1, RightPower(op));
        Climb(s, rhs.next, Combine(op, lhs, rhs.tree), min)
  }

  /** `parse_operand`: prefix operators, a primary with its postfixes, then casts around all of it. */
  function ParseOperand(s: seq<Token>, i: nat): (r: Result<Parsed<Expr>, ParseError>)
    ensures r.Ok? ==> i < r.value.next <= |s|
    decreases |s| - i, 4
  {
    var operand :- ParseUnary(s, i);
    Casts(s, operand.next, operand.tree)
  }

  function ParseUnary(s: seq<Token>, i: nat): (r: Result<Parsed<Expr>, ParseError>)
    ensures r.Ok? ==> i < r.value.next <= |s|
    decreases |s| - i, 3
  {
    match UnaryOf(Peek(s, i))
    case Some(op) =>
      var operand :- ParseUnary(s, i + 1);
      Ok(Parsed(UnaryExpr(op, operand.tree), operand.next))
    case None => ParsePostfix(s, i)
  }

  function Casts(s: seq<Token>, j: nat, e: Expr): (r: Result<Parsed<Expr>, ParseError>)
    requires j <= |s|
    ensures r.Ok? ==> j <= r.value.next <= |s|
    decreases |s| - j
  {
    if Peek(s, j) != As then Ok(Parsed(e, j))
    else
      var ty :- ParseType(s, j + 1);
      Casts(s, ty.next, Cast(e, ty.tree))
  }

  function ParsePostfix(s: seq<Token>, i: nat): (r: Result<Parsed<Expr>, ParseError>)
    ensures r.Ok? ==> i < r.value.next <= |s|
    decreases |s| - i, 2
  {
    var primary :- ParsePrimary(s, i);
    Chain(s, primary.next, primary.tree)
  }

  /** `parse_postfix_chain`. */
  function Chain(s: seq<Token>, j: nat, e: Expr): (r: Result<Parsed<Expr>, ParseError>)
    requires j <= |s|
    ensures r.Ok? ==> j <= r.value.next <= |s|
    decreases |s| - j, 0
  {
    match Peek(s, j)
    case Dot =>
      if !Peek(s, j + 1).Word? then Err(ExpectedIdentifier)
      else Chain(s, j + 2, Member(e, s[j + 1].name))
    case LBracket =>
      var index :- ParseExpr(s, j + 1, 0);
      if Peek(s, index.next) != RBracket then Err(Expected(RBracket))
      else Chain(s, index.next + 1, Index(e, index.tree))
    case LParen =>
      var arguments :- ParseList(s, j + 1, RParen);
      if Peek(s, arguments.next) != RParen then Err(Expected(RParen))
      else Chain(s, arguments.next + 1, Call(e, arguments.tree))
    case LBrace =>
      if !e.Ident? || !PascalCase(e.name) then Ok(Parsed(e, j))
      else
        var fields :- ParseFields(s, j + 1);
        if Peek(s, fields.next) != RBrace then Err(Expected(RBrace))
        else Chain(s, fields.next + 1, StructLit(e.name, fields.tree))
    case _ => Ok(Parsed(e, j))
  }

  /** Expressions between commas; nothing at all when the closing token comes first. */
  function ParseList(s: seq<Token>, j: nat, close: Token): (r: Result<Parsed<seq<Expr>>, ParseError>)
    requires j <= |s|
    ensures r.Ok? ==> j <= r.value.next <= |s|
    decreases |s| - j, 7
  {
    if Peek(s, j) == close then Ok(Parsed([], j)) else ParseSome(s, j)
  }

  function ParseSome(s: seq<Token>, j: nat): (r: Result<Parsed<seq<Expr>>, ParseError>)
    requires j <= |s|
    ensures r.Ok? ==> j < r.value.next <= |s|
    decreases |s| - j, 6
  {
    var head :- ParseExpr(s, j, 0);
    if Peek(s, head.next) != Comma then Ok(Parsed([head.tree], head.next))
    else
      var rest :- ParseSome(s, head.next + 1);
      Ok(Parsed([head.tree] + rest.tree, rest.next))
  }

  function ParseFields(s: seq<Token>, j: nat): (r: Result<Parsed<seq<FieldInit>>, ParseError>)
    requires j <= |s|
    ensures r.Ok? ==> j <= r.value.next <= |s|
    decreases |s| - j, 7
  {
    if Peek(s, j) == RBrace then Ok(Parsed([], j)) else ParseSomeFields(s, j)
  }

  function ParseSomeFields(s: seq<Token>, j: nat): (r: Result<Parsed<seq<FieldInit>>, ParseError>)
    requires j <= |s|
    ensures r.Ok? ==> j < r.value.next <= |s|
    decreases |s| - j, 6
  {
    var head :- ParseField(s, j);
    if Peek(s, head.next) != Comma then Ok(Parsed([head.tree], head.next))
    else
      var rest :- ParseSomeFields(s, head.next + 1);
      Ok(Parsed([head.tree] + rest.tree, rest.next))
  }

  function ParseField(s: seq<Token>, j: nat): (r: Result<Parsed<FieldInit>, ParseError>)
    ensures r.Ok? ==> j < r.value.next <= |s|
    decreases |s| - j, 6, 0
  {
    if !Peek(s, j).Word? then Err(ExpectedIdentifier)
    else if Peek(s, j + 1) != Colon then Err(Expected(Colon))
    else
      var value :- ParseExpr(s, j + 2, 0);
      Ok(Parsed(FieldInit(s[j].name, value.tree), value.next))
  }

  function ParsePairs(s: seq<Token>, j: nat): (r: Result<Parsed<seq<MapEntry>>, ParseError>)
    requires j <= |s|
    ensures r.Ok? ==> j <= r.value.next <= |s|
    decreases |s| - j, 7
  {
    if Peek(s, j) == RBrace then Ok(Parsed([], j)) else ParseSomePairs(s, j)
  }

  function ParseSomePairs(s: seq<Token>, j: nat): (r: Result<Parsed<seq<MapEntry>>, ParseError>)
    requires j <= |s|
    ensures r.Ok? ==> j < r.value.next <= |s|
    decreases |s| - j, 6
  {
    var head :- ParsePair(s, j);
    if Peek(s, head.next) != Comma then Ok(Parsed([head.tree], head.next))
    else
      var rest :- ParseSomePairs(s, head.next + 1);
      Ok(Parsed([head.tree] + rest.tree, rest.next))
  }

  function ParsePair(s: seq<Token>, j: nat): (r: Result<Parsed<MapEntry>, ParseError>)
    ensures r.Ok? ==> j < r.value.next <= |s|
    decreases |s| - j, 6, 0
  {
    var key :- ParseExpr(s, j, 0);
    if Peek(s, key.next) != Colon then Err(Expected(Colon))
    else
      var value :- ParseExpr(s, key.next + 1, 0);
      Ok(Parsed(MapEntry(key.tree, value.tree), value.next))
  }

  /** The type of an array or map literal, when one starts here: a type and then an opening brace. */
  function LiteralType(s: seq<Token>, i: nat): (r: Option<Parsed<Type>>)
    ensures r.Some? ==> i < r.value.next < |s|
  {
    if !StartsType(Peek(s, i)) then None
    else
      match ParseType(s, i)
      case Err(_) => None
      case Ok(ty) =>
        if Peek(s, ty.next) == LBrace && (ty.tree.MapType? || ty.tree.ArrayType?) then Some(ty) else None
  }

  /** `try_parse_type_then_brace_literal`, once the type is known. */
  function ParseTyped(s: seq<Token>, ty: Parsed<Type>): (r: Result<Parsed<Expr>, ParseError>)
    requires ty.next < |s|
    ensures r.Ok? ==> ty.next < r.value.next <= |s|
    decreases |s| - ty.next, 0
  {
    if ty.tree.MapType? then
      var pairs :- ParsePairs(s, ty.next + 1);
      if Peek(s, pairs.next) != RBrace then Err(Expected(RBrace))
      else Ok(Parsed(MapLit(ty.tree, pairs.tree), pairs.next + 1))
    else
      var elements :- ParseList(s, ty.next + 1, RBrace);
      if Peek(s, elements.next) != RBrace then Err(Expected(RBrace))
      else Ok(Parsed(ArrayLit(ty.tree, elements.tree), elements.next + 1))
  }

  function ParsePrimary(s: seq<Token>, i: nat): (r: Result<Parsed<Expr>, ParseError>)
    ensures r.Ok? ==> i < r.value.next <= |s|
    decreases |s| - i, 1
  {
    match LiteralType(s, i)
    case Some(ty) => ParseTyped(s, ty)
    case None => ParseAtom(s, i)
  }

  function ParseAtom(s: seq<Token>, i: nat): (r: Result<Parsed<Expr>, ParseError>)
    ensures r.Ok? ==> i < r.value.next <= |s|
    decreases |s| - i, 0
  {
    match Peek(s, i)
    case NullWord => Ok(Parsed(LiteralExpr(NullLiteral), i + 1))
    case TrueWord => Ok(Parsed(LiteralExpr(BoolLiteral(true)), i + 1))
    case FalseWord => Ok(Parsed(LiteralExpr(BoolLiteral(false)), i + 1))
    case SelfWord => Ok(Parsed(SelfExpr, i + 1))
    case Number(text) => Ok(Parsed(LiteralExpr(IntLiteral(text)), i + 1))
    case Text(data) => Ok(Parsed(LiteralExpr(StringLiteral(data)), i + 1))
    case Bytes(data) => Ok(Parsed(LiteralExpr(BufferLiteral(data)), i + 1))
    case Word(name) => Ok(Parsed(Ident(name), i + 1))
    case LParen =>
      var inner :- ParseExpr(s, i + 1, 0);
      if Peek(s, inner.next) != RParen then Err(Expected(RParen))
      else Ok(Parsed(Paren(inner.tree), inner.next + 1))
    case LBracket => Err(ArrayNeedsType)
    case LBrace => Err(MapNeedsType)
    case _ => Err(UnexpectedToken)
  }
}
