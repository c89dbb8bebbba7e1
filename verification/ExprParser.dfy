/**
 * The parser's methods on its token buffer and cursor (syntax/parser.rs). Each one returns the
 * tree or the error of the parsing function of the same part of the grammar, and on success leaves
 * the cursor right after the tree.
 */
module ExprParser {
  import opened Prelude
  import opened Bytecode
  import opened Ast
  import opened Grammar
  import opened Parser
  import opened ParserComplete
  import opened ParserSound

  function Outcome<T>(r: Result<Parsed<T>, ParseError>): Result<T, ParseError> {
    match r
    case Ok(p) => Ok(p.tree)
    case Err(e) => Err(e)
  }

  // ----- what the loops have done so far -----

  /** Prefix operators around an operand, the first outermost. */
  function Prefixed(ops: seq<UnaryOp>, e: Expr): Expr {
    if ops == [] then e else UnaryExpr(ops[0], Prefixed(ops[1..], e))
  }

  function PrefixedAll(ops: seq<UnaryOp>, r: Result<Parsed<Expr>, ParseError>): Result<Parsed<Expr>, ParseError> {
    match r
    case Ok(p) => Ok(Parsed(Prefixed(ops, p.tree), p.next))
    case Err(e) => Err(e)
  }

  lemma {:induction false} PrefixedMore(ops: seq<UnaryOp>, op: UnaryOp, e: Expr)
    ensures Prefixed(ops + [op], e) == Prefixed(ops, UnaryExpr(op, e))
  {
    if ops != [] {
      assert (ops + [op])[1..] == ops[1..] + [op];
      PrefixedMore(ops[1..], op, e);
    }
  }

  lemma CollectPrefix(s: seq<Token>, i: nat, ops: seq<UnaryOp>, op: UnaryOp)
    requires UnaryOf(Peek(s, i)) == Some(op)
    ensures PrefixedAll(ops, ParseUnary(s, i)) == PrefixedAll(ops + [op], ParseUnary(s, i + 1))
  {
    var r := ParseUnary(s, i + 1);
    if r.Ok? {
      PrefixedMore(ops, op, r.value.tree);
    }
  }

  /** Elements already read, then a list still to be read. */
  function After<T>(done: seq<T>, r: Result<Parsed<seq<T>>, ParseError>): Result<Parsed<seq<T>>, ParseError> {
    match r
    case Ok(p) => Ok(Parsed(done + p.tree, p.next))
    case Err(e) => Err(e)
  }

  lemma AfterMore<T>(done: seq<T>, x: T, r: Result<Parsed<seq<T>>, ParseError>)
    ensures After(done, After([x], r)) == After(done + [x], r)
  {
    if r.Ok? {
      assert done + ([x] + r.value.tree) == (done + [x]) + r.value.tree;
    }
  }

  class Cursor {
    const tokens: seq<Token>
    var index: nat

    constructor (tokens: seq<Token>)
      ensures this.tokens == tokens && index == 0
    {
      this.tokens, index := tokens, 0;
    }

    /** The lexer ends every input with the end-of-file token. */
    predicate Valid()
      reads this
    {
      tokens != [] && tokens[|tokens| - 1] == Eof && index <= |tokens|
    }

    method Current() returns (t: Token)
      requires Valid()
      ensures t == Peek(tokens, index)
    {
      t := if index < |tokens| then tokens[index] else tokens[|tokens| - 1];
    }

    method Bump() returns (t: Token)
      requires Valid()
      modifies this
      ensures Valid() && t == Peek(tokens, old(index))
      ensures index == if old(index) < |tokens| then old(index) + 1 else old(index)
    {
      t := Current();
      if index < |tokens| {
        index := index + 1;
      }
    }

    method Expect(want: Token) returns (r: Result<(), ParseError>)
      requires Valid() && want != Eof
      modifies this
      ensures Valid()
      ensures r == if Peek(tokens, old(index)) == want then Ok(()) else Err(Expected(want))
      ensures index == if r.Ok? then old(index) + 1 else old(index)
    {
      var t := Current();
      if t == want {
        t := Bump();
        return Ok(());
      }
      return Err(Expected(want));
    }

    method EatIdent() returns (r: Result<string, ParseError>)
      requires Valid()
      modifies this
      ensures Valid()
      ensures r == if Peek(tokens, old(index)).Word? then Ok(Peek(tokens, old(index)).name) else Err(ExpectedIdentifier)
      ensures r.Ok? ==> index == old(index) + 1
    {
      var t := Bump();
      return if t.Word? then Ok(t.name) else Err(ExpectedIdentifier);
    }

    // ----- types -----

    method Type() returns (r: Result<Type, ParseError>)
      requires Valid()
      modifies this
      ensures Valid() && r == Outcome(ParseType(tokens, old(index)))
      ensures r.Ok? ==> index == ParseType(tokens, old(index)).value.next
      decreases |tokens| - index, 1
    {
      hide ParseTypeBase, ParseType, TypeSuffix, Peek;
      TypeStarts(tokens, index);
      var base :- TypeBase();
      var ty := Suffixes(base);
      return Ok(ty);
    }

    /** The loop of `parse_type`: every `[]` after the base. */
    method Suffixes(base: Ast.Type) returns (ty: Ast.Type)
      requires Valid()
      modifies this
      ensures Valid() && Parsed(ty, index) == TypeSuffix(tokens, old(index), base)
    {
      hide TypeSuffix, Peek;
      ghost var goal := TypeSuffix(tokens, index, base);
      ty := base;
      while true
        invariant Valid() && TypeSuffix(tokens, index, ty) == goal
        decreases |tokens| - index
      {
        SuffixUnfolds(tokens, index, ty);
        var t := Current();
        if t != LBracket {
          break;
        }
        var empty := index + 1 < |tokens| && tokens[index + 1] == RBracket;
        if !empty {
          break;
        }
        t := Bump();
        t := Bump();
        ty := ArrayType(ty);
      }
    }

    method TypeBase() returns (r: Result<Ast.Type, ParseError>)
      requires Valid()
      modifies this
      ensures Valid() && r == Outcome(ParseTypeBase(tokens, old(index)))
      ensures r.Ok? ==> index == ParseTypeBase(tokens, old(index)).value.next
      decreases |tokens| - index, 0
    {
      hide ParseType;
      var t := Current();
      if t == MapWord {
        r := MapBase();
        return;
      }
      t := Bump();
      match t
      case VoidWord => return Ok(VoidType);
      case BoolWord => return Ok(BoolType);
      case IntWord => return Ok(IntType);
      case StringWord => return Ok(StringType);
      case Hash160Word => return Ok(Hash160Type);
      case Hash256Word => return Ok(Hash256Type);
      case BufferWord => return Ok(BufferType);
      case AnyWord => return Ok(AnyType);
      case Word(name) => return Ok(NamedType(name));
      case _ => return Err(ExpectedType);
    }

    method MapBase() returns (r: Result<Ast.Type, ParseError>)
      requires Valid() && Peek(tokens, index) == MapWord
      modifies this
      ensures Valid() && r == Outcome(ParseTypeBase(tokens, old(index)))
      ensures r.Ok? ==> index == ParseTypeBase(tokens, old(index)).value.next
      decreases |tokens| - index, 0, 0
    {
      hide ParseType, ParseMapValue;
      var _ := Bump();
      var _ :- Expect(LBracket);
      var key :- Type();
      r := MapValue(key);
    }

    method MapValue(key: Ast.Type) returns (r: Result<Ast.Type, ParseError>)
      requires Valid()
      modifies this
      ensures Valid() && r == Outcome(ParseMapValue(tokens, Parsed(key, old(index))))
      ensures r.Ok? ==> index == ParseMapValue(tokens, Parsed(key, old(index))).value.next
      decreases |tokens| - index, 2
    {
      hide ParseType;
      var _ :- Expect(Comma);
      var val :- Type();
      var _ :- Expect(RBracket);
      return Ok(MapType(key, val));
    }

    // ----- expressions -----

    method Expr() returns (r: Result<Ast.Expr, ParseError>)
      requires Valid()
      modifies this
      ensures Valid() && r == Outcome(ParseExpr(tokens, old(index), 0))
      ensures r.Ok? ==> index == ParseExpr(tokens, old(index), 0).value.next
      decreases |tokens| - index, 6
    {
      hide ParseExpr;
      r := ExprBp(0);
    }

    /** `parse_expr_bp`: precedence climbing over the current tokens. */
    method ExprBp(min: nat) returns (r: Result<Ast.Expr, ParseError>)
      requires Valid()
      modifies this
      ensures Valid() && r == Outcome(ParseExpr(tokens, old(index), min))
      ensures r.Ok? ==> index == ParseExpr(tokens, old(index), min).value.next
      decreases |tokens| - index, 5
    {
      hide ParseOperand, ParseExpr, Climb, LeftPower, RightPower, Combine, InfixOf;
      ghost var start := index;
      ExprStarts(tokens, index, min);
      var lhs :- Operand();
      while true
        invariant Valid() && start < index
        invariant Climb(tokens, index, lhs, min) == ParseExpr(tokens, start, min)
        decreases |tokens| - index
      {
        var t := Current();
        var found := InfixOf(t);
        ClimbUnfolds(tokens, index, lhs, min);
        PeekOperator(tokens, index);
        if found.None? {
          break;
        }
        var op := found.value;
        if LeftPower(op) < min {
          break;
        }
        t := Bump();
        var rhs :- ExprBp(RightPower(op));
        lhs := Combine(op, lhs, rhs);
      }
      return Ok(lhs);
    }

    /** `parse_operand`: prefix operators are collected and applied last first. */
    method Operand() returns (r: Result<Ast.Expr, ParseError>)
      requires Valid()
      modifies this
      ensures Valid() && r == Outcome(ParseOperand(tokens, old(index)))
      ensures r.Ok? ==> index == ParseOperand(tokens, old(index)).value.next
      decreases |tokens| - index, 4
    {
      hide ParsePostfix, ParseUnary, Casts, ParseOperand, UnaryOf, ParseType, Prefixed;
      ghost var start := index;
      var unaries: seq<UnaryOp> := [];
      ghost var goal := ParseUnary(tokens, start);
      PrefixedNone(goal);
      while true
        invariant Valid() && start <= index
        invariant PrefixedAll(unaries, ParseUnary(tokens, index)) == goal
        decreases |tokens| - index
      {
        var t := Current();
        if UnaryOf(t).None? {
          break;
        }
        PeekUnary(tokens, index);
        CollectPrefix(tokens, index, unaries, UnaryOf(t).value);
        t := Bump();
        unaries := unaries + [UnaryOf(t).value];
      }
      UnaryIsPostfix(tokens, index);
      OperandUnfolds(tokens, start);
      var primary := Postfix();
      if primary.Err? {
        return Err(primary.error);
      }
      var expr := primary.value;
      expr := ApplyPrefixes(unaries, expr);
      while true
        invariant Valid() && start < index
        invariant Casts(tokens, index, expr) == ParseOperand(tokens, start)
        decreases |tokens| - index
      {
        CastsUnfolds(tokens, index, expr);
        var t := Current();
        if t != As {
          break;
        }
        t := Bump();
        var ty :- Type();
        expr := Cast(expr, ty);
      }
      return Ok(expr);
    }

    method ApplyPrefixes(unaries: seq<UnaryOp>, primary: Ast.Expr) returns (expr: Ast.Expr)
      ensures expr == Prefixed(unaries, primary)
    {
      expr := primary;
      var k: nat := |unaries|;
      while k > 0
        invariant k <= |unaries| && expr == Prefixed(unaries[k..], primary)
      {
        k := k - 1;
        assert unaries[k..][1..] == unaries[k + 1..];
        expr := UnaryExpr(unaries[k], expr);
      }
    }

    /** A primary, then `parse_postfix_chain`. */
    method Postfix() returns (r: Result<Ast.Expr, ParseError>)
      requires Valid()
      modifies this
      ensures Valid() && r == Outcome(ParsePostfix(tokens, old(index)))
      ensures r.Ok? ==> index == ParsePostfix(tokens, old(index)).value.next
      decreases |tokens| - index, 3
    {
      hide ParsePrimary, Chain;
      var expr :- Primary();
      r := PostfixChain(expr);
    }

    method PostfixChain(primary: Ast.Expr) returns (r: Result<Ast.Expr, ParseError>)
      requires Valid()
      modifies this
      ensures Valid() && r == Outcome(Chain(tokens, old(index), primary))
      ensures r.Ok? ==> index == Chain(tokens, old(index), primary).value.next
      decreases |tokens| - index, 2
    {
      hide Chain, ParseExpr, ParseList, ParseFields, PascalCase, Peek, ClosesPostfix, OpensPostfix;
      ghost var start := index;
      var expr := primary;
      while true
        invariant Valid() && start <= index && Chain(tokens, index, expr) == Chain(tokens, start, primary)
        decreases |tokens| - index
      {
        var t := Current();
        match t {
          case Dot => expr :- MemberTail(expr);
          case LBracket => expr :- IndexTail(expr);
          case LParen => expr :- CallTail(expr);
          case LBrace =>
            if !expr.Ident? || !PascalCase(expr.name) {
              ChainStops(tokens, index, expr);
              break;
            }
            expr :- StructTail(expr);
          case _ =>
            ChainStops(tokens, index, expr);
            break;
        }
      }
      return Ok(expr);
    }

    /** One turn of the chain: the rest of the chain around the new base is the rest around the old one. */
    predicate Turned(base: Ast.Expr, start: nat, r: Result<Ast.Expr, ParseError>)
      reads this
      requires start <= |tokens| && Valid()
    {
      match r
      case Err(e) => Chain(tokens, start, base) == Err(e)
      case Ok(longer) => start < index && Chain(tokens, start, base) == Chain(tokens, index, longer)
    }

    method MemberTail(base: Ast.Expr) returns (r: Result<Ast.Expr, ParseError>)
      requires Valid() && Peek(tokens, index) == Dot
      modifies this
      ensures Valid() && Turned(base, old(index), r)
    {
      hide Chain;
      DotUnfolds(tokens, index, base);
      var _ := Bump();
      var field :- EatIdent();
      return Ok(Member(base, field));
    }

    method IndexTail(base: Ast.Expr) returns (r: Result<Ast.Expr, ParseError>)
      requires Valid() && Peek(tokens, index) == LBracket
      modifies this
      ensures Valid() && Turned(base, old(index), r)
      decreases |tokens| - index, 1
    {
      hide Chain, ParseExpr;
      IndexUnfolds(tokens, index, base);
      var _ := Bump();
      var position :- Expr();
      var _ :- Expect(RBracket);
      return Ok(Index(base, position));
    }

    method CallTail(callee: Ast.Expr) returns (r: Result<Ast.Expr, ParseError>)
      requires Valid() && Peek(tokens, index) == LParen
      modifies this
      ensures Valid() && Turned(callee, old(index), r)
      decreases |tokens| - index, 1
    {
      hide Chain, ParseList;
      CallUnfolds(tokens, index, callee);
      var _ := Bump();
      var arguments :- ExprList(RParen);
      var _ :- Expect(RParen);
      return Ok(Call(callee, arguments));
    }

    method StructTail(name: Ast.Expr) returns (r: Result<Ast.Expr, ParseError>)
      requires Valid() && Peek(tokens, index) == LBrace && name.Ident? && PascalCase(name.name)
      modifies this
      ensures Valid() && Turned(name, old(index), r)
      decreases |tokens| - index, 1
    {
      hide Chain, ParseFields;
      StructUnfolds(tokens, index, name);
      var _ := Bump();
      var fields :- StructFieldInits();
      var _ :- Expect(RBrace);
      return Ok(StructLit(name.name, fields));
    }

    /** Expressions between commas, none when the closing token is already here. */
    method ExprList(close: Token) returns (r: Result<seq<Ast.Expr>, ParseError>)
      requires Valid()
      modifies this
      ensures Valid() && r == Outcome(ParseList(tokens, old(index), close))
      ensures r.Ok? ==> index == ParseList(tokens, old(index), close).value.next
      decreases |tokens| - index, 7
    {
      hide ParseExpr, ParseSome, After, Peek;
      var t := Current();
      if t == close {
        return Ok([]);
      }
      ghost var start := index;
      var exprs: seq<Ast.Expr> := [];
      ghost var goal := ParseSome(tokens, start);
      AfterNone(goal);
      while true
        invariant Valid() && start <= index && After(exprs, ParseSome(tokens, index)) == goal
        decreases |tokens| - index
      {
        SomeUnfolds(tokens, index, exprs);
        var e :- Expr();
        exprs := exprs + [e];
        t := Current();
        if t != Comma {
          break;
        }
        t := Bump();
      }
      return Ok(exprs);
    }

    method StructFieldInits() returns (r: Result<seq<FieldInit>, ParseError>)
      requires Valid()
      modifies this
      ensures Valid() && r == Outcome(ParseFields(tokens, old(index)))
      ensures r.Ok? ==> index == ParseFields(tokens, old(index)).value.next
      decreases |tokens| - index, 7
    {
      hide ParseField, ParseSomeFields, After, Peek;
      var t := Current();
      if t == RBrace {
        return Ok([]);
      }
      ghost var start := index;
      var fields: seq<FieldInit> := [];
      ghost var goal := ParseSomeFields(tokens, start);
      AfterNone(goal);
      while true
        invariant Valid() && start <= index
        invariant After(fields, ParseSomeFields(tokens, index)) == goal
        decreases |tokens| - index
      {
        FieldsUnfold(tokens, index, fields);
        var field :- FieldInit();
        fields := fields + [field];
        t := Current();
        if t != Comma {
          break;
        }
        t := Bump();
      }
      return Ok(fields);
    }

    /** One turn of that loop: `name : value`. */
    method FieldInit() returns (r: Result<Ast.FieldInit, ParseError>)
      requires Valid()
      modifies this
      ensures Valid() && r == Outcome(ParseField(tokens, old(index)))
      ensures r.Ok? ==> index == ParseField(tokens, old(index)).value.next
      decreases |tokens| - index, 7, 0
    {
      hide ParseExpr;
      var name :- EatIdent();
      var _ :- Expect(Colon);
      var value :- Expr();
      return Ok(Ast.FieldInit.FieldInit(name, value));
    }

    method MapLiteralContents() returns (r: Result<seq<MapEntry>, ParseError>)
      requires Valid()
      modifies this
      ensures Valid() && r == Outcome(ParsePairs(tokens, old(index)))
      ensures r.Ok? ==> index == ParsePairs(tokens, old(index)).value.next
      decreases |tokens| - index, 7
    {
      hide ParsePair, ParseSomePairs, After, Peek;
      var t := Current();
      if t == RBrace {
        return Ok([]);
      }
      ghost var start := index;
      var pairs: seq<MapEntry> := [];
      ghost var goal := ParseSomePairs(tokens, start);
      AfterNone(goal);
      while true
        invariant Valid() && start <= index
        invariant After(pairs, ParseSomePairs(tokens, index)) == goal
        decreases |tokens| - index
      {
        PairsUnfold(tokens, index, pairs);
        var pair :- Entry();
        pairs := pairs + [pair];
        t := Current();
        if t != Comma {
          break;
        }
        t := Bump();
      }
      return Ok(pairs);
    }

    /** One turn of that loop: `key : value`. */
    method Entry() returns (r: Result<MapEntry, ParseError>)
      requires Valid()
      modifies this
      ensures Valid() && r == Outcome(ParsePair(tokens, old(index)))
      ensures r.Ok? ==> index == ParsePair(tokens, old(index)).value.next
      decreases |tokens| - index, 7, 0
    {
      hide ParseExpr;
      var key :- Expr();
      var _ :- Expect(Colon);
      var value :- Expr();
      return Ok(MapEntry(key, value));
    }

    /** `try_parse_type_then_brace_literal`: the cursor goes back unless a literal's brace follows the type. */
    method TryTypeThenBraceLiteral() returns (r: Result<Option<Ast.Expr>, ParseError>)
      requires Valid()
      modifies this
      ensures Valid()
      ensures LiteralType(tokens, old(index)).None? ==> r == Ok(None) && index == old(index)
      ensures LiteralType(tokens, old(index)).Some? ==>
                var literal := ParseTyped(tokens, LiteralType(tokens, old(index)).value);
                && (literal.Err? ==> r == Err(literal.error))
                && (literal.Ok? ==> r == Ok(Some(literal.value.tree)) && index == literal.value.next)
      decreases |tokens| - index, 1
    {
      hide ParseType, ParseTyped, StartsType;
      var t := Current();
      if !StartsType(t) {
        return Ok(None);
      }
      var checkpoint := index;
      var ty := Type();
      if ty.Err? {
        index := checkpoint;
        return Ok(None);
      }
      t := Current();
      if t != LBrace || (!ty.value.MapType? && !ty.value.ArrayType?) {
        index := checkpoint;
        return Ok(None);
      }
      var literal :- BraceLiteral(ty.value);
      return Ok(Some(literal));
    }

    /** The braces of a literal whose type has been read. */
    method BraceLiteral(ty: Ast.Type) returns (r: Result<Ast.Expr, ParseError>)
      requires Valid() && Peek(tokens, index) == LBrace
      modifies this
      ensures Valid() && r == Outcome(ParseTyped(tokens, Parsed(ty, old(index))))
      ensures r.Ok? ==> index == ParseTyped(tokens, Parsed(ty, old(index))).value.next
      decreases |tokens| - index, 0
    {
      hide ParsePairs, ParseList;
      var t := Bump();
      if ty.MapType? {
        var pairs :- MapLiteralContents();
        var _ :- Expect(RBrace);
        return Ok(MapLit(ty, pairs));
      } else {
        var elements :- ExprList(RBrace);
        var _ :- Expect(RBrace);
        return Ok(ArrayLit(ty, elements));
      }
    }

    method Primary() returns (r: Result<Ast.Expr, ParseError>)
      requires Valid()
      modifies this
      ensures Valid() && r == Outcome(ParsePrimary(tokens, old(index)))
      ensures r.Ok? ==> index == ParsePrimary(tokens, old(index)).value.next
      decreases |tokens| - index, 2
    {
      hide ParseAtom, ParseTyped, LiteralType;
      var literal :- TryTypeThenBraceLiteral();
      if literal.Some? {
        return Ok(literal.value);
      }
      r := Atom();
    }

    method Atom() returns (r: Result<Ast.Expr, ParseError>)
      requires Valid()
      modifies this
      ensures Valid() && r == Outcome(ParseAtom(tokens, old(index)))
      ensures r.Ok? ==> index == ParseAtom(tokens, old(index)).value.next
      decreases |tokens| - index, 1
    {
      hide ParseExpr;
      var t := Bump();
      match t
      case NullWord => return Ok(LiteralExpr(NullLiteral));
      case TrueWord => return Ok(LiteralExpr(BoolLiteral(true)));
      case FalseWord => return Ok(LiteralExpr(BoolLiteral(false)));
      case SelfWord => return Ok(SelfExpr);
      case Number(text) => return Ok(LiteralExpr(IntLiteral(text)));
      case Text(data) => return Ok(LiteralExpr(StringLiteral(data)));
      case Bytes(data) => return Ok(LiteralExpr(BufferLiteral(data)));
      case Word(name) => return Ok(Ident(name));
      case LParen =>
        var inner :- Expr();
        var _ :- Expect(RParen);
        return Ok(Paren(inner));
      case LBracket => return Err(ArrayNeedsType);
      case LBrace => return Err(MapNeedsType);
      case _ => return Err(UnexpectedToken);
    }
  }

  // ----- one unfolding of each specification loop -----

  lemma PrefixedNone(r: Result<Parsed<Expr>, ParseError>)
    ensures PrefixedAll([], r) == r
  {
  }

  lemma AfterNone<T>(r: Result<Parsed<seq<T>>, ParseError>)
    ensures After([], r) == r
  {
    if r.Ok? {
      assert [] + r.value.tree == r.value.tree;
    }
  }

  lemma TypeStarts(s: seq<Token>, i: nat)
    ensures ParseTypeBase(s, i).Err? ==> ParseType(s, i) == Err(ParseTypeBase(s, i).error)
    ensures ParseTypeBase(s, i).Ok? ==>
              var base := ParseTypeBase(s, i).value; ParseType(s, i) == Ok(TypeSuffix(s, base.next, base.tree))
  {
    hide ParseTypeBase, TypeSuffix;
  }

  lemma SuffixUnfolds(s: seq<Token>, j: nat, ty: Type)
    requires j <= |s|
    ensures TypeSuffix(s, j, ty) == if EmptyBrackets(s, j) then TypeSuffix(s, j + 2, ArrayType(ty)) else Parsed(ty, j)
  {
  }

  lemma ExprStarts(s: seq<Token>, i: nat, min: nat)
    ensures ParseOperand(s, i).Err? ==> ParseExpr(s, i, min) == Err(ParseOperand(s, i).error)
    ensures ParseOperand(s, i).Ok? ==>
              var lhs := ParseOperand(s, i).value; ParseExpr(s, i, min) == Climb(s, lhs.next, lhs.tree, min)
  {
    hide ParseOperand, Climb;
  }

  lemma ClimbUnfolds(s: seq<Token>, j: nat, lhs: Expr, min: nat)
    requires j <= |s|
    ensures var found := InfixOf(Peek(s, j));
            if found.None? || LeftPower(found.value) < min then Climb(s, j, lhs, min) == Ok(Parsed(lhs, j))
            else
              var rhs := ParseExpr(s, j + 1, RightPower(found.value));
              if rhs.Err? then Climb(s, j, lhs, min) == Err(rhs.error)
              else Climb(s, j, lhs, min) == Climb(s, rhs.value.next, Combine(found.value, lhs, rhs.value.tree), min)
  {
    hide ParseExpr, InfixOf, LeftPower, RightPower, Combine;
    PeekOperator(s, j);
  }

  lemma UnaryIsPostfix(s: seq<Token>, i: nat)
    requires UnaryOf(Peek(s, i)) == None
    ensures ParseUnary(s, i) == ParsePostfix(s, i)
  {
    hide ParsePostfix;
  }

  lemma OperandUnfolds(s: seq<Token>, i: nat)
    ensures ParseUnary(s, i).Err? ==> ParseOperand(s, i) == Err(ParseUnary(s, i).error)
    ensures ParseUnary(s, i).Ok? ==>
              var e := ParseUnary(s, i).value; ParseOperand(s, i) == Casts(s, e.next, e.tree)
  {
    hide ParseUnary, Casts;
  }

  lemma CastsUnfolds(s: seq<Token>, j: nat, e: Expr)
    requires j <= |s|
    ensures if Peek(s, j) != As then Casts(s, j, e) == Ok(Parsed(e, j))
            else
              var ty := ParseType(s, j + 1);
              if ty.Err? then Casts(s, j, e) == Err(ty.error) else Casts(s, j, e) == Casts(s, ty.value.next, Cast(e, ty.value.tree))
  {
    hide ParseType;
  }

  lemma ChainStops(s: seq<Token>, j: nat, e: Expr)
    requires j <= |s| && Peek(s, j) != Dot && Peek(s, j) != LBracket && Peek(s, j) != LParen
    requires Peek(s, j) == LBrace ==> !e.Ident? || !PascalCase(e.name)
    ensures Chain(s, j, e) == Ok(Parsed(e, j))
  {
    hide ParseExpr, ParseList, ParseFields, PascalCase;
  }

  lemma DotUnfolds(s: seq<Token>, j: nat, e: Expr)
    requires Peek(s, j) == Dot
    ensures j < |s|
    ensures if !Peek(s, j + 1).Word? then Chain(s, j, e) == Err(ExpectedIdentifier)
            else j + 2 <= |s| && Chain(s, j, e) == Chain(s, j + 2, Member(e, Peek(s, j + 1).name))
  {
    hide ParseExpr, ParseList, ParseFields;
  }

  lemma IndexUnfolds(s: seq<Token>, j: nat, e: Expr)
    requires Peek(s, j) == LBracket
    ensures j < |s|
    ensures var index := ParseExpr(s, j + 1, 0);
            if index.Err? then Chain(s, j, e) == Err(index.error)
            else if Peek(s, index.value.next) != RBracket then Chain(s, j, e) == Err(Expected(RBracket))
            else index.value.next < |s| && Chain(s, j, e) == Chain(s, index.value.next + 1, Index(e, index.value.tree))
  {
    hide ParseExpr, ParseList, ParseFields;
  }

  lemma CallUnfolds(s: seq<Token>, j: nat, e: Expr)
    requires Peek(s, j) == LParen
    ensures j < |s|
    ensures var arguments := ParseList(s, j + 1, RParen);
            if arguments.Err? then Chain(s, j, e) == Err(arguments.error)
            else if Peek(s, arguments.value.next) != RParen then Chain(s, j, e) == Err(Expected(RParen))
            else
              && arguments.value.next < |s|
              && Chain(s, j, e) == Chain(s, arguments.value.next + 1, Call(e, arguments.value.tree))
  {
    hide ParseExpr, ParseList, ParseFields;
  }

  lemma StructUnfolds(s: seq<Token>, j: nat, e: Expr)
    requires Peek(s, j) == LBrace && e.Ident? && PascalCase(e.name)
    ensures j < |s|
    ensures var fields := ParseFields(s, j + 1);
            if fields.Err? then Chain(s, j, e) == Err(fields.error)
            else if Peek(s, fields.value.next) != RBrace then Chain(s, j, e) == Err(Expected(RBrace))
            else
              && fields.value.next < |s|
              && Chain(s, j, e) == Chain(s, fields.value.next + 1, StructLit(e.name, fields.value.tree))
  {
    hide ParseExpr, ParseList, ParseFields;
  }

  lemma {:induction false} SomeUnfolds(s: seq<Token>, j: nat, done: seq<Expr>)
    requires j <= |s|
    ensures var head := ParseExpr(s, j, 0);
            var whole := After(done, ParseSome(s, j));
            if head.Err? then whole == Err(head.error)
            else if Peek(s, head.value.next) != Comma then whole == Ok(Parsed(done + [head.value.tree], head.value.next))
            else head.value.next < |s| && whole == After(done + [head.value.tree], ParseSome(s, head.value.next + 1))
  {
    hide ParseExpr;
    var head := ParseExpr(s, j, 0);
    if head.Ok? && Peek(s, head.value.next) == Comma {
      AfterMore(done, head.value.tree, ParseSome(s, head.value.next + 1));
    }
  }

  lemma {:induction false} FieldsUnfold(s: seq<Token>, j: nat, done: seq<FieldInit>)
    requires j <= |s|
    ensures var head := ParseField(s, j);
            var whole := After(done, ParseSomeFields(s, j));
            if head.Err? then whole == Err(head.error)
            else if Peek(s, head.value.next) != Comma then whole == Ok(Parsed(done + [head.value.tree], head.value.next))
            else head.value.next < |s| && whole == After(done + [head.value.tree], ParseSomeFields(s, head.value.next + 1))
  {
    hide ParseField;
    var head := ParseField(s, j);
    if head.Ok? && Peek(s, head.value.next) == Comma {
      AfterMore(done, head.value.tree, ParseSomeFields(s, head.value.next + 1));
    }
  }

  lemma {:induction false} PairsUnfold(s: seq<Token>, j: nat, done: seq<MapEntry>)
    requires j <= |s|
    ensures var head := ParsePair(s, j);
            var whole := After(done, ParseSomePairs(s, j));
            if head.Err? then whole == Err(head.error)
            else if Peek(s, head.value.next) != Comma then whole == Ok(Parsed(done + [head.value.tree], head.value.next))
            else head.value.next < |s| && whole == After(done + [head.value.tree], ParseSomePairs(s, head.value.next + 1))
  {
    hide ParsePair;
    var head := ParsePair(s, j);
    if head.Ok? && Peek(s, head.value.next) == Comma {
      AfterMore(done, head.value.tree, ParseSomePairs(s, head.value.next + 1));
    }
  }
}
