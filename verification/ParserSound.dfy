/**
 * Whatever the expression parser returns spells the tokens it took and respects precedence, and the
 * next token does not continue it; shown along the recursion of the parser, one construct at a time.
 */
module ParserSound {
  import opened Prelude
  import opened Bytecode
  import opened Ast
  import opened Grammar
  import opened Parser
  import opened ParserComplete

  /** The tree spells exactly the tokens from `i` to its end, and respects precedence. */
  predicate Tree(s: seq<Token>, i: nat, p: Parsed<Expr>) {
    Respects(p.tree) && Spells(s, i, Yield(p.tree)) && p.next == i + |Yield(p.tree)|
  }

  predicate TypeTree(s: seq<Token>, i: nat, p: Parsed<Type>) {
    Spells(s, i, TypeYield(p.tree)) && p.next == i + |TypeYield(p.tree)|
  }

  // ----- types -----

  lemma {:induction false} TypeSound(s: seq<Token>, i: nat)
    requires ParseType(s, i).Ok?
    ensures TypeTree(s, i, ParseType(s, i).value) && !EmptyBrackets(s, ParseType(s, i).value.next)
    decreases |s| - i, 1
  {
    hide ParseTypeBase, TypeSuffix, TypeTree;
    BaseSound(s, i);
    var base := ParseTypeBase(s, i).value;
    SuffixSound(s, i, base.next, base.tree);
  }

  lemma {:induction false} SuffixSound(s: seq<Token>, i: nat, j: nat, ty: Type)
    requires j <= |s| && TypeTree(s, i, Parsed(ty, j))
    ensures TypeTree(s, i, TypeSuffix(s, j, ty)) && !EmptyBrackets(s, TypeSuffix(s, j, ty).next)
    decreases |s| - j
  {
    hide TypeYield, Spells;
    if EmptyBrackets(s, j) {
      SpellsTwo(s, j, LBracket, RBracket);
      SpellsSplit(s, i, TypeYield(ty), [LBracket, RBracket]);
      CompoundYields(ty, ty);
      SuffixSound(s, i, j + 2, ArrayType(ty));
    }
  }

  lemma {:induction false} BaseSound(s: seq<Token>, i: nat)
    requires ParseTypeBase(s, i).Ok?
    ensures TypeTree(s, i, ParseTypeBase(s, i).value)
    decreases |s| - i, 0
  {
    if Peek(s, i) == MapWord {
      MapSound(s, i);
    } else {
      WordSound(s, i);
    }
  }

  lemma WordSound(s: seq<Token>, i: nat)
    requires ParseTypeBase(s, i).Ok? && Peek(s, i) != MapWord
    ensures TypeTree(s, i, ParseTypeBase(s, i).value)
  {
    hide Spells;
    SpellsOne(s, i, s[i]);
  }

  lemma {:induction false} MapSound(s: seq<Token>, i: nat)
    requires ParseTypeBase(s, i).Ok? && Peek(s, i) == MapWord
    ensures TypeTree(s, i, ParseTypeBase(s, i).value)
    decreases |s| - i, 0, 0
  {
    hide Spells, TypeYield, ParseType;
    TypeSound(s, i + 2);
    var key := ParseType(s, i + 2).value;
    TypeSound(s, key.next + 1);
    var val := ParseType(s, key.next + 1).value;
    var head := [MapWord, LBracket] + TypeYield(key.tree);
    SpellsTwo(s, i, MapWord, LBracket);
    SpellsSplit(s, i, [MapWord, LBracket], TypeYield(key.tree));
    SpellsThree(s, i, head, Comma, TypeYield(val.tree));
    SpellsEnd(s, i, head + [Comma] + TypeYield(val.tree), RBracket);
    CompoundYields(key.tree, val.tree);
  }

  // ----- trees from their parts -----

  lemma JoinBracketed(s: seq<Token>, i: nat, a: seq<Token>, t: Token, b: seq<Token>, u: Token)
    requires Spells(s, i, a) && i + |a| < |s| && s[i + |a|] == t && Spells(s, i + |a| + 1, b)
    requires var k := i + |a| + 1 + |b|; k < |s| && s[k] == u
    ensures Spells(s, i, a + [t] + b + [u])
  {
    hide Spells;
    SpellsThree(s, i, a, t, b);
    SpellsEnd(s, i, a + [t] + b, u);
  }

  lemma JoinOperator(s: seq<Token>, i: nat, op: Infix, lhs: Parsed<Expr>, rhs: Parsed<Expr>)
    requires Tree(s, i, lhs) && InfixOf(Peek(s, lhs.next)) == Some(op) && Tree(s, lhs.next + 1, rhs)
    requires Attaches(s, lhs.next, lhs.tree) && PowerAt(Level(rhs.tree)) >= RightPower(op)
    ensures Tree(s, i, Parsed(Combine(op, lhs.tree, rhs.tree), rhs.next))
    ensures Level(Combine(op, lhs.tree, rhs.tree)) == InfixTightness(op)
  {
    hide Respects, Yield, Spells, InfixToken, Tightness, PowerAt, LeftPower, RightPower, InfixOf;
    PeekOperator(s, lhs.next);
    OperatorToken(Peek(s, lhs.next), op);
    OperatorParts(op, lhs.tree, rhs.tree);
    SpellsThree(s, i, Yield(lhs.tree), InfixToken(op), Yield(rhs.tree));
    PowersAreDocumented(op);
    PowerOrder(InfixTightness(op), Level(rhs.tree));
  }

  /** The token of the operator a token stands for is that token. */
  lemma OperatorToken(t: Token, op: Infix)
    requires InfixOf(t) == Some(op)
    ensures t == InfixToken(op)
  {
    hide BinaryOf, AssignOf, BinaryToken, AssignToken;
    if op.Binary? {
      BinaryOperatorToken(t, op.bop);
    } else {
      AssignOperatorToken(t, op.aop);
    }
  }

  lemma BinaryOperatorToken(t: Token, op: BinaryOp)
    requires BinaryOf(t) == Some(op)
    ensures t == BinaryToken(op)
  {
  }

  lemma AssignOperatorToken(t: Token, op: AssignOp)
    requires AssignOf(t) == Some(op)
    ensures t == AssignToken(op)
  {
  }

  lemma PrefixToken(t: Token, op: UnaryOp)
    requires UnaryOf(t) == Some(op)
    ensures t == UnaryToken(op)
  {
  }

  lemma AttachesCombined(s: seq<Token>, k: nat, op: Infix, lhs: Expr, rhs: Expr)
    requires Ends(s, k, rhs, RightPower(op)) && Level(Combine(op, lhs, rhs)) == InfixTightness(op)
    ensures Closes(s, k, Combine(op, lhs, rhs)) && Attaches(s, k, Combine(op, lhs, rhs))
  {
    hide InfixOf, Tightness, Level, LeftPower, RightPower, PowerAt, ClosesCast;
    var next := InfixOf(Peek(s, k));
    PowersAreDocumented(op);
    if next.Some? {
      PowersAreDocumented(next.value);
      PowerOrder(InfixTightness(op), InfixTightness(next.value));
      PowerOrder(InfixTightness(next.value), InfixTightness(op));
      PowerNext(InfixTightness(op), InfixTightness(next.value));
    }
  }

  lemma PowerNext(a: nat, b: nat)
    requires a != 5 && b != 5
    ensures PowerAt(b) < PowerAt(a) + 1 ==> b <= a
  {
  }

  // ----- expressions -----

  /** Soundness: the tree spells the tokens taken, respects precedence, and could not have gone further. */
  lemma {:induction false} ExprSound(s: seq<Token>, i: nat, min: nat)
    requires ParseExpr(s, i, min).Ok? && min <= PowerAt(CAST)
    ensures var p := ParseExpr(s, i, min).value;
            Tree(s, i, p) && PowerAt(Level(p.tree)) >= min && Ends(s, p.next, p.tree, min)
    decreases |s| - i, 5
  {
    hide ParseOperand, Climb, Tree, Ends, Closes;
    OperandSound(s, i);
    var lhs := ParseOperand(s, i).value;
    OperandFits(s, lhs, min);
    ClimbSound(s, i, lhs, min);
  }

  lemma OperandFits(s: seq<Token>, e: Parsed<Expr>, min: nat)
    requires Level(e.tree) >= CAST && Peek(s, e.next) != As && ClosesCast(s, e.next, e.tree) && min <= PowerAt(CAST)
    ensures Closes(s, e.next, e.tree) && Attaches(s, e.next, e.tree) && PowerAt(Level(e.tree)) >= min
  {
    hide Tightness, ClosesCast, InfixOf;
  }

  lemma {:induction false} ClimbSound(s: seq<Token>, i: nat, lhs: Parsed<Expr>, min: nat)
    requires lhs.next <= |s| && Climb(s, lhs.next, lhs.tree, min).Ok? && min <= PowerAt(CAST)
    requires Tree(s, i, lhs) && PowerAt(Level(lhs.tree)) >= min
    requires Closes(s, lhs.next, lhs.tree) && Attaches(s, lhs.next, lhs.tree)
    ensures var p := Climb(s, lhs.next, lhs.tree, min).value;
            Tree(s, i, p) && PowerAt(Level(p.tree)) >= min && Ends(s, p.next, p.tree, min)
    decreases |s| - lhs.next, 4
  {
    hide ParseExpr, Tree, Closes, InfixOf, Attaches, PowerAt, Level, LeftPower, RightPower, Combine, Tightness;
    var found := InfixOf(Peek(s, lhs.next));
    PeekOperator(s, lhs.next);
    if found.Some? && LeftPower(found.value) >= min {
      var op := found.value;
      PowersAreDocumented(op);
      PowersAreSmall(op);
      ExprSound(s, lhs.next + 1, RightPower(op));
      var rhs := ParseExpr(s, lhs.next + 1, RightPower(op)).value;
      JoinOperator(s, i, op, lhs, rhs);
      AttachesCombined(s, rhs.next, op, lhs.tree, rhs.tree);
      ClimbSound(s, i, Parsed(Combine(op, lhs.tree, rhs.tree), rhs.next), min);
    }
  }

  lemma PeekOperator(s: seq<Token>, j: nat)
    ensures InfixOf(Peek(s, j)).Some? ==> j < |s|
  {
  }

  lemma PowersAreSmall(op: Infix)
    ensures RightPower(op) <= PowerAt(CAST)
  {
  }

  lemma {:induction false} OperandSound(s: seq<Token>, i: nat)
    requires ParseOperand(s, i).Ok?
    ensures var p := ParseOperand(s, i).value;
            Tree(s, i, p) && Level(p.tree) >= CAST && Peek(s, p.next) != As && ClosesCast(s, p.next, p.tree)
    decreases |s| - i, 4
  {
    hide ParseUnary, Casts, Tree, Tightness, ClosesUnary;
    UnarySound(s, i);
    CastsSound(s, i, ParseUnary(s, i).value);
  }

  lemma {:induction false} CastsSound(s: seq<Token>, i: nat, e: Parsed<Expr>)
    requires e.next <= |s| && Casts(s, e.next, e.tree).Ok?
    requires Tree(s, i, e) && Level(e.tree) >= CAST && ClosesCast(s, e.next, e.tree)
    ensures var p := Casts(s, e.next, e.tree).value;
            Tree(s, i, p) && Level(p.tree) >= CAST && Peek(s, p.next) != As && ClosesCast(s, p.next, p.tree)
    decreases |s| - e.next
  {
    hide ParseType, ClosesUnary, EmptyBrackets, Respects, Yield, TypeYield, Spells, Tightness;
    if Peek(s, e.next) == As {
      TypeSound(s, e.next + 1);
      var ty := ParseType(s, e.next + 1).value;
      CastParts(e.tree, ty.tree);
      CastRespects(e.tree, ty.tree);
      SpellsThree(s, i, Yield(e.tree), As, TypeYield(ty.tree));
      CastsSound(s, i, Parsed(Cast(e.tree, ty.tree), ty.next));
    }
  }

  lemma CastRespects(inner: Expr, ty: Type)
    requires Respects(inner) && Level(inner) >= CAST
    ensures Respects(Cast(inner, ty))
  {
  }

  lemma {:induction false} UnarySound(s: seq<Token>, i: nat)
    requires ParseUnary(s, i).Ok?
    ensures var p := ParseUnary(s, i).value;
            Tree(s, i, p) && Level(p.tree) >= PREFIX && ClosesUnary(s, p.next, p.tree)
    decreases |s| - i, 3
  {
    hide ParsePostfix, ClosesPostfix, UnaryOf, Tightness, Respects, Yield, Spells;
    var found := UnaryOf(Peek(s, i));
    if found.Some? {
      PrefixToken(Peek(s, i), found.value);
      PeekUnary(s, i);
      UnarySound(s, i + 1);
      var operand := ParseUnary(s, i + 1).value;
      UnaryParts(found.value, operand.tree);
      SpellsOne(s, i, UnaryToken(found.value));
      SpellsSplit(s, i, [UnaryToken(found.value)], Yield(operand.tree));
    } else {
      PostfixSound(s, i);
    }
  }

  lemma PeekUnary(s: seq<Token>, i: nat)
    ensures UnaryOf(Peek(s, i)).Some? ==> i < |s|
  {
  }

  lemma UnaryParts(op: UnaryOp, operand: Expr)
    ensures Yield(UnaryExpr(op, operand)) == [UnaryToken(op)] + Yield(operand)
    ensures Respects(UnaryExpr(op, operand)) <==> Respects(operand) && Level(operand) >= PREFIX
  {
  }

  lemma {:induction false} PostfixSound(s: seq<Token>, i: nat)
    requires ParsePostfix(s, i).Ok?
    ensures var p := ParsePostfix(s, i).value;
            Tree(s, i, p) && Level(p.tree) >= ATOM && ClosesPostfix(s, p.next, p.tree)
    decreases |s| - i, 2
  {
    hide ParsePrimary, Chain, Tree, ClosesPostfix, Tightness;
    PrimarySound(s, i);
    ChainSound(s, i, ParsePrimary(s, i).value);
  }

  /** An atom already read, and one postfix more. */
  predicate Atom(s: seq<Token>, i: nat, e: Parsed<Expr>) { Tree(s, i, e) && Level(e.tree) >= ATOM && e.next <= |s| }

  lemma {:induction false} ChainSound(s: seq<Token>, i: nat, e: Parsed<Expr>)
    requires Atom(s, i, e) && Chain(s, e.next, e.tree).Ok?
    ensures var p := Chain(s, e.next, e.tree).value;
            Tree(s, i, p) && Level(p.tree) >= ATOM && ClosesPostfix(s, p.next, p.tree)
    decreases |s| - e.next, 1
  {
    hide Chain, Atom, Tree, ParseExpr, ParseList, ParseFields, Tightness;
    match Peek(s, e.next)
    case Dot => MemberSound(s, i, e);
    case LBracket => IndexSound(s, i, e);
    case LParen => CallSound(s, i, e);
    case LBrace =>
      if e.tree.Ident? && PascalCase(e.tree.name) {
        StructSound(s, i, e);
      } else {
        ChainDone(s, i, e);
      }
    case _ => ChainDone(s, i, e);
  }

  lemma ChainDone(s: seq<Token>, i: nat, e: Parsed<Expr>)
    requires Atom(s, i, e) && ClosesPostfix(s, e.next, e.tree)
    ensures Chain(s, e.next, e.tree) == Ok(e) && Tree(s, i, e) && Level(e.tree) >= ATOM
  {
    hide ParseExpr, ParseList, ParseFields;
  }

  lemma {:induction false} MemberSound(s: seq<Token>, i: nat, e: Parsed<Expr>)
    requires Atom(s, i, e) && Chain(s, e.next, e.tree).Ok? && Peek(s, e.next) == Dot
    ensures var p := Chain(s, e.next, e.tree).value;
            Tree(s, i, p) && Level(p.tree) >= ATOM && ClosesPostfix(s, p.next, p.tree)
    decreases |s| - e.next, 0
  {
    hide Tree, ClosesPostfix, ParseExpr, ParseList, ParseFields, Tightness;
    var name := Peek(s, e.next + 1).name;
    MemberStep(s, e.next, e.tree, name);
    JoinMember(s, i, e, name);
    ChainSound(s, i, Parsed(Member(e.tree, name), e.next + 2));
  }

  lemma JoinMember(s: seq<Token>, i: nat, e: Parsed<Expr>, name: string)
    requires Atom(s, i, e) && Peek(s, e.next) == Dot && Peek(s, e.next + 1) == Word(name)
    ensures Atom(s, i, Parsed(Member(e.tree, name), e.next + 2))
  {
    hide Spells;
    SpellsTwo(s, e.next, Dot, Word(name));
    SpellsSplit(s, i, Yield(e.tree), [Dot, Word(name)]);
  }

  lemma {:induction false} IndexSound(s: seq<Token>, i: nat, e: Parsed<Expr>)
    requires Atom(s, i, e) && Chain(s, e.next, e.tree).Ok? && Peek(s, e.next) == LBracket
    ensures var p := Chain(s, e.next, e.tree).value;
            Tree(s, i, p) && Level(p.tree) >= ATOM && ClosesPostfix(s, p.next, p.tree)
    decreases |s| - e.next, 0
  {
    hide Tree, Atom, ClosesPostfix, ParseExpr, ParseList, ParseFields, Tightness, Ends;
    AtomFits(s, i, e);
    var index := ParseExpr(s, e.next + 1, 0).value;
    ExprSound(s, e.next + 1, 0);
    IndexStep(s, e.next, e.tree, index);
    JoinIndex(s, i, e, index);
    ChainSound(s, i, Parsed(Index(e.tree, index.tree), index.next + 1));
  }

  lemma AtomFits(s: seq<Token>, i: nat, e: Parsed<Expr>)
    requires Atom(s, i, e)
    ensures e.next <= |s|
  {
  }

  lemma JoinIndex(s: seq<Token>, i: nat, e: Parsed<Expr>, index: Parsed<Expr>)
    requires Atom(s, i, e) && Peek(s, e.next) == LBracket && Tree(s, e.next + 1, index) && Peek(s, index.next) == RBracket
    ensures Atom(s, i, Parsed(Index(e.tree, index.tree), index.next + 1))
  {
    hide Spells, Respects, Yield, Tightness;
    JoinBracketed(s, i, Yield(e.tree), LBracket, Yield(index.tree), RBracket);
    IndexParts(e.tree, index.tree);
    IndexRespects(e.tree, index.tree);
  }

  lemma IndexRespects(base: Expr, index: Expr)
    requires Respects(base) && Level(base) >= ATOM && Respects(index)
    ensures Respects(Index(base, index))
  {
  }

  lemma {:induction false} CallSound(s: seq<Token>, i: nat, e: Parsed<Expr>)
    requires Atom(s, i, e) && Chain(s, e.next, e.tree).Ok? && Peek(s, e.next) == LParen
    ensures var p := Chain(s, e.next, e.tree).value;
            Tree(s, i, p) && Level(p.tree) >= ATOM && ClosesPostfix(s, p.next, p.tree)
    decreases |s| - e.next, 0
  {
    hide Tree, Atom, ClosesPostfix, ParseExpr, ParseList, ParseFields, Tightness;
    AtomFits(s, i, e);
    var arguments := ParseList(s, e.next + 1, RParen).value;
    ListSound(s, e.next + 1, RParen);
    CallStep(s, e.next, e.tree, arguments);
    JoinCall(s, i, e, arguments);
    ChainSound(s, i, Parsed(Call(e.tree, arguments.tree), arguments.next + 1));
  }

  /** A list spells its tokens, commas included. */
  predicate Trees(s: seq<Token>, j: nat, p: Parsed<seq<Expr>>) {
    AllRespect(p.tree) && Spells(s, j, ListYield(p.tree)) && p.next == j + |ListYield(p.tree)|
  }

  lemma JoinCall(s: seq<Token>, i: nat, e: Parsed<Expr>, arguments: Parsed<seq<Expr>>)
    requires Atom(s, i, e) && Peek(s, e.next) == LParen
    requires Trees(s, e.next + 1, arguments) && Peek(s, arguments.next) == RParen
    ensures Atom(s, i, Parsed(Call(e.tree, arguments.tree), arguments.next + 1))
  {
    hide Spells, Respects, Yield, Tightness, AllRespect, ListYield;
    JoinBracketed(s, i, Yield(e.tree), LParen, ListYield(arguments.tree), RParen);
    CallParts(e.tree, arguments.tree);
    CallRespects(e.tree, arguments.tree);
  }

  lemma CallRespects(callee: Expr, arguments: seq<Expr>)
    requires Respects(callee) && Level(callee) >= ATOM && AllRespect(arguments)
    ensures Respects(Call(callee, arguments))
  {
  }

  lemma {:induction false} StructSound(s: seq<Token>, i: nat, e: Parsed<Expr>)
    requires Atom(s, i, e) && Chain(s, e.next, e.tree).Ok?
    requires Peek(s, e.next) == LBrace && e.tree.Ident? && PascalCase(e.tree.name)
    ensures var p := Chain(s, e.next, e.tree).value;
            Tree(s, i, p) && Level(p.tree) >= ATOM && ClosesPostfix(s, p.next, p.tree)
    decreases |s| - e.next, 0
  {
    hide Tree, Atom, ClosesPostfix, ParseExpr, ParseList, ParseFields, Tightness;
    AtomFits(s, i, e);
    var fields := ParseFields(s, e.next + 1).value;
    FieldsSound(s, e.next + 1);
    StructStep(s, e.next, e.tree.name, fields);
    JoinStruct(s, i, e, fields);
    ChainSound(s, i, Parsed(StructLit(e.tree.name, fields.tree), fields.next + 1));
  }

  predicate FieldTrees(s: seq<Token>, j: nat, p: Parsed<seq<FieldInit>>) {
    FieldsRespect(p.tree) && Spells(s, j, FieldsYield(p.tree)) && p.next == j + |FieldsYield(p.tree)|
  }

  lemma JoinStruct(s: seq<Token>, i: nat, e: Parsed<Expr>, fields: Parsed<seq<FieldInit>>)
    requires Atom(s, i, e) && Peek(s, e.next) == LBrace && e.tree.Ident? && PascalCase(e.tree.name)
    requires FieldTrees(s, e.next + 1, fields) && Peek(s, fields.next) == RBrace
    ensures Atom(s, i, Parsed(StructLit(e.tree.name, fields.tree), fields.next + 1))
  {
    hide Spells, FieldsRespect, FieldsYield;
    JoinBracketed(s, i, [Word(e.tree.name)], LBrace, FieldsYield(fields.tree), RBrace);
  }

  lemma {:induction false} PrimarySound(s: seq<Token>, i: nat)
    requires ParsePrimary(s, i).Ok?
    ensures Atom(s, i, ParsePrimary(s, i).value)
    decreases |s| - i, 1
  {
    hide ParseAtom, ParseTyped, LiteralType, Atom;
    if LiteralType(s, i).Some? {
      TypedSound(s, i);
    } else {
      AtomSound(s, i);
    }
  }

  lemma {:induction false} TypedSound(s: seq<Token>, i: nat)
    requires LiteralType(s, i).Some? && ParseTyped(s, LiteralType(s, i).value).Ok?
    ensures Atom(s, i, ParseTyped(s, LiteralType(s, i).value).value)
    decreases |s| - i, 0
  {
    hide ParseType, ParsePairs, ParseList, Atom, StartsType, TypeTree, Trees, PairTrees;
    TypeSound(s, i);
    var ty := LiteralType(s, i).value;
    if ty.tree.MapType? {
      PairsSound(s, ty.next + 1);
      JoinMap(s, i, ty, ParsePairs(s, ty.next + 1).value);
    } else {
      ListSound(s, ty.next + 1, RBrace);
      JoinArray(s, i, ty, ParseList(s, ty.next + 1, RBrace).value);
    }
  }

  predicate PairTrees(s: seq<Token>, j: nat, p: Parsed<seq<MapEntry>>) {
    PairsRespect(p.tree) && Spells(s, j, PairsYield(p.tree)) && p.next == j + |PairsYield(p.tree)|
  }

  lemma JoinMap(s: seq<Token>, i: nat, ty: Parsed<Type>, pairs: Parsed<seq<MapEntry>>)
    requires TypeTree(s, i, ty) && Peek(s, ty.next) == LBrace && ty.tree.MapType?
    requires PairTrees(s, ty.next + 1, pairs) && Peek(s, pairs.next) == RBrace
    ensures Atom(s, i, Parsed(MapLit(ty.tree, pairs.tree), pairs.next + 1))
  {
    hide Spells, PairsRespect, PairsYield, TypeYield;
    JoinBracketed(s, i, TypeYield(ty.tree), LBrace, PairsYield(pairs.tree), RBrace);
  }

  lemma JoinArray(s: seq<Token>, i: nat, ty: Parsed<Type>, elements: Parsed<seq<Expr>>)
    requires TypeTree(s, i, ty) && Peek(s, ty.next) == LBrace && ty.tree.ArrayType?
    requires Trees(s, ty.next + 1, elements) && Peek(s, elements.next) == RBrace
    ensures Atom(s, i, Parsed(ArrayLit(ty.tree, elements.tree), elements.next + 1))
  {
    hide Spells, AllRespect, ListYield, TypeYield;
    JoinBracketed(s, i, TypeYield(ty.tree), LBrace, ListYield(elements.tree), RBrace);
  }

  lemma {:induction false} AtomSound(s: seq<Token>, i: nat)
    requires ParseAtom(s, i).Ok?
    ensures Atom(s, i, ParseAtom(s, i).value)
    decreases |s| - i, 0
  {
    if Peek(s, i) == LParen {
      hide ParseExpr, Atom, Ends, Tree;
      ExprSound(s, i + 1, 0);
      JoinParen(s, i, ParseExpr(s, i + 1, 0).value);
    } else {
      SimpleSound(s, i);
    }
  }

  lemma SimpleSound(s: seq<Token>, i: nat)
    requires ParseAtom(s, i).Ok? && Peek(s, i) != LParen
    ensures Atom(s, i, ParseAtom(s, i).value)
  {
    hide Spells;
    SpellsOne(s, i, s[i]);
  }

  lemma JoinParen(s: seq<Token>, i: nat, inner: Parsed<Expr>)
    requires Peek(s, i) == LParen && Tree(s, i + 1, inner) && Peek(s, inner.next) == RParen
    ensures Atom(s, i, Parsed(Paren(inner.tree), inner.next + 1))
  {
    hide Spells, Respects, Yield, Tightness;
    SpellsNothing(s, i);
    JoinBracketed(s, i, [], LParen, Yield(inner.tree), RParen);
    ParenParts(inner.tree);
    ParenRespects(inner.tree);
  }

  lemma SpellsNothing(s: seq<Token>, i: nat)
    ensures i <= |s| ==> Spells(s, i, [])
  {
  }

  lemma ParenRespects(inner: Expr)
    requires Respects(inner)
    ensures Respects(Paren(inner))
  {
  }

  // ----- lists -----

  lemma {:induction false} ListSound(s: seq<Token>, j: nat, close: Token)
    requires j <= |s| && ParseList(s, j, close).Ok?
    ensures Trees(s, j, ParseList(s, j, close).value)
    decreases |s| - j, 7
  {
    hide ParseSome, Spells;
    if Peek(s, j) == close {
      SpellsNothing(s, j);
    } else {
      SomeSound(s, j);
    }
  }

  lemma {:induction false} SomeSound(s: seq<Token>, j: nat)
    requires j <= |s| && ParseSome(s, j).Ok?
    ensures Trees(s, j, ParseSome(s, j).value)
    decreases |s| - j, 6
  {
    hide ParseExpr, Spells, Yield, Respects, Ends, ListYield, AllRespect;
    ExprSound(s, j, 0);
    var head := ParseExpr(s, j, 0).value;
    if Peek(s, head.next) == Comma {
      SomeSound(s, head.next + 1);
      var rest := ParseSome(s, head.next + 1).value;
      SomeSize(s, head.next + 1);
      SpellsThree(s, j, Yield(head.tree), Comma, ListYield(rest.tree));
      ListCons(head.tree, rest.tree);
    } else {
      ListOne(head.tree);
    }
  }

  lemma SomeSize(s: seq<Token>, j: nat)
    requires j <= |s| && ParseSome(s, j).Ok?
    ensures ParseSome(s, j).value.tree != []
  {
    hide ParseExpr;
  }

  lemma ListOne(head: Expr)
    ensures ListYield([head]) == Yield(head) && (AllRespect([head]) <==> Respects(head))
  {
    hide Yield, Respects;
  }

  lemma ListCons(head: Expr, rest: seq<Expr>)
    requires rest != []
    ensures ListYield([head] + rest) == Yield(head) + [Comma] + ListYield(rest)
    ensures AllRespect([head] + rest) <==> Respects(head) && AllRespect(rest)
  {
    hide Yield, Respects;
    assert ([head] + rest)[1..] == rest;
  }

  lemma {:induction false} FieldsSound(s: seq<Token>, j: nat)
    requires j <= |s| && ParseFields(s, j).Ok?
    ensures FieldTrees(s, j, ParseFields(s, j).value)
    decreases |s| - j, 7
  {
    hide ParseSomeFields, Spells;
    if Peek(s, j) == RBrace {
      SpellsNothing(s, j);
    } else {
      SomeFieldsSound(s, j);
    }
  }

  lemma {:induction false} SomeFieldsSound(s: seq<Token>, j: nat)
    requires j <= |s| && ParseSomeFields(s, j).Ok?
    ensures FieldTrees(s, j, ParseSomeFields(s, j).value)
    decreases |s| - j, 6
  {
    hide ParseField, Spells, FieldYield, Respects, FieldsYield, FieldsRespect;
    FieldSound(s, j);
    var head := ParseField(s, j).value;
    if Peek(s, head.next) == Comma {
      SomeFieldsSound(s, head.next + 1);
      var rest := ParseSomeFields(s, head.next + 1).value;
      SomeFieldsSize(s, head.next + 1);
      SpellsThree(s, j, FieldYield(head.tree), Comma, FieldsYield(rest.tree));
      FieldsCons(head.tree, rest.tree);
    } else {
      FieldsOne(head.tree);
    }
  }

  lemma {:induction false} FieldSound(s: seq<Token>, j: nat)
    requires j <= |s| && ParseField(s, j).Ok?
    ensures var p := ParseField(s, j).value;
            Respects(p.tree.value) && Spells(s, j, FieldYield(p.tree)) && p.next == j + |FieldYield(p.tree)|
    decreases |s| - j, 6, 0
  {
    hide ParseExpr, Spells, Yield, Respects, Ends;
    ExprSound(s, j + 2, 0);
    SpellsOne(s, j, s[j]);
    SpellsThree(s, j, [s[j]], Colon, Yield(ParseExpr(s, j + 2, 0).value.tree));
  }

  lemma SomeFieldsSize(s: seq<Token>, j: nat)
    requires j <= |s| && ParseSomeFields(s, j).Ok?
    ensures ParseSomeFields(s, j).value.tree != []
  {
    hide ParseExpr;
  }

  lemma FieldsOne(head: FieldInit)
    ensures FieldsYield([head]) == FieldYield(head) && (FieldsRespect([head]) <==> Respects(head.value))
  {
    hide Yield, Respects, FieldYield;
  }

  lemma FieldsCons(head: FieldInit, rest: seq<FieldInit>)
    requires rest != []
    ensures FieldsYield([head] + rest) == FieldYield(head) + [Comma] + FieldsYield(rest)
    ensures FieldsRespect([head] + rest) <==> Respects(head.value) && FieldsRespect(rest)
  {
    hide Yield, Respects, FieldYield;
    assert ([head] + rest)[1..] == rest;
  }

  lemma {:induction false} PairsSound(s: seq<Token>, j: nat)
    requires j <= |s| && ParsePairs(s, j).Ok?
    ensures PairTrees(s, j, ParsePairs(s, j).value)
    decreases |s| - j, 7
  {
    hide ParseSomePairs, Spells;
    if Peek(s, j) == RBrace {
      SpellsNothing(s, j);
    } else {
      SomePairsSound(s, j);
    }
  }

  lemma {:induction false} SomePairsSound(s: seq<Token>, j: nat)
    requires j <= |s| && ParseSomePairs(s, j).Ok?
    ensures PairTrees(s, j, ParseSomePairs(s, j).value)
    decreases |s| - j, 6
  {
    hide ParsePair, Spells, PairYield, PairRespects, PairsYield, PairsRespect;
    PairSound(s, j);
    var head := ParsePair(s, j).value;
    if Peek(s, head.next) == Comma {
      SomePairsSound(s, head.next + 1);
      var rest := ParseSomePairs(s, head.next + 1).value;
      SomePairsSize(s, head.next + 1);
      SpellsThree(s, j, PairYield(head.tree), Comma, PairsYield(rest.tree));
      PairsCons(head.tree, rest.tree);
    } else {
      PairsOne(head.tree);
    }
  }

  lemma {:induction false} PairSound(s: seq<Token>, j: nat)
    requires j <= |s| && ParsePair(s, j).Ok?
    ensures var p := ParsePair(s, j).value;
            PairRespects(p.tree) && Spells(s, j, PairYield(p.tree)) && p.next == j + |PairYield(p.tree)|
    decreases |s| - j, 6, 0
  {
    hide ParseExpr, Spells, Yield, Respects, Ends;
    ExprSound(s, j, 0);
    var key := ParseExpr(s, j, 0).value;
    ExprSound(s, key.next + 1, 0);
    var value := ParseExpr(s, key.next + 1, 0).value;
    SpellsThree(s, j, Yield(key.tree), Colon, Yield(value.tree));
  }

  lemma SomePairsSize(s: seq<Token>, j: nat)
    requires j <= |s| && ParseSomePairs(s, j).Ok?
    ensures ParseSomePairs(s, j).value.tree != []
  {
    hide ParseExpr;
  }

  lemma PairsOne(head: MapEntry)
    ensures PairsYield([head]) == PairYield(head) && (PairsRespect([head]) <==> PairRespects(head))
  {
    hide Yield, Respects, PairYield, PairRespects;
  }

  lemma PairsCons(head: MapEntry, rest: seq<MapEntry>)
    requires rest != []
    ensures PairsYield([head] + rest) == PairYield(head) + [Comma] + PairsYield(rest)
    ensures PairsRespect([head] + rest) <==> PairRespects(head) && PairsRespect(rest)
  {
    hide Yield, Respects, PairYield, PairRespects;
    assert ([head] + rest)[1..] == rest;
  }
}
