/**
 * Every tree that respects precedence is what the parser makes of its own tokens: reading the
 * tokens of a tree brings each loop of the parser to the point where that tree is its result so far,
 * and the token after it decides whether the loop stops there.
 */
module ParserComplete {
  import opened Prelude
  import opened Bytecode
  import opened Ast
  import opened Grammar
  import opened Parser

  /** `w` stands at position `i` of `s`. */
  predicate Spells(s: seq<Token>, i: nat, w: seq<Token>) { i + |w| <= |s| && s[i..i + |w|] == w }

  lemma SpellsSplit(s: seq<Token>, i: nat, a: seq<Token>, b: seq<Token>)
    ensures Spells(s, i, a + b) <==> Spells(s, i, a) && Spells(s, i + |a|, b)
  {
    if i + |a| + |b| <= |s| {
      var w := s[i..i + |a| + |b|];
      assert w == s[i..i + |a|] + s[i + |a|..i + |a| + |b|];
      assert w[..|a|] == s[i..i + |a|] && w[|a|..] == s[i + |a|..i + |a| + |b|];
    }
  }

  lemma SpellsOne(s: seq<Token>, i: nat, t: Token)
    ensures Spells(s, i, [t]) <==> i < |s| && s[i] == t
  {
  }

  lemma SpellsThree(s: seq<Token>, i: nat, a: seq<Token>, t: Token, b: seq<Token>)
    ensures Spells(s, i, a + [t] + b) <==>
            Spells(s, i, a) && i + |a| < |s| && s[i + |a|] == t && Spells(s, i + |a| + 1, b)
  {
    SpellsSplit(s, i, a + [t], b);
    SpellsSplit(s, i, a, [t]);
    SpellsOne(s, i + |a|, t);
  }

  lemma SpellsEnd(s: seq<Token>, i: nat, a: seq<Token>, t: Token)
    ensures Spells(s, i, a + [t]) <==> Spells(s, i, a) && i + |a| < |s| && s[i + |a|] == t
  {
    SpellsSplit(s, i, a, [t]);
    SpellsOne(s, i + |a|, t);
  }

  lemma SpellsTwo(s: seq<Token>, i: nat, t: Token, u: Token)
    ensures Spells(s, i, [t, u]) <==> i + 1 < |s| && s[i] == t && s[i + 1] == u
  {
    assert [t, u] == [t] + [u];
    SpellsEnd(s, i, [t], u);
    SpellsOne(s, i, t);
  }

  // ----- the power of a level -----

  /** The binding power the parser gives a level of the documented list. */
  function PowerAt(level: nat): nat { if level <= 4 then 10 * level else 10 * (level - 1) }

  /** The numbers in the parser are the documented precedence, with the documented associativity. */
  lemma PowersAreDocumented(op: Infix)
    ensures LeftPower(op) == PowerAt(InfixTightness(op))
    ensures RightPower(op) == LeftPower(op) + if op.Assignment? then 0 else 1
  {
  }

  lemma TokensRoundTrip(op: Infix, u: UnaryOp)
    ensures InfixOf(InfixToken(op)) == Some(op) && UnaryOf(UnaryToken(u)) == Some(u)
  {
  }

  lemma PowerOrder(a: nat, b: nat)
    requires a != 5 && b != 5
    ensures PowerAt(a) < PowerAt(b) <==> a < b
  {
  }

  // ----- where a tree ends -----

  predicate OpensPostfix(t: Token) { t == Dot || t == LBracket || t == LParen }

  /** No postfix follows an atom. */
  predicate ClosesPostfix(s: seq<Token>, j: nat, e: Expr) {
    !OpensPostfix(Peek(s, j)) && (Peek(s, j) == LBrace ==> !(e.Ident? && PascalCase(e.name)))
  }

  predicate ClosesUnary(s: seq<Token>, j: nat, e: Expr) {
    if e.UnaryExpr? then ClosesUnary(s, j, e.operand) else ClosesPostfix(s, j, e)
  }

  predicate ClosesCast(s: seq<Token>, j: nat, e: Expr) {
    if e.Cast? then !EmptyBrackets(s, j) else ClosesUnary(s, j, e)
  }

  /** What follows position `j` cannot belong to the last operand of the tree. */
  predicate Closes(s: seq<Token>, j: nat, e: Expr) {
    match e
    case AssignExpr(_, _, value) => Closes(s, j, value)
    case BinaryExpr(_, _, right) => Closes(s, j, right)
    case _ => Peek(s, j) != As && ClosesCast(s, j, e)
  }

  /** The parser called with `min` stops at `j` after the tree. */
  predicate Ends(s: seq<Token>, j: nat, e: Expr, min: nat) {
    var next := InfixOf(Peek(s, j));
    Closes(s, j, e) && (next.Some? ==> LeftPower(next.value) < min)
  }

  /** The operator at `j`, if there is one, may take the tree as its left operand. */
  predicate Attaches(s: seq<Token>, j: nat, e: Expr) {
    var next := InfixOf(Peek(s, j));
    next.Some? ==> Level(e) > ASSIGNMENT && Level(e) >= InfixTightness(next.value)
  }

  /** A token that neither opens a postfix nor a struct literal. */
  predicate Plain(t: Token) { !OpensPostfix(t) && t != LBrace }

  lemma {:induction false} PlainUnary(s: seq<Token>, j: nat, e: Expr)
    requires Plain(Peek(s, j))
    ensures ClosesUnary(s, j, e) && ClosesCast(s, j, e)
  {
    if e.UnaryExpr? {
      PlainUnary(s, j, e.operand);
    }
  }

  lemma {:induction false} PlainCloses(s: seq<Token>, j: nat, e: Expr)
    requires Plain(Peek(s, j)) && Peek(s, j) != As
    ensures Closes(s, j, e)
  {
    PlainUnary(s, j, e);
    match e
    case AssignExpr(_, _, value) => PlainCloses(s, j, value);
    case BinaryExpr(_, _, right) => PlainCloses(s, j, right);
    case _ =>
  }

  /** A token that ends an expression nested in brackets or in a list. */
  predicate Closer(t: Token) { t == RParen || t == RBracket || t == RBrace || t == Comma || t == Colon }

  lemma CloserEnds(s: seq<Token>, j: nat, e: Expr)
    requires Closer(Peek(s, j))
    ensures Ends(s, j, e, 0)
  {
    hide Closes;
    PlainCloses(s, j, e);
  }

  // ----- how a tree begins -----

  lemma {:induction false} TypeBegins(ty: Type)
    ensures StartsType(TypeYield(ty)[0]) && UnaryOf(TypeYield(ty)[0]) == None
  {
    if ty.ArrayType? {
      TypeBegins(ty.element);
    }
  }

  /** The part of a tree that its first token belongs to, if it is not the tree's own. */
  function Leftmost(e: Expr): Option<Expr> {
    match e
    case AssignExpr(target, _, _) => Some(target)
    case BinaryExpr(_, left, _) => Some(left)
    case Cast(inner, _) => Some(inner)
    case Member(base, _) => Some(base)
    case Index(base, _) => Some(base)
    case Call(callee, _) => Some(callee)
    case _ => None
  }

  lemma LeftmostFirst(e: Expr)
    requires Leftmost(e).Some?
    ensures (e decreases to Leftmost(e).value) && Yield(e)[0] == Yield(Leftmost(e).value)[0]
  {
    hide ListYield, TypeYield;
  }

  lemma LeftmostRespects(e: Expr)
    requires Leftmost(e).Some? && Respects(e)
    ensures Respects(Leftmost(e).value) && (Level(e) >= ATOM ==> Level(Leftmost(e).value) >= ATOM)
  {
    hide Tightness, AllRespect, FieldsRespect, PairsRespect;
  }

  lemma LiteralBegins(lit: Literal)
    ensures !Closer(LiteralToken(lit)) && UnaryOf(LiteralToken(lit)) == None
  {
  }

  lemma TokenBegins(name: string, op: UnaryOp)
    ensures !Closer(Word(name)) && UnaryOf(Word(name)) == None
    ensures !Closer(SelfWord) && UnaryOf(SelfWord) == None
    ensures !Closer(LParen) && UnaryOf(LParen) == None
    ensures !Closer(UnaryToken(op))
  {
  }

  lemma OwnToken(e: Expr)
    requires Leftmost(e).None?
    ensures match e
            case LiteralExpr(lit) => Yield(e)[0] == LiteralToken(lit)
            case Ident(name) => Yield(e)[0] == Word(name)
            case SelfExpr => Yield(e)[0] == SelfWord
            case UnaryExpr(op, _) => Yield(e)[0] == UnaryToken(op) && Level(e) < ATOM
            case StructLit(name, _) => Yield(e)[0] == Word(name)
            case Paren(_) => Yield(e)[0] == LParen
            case MapLit(ty, _) => Yield(e)[0] == TypeYield(ty)[0]
            case ArrayLit(ty, _) => Yield(e)[0] == TypeYield(ty)[0]
            case _ => false
  {
    hide TypeYield, ListYield, FieldsYield, PairsYield, LiteralToken, UnaryToken;
  }

  lemma OwnFirst(e: Expr)
    requires Leftmost(e).None? && Respects(e)
    ensures !Closer(Yield(e)[0]) && (Level(e) >= ATOM ==> UnaryOf(Yield(e)[0]) == None)
  {
    hide Yield, Level, Leftmost, UnaryOf, TypeYield, LiteralToken, UnaryToken;
    OwnToken(e);
    match e
    case LiteralExpr(lit) => LiteralBegins(lit);
    case Ident(name) => TokenBegins(name, Not);
    case SelfExpr => TokenBegins("", Not);
    case UnaryExpr(op, _) => TokenBegins("", op);
    case StructLit(name, _) => TokenBegins(name, Not);
    case Paren(_) => TokenBegins("", Not);
    case MapLit(ty, _) => TypeBegins(ty);
    case ArrayLit(ty, _) => TypeBegins(ty);
    case _ =>
  }

  lemma {:induction false} Begins(e: Expr)
    requires Respects(e)
    ensures !Closer(Yield(e)[0]) && (Level(e) >= ATOM ==> UnaryOf(Yield(e)[0]) == None)
  {
    hide Yield, Respects, Level, Leftmost, UnaryOf;
    if Leftmost(e).Some? {
      LeftmostFirst(e);
      LeftmostRespects(e);
      Begins(Leftmost(e).value);
    } else {
      OwnFirst(e);
    }
  }

  lemma SomeBegins(es: seq<Expr>)
    requires es != [] && AllRespect(es)
    ensures ListYield(es) != [] && !Closer(ListYield(es)[0])
  {
    Begins(es[0]);
  }

  lemma PairsBegin(pairs: seq<MapEntry>)
    requires pairs != [] && PairsRespect(pairs)
    ensures PairsYield(pairs) != [] && !Closer(PairsYield(pairs)[0])
  {
    Begins(pairs[0].key);
  }

  // ----- types -----

  /** A type takes exactly its own tokens, and then the empty brackets that follow. */
  lemma {:induction false} TypeReached(s: seq<Token>, i: nat, ty: Type)
    requires Spells(s, i, TypeYield(ty))
    ensures ParseType(s, i) == Ok(TypeSuffix(s, i + |TypeYield(ty)|, ty))
    decreases ty
  {
    hide ParseType, ParseTypeBase, TypeSuffix, Spells, TypeYield;
    match ty
    case ArrayType(element) =>
      CompoundYields(element, element);
      SpellsSplit(s, i, TypeYield(element), [LBracket, RBracket]);
      TypeReached(s, i, element);
      MoreSuffix(s, i + |TypeYield(element)|, element);
    case MapType(key, val) =>
      CompoundYields(key, val);
      MapPieces(s, i, TypeYield(key), TypeYield(val));
      TypeReached(s, i + 2, key);
      TypeReached(s, i + 3 + |TypeYield(key)|, val);
      MapReachedBy(s, i, key, val);
    case _ =>
      BaseParsed(s, i, ty);
  }

  lemma MapReachedBy(s: seq<Token>, i: nat, key: Type, val: Type)
    requires Spells(s, i, [MapWord, LBracket] + TypeYield(key) + [Comma] + TypeYield(val) + [RBracket])
    requires ParseType(s, i + 2) == Ok(TypeSuffix(s, i + 2 + |TypeYield(key)|, key))
    requires ParseType(s, i + 3 + |TypeYield(key)|) == Ok(TypeSuffix(s, i + 3 + |TypeYield(key)| + |TypeYield(val)|, val))
    ensures ParseType(s, i) == Ok(TypeSuffix(s, i + |TypeYield(MapType(key, val))|, MapType(key, val)))
  {
    hide ParseType, TypeSuffix, Spells, TypeYield;
    var k, v := i + 2 + |TypeYield(key)|, i + 3 + |TypeYield(key)| + |TypeYield(val)|;
    CompoundYields(key, val);
    MapPieces(s, i, TypeYield(key), TypeYield(val));
    NoSuffix(s, k, key);
    NoSuffix(s, v, val);
    MapParsed(s, i, Parsed(key, k), Parsed(val, v));
  }

  lemma CompoundYields(key: Type, val: Type)
    ensures TypeYield(ArrayType(val)) == TypeYield(val) + [LBracket, RBracket]
    ensures TypeYield(MapType(key, val)) == [MapWord, LBracket] + TypeYield(key) + [Comma] + TypeYield(val) + [RBracket]
    ensures |TypeYield(ArrayType(val))| == |TypeYield(val)| + 2
    ensures |TypeYield(MapType(key, val))| == |TypeYield(key)| + |TypeYield(val)| + 4
  {
  }

  lemma MoreSuffix(s: seq<Token>, j: nat, ty: Type)
    requires Spells(s, j, [LBracket, RBracket])
    ensures TypeSuffix(s, j, ty) == TypeSuffix(s, j + 2, ArrayType(ty))
  {
    assert s[j..j + 2][0] == LBracket && s[j..j + 2][1] == RBracket;
  }

  lemma NoSuffix(s: seq<Token>, j: nat, ty: Type)
    requires j <= |s| && !EmptyBrackets(s, j)
    ensures TypeSuffix(s, j, ty) == Parsed(ty, j)
  {
  }

  lemma BaseParsed(s: seq<Token>, i: nat, ty: Type)
    requires !ty.ArrayType? && !ty.MapType? && Spells(s, i, TypeYield(ty))
    ensures |TypeYield(ty)| == 1 && ParseType(s, i) == Ok(TypeSuffix(s, i + 1, ty))
  {
    hide TypeSuffix;
    assert s[i..i + 1][0] == s[i];
  }

  lemma MapPieces(s: seq<Token>, i: nat, key: seq<Token>, val: seq<Token>)
    requires Spells(s, i, [MapWord, LBracket] + key + [Comma] + val + [RBracket])
    ensures var k, v := i + 2 + |key|, i + 3 + |key| + |val|;
            && v < |s| && s[i] == MapWord && s[i + 1] == LBracket && s[k] == Comma && s[v] == RBracket
            && Spells(s, i + 2, key) && Spells(s, k + 1, val)
  {
    hide Spells;
    var head := [MapWord, LBracket] + key;
    SpellsEnd(s, i, head + [Comma] + val, RBracket);
    SpellsThree(s, i, head, Comma, val);
    SpellsSplit(s, i, [MapWord, LBracket], key);
    SpellsTwo(s, i, MapWord, LBracket);
  }

  lemma MapParsed(s: seq<Token>, i: nat, key: Parsed<Type>, val: Parsed<Type>)
    requires Peek(s, i) == MapWord && Peek(s, i + 1) == LBracket && ParseType(s, i + 2) == Ok(key)
    requires Peek(s, key.next) == Comma && ParseType(s, key.next + 1) == Ok(val) && Peek(s, val.next) == RBracket
    ensures val.next < |s|
    ensures ParseType(s, i) == Ok(TypeSuffix(s, val.next + 1, MapType(key.tree, val.tree)))
  {
    hide TypeSuffix;
    assert ParseMapValue(s, key) == Ok(Parsed(MapType(key.tree, val.tree), val.next + 1));
    assert ParseTypeBase(s, i) == ParseMapValue(s, key);
  }

  lemma TypeParsed(s: seq<Token>, i: nat, ty: Type)
    requires Spells(s, i, TypeYield(ty)) && !EmptyBrackets(s, i + |TypeYield(ty)|)
    ensures ParseType(s, i) == Ok(Parsed(ty, i + |TypeYield(ty)|))
  {
    TypeReached(s, i, ty);
  }

  // ----- pieces of a yield -----

  /** `a t b u`, as in `base [ index ]`. */
  lemma Bracketed(s: seq<Token>, i: nat, a: seq<Token>, t: Token, b: seq<Token>, u: Token)
    requires Spells(s, i, a + [t] + b + [u])
    ensures var m := i + |a|;
            var k := m + 1 + |b|;
            && m < k < |s| && s[m] == t && s[k] == u && Spells(s, i, a) && Spells(s, m + 1, b)
            && k + 1 == i + |a + [t] + b + [u]|
  {
    hide Spells;
    SpellsEnd(s, i, a + [t] + b, u);
    SpellsThree(s, i, a, t, b);
  }

  // ----- one step of the parser -----

  lemma PlainPrimary(s: seq<Token>, i: nat, e: Parsed<Expr>)
    requires LiteralType(s, i) == None && ParseAtom(s, i) == Ok(e)
    ensures ParsePostfix(s, i) == Chain(s, e.next, e.tree)
  {
    hide Chain, ParseAtom, LiteralType;
    assert ParsePrimary(s, i) == Ok(e);
  }

  /** A name is not taken for the type of a literal unless empty brackets follow. */
  lemma NoLiteralType(s: seq<Token>, i: nat)
    requires StartsType(Peek(s, i)) ==> Peek(s, i).Word? && !EmptyBrackets(s, i + 1)
    ensures LiteralType(s, i) == None
  {
    if i < |s| && s[i].Word? {
      NoSuffix(s, i + 1, NamedType(s[i].name));
      assert ParseTypeBase(s, i) == Ok(Parsed(NamedType(s[i].name), i + 1));
    }
  }

  lemma AtomStep(s: seq<Token>, i: nat, e: Expr)
    requires e.LiteralExpr? || e.SelfExpr? || e.Ident?
    requires Spells(s, i, Yield(e)) && !EmptyBrackets(s, i + 1)
    ensures |Yield(e)| == 1 && i < |s| && ParsePostfix(s, i) == Chain(s, i + 1, e)
  {
    hide Chain, LiteralType, ParsePostfix;
    assert s[i..i + 1][0] == s[i];
    NoLiteralType(s, i);
    PlainPrimary(s, i, Parsed(e, i + 1));
  }

  lemma ParenStep(s: seq<Token>, i: nat, inner: Parsed<Expr>)
    requires Peek(s, i) == LParen && ParseExpr(s, i + 1, 0) == Ok(inner) && Peek(s, inner.next) == RParen
    ensures inner.next < |s| && ParsePostfix(s, i) == Chain(s, inner.next + 1, Paren(inner.tree))
  {
    hide Chain, ParseExpr, LiteralType, ParsePostfix;
    NoLiteralType(s, i);
    PlainPrimary(s, i, Parsed(Paren(inner.tree), inner.next + 1));
  }

  lemma MemberStep(s: seq<Token>, j: nat, base: Expr, field: string)
    requires Peek(s, j) == Dot && Peek(s, j + 1) == Word(field)
    ensures j + 1 < |s| && Chain(s, j, base) == Chain(s, j + 2, Member(base, field))
  {
    hide ParseExpr, ParseList, ParseFields;
  }

  lemma IndexStep(s: seq<Token>, j: nat, base: Expr, index: Parsed<Expr>)
    requires Peek(s, j) == LBracket && ParseExpr(s, j + 1, 0) == Ok(index) && Peek(s, index.next) == RBracket
    ensures index.next < |s| && Chain(s, j, base) == Chain(s, index.next + 1, Index(base, index.tree))
  {
    hide ParseExpr, ParseList, ParseFields;
  }

  lemma CallStep(s: seq<Token>, j: nat, callee: Expr, arguments: Parsed<seq<Expr>>)
    requires Peek(s, j) == LParen && ParseList(s, j + 1, RParen) == Ok(arguments) && Peek(s, arguments.next) == RParen
    ensures arguments.next < |s| && Chain(s, j, callee) == Chain(s, arguments.next + 1, Call(callee, arguments.tree))
  {
    hide ParseList, ParseExpr, ParseFields;
  }

  lemma StructStep(s: seq<Token>, j: nat, name: string, fields: Parsed<seq<FieldInit>>)
    requires Peek(s, j) == LBrace && PascalCase(name) && ParseFields(s, j + 1) == Ok(fields) && Peek(s, fields.next) == RBrace
    ensures fields.next < |s| && Chain(s, j, Ident(name)) == Chain(s, fields.next + 1, StructLit(name, fields.tree))
  {
    hide ParseFields, ParseExpr, ParseList, PascalCase;
  }

  lemma TypedStep(s: seq<Token>, i: nat, ty: Parsed<Type>)
    requires StartsType(Peek(s, i)) && ParseType(s, i) == Ok(ty) && Peek(s, ty.next) == LBrace
    requires ty.tree.MapType? || ty.tree.ArrayType?
    ensures ty.next < |s| && ParsePrimary(s, i) == ParseTyped(s, ty)
  {
    hide ParseTyped, ParseType;
  }

  lemma MapStep(s: seq<Token>, i: nat, ty: Parsed<Type>, pairs: Parsed<seq<MapEntry>>)
    requires ty.next < |s| && ParsePrimary(s, i) == ParseTyped(s, ty) && ty.tree.MapType?
    requires ParsePairs(s, ty.next + 1) == Ok(pairs) && Peek(s, pairs.next) == RBrace
    ensures pairs.next < |s| && ParsePostfix(s, i) == Chain(s, pairs.next + 1, MapLit(ty.tree, pairs.tree))
  {
    hide *;
    MapTyped(s, ty, pairs);
    PrimaryStep(s, i, Parsed(MapLit(ty.tree, pairs.tree), pairs.next + 1));
  }

  lemma MapTyped(s: seq<Token>, ty: Parsed<Type>, pairs: Parsed<seq<MapEntry>>)
    requires ty.next < |s| && ty.tree.MapType?
    requires ParsePairs(s, ty.next + 1) == Ok(pairs) && Peek(s, pairs.next) == RBrace
    ensures pairs.next < |s| && ParseTyped(s, ty) == Ok(Parsed(MapLit(ty.tree, pairs.tree), pairs.next + 1))
  {
    hide ParsePairs, ParseList;
  }

  lemma PrimaryStep(s: seq<Token>, i: nat, e: Parsed<Expr>)
    requires ParsePrimary(s, i) == Ok(e)
    ensures ParsePostfix(s, i) == Chain(s, e.next, e.tree)
  {
    hide ParsePrimary, Chain;
  }

  lemma ArrayStep(s: seq<Token>, i: nat, ty: Parsed<Type>, elements: Parsed<seq<Expr>>)
    requires ty.next < |s| && ParsePrimary(s, i) == ParseTyped(s, ty) && !ty.tree.MapType?
    requires ParseList(s, ty.next + 1, RBrace) == Ok(elements) && Peek(s, elements.next) == RBrace
    ensures elements.next < |s| && ParsePostfix(s, i) == Chain(s, elements.next + 1, ArrayLit(ty.tree, elements.tree))
  {
    hide *;
    ArrayTyped(s, ty, elements);
    PrimaryStep(s, i, Parsed(ArrayLit(ty.tree, elements.tree), elements.next + 1));
  }

  lemma ArrayTyped(s: seq<Token>, ty: Parsed<Type>, elements: Parsed<seq<Expr>>)
    requires ty.next < |s| && !ty.tree.MapType?
    requires ParseList(s, ty.next + 1, RBrace) == Ok(elements) && Peek(s, elements.next) == RBrace
    ensures elements.next < |s| && ParseTyped(s, ty) == Ok(Parsed(ArrayLit(ty.tree, elements.tree), elements.next + 1))
  {
    hide ParsePairs, ParseList;
  }

  lemma UnaryStep(s: seq<Token>, i: nat, op: UnaryOp, operand: Parsed<Expr>)
    requires Peek(s, i) == UnaryToken(op) && ParseUnary(s, i + 1) == Ok(operand)
    ensures ParseUnary(s, i) == Ok(Parsed(UnaryExpr(op, operand.tree), operand.next))
  {
  }

  lemma NoUnary(s: seq<Token>, i: nat, e: Expr, j: nat)
    requires UnaryOf(Peek(s, i)) == None && j <= |s| && ParsePostfix(s, i) == Chain(s, j, e) && ClosesPostfix(s, j, e)
    ensures ParseUnary(s, i) == Ok(Parsed(e, j))
  {
    hide ParsePostfix, ParseExpr, ParseList, ParseFields;
  }

  lemma CastStep(s: seq<Token>, i: nat, inner: Expr, j: nat, ty: Parsed<Type>)
    requires j <= |s| && ParseOperand(s, i) == Casts(s, j, inner)
    requires Peek(s, j) == As && ParseType(s, j + 1) == Ok(ty)
    ensures ParseOperand(s, i) == Casts(s, ty.next, Cast(inner, ty.tree))
  {
    hide ParseOperand, ParseType;
  }

  lemma OperandStep(s: seq<Token>, i: nat, e: Parsed<Expr>)
    requires ParseUnary(s, i) == Ok(e)
    ensures ParseOperand(s, i) == Casts(s, e.next, e.tree)
  {
    hide ParseUnary, Casts;
  }

  lemma NoCast(s: seq<Token>, i: nat, e: Expr, j: nat, min: nat)
    requires j <= |s| && ParseOperand(s, i) == Casts(s, j, e) && Peek(s, j) != As
    ensures ParseExpr(s, i, min) == Climb(s, j, e, min)
  {
    hide ParseOperand, Climb;
  }

  lemma ClimbStep(s: seq<Token>, j: nat, op: Infix, lhs: Expr, rhs: Parsed<Expr>, min: nat)
    requires Peek(s, j) == InfixToken(op) && LeftPower(op) >= min
    requires ParseExpr(s, j + 1, RightPower(op)) == Ok(rhs)
    ensures j < |s| && rhs.next <= |s| && Climb(s, j, lhs, min) == Climb(s, rhs.next, Combine(op, lhs, rhs.tree), min)
  {
    hide ParseExpr, Combine;
    TokensRoundTrip(op, Positive);
  }

  lemma ClimbEnds(s: seq<Token>, j: nat, e: Expr, min: nat)
    requires j <= |s| && Ends(s, j, e, min)
    ensures Climb(s, j, e, min) == Ok(Parsed(e, j))
  {
    hide ParseExpr, Closes;
  }

  // ----- every tree is reached -----

  lemma {:induction false} MemberReached(s: seq<Token>, i: nat, e: Expr)
    requires e.Member? && Respects(e) && Spells(s, i, Yield(e))
    ensures ParsePostfix(s, i) == Chain(s, i + |Yield(e)|, e)
    decreases e, 0
  {
    hide ParsePostfix, Chain, Spells;
    var b := i + |Yield(e.base)|;
    SpellsSplit(s, i, Yield(e.base), [Dot, Word(e.field)]);
    SpellsTwo(s, b, Dot, Word(e.field));
    PostfixReached(s, i, e.base);
    MemberStep(s, b, e.base, e.field);
  }

  lemma {:induction false} IndexReached(s: seq<Token>, i: nat, e: Expr)
    requires e.Index? && Respects(e) && Spells(s, i, Yield(e))
    ensures ParsePostfix(s, i) == Chain(s, i + |Yield(e)|, e)
    decreases e, 0
  {
    hide ParsePostfix, Chain, ParseExpr, Spells, Yield, Respects, Ends, Closer, InfixOf, Tightness;
    IndexParts(e.base, e.index);
    var b := i + |Yield(e.base)|;
    var k := b + 1 + |Yield(e.index)|;
    Bracketed(s, i, Yield(e.base), LBracket, Yield(e.index), RBracket);
    Begins(e.index);
    SpellsFirst(s, b + 1, Yield(e.index));
    NoEmptyBrackets(s, b);
    PostfixReached(s, i, e.base);
    BracketEnds(s, k, e.index);
    ExprParsed(s, b + 1, e.index, 0);
    IndexStep(s, b, e.base, Parsed(e.index, k));
  }

  lemma IndexParts(base: Expr, index: Expr)
    ensures Yield(Index(base, index)) == Yield(base) + [LBracket] + Yield(index) + [RBracket]
    ensures Respects(Index(base, index)) ==> Respects(base) && Level(base) >= ATOM && Respects(index)
  {
  }

  lemma NoEmptyBrackets(s: seq<Token>, b: nat)
    requires b + 1 < |s| && !Closer(s[b + 1])
    ensures !EmptyBrackets(s, b)
  {
  }

  lemma BracketEnds(s: seq<Token>, k: nat, e: Expr)
    requires k < |s| && (s[k] == RBracket || s[k] == RParen)
    ensures Ends(s, k, e, 0) && PowerAt(Level(e)) >= 0
  {
    hide Ends;
    CloserEnds(s, k, e);
  }

  lemma SpellsFirst(s: seq<Token>, i: nat, w: seq<Token>)
    requires Spells(s, i, w) && w != []
    ensures i < |s| && s[i] == w[0]
  {
    assert s[i..i + |w|][0] == s[i];
  }

  lemma {:induction false} CallReached(s: seq<Token>, i: nat, e: Expr)
    requires e.Call? && Respects(e) && Spells(s, i, Yield(e))
    ensures ParsePostfix(s, i) == Chain(s, i + |Yield(e)|, e)
    decreases e, 0
  {
    hide ParsePostfix, Chain, ParseList, Spells, Yield, ListYield, Respects, AllRespect;
    CallParts(e.callee, e.arguments);
    var b := i + |Yield(e.callee)|;
    var k := b + 1 + |ListYield(e.arguments)|;
    Bracketed(s, i, Yield(e.callee), LParen, ListYield(e.arguments), RParen);
    PostfixReached(s, i, e.callee);
    ListReached(s, b + 1, e.arguments, RParen);
    CallStep(s, b, e.callee, Parsed(e.arguments, k));
  }

  lemma CallParts(callee: Expr, arguments: seq<Expr>)
    ensures Yield(Call(callee, arguments)) == Yield(callee) + [LParen] + ListYield(arguments) + [RParen]
    ensures Respects(Call(callee, arguments)) ==> Respects(callee) && Level(callee) >= ATOM && AllRespect(arguments)
  {
  }

  lemma {:induction false} StructReached(s: seq<Token>, i: nat, e: Expr)
    requires e.StructLit? && Respects(e) && Spells(s, i, Yield(e))
    ensures ParsePostfix(s, i) == Chain(s, i + |Yield(e)|, e)
    decreases e, 0
  {
    hide ParsePostfix, Chain, ParseFields, Spells, FieldsYield, FieldsRespect, PascalCase;
    var k := i + 2 + |FieldsYield(e.fields)|;
    Bracketed(s, i, [Word(e.structName)], LBrace, FieldsYield(e.fields), RBrace);
    AtomStep(s, i, Ident(e.structName));
    FieldsReached(s, i + 2, e.fields);
    StructStep(s, i + 1, e.structName, Parsed(e.fields, k));
  }

  lemma {:induction false} MapReached(s: seq<Token>, i: nat, e: Expr)
    requires e.MapLit? && Respects(e) && Spells(s, i, Yield(e))
    ensures ParsePostfix(s, i) == Chain(s, i + |Yield(e)|, e)
    decreases e, 0
  {
    hide ParsePostfix, Chain, ParsePairs, ParsePrimary, ParseTyped, ParseType, Spells, TypeYield, StartsType;
    var b := i + |TypeYield(e.mapType)|;
    var k := b + 1 + |PairsYield(e.pairs)|;
    Bracketed(s, i, TypeYield(e.mapType), LBrace, PairsYield(e.pairs), RBrace);
    TypeBegins(e.mapType);
    SpellsFirst(s, i, TypeYield(e.mapType));
    TypeParsed(s, i, e.mapType);
    TypedStep(s, i, Parsed(e.mapType, b));
    PairsReached(s, b + 1, e.pairs);
    MapStep(s, i, Parsed(e.mapType, b), Parsed(e.pairs, k));
  }

  lemma {:induction false} ArrayReached(s: seq<Token>, i: nat, e: Expr)
    requires e.ArrayLit? && Respects(e) && Spells(s, i, Yield(e))
    ensures ParsePostfix(s, i) == Chain(s, i + |Yield(e)|, e)
    decreases e, 0
  {
    hide ParsePostfix, Chain, ParseList, ParsePrimary, ParseTyped, ParseType, Spells, TypeYield, StartsType;
    var b := i + |TypeYield(e.arrayType)|;
    var k := b + 1 + |ListYield(e.elements)|;
    Bracketed(s, i, TypeYield(e.arrayType), LBrace, ListYield(e.elements), RBrace);
    TypeBegins(e.arrayType);
    SpellsFirst(s, i, TypeYield(e.arrayType));
    TypeParsed(s, i, e.arrayType);
    TypedStep(s, i, Parsed(e.arrayType, b));
    ListReached(s, b + 1, e.elements, RBrace);
    ArrayStep(s, i, Parsed(e.arrayType, b), Parsed(e.elements, k));
  }

  lemma {:induction false} ParenReached(s: seq<Token>, i: nat, e: Expr)
    requires e.Paren? && Respects(e) && Spells(s, i, Yield(e))
    ensures ParsePostfix(s, i) == Chain(s, i + |Yield(e)|, e)
    decreases e, 0
  {
    hide ParsePostfix, Chain, ParseExpr, Spells, Yield, Respects, Ends, InfixOf, Tightness;
    ParenParts(e.paren);
    var k := i + 1 + |Yield(e.paren)|;
    Bracketed(s, i, [], LParen, Yield(e.paren), RParen);
    BracketEnds(s, k, e.paren);
    ExprParsed(s, i + 1, e.paren, 0);
    ParenStep(s, i, Parsed(e.paren, k));
  }

  lemma ParenParts(inner: Expr)
    ensures Yield(Paren(inner)) == [] + [LParen] + Yield(inner) + [RParen]
    ensures Respects(Paren(inner)) ==> Respects(inner)
  {
    assert [] + [LParen] == [LParen];
  }

  /** An atom with its postfixes is rebuilt step by step, and more postfixes may follow. */
  lemma {:induction false} PostfixReached(s: seq<Token>, i: nat, e: Expr)
    requires Respects(e) && Level(e) >= ATOM && Spells(s, i, Yield(e)) && !EmptyBrackets(s, i + |Yield(e)|)
    ensures ParsePostfix(s, i) == Chain(s, i + |Yield(e)|, e)
    decreases e, 1
  {
    hide ParsePostfix, Chain, Spells, Yield, Respects, EmptyBrackets, Tightness;
    match e
    case Member(_, _) => MemberReached(s, i, e);
    case Index(_, _) => IndexReached(s, i, e);
    case Call(_, _) => CallReached(s, i, e);
    case StructLit(_, _) => StructReached(s, i, e);
    case MapLit(_, _) => MapReached(s, i, e);
    case ArrayLit(_, _) => ArrayReached(s, i, e);
    case Paren(_) => ParenReached(s, i, e);
    case _ => SingleReached(s, i, e);
  }

  lemma SingleReached(s: seq<Token>, i: nat, e: Expr)
    requires e.LiteralExpr? || e.SelfExpr? || e.Ident?
    requires Spells(s, i, Yield(e)) && !EmptyBrackets(s, i + |Yield(e)|)
    ensures ParsePostfix(s, i) == Chain(s, i + |Yield(e)|, e)
  {
    hide ParsePostfix, Chain;
    AtomStep(s, i, e);
  }

  lemma {:induction false} UnaryReached(s: seq<Token>, i: nat, e: Expr)
    requires Respects(e) && Level(e) >= PREFIX && Spells(s, i, Yield(e)) && ClosesUnary(s, i + |Yield(e)|, e)
    ensures ParseUnary(s, i) == Ok(Parsed(e, i + |Yield(e)|))
    decreases e, 2
  {
    hide ParseUnary, ParsePostfix, Chain, Spells, Tightness;
    if e.UnaryExpr? {
      SpellsSplit(s, i, [UnaryToken(e.uop)], Yield(e.operand));
      SpellsOne(s, i, UnaryToken(e.uop));
      UnaryReached(s, i + 1, e.operand);
      UnaryStep(s, i, e.uop, Parsed(e.operand, i + |Yield(e)|));
    } else {
      AtomParsed(s, i, e);
    }
  }

  lemma {:induction false} AtomParsed(s: seq<Token>, i: nat, e: Expr)
    requires Respects(e) && Level(e) >= ATOM && Spells(s, i, Yield(e)) && ClosesPostfix(s, i + |Yield(e)|, e)
    ensures ParseUnary(s, i) == Ok(Parsed(e, i + |Yield(e)|))
    decreases e, 2, 0
  {
    hide ParseUnary, ParsePostfix, Chain, Yield, Respects, Level, UnaryOf;
    Begins(e);
    SpellsFirst(s, i, Yield(e));
    PostfixReached(s, i, e);
    NoUnary(s, i, e, i + |Yield(e)|);
  }

  lemma {:induction false} OperandReached(s: seq<Token>, i: nat, e: Expr)
    requires Respects(e) && Level(e) >= CAST && Spells(s, i, Yield(e)) && ClosesCast(s, i + |Yield(e)|, e)
    ensures ParseOperand(s, i) == Casts(s, i + |Yield(e)|, e)
    decreases e, 3
  {
    hide ParseOperand, Casts, ParseUnary, Spells, TypeYield, ParseType, ClosesUnary, Tightness, Yield, Respects;
    if e.Cast? {
      CastParts(e.inner, e.ty);
      var j := i + |Yield(e.inner)|;
      SpellsThree(s, i, Yield(e.inner), As, TypeYield(e.ty));
      PlainUnary(s, j, e.inner);
      OperandReached(s, i, e.inner);
      TypeParsed(s, j + 1, e.ty);
      CastStep(s, i, e.inner, j, Parsed(e.ty, i + |Yield(e)|));
    } else {
      UnaryReached(s, i, e);
      OperandStep(s, i, Parsed(e, i + |Yield(e)|));
    }
  }

  lemma CastParts(inner: Expr, ty: Type)
    ensures Yield(Cast(inner, ty)) == Yield(inner) + [As] + TypeYield(ty)
    ensures Respects(Cast(inner, ty)) ==> Respects(inner) && Level(inner) >= CAST
  {
  }

  /** The heart of precedence climbing: a tree is complete when the parser's loop stands right after it. */
  lemma {:induction false} ExprReached(s: seq<Token>, i: nat, e: Expr, min: nat)
    requires Respects(e) && PowerAt(Level(e)) >= min && Spells(s, i, Yield(e))
    requires Closes(s, i + |Yield(e)|, e) && Attaches(s, i + |Yield(e)|, e)
    ensures ParseExpr(s, i, min) == Climb(s, i + |Yield(e)|, e, min)
    decreases e, 4
  {
    hide ParseExpr, Climb, ParseOperand, Casts, Spells, ClosesCast, PowerAt, Tightness, Yield, Respects, Attaches;
    match e
    case BinaryExpr(op, left, right) => OperatorReached(s, i, Binary(op), left, right, min);
    case AssignExpr(target, op, value) => OperatorReached(s, i, Assignment(op), target, value, min);
    case _ =>
      var j := i + |Yield(e)|;
      OperandReached(s, i, e);
      SpellsEnds(s, i, Yield(e));
      NoCast(s, i, e, j, min);
  }

  lemma SpellsEnds(s: seq<Token>, i: nat, w: seq<Token>)
    requires Spells(s, i, w)
    ensures i + |w| <= |s|
  {
  }

  /** What the parts of an operator's tree inherit from the whole. */
  lemma Parts(s: seq<Token>, i: nat, op: Infix, left: Expr, right: Expr, min: nat)
    requires var e := Combine(op, left, right);
             Respects(e) && PowerAt(Level(e)) >= min && Spells(s, i, Yield(e))
             && Closes(s, i + |Yield(e)|, e) && Attaches(s, i + |Yield(e)|, e)
    ensures var e := Combine(op, left, right);
            var m, j := i + |Yield(left)|, i + |Yield(e)|;
            && Respects(left) && Respects(right) && Spells(s, i, Yield(left)) && Spells(s, m + 1, Yield(right))
            && m < |s| && s[m] == InfixToken(op) && j == m + 1 + |Yield(right)|
            && PowerAt(Level(left)) >= min && LeftPower(op) >= min && PowerAt(Level(right)) >= RightPower(op)
            && Attaches(s, m, left) && Ends(s, j, right, RightPower(op))
  {
    hide Spells, Tightness, Closes, ClosesCast, PowerAt, Yield, Respects, InfixOf, InfixToken, LeftPower, RightPower, Level;
    OperatorParts(op, left, right);
    var e := Combine(op, left, right);
    var m, j := i + |Yield(left)|, i + |Yield(e)|;
    SpellsThree(s, i, Yield(left), InfixToken(op), Yield(right));
    TokensRoundTrip(op, Positive);
    PowersAreDocumented(op);
    PowerOrder(Level(left), Level(e));
    PowerOrder(Level(e), Level(right));
    PartCloses(s, j, op, left, right);
    var next := InfixOf(Peek(s, j));
    if next.Some? {
      PowersAreDocumented(next.value);
      PowerOrder(Level(e), InfixTightness(next.value));
    }
    if op.Binary? {
      PowerSteps(Level(e), Level(right));
    }
  }

  lemma OperatorParts(op: Infix, left: Expr, right: Expr)
    ensures var e := Combine(op, left, right);
            && Yield(e) == Yield(left) + [InfixToken(op)] + Yield(right)
            && Level(e) == InfixTightness(op) && (op.Assignment? <==> Level(e) == ASSIGNMENT)
            && (Respects(e) <==>
                && Respects(left) && Respects(right)
                && Level(left) >= Level(e) && (op.Assignment? ==> Level(left) > ASSIGNMENT)
                && Level(right) >= Level(e) && (op.Binary? ==> Level(right) > Level(e)))
  {
    hide Yield, Respects, InfixToken, Tightness;
    OperatorYield(op, left, right);
    match op
    case Binary(b) => BinaryRespects(b, left, right);
    case Assignment(a) => AssignRespects(a, left, right);
  }

  lemma BinaryRespects(op: BinaryOp, left: Expr, right: Expr)
    ensures Respects(BinaryExpr(op, left, right)) <==>
            Respects(left) && Respects(right) && Level(left) >= Tightness(op) && Level(right) > Tightness(op)
  {
    hide Tightness, Level;
  }

  lemma AssignRespects(op: AssignOp, target: Expr, value: Expr)
    ensures Respects(AssignExpr(target, op, value)) <==> Respects(target) && Respects(value) && Level(target) > ASSIGNMENT
  {
    hide Tightness, Level;
  }

  lemma OperatorYield(op: Infix, left: Expr, right: Expr)
    ensures Yield(Combine(op, left, right)) == Yield(left) + [InfixToken(op)] + Yield(right)
  {
    hide BinaryToken, AssignToken;
  }

  lemma PowerSteps(a: nat, b: nat)
    requires a != 5 && b != 5 && a < b
    ensures PowerAt(a) + 1 <= PowerAt(b)
  {
  }

  lemma PartCloses(s: seq<Token>, j: nat, op: Infix, left: Expr, right: Expr)
    requires Closes(s, j, Combine(op, left, right))
    ensures Closes(s, j, right)
  {
    hide ClosesCast;
  }

  lemma {:induction false} OperatorReached(s: seq<Token>, i: nat, op: Infix, left: Expr, right: Expr, min: nat)
    requires var e := Combine(op, left, right);
             Respects(e) && PowerAt(Level(e)) >= min && Spells(s, i, Yield(e))
             && Closes(s, i + |Yield(e)|, e) && Attaches(s, i + |Yield(e)|, e)
    ensures var e := Combine(op, left, right);
            ParseExpr(s, i, min) == Climb(s, i + |Yield(e)|, e, min)
    decreases Combine(op, left, right), 0
  {
    hide ParseExpr, Climb, Spells, Closes, Respects, Yield, PowerAt, Tightness, Attaches, Combine, Level, Ends, LeftPower, RightPower, InfixToken;
    PartsAreSmaller(op, left, right);
    var e := Combine(op, left, right);
    var m := i + |Yield(left)|;
    Parts(s, i, op, left, right, min);
    TokenCloses(s, m, op, left);
    ExprReached(s, i, left, min);
    ExprParsed(s, m + 1, right, RightPower(op));
    ClimbStep(s, m, op, left, Parsed(right, i + |Yield(e)|), min);
  }

  lemma PartsAreSmaller(op: Infix, left: Expr, right: Expr)
    ensures (Combine(op, left, right) decreases to left) && (Combine(op, left, right) decreases to right)
  {
  }

  lemma TokenCloses(s: seq<Token>, m: nat, op: Infix, left: Expr)
    requires m < |s| && s[m] == InfixToken(op)
    ensures Closes(s, m, left)
  {
    hide Closes;
    PlainCloses(s, m, left);
  }

  /** Completeness: a tree that respects precedence is parsed back from its own tokens. */
  lemma {:induction false} ExprParsed(s: seq<Token>, i: nat, e: Expr, min: nat)
    requires Respects(e) && PowerAt(Level(e)) >= min && Spells(s, i, Yield(e)) && Ends(s, i + |Yield(e)|, e, min)
    ensures ParseExpr(s, i, min) == Ok(Parsed(e, i + |Yield(e)|))
    decreases e, 5
  {
    hide ParseExpr, Climb, Closes, Respects, Yield, PowerAt, Level, Tightness;
    var j := i + |Yield(e)|;
    EndsAttach(s, j, e, min);
    ExprReached(s, i, e, min);
    ClimbEnds(s, j, e, min);
  }

  lemma EndsAttach(s: seq<Token>, j: nat, e: Expr, min: nat)
    requires PowerAt(Level(e)) >= min && Ends(s, j, e, min)
    ensures Attaches(s, j, e)
  {
    hide Closes, Tightness, InfixOf, Level;
    var next := InfixOf(Peek(s, j));
    if next.Some? {
      PowersAreDocumented(next.value);
      PowerOrder(InfixTightness(next.value), Level(e));
    }
  }

  lemma {:induction false} ListReached(s: seq<Token>, j: nat, es: seq<Expr>, close: Token)
    requires AllRespect(es) && Spells(s, j, ListYield(es)) && Peek(s, j + |ListYield(es)|) == close
    requires close == RParen || close == RBrace
    ensures ParseList(s, j, close) == Ok(Parsed(es, j + |ListYield(es)|))
    decreases es, 7
  {
    hide ParseSome, Spells, Respects, Yield;
    if es != [] {
      SomeBegins(es);
      SpellsFirst(s, j, ListYield(es));
      SomeReached(s, j, es);
    }
  }

  lemma {:induction false} SomeReached(s: seq<Token>, j: nat, es: seq<Expr>)
    requires es != [] && AllRespect(es) && Spells(s, j, ListYield(es))
    requires Closer(Peek(s, j + |ListYield(es)|)) && Peek(s, j + |ListYield(es)|) != Comma
    ensures ParseSome(s, j) == Ok(Parsed(es, j + |ListYield(es)|))
    decreases es, 6
  {
    hide ParseExpr, ParseSome, Spells, Respects, Yield, Ends;
    var k := j + |Yield(es[0])|;
    if |es| == 1 {
      assert [es[0]] == es;
      CloserEnds(s, k, es[0]);
      ExprParsed(s, j, es[0], 0);
      SomeLast(s, j, Parsed(es[0], k));
    } else {
      SpellsThree(s, j, Yield(es[0]), Comma, ListYield(es[1..]));
      CloserEnds(s, k, es[0]);
      ExprParsed(s, j, es[0], 0);
      SomeReached(s, k + 1, es[1..]);
      SomeStep(s, j, Parsed(es[0], k), Parsed(es[1..], j + |ListYield(es)|));
      assert [es[0]] + es[1..] == es;
    }
  }

  lemma SomeLast(s: seq<Token>, j: nat, head: Parsed<Expr>)
    requires j <= |s| && ParseExpr(s, j, 0) == Ok(head) && Peek(s, head.next) != Comma
    ensures ParseSome(s, j) == Ok(Parsed([head.tree], head.next))
  {
    hide ParseExpr;
  }

  lemma SomeStep(s: seq<Token>, j: nat, head: Parsed<Expr>, rest: Parsed<seq<Expr>>)
    requires j <= |s| && ParseExpr(s, j, 0) == Ok(head) && Peek(s, head.next) == Comma
    requires head.next < |s| && ParseSome(s, head.next + 1) == Ok(rest)
    ensures ParseSome(s, j) == Ok(Parsed([head.tree] + rest.tree, rest.next))
  {
    hide ParseExpr;
  }

  lemma {:induction false} FieldsReached(s: seq<Token>, j: nat, fields: seq<FieldInit>)
    requires FieldsRespect(fields) && Spells(s, j, FieldsYield(fields)) && Peek(s, j + |FieldsYield(fields)|) == RBrace
    ensures ParseFields(s, j) == Ok(Parsed(fields, j + |FieldsYield(fields)|))
    decreases fields, 7
  {
    hide ParseSomeFields, Spells, Respects, Yield;
    if fields != [] {
      SpellsFirst(s, j, FieldsYield(fields));
      SomeFieldsReached(s, j, fields);
    }
  }

  lemma {:induction false} SomeFieldsReached(s: seq<Token>, j: nat, fields: seq<FieldInit>)
    requires fields != [] && FieldsRespect(fields) && Spells(s, j, FieldsYield(fields))
    requires Peek(s, j + |FieldsYield(fields)|) == RBrace
    ensures ParseSomeFields(s, j) == Ok(Parsed(fields, j + |FieldsYield(fields)|))
    decreases fields, 6
  {
    hide ParseField, Spells, Respects, FieldYield, FieldsYield;
    FieldsShape(fields);
    var k := j + |FieldYield(fields[0])|;
    if |fields| == 1 {
      assert [fields[0]] == fields;
      FieldReached(s, j, fields[0]);
    } else {
      SpellsThree(s, j, FieldYield(fields[0]), Comma, FieldsYield(fields[1..]));
      FieldReached(s, j, fields[0]);
      SomeFieldsReached(s, k + 1, fields[1..]);
      assert [fields[0]] + fields[1..] == fields;
    }
  }

  lemma FieldsShape(fields: seq<FieldInit>)
    requires fields != []
    ensures FieldsYield(fields) ==
            if |fields| == 1 then FieldYield(fields[0])
            else FieldYield(fields[0]) + [Comma] + FieldsYield(fields[1..])
  {
  }

  lemma {:induction false} FieldReached(s: seq<Token>, j: nat, field: FieldInit)
    requires Respects(field.value) && Spells(s, j, FieldYield(field)) && Closer(Peek(s, j + |FieldYield(field)|))
    ensures ParseField(s, j) == Ok(Parsed(field, j + |FieldYield(field)|))
    decreases field, 6
  {
    hide ParseExpr, Spells, Respects, Yield, Ends, ParseField, Closer;
    SpellsThree(s, j, [Word(field.name)], Colon, Yield(field.value));
    SpellsOne(s, j, Word(field.name));
    CloserEnds(s, j + |FieldYield(field)|, field.value);
    ExprParsed(s, j + 2, field.value, 0);
    FieldStep(s, j, field.name, Parsed(field.value, j + |FieldYield(field)|));
  }

  lemma FieldStep(s: seq<Token>, j: nat, name: string, value: Parsed<Expr>)
    requires Peek(s, j) == Word(name) && Peek(s, j + 1) == Colon && ParseExpr(s, j + 2, 0) == Ok(value)
    ensures ParseField(s, j) == Ok(Parsed(FieldInit(name, value.tree), value.next))
  {
    hide ParseExpr;
  }

  lemma {:induction false} PairsReached(s: seq<Token>, j: nat, pairs: seq<MapEntry>)
    requires PairsRespect(pairs) && Spells(s, j, PairsYield(pairs)) && Peek(s, j + |PairsYield(pairs)|) == RBrace
    ensures ParsePairs(s, j) == Ok(Parsed(pairs, j + |PairsYield(pairs)|))
    decreases pairs, 7
  {
    hide ParseSomePairs, Spells, Respects, Yield;
    if pairs != [] {
      PairsBegin(pairs);
      SpellsFirst(s, j, PairsYield(pairs));
      SomePairsReached(s, j, pairs);
    }
  }

  lemma {:induction false} SomePairsReached(s: seq<Token>, j: nat, pairs: seq<MapEntry>)
    requires pairs != [] && PairsRespect(pairs) && Spells(s, j, PairsYield(pairs))
    requires Peek(s, j + |PairsYield(pairs)|) == RBrace
    ensures ParseSomePairs(s, j) == Ok(Parsed(pairs, j + |PairsYield(pairs)|))
    decreases pairs, 6
  {
    hide ParsePair, Spells, PairRespects, PairYield, PairsYield;
    PairsShape(pairs);
    var k := j + |PairYield(pairs[0])|;
    if |pairs| == 1 {
      assert [pairs[0]] == pairs;
      PairReached(s, j, pairs[0]);
    } else {
      SpellsThree(s, j, PairYield(pairs[0]), Comma, PairsYield(pairs[1..]));
      PairReached(s, j, pairs[0]);
      SomePairsReached(s, k + 1, pairs[1..]);
      assert [pairs[0]] + pairs[1..] == pairs;
    }
  }

  lemma PairsShape(pairs: seq<MapEntry>)
    requires pairs != []
    ensures PairsYield(pairs) ==
            if |pairs| == 1 then PairYield(pairs[0])
            else PairYield(pairs[0]) + [Comma] + PairsYield(pairs[1..])
  {
  }

  lemma {:induction false} PairReached(s: seq<Token>, j: nat, pair: MapEntry)
    requires PairRespects(pair) && Spells(s, j, PairYield(pair)) && Closer(Peek(s, j + |PairYield(pair)|))
    ensures ParsePair(s, j) == Ok(Parsed(pair, j + |PairYield(pair)|))
    decreases pair, 6
  {
    hide ParseExpr, Spells, Respects, Yield, Ends, Level;
    var m := j + |Yield(pair.key)|;
    SpellsThree(s, j, Yield(pair.key), Colon, Yield(pair.value));
    CloserEnds(s, m, pair.key);
    ExprParsed(s, j, pair.key, 0);
    CloserEnds(s, j + |PairYield(pair)|, pair.value);
    ExprParsed(s, m + 1, pair.value, 0);
  }
}
