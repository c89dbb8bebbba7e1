/**
 * The documented operator table puts `~` on a line of its own between `^` and the comparisons; the
 * parser reads it as one of the prefix operators. When the two readings agree, and when not.
 */
module TildeLevel {
  import opened Prelude
  import opened Bytecode
  import opened Ast
  import opened Grammar
  import opened Parser
  import opened ParserExact

  /** The place of `~` in the documented table: looser than `^`, tighter than the comparisons. */
  const TILDE := 5

  predicate IsTilde(e: Expr) { e.UnaryExpr? && e.uop == BitNot }

  function DocLevel(e: Expr): nat { if IsTilde(e) then TILDE else Level(e) }

  /** A tree that needs no more parentheses than it has, by the documented table. */
  predicate DocRespects(e: Expr)
    decreases e, 0
  {
    match e
    case AssignExpr(target, _, value) =>
      DocRespects(target) && DocRespects(value) && DocLevel(target) > ASSIGNMENT && DocLevel(value) >= ASSIGNMENT
    case BinaryExpr(op, left, right) =>
      DocRespects(left) && DocRespects(right) && DocLevel(left) >= Tightness(op) && DocLevel(right) > Tightness(op)
    case Cast(inner, _) => DocRespects(inner) && DocLevel(inner) >= CAST
    case UnaryExpr(op, operand) => DocRespects(operand) && DocLevel(operand) >= if op == BitNot then TILDE else PREFIX
    case Member(base, _) => DocRespects(base) && DocLevel(base) >= ATOM
    case Index(base, index) => DocRespects(base) && DocLevel(base) >= ATOM && DocRespects(index)
    case Call(callee, arguments) => DocRespects(callee) && DocLevel(callee) >= ATOM && AllDocRespect(arguments)
    case StructLit(name, fields) => PascalCase(name) && FieldsDocRespect(fields)
    case MapLit(ty, pairs) => ty.MapType? && PairsDocRespect(pairs)
    case ArrayLit(ty, elements) => ty.ArrayType? && AllDocRespect(elements)
    case Paren(inner) => DocRespects(inner)
    case LiteralExpr(_) => true
    case Ident(_) => true
    case SelfExpr => true
  }

  predicate Looser(op: BinaryOp) {
    op.Or? || op.And? || op.Eq? || op.Ne? || op.Lt? || op.Le? || op.Gt? || op.Ge?
  }

  /** `~a op b` reads as `(~a) op b` for a comparison, `&&` or `||`, and as `~(a op b)` for everything else. */
  lemma {:induction false} TildePlace(op: BinaryOp, a: string, b: string)
    ensures DocRespects(BinaryExpr(op, UnaryExpr(BitNot, Ident(a)), Ident(b))) <==> Looser(op)
    ensures DocRespects(UnaryExpr(BitNot, BinaryExpr(op, Ident(a), Ident(b)))) <==> !Looser(op)
  {
    assert Level(Ident(a)) == ATOM && Level(Ident(b)) == ATOM && !IsTilde(Ident(a)) && !IsTilde(Ident(b));
    assert DocRespects(Ident(a)) && DocRespects(Ident(b));
    assert DocRespects(UnaryExpr(BitNot, Ident(a)));
    assert DocRespects(BinaryExpr(op, Ident(a), Ident(b)));
  }

  predicate AllDocRespect(es: seq<Expr>)
    decreases es, 1
  {
    es == [] || (DocRespects(es[0]) && AllDocRespect(es[1..]))
  }

  predicate FieldsDocRespect(fields: seq<FieldInit>)
    decreases fields, 1
  {
    fields == [] || (DocRespects(fields[0].value) && FieldsDocRespect(fields[1..]))
  }

  predicate PairsDocRespect(pairs: seq<MapEntry>)
    decreases pairs, 1
  {
    pairs == [] || (PairDocRespects(pairs[0]) && PairsDocRespect(pairs[1..]))
  }

  predicate PairDocRespects(pair: MapEntry)
    decreases pair, 0
  {
    DocRespects(pair.key) && DocRespects(pair.value)
  }

  /** The operands of a construct that binds tighter than the documented `~`. */
  function TightOperands(e: Expr): seq<Expr> {
    match e
    case BinaryExpr(op, left, right) => if Tightness(op) > TILDE then [left, right] else []
    case Cast(inner, _) => [inner]
    case UnaryExpr(op, operand) => if op == BitNot then [] else [operand]
    case Member(base, _) => [base]
    case Index(base, _) => [base]
    case Call(callee, _) => [callee]
    case _ => []
  }

  /** The direct subtrees of an expression. */
  function Children(e: Expr): (r: seq<Expr>)
    ensures forall c :: c in r ==> (e decreases to c)
  {
    match e
    case AssignExpr(target, _, value) => [target, value]
    case BinaryExpr(_, left, right) => [left, right]
    case Cast(inner, _) => [inner]
    case UnaryExpr(_, operand) => [operand]
    case Member(base, _) => [base]
    case Index(base, index) => [base, index]
    case Call(callee, arguments) => [callee] + arguments
    case StructLit(_, fields) => FieldValues(fields)
    case MapLit(_, pairs) => PairValues(pairs)
    case ArrayLit(_, elements) => elements
    case Paren(inner) => [inner]
    case _ => []
  }

  function FieldValues(fields: seq<FieldInit>): (r: seq<Expr>)
    ensures forall c :: c in r ==> (fields decreases to c)
    decreases |fields|
  {
    if fields == [] then [] else [fields[0].value] + FieldValues(fields[1..])
  }

  function PairValues(pairs: seq<MapEntry>): (r: seq<Expr>)
    ensures forall c :: c in r ==> (pairs decreases to c)
    decreases |pairs|
  {
    if pairs == [] then [] else PairExprs(pairs[0]) + PairValues(pairs[1..])
  }

  function PairExprs(pair: MapEntry): (r: seq<Expr>)
    ensures forall c :: c in r ==> (pair decreases to c)
  {
    [pair.key, pair.value]
  }

  /** Nowhere in the tree is a `~`-expression, without parentheses, the operand of something tighter. */
  predicate NoTightTilde(e: Expr)
    decreases e
  {
    && (forall o :: o in TightOperands(e) ==> !IsTilde(o))
    && (forall c :: c in Children(e) ==> NoTightTilde(c))
  }

  ghost predicate NoneTight(es: seq<Expr>) { forall c :: c in es ==> NoTightTilde(c) }

  lemma NoneTightSplit(a: seq<Expr>, b: seq<Expr>)
    ensures NoneTight(a + b) <==> NoneTight(a) && NoneTight(b)
  {
    hide NoTightTilde;
    assert forall c :: c in a || c in b ==> c in a + b;
  }

  lemma NoneTightOne(e: Expr)
    ensures NoneTight([e]) <==> NoTightTilde(e)
  {
    hide NoTightTilde;
    assert e in [e];
  }

  lemma NoneTightTwo(a: Expr, b: Expr)
    ensures NoneTight([a, b]) <==> NoTightTilde(a) && NoTightTilde(b)
  {
    hide NoTightTilde;
    assert a in [a, b] && b in [a, b];
  }

  lemma NoTightMeans(e: Expr)
    ensures NoTightTilde(e) <==> (forall o :: o in TightOperands(e) ==> !IsTilde(o)) && NoneTight(Children(e))
  {
  }

  /** The level of an operand in the parser's tree is right for the documented table too, unless it is a `~`. */
  lemma LevelFits(o: Expr, n: nat)
    requires Level(o) >= n
    ensures DocLevel(o) >= n <==> !(IsTilde(o) && n > TILDE)
  {
  }

  /**
   * What the parser returns is a tree of the documented table exactly when no `~`-expression
   * stands, without parentheses, as the operand of a prefix operator, a cast, a postfix, or a
   * binary operator tighter than the documented `~`.
   */
  lemma {:induction false} DocumentedExactlyWhen(e: Expr)
    requires Respects(e)
    ensures DocRespects(e) <==> NoTightTilde(e)
    decreases e, 2
  {
    hide NoTightTilde, NoneTight, IsTilde, DocLevel, Level;
    NoTightMeans(e);
    match e {
      case BinaryExpr(_, _, _) => BinaryDocumented(e);
      case AssignExpr(target, _, value) =>
        NoneTightTwo(target, value);
        DocumentedExactlyWhen(target);
        DocumentedExactlyWhen(value);
        LevelFits(target, ASSIGNMENT + 1);
        LevelFits(value, ASSIGNMENT);
      case UnaryExpr(op, operand) => UnaryDocumented(e);
      case Cast(inner, _) =>
        NoneTightOne(inner);
        DocumentedExactlyWhen(inner);
        LevelFits(inner, CAST);
        assert inner in TightOperands(e);
      case Member(base, _) =>
        NoneTightOne(base);
        DocumentedExactlyWhen(base);
        LevelFits(base, ATOM);
        assert base in TightOperands(e);
      case Index(base, index) =>
        NoneTightTwo(base, index);
        DocumentedExactlyWhen(base);
        DocumentedExactlyWhen(index);
        LevelFits(base, ATOM);
        assert base in TightOperands(e);
      case Call(callee, arguments) =>
        NoneTightSplit([callee], arguments);
        NoneTightOne(callee);
        DocumentedExactlyWhen(callee);
        AllDocumented(arguments);
        LevelFits(callee, ATOM);
        assert callee in TightOperands(e);
      case StructLit(_, fields) => FieldsDocumented(fields);
      case MapLit(_, pairs) => PairsDocumented(pairs);
      case ArrayLit(_, elements) => AllDocumented(elements);
      case Paren(inner) =>
        NoneTightOne(inner);
        DocumentedExactlyWhen(inner);
      case _ => NoneTightNone();
    }
  }

  lemma NoneTightNone()
    ensures NoneTight([])
  {
  }

  lemma {:induction false} BinaryDocumented(e: Expr)
    requires e.BinaryExpr? && Respects(e)
    ensures DocRespects(e) <==> NoTightTilde(e)
    decreases e, 1
  {
    hide NoTightTilde, NoneTight, IsTilde, DocLevel, Level, Tightness;
    var op, left, right := e.bop, e.left, e.right;
    NoTightMeans(e);
    NoneTightTwo(left, right);
    DocumentedExactlyWhen(left);
    DocumentedExactlyWhen(right);
    LevelFits(left, Tightness(op));
    LevelFits(right, Tightness(op) + 1);
    if Tightness(op) > TILDE {
      assert left in TightOperands(e) && right in TightOperands(e);
    }
  }

  lemma {:induction false} UnaryDocumented(e: Expr)
    requires e.UnaryExpr? && Respects(e)
    ensures DocRespects(e) <==> NoTightTilde(e)
    decreases e, 1
  {
    hide NoTightTilde, NoneTight, IsTilde, DocLevel, Level;
    NoTightMeans(e);
    NoneTightOne(e.operand);
    DocumentedExactlyWhen(e.operand);
    LevelFits(e.operand, if e.uop == BitNot then TILDE else PREFIX);
    if e.uop != BitNot {
      assert e.operand in TightOperands(e);
    }
  }

  lemma {:induction false} AllDocumented(es: seq<Expr>)
    requires AllRespect(es)
    ensures AllDocRespect(es) <==> NoneTight(es)
    decreases es, 1
  {
    hide NoneTight, NoTightTilde;
    if es == [] {
      NoneTightNone();
    } else {
      DocumentedExactlyWhen(es[0]);
      AllDocumented(es[1..]);
      NoneTightSplit([es[0]], es[1..]);
      NoneTightOne(es[0]);
      assert [es[0]] + es[1..] == es;
    }
  }

  lemma {:induction false} FieldsDocumented(fields: seq<FieldInit>)
    requires FieldsRespect(fields)
    ensures FieldsDocRespect(fields) <==> NoneTight(FieldValues(fields))
    decreases fields, 1
  {
    hide NoneTight, NoTightTilde;
    if fields == [] {
      NoneTightNone();
    } else {
      DocumentedExactlyWhen(fields[0].value);
      FieldsDocumented(fields[1..]);
      NoneTightSplit([fields[0].value], FieldValues(fields[1..]));
      NoneTightOne(fields[0].value);
    }
  }

  lemma {:induction false} PairsDocumented(pairs: seq<MapEntry>)
    requires PairsRespect(pairs)
    ensures PairsDocRespect(pairs) <==> NoneTight(PairValues(pairs))
    decreases pairs, 1
  {
    hide NoneTight, NoTightTilde;
    if pairs == [] {
      NoneTightNone();
    } else {
      PairDocumented(pairs[0]);
      PairsDocumented(pairs[1..]);
      NoneTightSplit(PairExprs(pairs[0]), PairValues(pairs[1..]));
    }
  }

  lemma {:induction false} PairDocumented(pair: MapEntry)
    requires PairRespects(pair)
    ensures PairDocRespects(pair) <==> NoneTight(PairExprs(pair))
    decreases pair, 0
  {
    hide NoneTight, NoTightTilde;
    DocumentedExactlyWhen(pair.key);
    DocumentedExactlyWhen(pair.value);
    NoneTightTwo(pair.key, pair.value);
  }

  // ----- the parser's tree for the tokens of a documented tree -----

  /** `~` in front of a tree, by the parser's table: it takes the leftmost operand only. */
  function Sink(o: Expr): Expr {
    match o
    case BinaryExpr(op, left, right) => BinaryExpr(op, Sink(left), right)
    case Cast(inner, ty) => Cast(Sink(inner), ty)
    case _ => UnaryExpr(BitNot, o)
  }

  predicate Splits(o: Expr) { o.BinaryExpr? || o.Cast? }

  lemma {:induction false} SinkYield(o: Expr)
    ensures Yield(Sink(o)) == [Tilde] + Yield(o)
  {
    match o
    case BinaryExpr(op, left, right) =>
      SinkYield(left);
      Regroup([Tilde], Yield(left), [BinaryToken(op)]);
      Regroup([Tilde], Yield(left) + [BinaryToken(op)], Yield(right));
    case Cast(inner, ty) =>
      SinkYield(inner);
      Regroup([Tilde], Yield(inner), [As]);
      Regroup([Tilde], Yield(inner) + [As], TypeYield(ty));
    case _ =>
  }

  /** Sunk into something tighter than the documented `~`, it is the operand of something tighter. */
  lemma {:induction false} SinkRespects(o: Expr)
    requires Respects(o) && Level(o) > TILDE
    ensures Respects(Sink(o)) && Level(Sink(o)) == if Splits(o) then Level(o) else PREFIX
    ensures Splits(o) ==> !NoTightTilde(Sink(o))
  {
    hide NoTightTilde;
    match o {
      case BinaryExpr(op, left, right) =>
        SinkRespects(left);
        SinkTight(o, left);
      case Cast(inner, ty) =>
        SinkRespects(inner);
        SinkTight(o, inner);
      case _ =>
    }
  }

  lemma SinkTight(o: Expr, first: Expr)
    requires (o.BinaryExpr? && first == o.left && Tightness(o.bop) > TILDE) || (o.Cast? && first == o.inner)
    requires Splits(first) ==> !NoTightTilde(Sink(first))
    ensures !NoTightTilde(Sink(o))
  {
    assert Sink(first) in TightOperands(Sink(o)) && Sink(first) in Children(Sink(o));
    if !Splits(first) {
      assert IsTilde(Sink(first));
    }
  }

  /** Every `~` sunk to where the parser puts it. */
  function Sunk(e: Expr): Expr
    decreases e, 0
  {
    match e
    case AssignExpr(target, op, value) => AssignExpr(Sunk(target), op, Sunk(value))
    case BinaryExpr(op, left, right) => BinaryExpr(op, Sunk(left), Sunk(right))
    case Cast(inner, ty) => Cast(Sunk(inner), ty)
    case UnaryExpr(op, operand) => if op == BitNot then Sink(Sunk(operand)) else UnaryExpr(op, Sunk(operand))
    case Member(base, field) => Member(Sunk(base), field)
    case Index(base, index) => Index(Sunk(base), Sunk(index))
    case Call(callee, arguments) => Call(Sunk(callee), AllSunk(arguments))
    case StructLit(name, fields) => StructLit(name, FieldsSunk(fields))
    case MapLit(ty, pairs) => MapLit(ty, PairsSunk(pairs))
    case ArrayLit(ty, elements) => ArrayLit(ty, AllSunk(elements))
    case Paren(inner) => Paren(Sunk(inner))
    case _ => e
  }

  function AllSunk(es: seq<Expr>): (r: seq<Expr>)
    ensures |r| == |es|
    decreases es, 1
  {
    if es == [] then [] else [Sunk(es[0])] + AllSunk(es[1..])
  }

  function FieldsSunk(fields: seq<FieldInit>): (r: seq<FieldInit>)
    ensures |r| == |fields|
    decreases fields, 1
  {
    if fields == [] then [] else [FieldInit(fields[0].name, Sunk(fields[0].value))] + FieldsSunk(fields[1..])
  }

  function PairsSunk(pairs: seq<MapEntry>): (r: seq<MapEntry>)
    ensures |r| == |pairs|
    decreases pairs, 1
  {
    if pairs == [] then [] else [PairSunk(pairs[0])] + PairsSunk(pairs[1..])
  }

  function PairSunk(pair: MapEntry): MapEntry
    decreases pair, 0
  {
    MapEntry(Sunk(pair.key), Sunk(pair.value))
  }

  /** The tree and its sunk form: the same tree, unless a `~` now stands tight. */
  ghost predicate Kept(before: seq<Expr>, after: seq<Expr>) { after == before || !NoneTight(after) }

  /** What sinking does to a documented tree: the parser's tree of the same tokens. */
  ghost predicate SunkWell(e: Expr) {
    Respects(Sunk(e)) && Yield(Sunk(e)) == Yield(e) && Level(Sunk(e)) >= DocLevel(e) && Kept([e], [Sunk(e)])
  }

  lemma SunkMeans(e: Expr)
    requires SunkWell(e)
    ensures Respects(Sunk(e)) && Yield(Sunk(e)) == Yield(e) && Level(Sunk(e)) >= DocLevel(e)
    ensures Sunk(e) == e || !NoTightTilde(Sunk(e))
  {
    hide NoneTight;
    NoneTightOne(Sunk(e));
    assert [Sunk(e)] == [e] ==> [Sunk(e)][0] == e;
  }

  lemma MakeWell(e: Expr)
    requires Respects(Sunk(e)) && Yield(Sunk(e)) == Yield(e) && Level(Sunk(e)) >= DocLevel(e)
    requires Sunk(e) == e || !NoTightTilde(Sunk(e))
    ensures SunkWell(e)
  {
    hide NoneTight, NoTightTilde;
    NoneTightOne(Sunk(e));
  }

  lemma ChildTight(e: Expr)
    requires !NoneTight(Children(e))
    ensures !NoTightTilde(e)
  {
    hide NoneTight, NoTightTilde;
    NoTightMeans(e);
  }

  lemma {:induction false} SunkIsParsed(e: Expr)
    requires DocRespects(e)
    ensures SunkWell(e)
    decreases e, 2
  {
    hide SunkWell, DocLevel, Level, Sunk;
    match e {
      case UnaryExpr(op, operand) =>
        SunkIsParsed(operand);
        SunkUnary(e);
      case BinaryExpr(_, left, right) =>
        SunkIsParsed(left);
        SunkIsParsed(right);
        SunkTwo(e, left, right);
      case AssignExpr(target, _, value) =>
        SunkIsParsed(target);
        SunkIsParsed(value);
        SunkTwo(e, target, value);
      case Index(base, index) =>
        SunkIsParsed(base);
        SunkIsParsed(index);
        SunkTwo(e, base, index);
      case Cast(inner, _) =>
        SunkIsParsed(inner);
        SunkOne(e, inner);
      case Member(base, _) =>
        SunkIsParsed(base);
        SunkOne(e, base);
      case Paren(inner) =>
        SunkIsParsed(inner);
        SunkOne(e, inner);
      case Call(callee, arguments) =>
        SunkIsParsed(callee);
        AllSunkParsed(arguments);
        SunkCall(e);
      case StructLit(_, fields) =>
        FieldsSunkParsed(fields);
        SunkStruct(e);
      case MapLit(_, pairs) =>
        PairsSunkParsed(pairs);
        SunkMap(e);
      case ArrayLit(_, elements) =>
        AllSunkParsed(elements);
        SunkArray(e);
      case _ => SunkLeaf(e);
    }
  }

  lemma SunkLeaf(e: Expr)
    requires e.LiteralExpr? || e.Ident? || e.SelfExpr?
    ensures SunkWell(e)
  {
  }

  lemma {:induction false} SunkUnary(e: Expr)
    requires e.UnaryExpr? && DocRespects(e) && SunkWell(e.operand)
    ensures SunkWell(e)
  {
    hide NoTightTilde, NoneTight, SunkWell, TightOperands;
    SunkMeans(e.operand);
    var o := Sunk(e.operand);
    NoneTightOne(o);
    if e.uop == BitNot {
      SinkYield(o);
      SinkRespects(o);
    }
    if Sunk(e).UnaryExpr? && o != e.operand {
      ChildTight(Sunk(e));
    }
    MakeWell(e);
  }

  lemma {:induction false} SunkOne(e: Expr, inner: Expr)
    requires (e.Cast? && e.inner == inner) || (e.Member? && e.base == inner) || (e.Paren? && e.paren == inner)
    requires DocRespects(e) && SunkWell(inner)
    ensures SunkWell(e)
  {
    hide NoTightTilde, NoneTight, SunkWell, TightOperands;
    SunkMeans(inner);
    NoneTightOne(Sunk(inner));
    if Sunk(inner) != inner {
      ChildTight(Sunk(e));
    }
    MakeWell(e);
  }

  lemma {:induction false} SunkTwo(e: Expr, a: Expr, b: Expr)
    requires (e.BinaryExpr? && e.left == a && e.right == b) || (e.AssignExpr? && e.target == a && e.value == b) || (e.Index? && e.base == a && e.index == b)
    requires DocRespects(e) && SunkWell(a) && SunkWell(b)
    ensures SunkWell(e)
  {
    hide NoTightTilde, NoneTight, SunkWell, TightOperands;
    SunkMeans(a);
    SunkMeans(b);
    NoneTightTwo(Sunk(a), Sunk(b));
    if Sunk(a) != a || Sunk(b) != b {
      ChildTight(Sunk(e));
    }
    MakeWell(e);
  }

  lemma {:induction false} SunkCall(e: Expr)
    requires e.Call? && DocRespects(e) && SunkWell(e.callee)
    requires AllRespect(AllSunk(e.arguments)) && ListYield(AllSunk(e.arguments)) == ListYield(e.arguments) && Kept(e.arguments, AllSunk(e.arguments))
    ensures SunkWell(e)
  {
    hide NoTightTilde, NoneTight, SunkWell, TightOperands, AllSunk, ListYield;
    SunkMeans(e.callee);
    NoneTightOne(Sunk(e.callee));
    NoneTightSplit([Sunk(e.callee)], AllSunk(e.arguments));
    if Sunk(e) != e {
      ChildTight(Sunk(e));
    }
    MakeWell(e);
  }

  lemma {:induction false} SunkArray(e: Expr)
    requires e.ArrayLit? && DocRespects(e)
    requires AllRespect(AllSunk(e.elements)) && ListYield(AllSunk(e.elements)) == ListYield(e.elements) && Kept(e.elements, AllSunk(e.elements))
    ensures SunkWell(e)
  {
    hide NoTightTilde, NoneTight, SunkWell, TightOperands, AllSunk, ListYield;
    if Sunk(e) != e {
      ChildTight(Sunk(e));
    }
    MakeWell(e);
  }

  lemma {:induction false} SunkStruct(e: Expr)
    requires e.StructLit? && DocRespects(e)
    requires FieldsRespect(FieldsSunk(e.fields)) && FieldsYield(FieldsSunk(e.fields)) == FieldsYield(e.fields)
    requires FieldsSunk(e.fields) == e.fields || !NoneTight(FieldValues(FieldsSunk(e.fields)))
    ensures SunkWell(e)
  {
    hide NoTightTilde, NoneTight, SunkWell, TightOperands, FieldsSunk, FieldsYield, FieldValues;
    if Sunk(e) != e {
      ChildTight(Sunk(e));
    }
    MakeWell(e);
  }

  lemma {:induction false} SunkMap(e: Expr)
    requires e.MapLit? && DocRespects(e)
    requires PairsRespect(PairsSunk(e.pairs)) && PairsYield(PairsSunk(e.pairs)) == PairsYield(e.pairs)
    requires PairsSunk(e.pairs) == e.pairs || !NoneTight(PairValues(PairsSunk(e.pairs)))
    ensures SunkWell(e)
  {
    hide NoTightTilde, NoneTight, SunkWell, TightOperands, PairsSunk, PairsYield, PairValues;
    if Sunk(e) != e {
      ChildTight(Sunk(e));
    }
    MakeWell(e);
  }

  lemma AllUnfold(head: Expr, rest: seq<Expr>)
    ensures AllDocRespect([head] + rest) <==> DocRespects(head) && AllDocRespect(rest)
    ensures AllRespect([head] + rest) <==> Respects(head) && AllRespect(rest)
    ensures ListYield([head] + rest) == if rest == [] then Yield(head) else Yield(head) + [Comma] + ListYield(rest)
    ensures AllSunk([head] + rest) == [Sunk(head)] + AllSunk(rest) && (AllSunk(rest) == [] <==> rest == [])
  {
    hide Sunk, Respects, DocRespects, Yield;
    assert ([head] + rest)[1..] == rest;
  }

  lemma {:induction false} AllSunkParsed(es: seq<Expr>)
    requires AllDocRespect(es)
    ensures AllRespect(AllSunk(es)) && ListYield(AllSunk(es)) == ListYield(es) && Kept(es, AllSunk(es))
    decreases es, 1
  {
    hide NoneTight, AllDocRespect, AllRespect, ListYield, AllSunk, DocRespects, Respects, Yield, Sunk, SunkWell, NoTightTilde, Level, DocLevel;
    if es != [] {
      assert [es[0]] + es[1..] == es;
      AllUnfold(es[0], es[1..]);
      SunkIsParsed(es[0]);
      SunkMeans(es[0]);
      AllSunkParsed(es[1..]);
      var head, rest := Sunk(es[0]), AllSunk(es[1..]);
      AllUnfold(head, rest);
      NoneTightSplit([head], rest);
      NoneTightOne(head);
    } else {
      NoneSunk();
    }
  }

  lemma NoneSunk()
    ensures AllRespect(AllSunk([])) && AllSunk([]) == []
  {
  }

  lemma FieldsUnfold(head: FieldInit, rest: seq<FieldInit>)
    ensures FieldsDocRespect([head] + rest) <==> DocRespects(head.value) && FieldsDocRespect(rest)
    ensures FieldsRespect([head] + rest) <==> Respects(head.value) && FieldsRespect(rest)
    ensures FieldsYield([head] + rest) == if rest == [] then FieldYield(head) else FieldYield(head) + [Comma] + FieldsYield(rest)
    ensures FieldValues([head] + rest) == [head.value] + FieldValues(rest)
    ensures FieldsSunk([head] + rest) == [FieldInit(head.name, Sunk(head.value))] + FieldsSunk(rest) && (FieldsSunk(rest) == [] <==> rest == [])
  {
    hide Sunk, Respects, DocRespects, FieldYield;
    assert ([head] + rest)[1..] == rest;
  }

  lemma SameField(name: string, a: Expr, b: Expr)
    requires Yield(a) == Yield(b)
    ensures FieldYield(FieldInit(name, a)) == FieldYield(FieldInit(name, b))
  {
    hide Yield;
  }

  lemma {:induction false} FieldsSunkParsed(fields: seq<FieldInit>)
    requires FieldsDocRespect(fields)
    ensures FieldsRespect(FieldsSunk(fields)) && FieldsYield(FieldsSunk(fields)) == FieldsYield(fields)
    ensures FieldsSunk(fields) == fields || !NoneTight(FieldValues(FieldsSunk(fields)))
    decreases fields, 1
  {
    if fields != [] {
      hide *;
      assert [fields[0]] + fields[1..] == fields;
      FieldsUnfold(fields[0], fields[1..]);
      SunkIsParsed(fields[0].value);
      SunkMeans(fields[0].value);
      FieldsSunkParsed(fields[1..]);
      var head, rest := FieldInit(fields[0].name, Sunk(fields[0].value)), FieldsSunk(fields[1..]);
      FieldsUnfold(head, rest);
      SameField(head.name, head.value, fields[0].value);
      NoneTightSplit([head.value], FieldValues(rest));
      NoneTightOne(head.value);
    }
  }

  lemma PairsUnfold(head: MapEntry, rest: seq<MapEntry>)
    ensures PairsDocRespect([head] + rest) <==> PairDocRespects(head) && PairsDocRespect(rest)
    ensures PairsRespect([head] + rest) <==> PairRespects(head) && PairsRespect(rest)
    ensures PairsYield([head] + rest) == if rest == [] then PairYield(head) else PairYield(head) + [Comma] + PairsYield(rest)
    ensures PairValues([head] + rest) == PairExprs(head) + PairValues(rest)
    ensures PairsSunk([head] + rest) == [PairSunk(head)] + PairsSunk(rest) && (PairsSunk(rest) == [] <==> rest == [])
  {
    hide PairSunk, PairRespects, PairDocRespects, PairYield, PairExprs;
    assert ([head] + rest)[1..] == rest;
  }

  lemma {:induction false} PairsSunkParsed(pairs: seq<MapEntry>)
    requires PairsDocRespect(pairs)
    ensures PairsRespect(PairsSunk(pairs)) && PairsYield(PairsSunk(pairs)) == PairsYield(pairs)
    ensures PairsSunk(pairs) == pairs || !NoneTight(PairValues(PairsSunk(pairs)))
    decreases pairs, 1
  {
    if pairs != [] {
      hide *;
      assert [pairs[0]] + pairs[1..] == pairs;
      PairsUnfold(pairs[0], pairs[1..]);
      PairSunkParsed(pairs[0]);
      PairsSunkParsed(pairs[1..]);
      var head, rest := PairSunk(pairs[0]), PairsSunk(pairs[1..]);
      PairsUnfold(head, rest);
      NoneTightSplit(PairExprs(head), PairValues(rest));
    }
  }

  lemma {:induction false} PairSunkParsed(pair: MapEntry)
    requires PairDocRespects(pair)
    ensures PairRespects(PairSunk(pair)) && PairYield(PairSunk(pair)) == PairYield(pair)
    ensures PairSunk(pair) == pair || !NoneTight(PairExprs(PairSunk(pair)))
    decreases pair, 0
  {
    hide NoneTight, SunkWell, Sunk;
    SunkIsParsed(pair.key);
    SunkIsParsed(pair.value);
    SunkMeans(pair.key);
    SunkMeans(pair.value);
    NoneTightTwo(Sunk(pair.key), Sunk(pair.value));
  }

  /** Every input that has a documented reading is parsed, though perhaps to another tree. */
  lemma DocumentedIsParsed(d: Expr)
    requires DocRespects(d)
    ensures ParseExpr(Yield(d), 0, 0) == Ok(Parsed(Sunk(d), |Yield(d)|))
  {
    hide ParseExpr, DocRespects, Respects, Yield, Sunk;
    SunkIsParsed(d);
    SunkMeans(d);
    ParsesWhole(Yield(d), Sunk(d));
  }

  /**
   * An input is parsed to its documented reading exactly when the parser's tree has no
   * `~`-expression, without parentheses, as the operand of something tighter.
   */
  lemma ParsedAsDocumented(d: Expr, e: Expr)
    requires DocRespects(d) && ParseExpr(Yield(d), 0, 0) == Ok(Parsed(e, |Yield(d)|))
    ensures e == d <==> NoTightTilde(e)
  {
    hide ParseExpr, DocRespects, NoTightTilde, Respects, Yield, Sunk;
    DocumentedIsParsed(d);
    SunkIsParsed(d);
    SunkMeans(d);
    if e == d {
      DocumentedExactlyWhen(e);
    }
  }

  // ----- ~a & b -----

  function ParserReading(a: string, b: string): Expr { BinaryExpr(BitAnd, UnaryExpr(BitNot, Ident(a)), Ident(b)) }

  function DocumentedReading(a: string, b: string): Expr { UnaryExpr(BitNot, BinaryExpr(BitAnd, Ident(a), Ident(b))) }

  /** Both trees spell `~a & b`; each of the two tables accepts one of them and not the other. */
  lemma TildeIsPrefix(a: string, b: string)
    ensures Yield(ParserReading(a, b)) == [Tilde, Word(a), Amp, Word(b)] == Yield(DocumentedReading(a, b))
    ensures ParseExpr([Tilde, Word(a), Amp, Word(b)], 0, 0) == Ok(Parsed(ParserReading(a, b), 4))
    ensures !DocRespects(ParserReading(a, b))
    ensures DocRespects(DocumentedReading(a, b)) && !Respects(DocumentedReading(a, b))
  {
    hide ParseExpr, Respects, DocRespects;
    TildeYields(a, b);
    TildeTables(a, b);
    ParsesWhole([Tilde, Word(a), Amp, Word(b)], ParserReading(a, b));
  }

  lemma TildeYields(a: string, b: string)
    ensures Yield(ParserReading(a, b)) == [Tilde, Word(a), Amp, Word(b)] == Yield(DocumentedReading(a, b))
  {
    var inner, low := UnaryExpr(BitNot, Ident(a)), BinaryExpr(BitAnd, Ident(a), Ident(b));
    assert Yield(inner) == [Tilde] + [Word(a)];
    assert Yield(ParserReading(a, b)) == Yield(inner) + [Amp] + [Word(b)];
    assert Yield(low) == [Word(a)] + [Amp] + [Word(b)];
    assert Yield(DocumentedReading(a, b)) == [Tilde] + Yield(low);
  }

  lemma TildeTables(a: string, b: string)
    ensures Respects(ParserReading(a, b)) && !DocRespects(ParserReading(a, b))
    ensures DocRespects(DocumentedReading(a, b)) && !Respects(DocumentedReading(a, b))
  {
    var inner, low := UnaryExpr(BitNot, Ident(a)), BinaryExpr(BitAnd, Ident(a), Ident(b));
    assert Respects(Ident(a)) && Respects(Ident(b)) && Respects(inner) && Respects(low);
    assert DocRespects(Ident(a)) && DocRespects(Ident(b)) && DocRespects(low);
  }
}
