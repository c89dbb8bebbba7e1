/** Substituting contract constants into a field initializer (codegen/initializer.rs). */
module ConstResolve {
  import opened Prelude
  import opened Bytecode
  import opened Ast

  type Consts = map<string, Expr>

  datatype ResolveError =
    | UnknownConstant(name: string)
    | ConstantCycle(path: seq<string>)
    | NotConstant

  type Resolved = Result<Expr, ResolveError>

  function SetOf(names: seq<string>): (r: set<string>)
    ensures forall n :: n in r <==> n in names
  {
    set n | n in names
  }

  /** `path` is the stack of constants being expanded, outermost first. */
  function Resolve(e: Expr, consts: Consts, path: seq<string>): Resolved
    decreases consts.Keys - SetOf(path), e, 1
  {
    match e
    case LiteralExpr(_) => Ok(e)
    case Ident(name) => ResolveName(name, consts, path)
    case Cast(inner, ty) =>
      var r :- Resolve(inner, consts, path);
      Ok(Cast(r, ty))
    case UnaryExpr(op, operand) =>
      var r :- Resolve(operand, consts, path);
      Ok(UnaryExpr(op, r))
    case BinaryExpr(op, left, right) =>
      var l :- Resolve(left, consts, path);
      var r :- Resolve(right, consts, path);
      Ok(BinaryExpr(op, l, r))
    case Paren(inner) =>
      var r :- Resolve(inner, consts, path);
      Ok(Paren(r))
    case MapLit(ty, pairs) =>
      var rs :- ResolvePairs(pairs, consts, path);
      Ok(MapLit(ty, rs))
    case ArrayLit(ty, elements) =>
      var rs :- ResolveAll(elements, consts, path);
      Ok(ArrayLit(ty, rs))
    case StructLit(name, fields) =>
      var rs :- ResolveFields(fields, consts, path);
      Ok(StructLit(name, rs))
    case _ => Err(NotConstant)
  }

  function ResolveName(name: string, consts: Consts, path: seq<string>): Resolved
    decreases consts.Keys - SetOf(path), Ident(name), 0
  {
    if name !in consts then Err(UnknownConstant(name))
    else if name in path then Err(ConstantCycle(path + [name]))
    else
      Shrinks(name, consts, path);
      Resolve(consts[name], consts, path + [name])
  }

  lemma Shrinks(name: string, consts: Consts, path: seq<string>)
    requires name in consts && name !in path
    ensures consts.Keys - SetOf(path + [name]) < consts.Keys - SetOf(path)
  {
    assert name in consts.Keys - SetOf(path) && name !in consts.Keys - SetOf(path + [name]);
  }

  function ResolveAll(es: seq<Expr>, consts: Consts, path: seq<string>): Result<seq<Expr>, ResolveError>
    decreases consts.Keys - SetOf(path), es, 0
  {
    if es == [] then Ok([])
    else
      var head :- Resolve(es[0], consts, path);
      var rest :- ResolveAll(es[1..], consts, path);
      Ok([head] + rest)
  }

  function ResolveFields(fields: seq<FieldInit>, consts: Consts, path: seq<string>): Result<seq<FieldInit>, ResolveError>
    decreases consts.Keys - SetOf(path), fields, 0
  {
    if fields == [] then Ok([])
    else
      var head :- Resolve(fields[0].value, consts, path);
      var rest :- ResolveFields(fields[1..], consts, path);
      Ok([FieldInit(fields[0].name, head)] + rest)
  }

  function ResolvePair(pair: MapEntry, consts: Consts, path: seq<string>): Result<MapEntry, ResolveError>
    decreases consts.Keys - SetOf(path), pair, 0
  {
    var key :- Resolve(pair.key, consts, path);
    var value :- Resolve(pair.value, consts, path);
    Ok(MapEntry(key, value))
  }

  function ResolvePairs(pairs: seq<MapEntry>, consts: Consts, path: seq<string>): Result<seq<MapEntry>, ResolveError>
    decreases consts.Keys - SetOf(path), pairs, 0
  {
    if pairs == [] then Ok([])
    else
      var head :- ResolvePair(pairs[0], consts, path);
      var rest :- ResolvePairs(pairs[1..], consts, path);
      Ok([head] + rest)
  }

  // ----- the parts of an expression -----

  /** The immediate subexpressions, in the order they are resolved. */
  function Parts(e: Expr): (r: seq<Expr>)
    ensures forall x :: x in r ==> (e decreases to x)
  {
    match e
    case Cast(inner, _) => [inner]
    case UnaryExpr(_, operand) => [operand]
    case BinaryExpr(_, left, right) => [left, right]
    case Paren(inner) => [inner]
    case MapLit(_, pairs) => PairParts(pairs)
    case ArrayLit(_, elements) => elements
    case StructLit(_, fields) => FieldParts(fields)
    case _ => []
  }

  function PairParts(pairs: seq<MapEntry>): (r: seq<Expr>)
    ensures |r| == 2 * |pairs|
    ensures forall x :: x in r ==> (pairs decreases to x)
  {
    if pairs == [] then [] else EntryParts(pairs[0]) + PairParts(pairs[1..])
  }

  function EntryParts(pair: MapEntry): (r: seq<Expr>)
    ensures |r| == 2 && forall x :: x in r ==> (pair decreases to x)
  {
    [pair.key, pair.value]
  }

  function FieldParts(fields: seq<FieldInit>): (r: seq<Expr>)
    ensures |r| == |fields|
    ensures forall x :: x in r ==> (fields decreases to x)
  {
    if fields == [] then [] else [fields[0].value] + FieldParts(fields[1..])
  }

  /** What remains of an expression when its parts are taken out. */
  datatype Shape =
    | LeafShape(lit: Literal) | CastShape(ty: Type) | UnaryShape(uop: UnaryOp) | BinaryShape(bop: BinaryOp) | ParenShape
    | MapShape(ty: Type) | ArrayShape(ty: Type) | StructShape(name: string, fieldNames: seq<string>)
    | NameShape | OtherShape

  function ShapeOf(e: Expr): Shape {
    match e
    case LiteralExpr(lit) => LeafShape(lit)
    case Ident(_) => NameShape
    case Cast(_, ty) => CastShape(ty)
    case UnaryExpr(op, _) => UnaryShape(op)
    case BinaryExpr(op, _, _) => BinaryShape(op)
    case Paren(_) => ParenShape
    case MapLit(ty, _) => MapShape(ty)
    case ArrayLit(ty, _) => ArrayShape(ty)
    case StructLit(name, fields) => StructShape(name, FieldNames(fields))
    case _ => OtherShape
  }

  function FieldNames(fields: seq<FieldInit>): seq<string> {
    if fields == [] then [] else [fields[0].name] + FieldNames(fields[1..])
  }

  /** The constructs a constant may be made of, constant names aside. */
  predicate Constant(e: Expr) { ShapeOf(e) != NameShape && ShapeOf(e) != OtherShape }

  /** `rs` are the parts `xs` resolved. */
  predicate AllResolved(xs: seq<Expr>, rs: seq<Expr>, consts: Consts, path: seq<string>) {
    |rs| == |xs| && forall k :: 0 <= k < |xs| ==> Resolve(xs[k], consts, path) == Ok(rs[k])
  }

  /** The error is the error of one of the parts. */
  predicate FirstError(xs: seq<Expr>, error: ResolveError, consts: Consts, path: seq<string>) {
    exists x :: x in xs && Resolve(x, consts, path) == Err(error)
  }

  lemma {:induction false} ListResolves(es: seq<Expr>, consts: Consts, path: seq<string>)
    ensures match ResolveAll(es, consts, path)
            case Ok(rs) => AllResolved(es, rs, consts, path)
            case Err(error) => FirstError(es, error, consts, path)
  {
    hide Resolve;
    if es != [] {
      ListResolves(es[1..], consts, path);
      assert es == [es[0]] + es[1..];
    }
  }

  lemma {:induction false} FieldsResolve(fields: seq<FieldInit>, consts: Consts, path: seq<string>)
    ensures match ResolveFields(fields, consts, path)
            case Ok(rs) => FieldNames(rs) == FieldNames(fields) && AllResolved(FieldParts(fields), FieldParts(rs), consts, path)
            case Err(error) => FirstError(FieldParts(fields), error, consts, path)
  {
    hide Resolve;
    if fields != [] {
      FieldsResolve(fields[1..], consts, path);
    }
  }

  lemma {:induction false} PairsResolve(pairs: seq<MapEntry>, consts: Consts, path: seq<string>)
    ensures match ResolvePairs(pairs, consts, path)
            case Ok(rs) => AllResolved(PairParts(pairs), PairParts(rs), consts, path)
            case Err(error) => FirstError(PairParts(pairs), error, consts, path)
  {
    hide Resolve;
    if pairs != [] {
      PairsResolve(pairs[1..], consts, path);
      var key, value := Resolve(pairs[0].key, consts, path), Resolve(pairs[0].value, consts, path);
      assert pairs[0].key in EntryParts(pairs[0]) && pairs[0].value in EntryParts(pairs[0]);
    }
  }

  /** Resolution goes part by part: all parts in place in the same shape, or the error of one part. */
  lemma {:induction false} PartsResolve(e: Expr, consts: Consts, path: seq<string>)
    requires !e.Ident?
    ensures match Resolve(e, consts, path)
            case Ok(r) => Constant(e) && ShapeOf(r) == ShapeOf(e) && AllResolved(Parts(e), Parts(r), consts, path)
            case Err(error) => if Constant(e) then FirstError(Parts(e), error, consts, path) else error == NotConstant
  {
    hide ResolveAll, ResolveFields, ResolvePairs;
    match e
    case MapLit(_, pairs) => PairsResolve(pairs, consts, path);
    case ArrayLit(_, elements) => ListResolves(elements, consts, path);
    case StructLit(_, fields) => FieldsResolve(fields, consts, path);
    case Cast(inner, _) => assert inner in Parts(e);
    case UnaryExpr(_, operand) => assert operand in Parts(e);
    case Paren(inner) => assert inner in Parts(e);
    case BinaryExpr(_, left, right) => assert left in Parts(e) && right in Parts(e);
    case _ =>
  }

  // ----- success -----

  /** The expression, or a part of it at any depth, is the name. */
  predicate Mentions(e: Expr, name: string) {
    e == Ident(name) || exists x :: x in Parts(e) && Mentions(x, name)
  }

  /** Made of literals, names and constant constructs only. */
  predicate ConstantForm(e: Expr) {
    e.Ident? || (Constant(e) && forall x :: x in Parts(e) ==> ConstantForm(x))
  }

  /** Names in which each is mentioned by the constant before it, the first by the expression. */
  predicate Chain(e: Expr, consts: Consts, names: seq<string>)
    decreases |names|
  {
    names == [] || (Mentions(e, names[0]) && (|names| > 1 ==> names[0] in consts && Chain(consts[names[0]], consts, names[1..])))
  }

  predicate Distinct(names: seq<string>) { forall j, k :: 0 <= j < k < |names| ==> names[j] != names[k] }

  /** A constant chain: every name on it known and constant, none twice, none already being expanded. */
  predicate GoodChain(consts: Consts, path: seq<string>, names: seq<string>) {
    && Distinct(names)
    && forall n :: n in names ==> n in consts && ConstantForm(consts[n]) && n !in path
  }

  /** Everything reachable from the expression is known, acyclic and constant. */
  ghost predicate Resolvable(e: Expr, consts: Consts, path: seq<string>) {
    ConstantForm(e) && forall names :: Chain(e, consts, names) ==> GoodChain(consts, path, names)
  }

  lemma ResolvableParts(e: Expr, x: Expr, consts: Consts, path: seq<string>)
    requires Resolvable(e, consts, path) && x in Parts(e) && !e.Ident?
    ensures Resolvable(x, consts, path)
  {
    forall names | Chain(x, consts, names) ensures GoodChain(consts, path, names) {
      assert Chain(e, consts, names);
    }
  }

  lemma ResolvableName(name: string, consts: Consts, path: seq<string>)
    requires Resolvable(Ident(name), consts, path)
    ensures name in consts && name !in path && Resolvable(consts[name], consts, path + [name])
  {
    assert Chain(Ident(name), consts, [name]);
    assert name in [name];
    forall names | Chain(consts[name], consts, names) ensures GoodChain(consts, path + [name], names) {
      var longer := [name] + names;
      assert longer[1..] == names;
      assert Chain(Ident(name), consts, longer);
      assert forall k :: 0 <= k < |names| ==> longer[k + 1] == names[k];
      assert forall n :: n in names ==> n in longer;
    }
  }

  lemma {:induction false} ResolvableSucceeds(e: Expr, consts: Consts, path: seq<string>)
    requires Resolvable(e, consts, path)
    ensures Resolve(e, consts, path).Ok?
    decreases consts.Keys - SetOf(path), e
  {
    hide Resolvable;
    if e.Ident? {
      ResolvableName(e.name, consts, path);
      Shrinks(e.name, consts, path);
      ResolvableSucceeds(consts[e.name], consts, path + [e.name]);
    } else {
      PartsResolve(e, consts, path);
      ResolvableConstant(e, consts, path);
      forall x | x in Parts(e) ensures Resolve(x, consts, path).Ok? {
        ResolvableParts(e, x, consts, path);
        ResolvableSucceeds(x, consts, path);
      }
    }
  }

  lemma ResolvableConstant(e: Expr, consts: Consts, path: seq<string>)
    requires Resolvable(e, consts, path) && !e.Ident?
    ensures Constant(e)
  {
  }

  lemma {:induction false} ResolvedForm(e: Expr, consts: Consts, path: seq<string>)
    requires Resolve(e, consts, path).Ok?
    ensures ConstantForm(e)
    decreases consts.Keys - SetOf(path), e
  {
    hide Resolve;
    if !e.Ident? {
      PartsResolve(e, consts, path);
      forall x | x in Parts(e) ensures ConstantForm(x) {
        ResolvedForm(x, consts, path);
      }
    }
  }

  /** Every name mentioned was itself resolved. */
  lemma {:induction false} MentionedResolve(e: Expr, consts: Consts, path: seq<string>, name: string)
    requires Resolve(e, consts, path).Ok? && Mentions(e, name)
    ensures name in consts && name !in path && Resolve(consts[name], consts, path + [name]).Ok?
    decreases e
  {
    if e != Ident(name) {
      hide Resolve;
      var x :| x in Parts(e) && Mentions(x, name);
      PartsResolve(e, consts, path);
      MentionedResolve(x, consts, path, name);
    }
  }

  lemma {:induction false} ResolvedChains(e: Expr, consts: Consts, path: seq<string>, names: seq<string>)
    requires Resolve(e, consts, path).Ok? && Chain(e, consts, names)
    ensures GoodChain(consts, path, names)
    decreases |names|
  {
    hide Resolve, Mentions, ConstantForm;
    if names != [] {
      var n := names[0];
      MentionedResolve(e, consts, path, n);
      ResolvedForm(consts[n], consts, path + [n]);
      ChainTail(e, consts, names);
      ResolvedChains(consts[n], consts, path + [n], names[1..]);
      assert names == [n] + names[1..];
    }
  }

  lemma ChainTail(e: Expr, consts: Consts, names: seq<string>)
    requires Chain(e, consts, names) && names != [] && names[0] in consts
    ensures Chain(consts[names[0]], consts, names[1..])
  {
  }

  /** An initializer resolves if and only if everything reachable from it is known, acyclic and constant. */
  lemma ResolvesExactlyWhen(e: Expr, consts: Consts, path: seq<string>)
    ensures Resolve(e, consts, path).Ok? <==> Resolvable(e, consts, path)
  {
    if Resolve(e, consts, path).Ok? {
      ResolvedForm(e, consts, path);
      forall names | Chain(e, consts, names) ensures GoodChain(consts, path, names) {
        ResolvedChains(e, consts, path, names);
      }
    } else if Resolvable(e, consts, path) {
      ResolvableSucceeds(e, consts, path);
    }
  }

  // ----- failure -----

  /** What an error says about the names that led to it. */
  predicate Explained(e: Expr, consts: Consts, path: seq<string>, error: ResolveError, names: seq<string>) {
    && Chain(e, consts, names)
    && match error
       case UnknownConstant(name) => names != [] && names[|names| - 1] == name && name !in consts
       case ConstantCycle(whole) => names != [] && whole == path + names && names[|names| - 1] in whole[..|whole| - 1]
       case NotConstant => if names == [] then !ConstantForm(e) else (var n := names[|names| - 1]; n in consts && !ConstantForm(consts[n]))
  }

  lemma ExplainedPart(e: Expr, x: Expr, consts: Consts, path: seq<string>, error: ResolveError, names: seq<string>)
    requires x in Parts(e) && Explained(x, consts, path, error, names) && !e.Ident?
    ensures Explained(e, consts, path, error, names)
  {
  }

  lemma ExplainedName(name: string, consts: Consts, path: seq<string>, error: ResolveError, names: seq<string>)
    requires name in consts && Explained(consts[name], consts, path + [name], error, names)
    ensures Explained(Ident(name), consts, path, error, [name] + names)
  {
    var longer := [name] + names;
    assert longer[1..] == names;
    assert (path + [name]) + names == path + longer;
  }

  /** No error is made up: an unknown name is reachable, a cycle is a chain that comes back, a bad construct is there. */
  lemma {:induction false} ErrorExplained(e: Expr, consts: Consts, path: seq<string>) returns (names: seq<string>)
    requires Resolve(e, consts, path).Err?
    ensures Explained(e, consts, path, Resolve(e, consts, path).error, names)
    decreases consts.Keys - SetOf(path), e
  {
    var error := Resolve(e, consts, path).error;
    if e.Ident? {
      if e.name in consts && e.name !in path {
        Shrinks(e.name, consts, path);
        var rest := ErrorExplained(consts[e.name], consts, path + [e.name]);
        hide Resolve;
        ExplainedName(e.name, consts, path, error, rest);
        names := [e.name] + rest;
      } else {
        names := [e.name];
      }
    } else {
      PartsResolve(e, consts, path);
      hide Resolve;
      if Constant(e) {
        var x :| x in Parts(e) && Resolve(x, consts, path) == Err(error);
        names := ErrorExplained(x, consts, path);
        ExplainedPart(e, x, consts, path, error, names);
      } else {
        names := [];
      }
    }
  }

  // ----- meaning -----

  /** Any meaning that computes the value of a construct from the values of its parts. */
  datatype Meaning<!V> = Meaning(combine: (Shape, seq<V>) -> V)

  function Value<V>(e: Expr, m: Meaning<V>, names: string -> V): V
    decreases e
  {
    if e.Ident? then names(e.name)
    else m.combine(ShapeOf(e), seq(|Parts(e)|, k requires 0 <= k < |Parts(e)| => PartValue(e, k, m, names)))
  }

  function PartValue<V>(e: Expr, k: nat, m: Meaning<V>, names: string -> V): V
    requires k < |Parts(e)|
    decreases e, 0
  {
    assert Parts(e)[k] in Parts(e);
    Value(Parts(e)[k], m, names)
  }

  /** Each constant that resolves has the value of its initializer. */
  ghost predicate Solves<V(!new)>(consts: Consts, m: Meaning<V>, names: string -> V) {
    forall n :: n in consts && Resolve(Ident(n), consts, []).Ok? ==> names(n) == Value(consts[n], m, names)
  }

  /** What resolves under some constants being expanded resolves to the same thing on its own. */
  lemma ResolvesAlone(e: Expr, consts: Consts, path: seq<string>)
    requires Resolve(e, consts, path).Ok?
    ensures Resolve(e, consts, []) == Resolve(e, consts, path)
  {
    hide Resolve;
    ResolvesExactlyWhen(e, consts, path);
    assert Resolvable(e, consts, []);
    ResolvesExactlyWhen(e, consts, []);
    PathIrrelevant(e, consts, [], path);
  }

  lemma {:induction false} PathIrrelevant(e: Expr, consts: Consts, p: seq<string>, q: seq<string>)
    requires Resolve(e, consts, p).Ok? && Resolve(e, consts, q).Ok?
    ensures Resolve(e, consts, p) == Resolve(e, consts, q)
    decreases consts.Keys - SetOf(p), e
  {
    if e.Ident? {
      Shrinks(e.name, consts, p);
      PathIrrelevant(consts[e.name], consts, p + [e.name], q + [e.name]);
    } else {
      PartsResolve(e, consts, p);
      PartsResolve(e, consts, q);
      var r, t := Resolve(e, consts, p).value, Resolve(e, consts, q).value;
      hide Resolve;
      forall k | 0 <= k < |Parts(e)| ensures Parts(r)[k] == Parts(t)[k] {
        assert Parts(e)[k] in Parts(e);
        PathIrrelevant(Parts(e)[k], consts, p, q);
      }
      assert Parts(r) == Parts(t);
      SameExpr(r, t);
    }
  }

  /** Shape and parts make the expression. */
  lemma {:induction false} SameExpr(a: Expr, b: Expr)
    requires ShapeOf(a) == ShapeOf(b) && Parts(a) == Parts(b) && Constant(a)
    ensures a == b
  {
    match a
    case StructLit(_, fields) => SameFields(fields, b.fields);
    case MapLit(_, pairs) => SamePairs(pairs, b.pairs);
    case Cast(inner, _) => assert Parts(b)[0] == inner;
    case UnaryExpr(_, operand) => assert Parts(b)[0] == operand;
    case Paren(inner) => assert Parts(b)[0] == inner;
    case BinaryExpr(_, left, right) => assert Parts(b)[0] == left && Parts(b)[1] == right;
    case _ =>
  }

  lemma {:induction false} SameFields(a: seq<FieldInit>, b: seq<FieldInit>)
    requires FieldNames(a) == FieldNames(b) && FieldParts(a) == FieldParts(b)
    ensures a == b
  {
    if a != [] && b != [] {
      assert FieldNames(a)[0] == FieldNames(b)[0] && FieldNames(a)[1..] == FieldNames(b)[1..];
      assert FieldParts(a)[0] == FieldParts(b)[0] && FieldParts(a)[1..] == FieldParts(b)[1..];
      assert FieldNames(a)[1..] == FieldNames(a[1..]) && FieldNames(b)[1..] == FieldNames(b[1..]);
      assert FieldParts(a)[1..] == FieldParts(a[1..]) && FieldParts(b)[1..] == FieldParts(b[1..]);
      SameFields(a[1..], b[1..]);
      assert a == [a[0]] + a[1..] && b == [b[0]] + b[1..];
    }
  }

  lemma {:induction false} SamePairs(a: seq<MapEntry>, b: seq<MapEntry>)
    requires PairParts(a) == PairParts(b)
    ensures a == b
  {
    if a != [] && b != [] {
      assert PairParts(a)[0] == PairParts(b)[0] && PairParts(a)[1] == PairParts(b)[1];
      assert PairParts(a)[2..] == PairParts(a[1..]) && PairParts(b)[2..] == PairParts(b[1..]);
      SamePairs(a[1..], b[1..]);
      assert a == [a[0]] + a[1..] && b == [b[0]] + b[1..];
    }
  }

  /** The result mentions no constant and keeps the value of the initializer, whatever constructs mean. */
  lemma {:induction false} ResolvedMeaning<V(!new)>(e: Expr, consts: Consts, path: seq<string>, m: Meaning<V>, names: string -> V, other: string -> V)
    requires Resolve(e, consts, path).Ok? && Solves(consts, m, names)
    ensures Value(Resolve(e, consts, path).value, m, other) == Value(e, m, names)
    decreases consts.Keys - SetOf(path), e
  {
    if e.Ident? {
      ResolvesAlone(e, consts, path);
      Shrinks(e.name, consts, path);
      ResolvedMeaning(consts[e.name], consts, path + [e.name], m, names, other);
    } else {
      PartsResolve(e, consts, path);
      var r := Resolve(e, consts, path).value;
      hide Resolve;
      var before := seq(|Parts(e)|, k requires 0 <= k < |Parts(e)| => PartValue(e, k, m, names));
      var after := seq(|Parts(r)|, k requires 0 <= k < |Parts(r)| => PartValue(r, k, m, other));
      forall k | 0 <= k < |Parts(e)| ensures before[k] == after[k] {
        assert Parts(e)[k] in Parts(e);
        ResolvedMeaning(Parts(e)[k], consts, path, m, names, other);
      }
      assert before == after;
    }
  }

  /** The values that resolution gives to the constants; `other` covers names that do not resolve. */
  function Solution<V>(consts: Consts, m: Meaning<V>, other: string -> V): string -> V {
    n => var r := Resolve(Ident(n), consts, []); if r.Ok? then Value(r.value, m, other) else other(n)
  }

  /** Such values always exist, so the meaning of a resolved initializer is never vacuous. */
  lemma SolutionSolves<V(!new)>(consts: Consts, m: Meaning<V>, other: string -> V)
    ensures Solves(consts, m, Solution(consts, m, other))
  {
    var names := Solution(consts, m, other);
    forall n | n in consts && Resolve(Ident(n), consts, []).Ok? ensures names(n) == Value(consts[n], m, names) {
      NameResolves(n, consts, []);
      SolutionValue(consts[n], consts, [] + [n], m, other);
    }
  }

  lemma NameResolves(name: string, consts: Consts, path: seq<string>)
    requires name in consts && name !in path
    ensures Resolve(Ident(name), consts, path) == Resolve(consts[name], consts, path + [name])
  {
    assert Resolve(Ident(name), consts, path) == ResolveName(name, consts, path);
  }

  lemma {:induction false} SolutionValue<V(!new)>(e: Expr, consts: Consts, path: seq<string>, m: Meaning<V>, other: string -> V)
    requires Resolve(e, consts, path).Ok?
    ensures Value(Resolve(e, consts, path).value, m, other) == Value(e, m, Solution(consts, m, other))
    decreases e
  {
    if e.Ident? {
      ResolvesAlone(e, consts, path);
    } else {
      PartsResolve(e, consts, path);
      var r := Resolve(e, consts, path).value;
      hide Resolve;
      var names := Solution(consts, m, other);
      var before := seq(|Parts(e)|, k requires 0 <= k < |Parts(e)| => PartValue(e, k, m, names));
      var after := seq(|Parts(r)|, k requires 0 <= k < |Parts(r)| => PartValue(r, k, m, other));
      forall k | 0 <= k < |Parts(e)| ensures before[k] == after[k] {
        assert Parts(e)[k] in Parts(e);
        SolutionValue(Parts(e)[k], consts, path, m, other);
      }
      assert before == after;
    }
  }

  lemma {:induction false} ResolvedNameFree(e: Expr, consts: Consts, path: seq<string>, name: string)
    requires Resolve(e, consts, path).Ok?
    ensures !Mentions(Resolve(e, consts, path).value, name)
    decreases consts.Keys - SetOf(path), e
  {
    if e.Ident? {
      Shrinks(e.name, consts, path);
      ResolvedNameFree(consts[e.name], consts, path + [e.name], name);
    } else {
      PartsResolve(e, consts, path);
      var r := Resolve(e, consts, path).value;
      hide Resolve;
      forall x | x in Parts(r) ensures !Mentions(x, name) {
        var k :| 0 <= k < |Parts(r)| && Parts(r)[k] == x;
        assert Parts(e)[k] in Parts(e);
        ResolvedNameFree(Parts(e)[k], consts, path, name);
      }
    }
  }

  // ----- the resolver and its stack -----

  /** The names being expanded, shared by the whole recursion. */
  class NameStack {
    var names: seq<string>

    constructor ()
      ensures names == []
    {
      names := [];
    }
  }

  /** `resolve_const_expr`: one name is pushed around each expansion, and on success the stack is as before. */
  method ResolveConstExpr(e: Expr, consts: Consts, stack: NameStack) returns (r: Resolved)
    modifies stack
    ensures r == Resolve(e, consts, old(stack.names))
    ensures r.Ok? ==> stack.names == old(stack.names)
    ensures old(stack.names) <= stack.names
    decreases consts.Keys - SetOf(stack.names), e, 2
  {
    hide ResolveAll, ResolveFields, ResolvePairs;
    match e
    case LiteralExpr(_) => return Ok(e);
    case Ident(name) =>
      if name !in consts {
        return Err(UnknownConstant(name));
      }
      if name in stack.names {
        return Err(ConstantCycle(stack.names + [name]));
      }
      Shrinks(name, consts, stack.names);
      stack.names := stack.names + [name];
      var resolved :- ResolveConstExpr(consts[name], consts, stack);
      stack.names := stack.names[..|stack.names| - 1];
      return Ok(resolved);
    case Cast(inner, ty) =>
      var v :- ResolveConstExpr(inner, consts, stack);
      return Ok(Cast(v, ty));
    case UnaryExpr(op, operand) =>
      var v :- ResolveConstExpr(operand, consts, stack);
      return Ok(UnaryExpr(op, v));
    case BinaryExpr(op, left, right) =>
      var l :- ResolveConstExpr(left, consts, stack);
      var v :- ResolveConstExpr(right, consts, stack);
      return Ok(BinaryExpr(op, l, v));
    case Paren(inner) =>
      var v :- ResolveConstExpr(inner, consts, stack);
      return Ok(Paren(v));
    case MapLit(ty, pairs) =>
      var vs :- ResolveEntries(pairs, consts, stack);
      return Ok(MapLit(ty, vs));
    case ArrayLit(ty, elements) =>
      var vs :- ResolveElements(elements, consts, stack);
      return Ok(ArrayLit(ty, vs));
    case StructLit(name, fields) =>
      var vs :- ResolveFieldInits(fields, consts, stack);
      return Ok(StructLit(name, vs));
    case _ => return Err(NotConstant);
  }

  /** Elements resolved so far, then the rest of the list. */
  function Onto<T>(done: seq<T>, rest: Result<seq<T>, ResolveError>): Result<seq<T>, ResolveError> {
    match rest
    case Ok(rs) => Ok(done + rs)
    case Err(error) => Err(error)
  }

  lemma OntoNext<T>(done: seq<T>, x: T, rest: Result<seq<T>, ResolveError>)
    ensures Onto(done + [x], rest) == Onto(done, Onto([x], rest))
  {
    if rest.Ok? {
      assert (done + [x]) + rest.value == done + ([x] + rest.value);
    }
  }

  lemma OntoEnds<T>(done: seq<T>)
    ensures Onto(done, Ok([])) == Ok(done)
    ensures forall rest: Result<seq<T>, ResolveError> :: Onto([], rest) == rest
  {
    assert done + [] == done;
    forall rest: Result<seq<T>, ResolveError> ensures Onto([], rest) == rest {
      if rest.Ok? {
        assert [] + rest.value == rest.value;
      }
    }
  }

  method ResolveElements(es: seq<Expr>, consts: Consts, stack: NameStack) returns (r: Result<seq<Expr>, ResolveError>)
    modifies stack
    ensures r == ResolveAll(es, consts, old(stack.names))
    ensures r.Ok? ==> stack.names == old(stack.names)
    ensures old(stack.names) <= stack.names
    decreases consts.Keys - SetOf(stack.names), es, 1
  {
    hide Resolve, Onto;
    ghost var path := stack.names;
    var done: seq<Expr> := [];
    var k := 0;
    OntoEnds(done);
    while k < |es|
      invariant 0 <= k <= |es| && stack.names == path
      invariant Onto(done, ResolveAll(es[k..], consts, path)) == ResolveAll(es, consts, path)
    {
      AllNext(es[k..], consts, path, done);
      assert es[k..][1..] == es[k + 1..];
      var v :- ResolveConstExpr(es[k], consts, stack);
      done := done + [v];
      k := k + 1;
    }
    OntoEnds(done);
    return Ok(done);
  }

  lemma AllNext(es: seq<Expr>, consts: Consts, path: seq<string>, done: seq<Expr>)
    requires es != []
    ensures var head := Resolve(es[0], consts, path);
            var whole := Onto(done, ResolveAll(es, consts, path));
            if head.Err? then whole == Err(head.error)
            else whole == Onto(done + [head.value], ResolveAll(es[1..], consts, path))
  {
    hide Resolve;
    var head := Resolve(es[0], consts, path);
    if head.Ok? {
      OntoNext(done, head.value, ResolveAll(es[1..], consts, path));
    }
  }

  method ResolveFieldInits(fields: seq<FieldInit>, consts: Consts, stack: NameStack) returns (r: Result<seq<FieldInit>, ResolveError>)
    modifies stack
    ensures r == ResolveFields(fields, consts, old(stack.names))
    ensures r.Ok? ==> stack.names == old(stack.names)
    ensures old(stack.names) <= stack.names
    decreases consts.Keys - SetOf(stack.names), fields, 1
  {
    hide Resolve, Onto;
    ghost var path := stack.names;
    var done: seq<FieldInit> := [];
    var k := 0;
    OntoEnds(done);
    while k < |fields|
      invariant 0 <= k <= |fields| && stack.names == path
      invariant Onto(done, ResolveFields(fields[k..], consts, path)) == ResolveFields(fields, consts, path)
    {
      FieldsNext(fields[k..], consts, path, done);
      assert fields[k..][1..] == fields[k + 1..];
      var v :- ResolveConstExpr(fields[k].value, consts, stack);
      done := done + [FieldInit(fields[k].name, v)];
      k := k + 1;
    }
    OntoEnds(done);
    return Ok(done);
  }

  lemma FieldsNext(fields: seq<FieldInit>, consts: Consts, path: seq<string>, done: seq<FieldInit>)
    requires fields != []
    ensures var head := Resolve(fields[0].value, consts, path);
            var whole := Onto(done, ResolveFields(fields, consts, path));
            if head.Err? then whole == Err(head.error)
            else whole == Onto(done + [FieldInit(fields[0].name, head.value)], ResolveFields(fields[1..], consts, path))
  {
    hide Resolve;
    var head := Resolve(fields[0].value, consts, path);
    if head.Ok? {
      OntoNext(done, FieldInit(fields[0].name, head.value), ResolveFields(fields[1..], consts, path));
    }
  }

  method ResolveEntries(pairs: seq<MapEntry>, consts: Consts, stack: NameStack) returns (r: Result<seq<MapEntry>, ResolveError>)
    modifies stack
    ensures r == ResolvePairs(pairs, consts, old(stack.names))
    ensures r.Ok? ==> stack.names == old(stack.names)
    ensures old(stack.names) <= stack.names
    decreases consts.Keys - SetOf(stack.names), pairs, 1
  {
    hide Resolve, ResolvePair, Onto;
    ghost var path := stack.names;
    var done: seq<MapEntry> := [];
    var k := 0;
    OntoEnds(done);
    while k < |pairs|
      invariant 0 <= k <= |pairs| && stack.names == path
      invariant Onto(done, ResolvePairs(pairs[k..], consts, path)) == ResolvePairs(pairs, consts, path)
    {
      PairsNext(pairs[k..], consts, path, done);
      assert pairs[k..][1..] == pairs[k + 1..];
      var pair :- ResolveEntry(pairs[k], consts, stack);
      done := done + [pair];
      k := k + 1;
    }
    OntoEnds(done);
    return Ok(done);
  }

  lemma PairsNext(pairs: seq<MapEntry>, consts: Consts, path: seq<string>, done: seq<MapEntry>)
    requires pairs != []
    ensures var head := ResolvePair(pairs[0], consts, path);
            var whole := Onto(done, ResolvePairs(pairs, consts, path));
            if head.Err? then whole == Err(head.error)
            else whole == Onto(done + [head.value], ResolvePairs(pairs[1..], consts, path))
  {
    hide ResolvePair;
    var head := ResolvePair(pairs[0], consts, path);
    if head.Ok? {
      OntoNext(done, head.value, ResolvePairs(pairs[1..], consts, path));
    }
  }

  /** The key before the value. */
  method ResolveEntry(pair: MapEntry, consts: Consts, stack: NameStack) returns (r: Result<MapEntry, ResolveError>)
    modifies stack
    ensures r == ResolvePair(pair, consts, old(stack.names))
    ensures r.Ok? ==> stack.names == old(stack.names)
    ensures old(stack.names) <= stack.names
    decreases consts.Keys - SetOf(stack.names), pair, 0
  {
    hide Resolve;
    var key :- ResolveConstExpr(pair.key, consts, stack);
    var value :- ResolveConstExpr(pair.value, consts, stack);
    return Ok(MapEntry(key, value));
  }
}
