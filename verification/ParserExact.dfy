/** Which trees the expression parser returns: exactly those that respect precedence. */
module ParserExact {
  import opened Prelude
  import opened Bytecode
  import opened Ast
  import opened Grammar
  import opened Parser
  import opened ParserComplete
  import opened ParserSound

  /**
   * `parse_expr_bp` returns a tree if and only if that tree spells the tokens it takes, respects
   * precedence, binds at least as tightly as asked, and is not continued by the next token.
   */
  lemma ParseExact(s: seq<Token>, i: nat, min: nat, e: Expr, j: nat)
    requires min <= PowerAt(CAST)
    ensures ParseExpr(s, i, min) == Ok(Parsed(e, j)) <==>
            && Respects(e) && PowerAt(Level(e)) >= min
            && j == i + |Yield(e)| <= |s| && s[i..j] == Yield(e) && Ends(s, j, e, min)
  {
    hide ParseExpr, Respects, Yield, Ends, Level, PowerAt;
    if ParseExpr(s, i, min) == Ok(Parsed(e, j)) {
      ExprSound(s, i, min);
    } else if Respects(e) && PowerAt(Level(e)) >= min && Spells(s, i, Yield(e)) && Ends(s, i + |Yield(e)|, e, min) {
      ExprParsed(s, i, e, min);
    }
  }

  /** The whole input is one expression exactly when some tree that respects precedence spells it. */
  lemma ParsesWhole(s: seq<Token>, e: Expr)
    ensures ParseExpr(s, 0, 0) == Ok(Parsed(e, |s|)) <==> Respects(e) && Yield(e) == s
  {
    hide ParseExpr, Respects, Yield, Ends, Level;
    ParseExact(s, 0, 0, e, |s|);
    EofEnds(s, e);
    assert s[0..|s|] == s;
  }

  lemma EofEnds(s: seq<Token>, e: Expr)
    ensures Ends(s, |s|, e, 0)
  {
    hide Closes;
    PlainCloses(s, |s|, e);
  }

  /** No token sequence has two trees that respect precedence. */
  lemma Unambiguous(a: Expr, b: Expr)
    requires Respects(a) && Respects(b) && Yield(a) == Yield(b)
    ensures a == b
  {
    hide ParseExpr, Respects, Yield;
    ParsesWhole(Yield(a), a);
    ParsesWhole(Yield(a), b);
  }
}
