/** Which `name {` starts a struct literal: by the first character of the name, on tokens. */
module StructLiterals {
  import opened Prelude
  import opened Ast
  import opened Grammar
  import opened Parser
  import opened ParserExact

  /** `name { field: value, ... }` as tokens. */
  function LiteralTokens(name: string, fields: seq<(string, Expr)>): seq<Token> {
    [Word(name), LBrace] + FieldTokens(fields) + [RBrace]
  }

  function FieldTokens(fields: seq<(string, Expr)>): seq<Token> {
    if fields == [] then []
    else
      [Word(fields[0].0), Colon] + Yield(fields[0].1) +
      if |fields| == 1 then [] else [Comma] + FieldTokens(fields[1..])
  }

  function Inits(fields: seq<(string, Expr)>): (r: seq<FieldInit>)
    ensures |r| == |fields| && forall k :: 0 <= k < |fields| ==> r[k] == FieldInit(fields[k].0, fields[k].1)
  {
    if fields == [] then [] else [FieldInit(fields[0].0, fields[0].1)] + Inits(fields[1..])
  }

  lemma {:induction false} FieldTokensSpell(fields: seq<(string, Expr)>)
    ensures FieldsYield(Inits(fields)) == FieldTokens(fields)
    decreases |fields|
  {
    if fields != [] {
      var head, rest := fields[0], Inits(fields)[1..];
      assert rest == Inits(fields[1..]);
      FieldTokensSpell(fields[1..]);
      var field := FieldInit(head.0, head.1);
      assert FieldYield(field) == [Word(head.0), Colon] + Yield(head.1);
      if |fields| > 1 {
        assert (FieldYield(field) + [Comma]) + FieldsYield(rest) == FieldYield(field) + ([Comma] + FieldsYield(rest));
      }
    }
  }

  lemma {:induction false} ValuesRespect(fields: seq<(string, Expr)>)
    requires forall k :: 0 <= k < |fields| ==> Respects(fields[k].1)
    ensures FieldsRespect(Inits(fields))
    decreases |fields|
  {
    hide Respects;
    if fields != [] {
      assert Inits(fields)[1..] == Inits(fields[1..]);
      ValuesRespect(fields[1..]);
    }
  }

  /** After a name with a capital ASCII first letter, a brace starts a struct literal, with any fields in their order. */
  lemma {:induction false} CapitalStartsLiteral(name: string, fields: seq<(string, Expr)>)
    requires name != [] && 'A' <= name[0] <= 'Z'
    requires forall k :: 0 <= k < |fields| ==> Respects(fields[k].1)
    ensures var s := LiteralTokens(name, fields); ParseExpr(s, 0, 0) == Ok(Parsed(StructLit(name, Inits(fields)), |s|))
  {
    hide ParseExpr, FieldsYield, FieldTokens;
    var e, s := StructLit(name, Inits(fields)), LiteralTokens(name, fields);
    FieldTokensSpell(fields);
    ValuesRespect(fields);
    assert [Word(name)] + [LBrace] == [Word(name), LBrace];
    ParsesWhole(s, e);
  }

  lemma EmptyLiteral(name: string)
    requires name != [] && 'A' <= name[0] <= 'Z'
    ensures ParseExpr([Word(name), LBrace, RBrace], 0, 0) == Ok(Parsed(StructLit(name, []), 3))
  {
    hide ParseExpr;
    CapitalStartsLiteral(name, []);
    assert LiteralTokens(name, []) == [Word(name), LBrace, RBrace];
  }

  /** After any other name the expression ends at the brace, whatever follows: `for x in arr { ... }`. */
  lemma {:induction false} OtherNamesEnd(s: seq<Token>, i: nat, name: string, min: nat)
    requires i + 1 < |s| && s[i] == Word(name) && s[i + 1] == LBrace
    requires name == [] || !('A' <= name[0] <= 'Z')
    ensures ParseExpr(s, i, min) == Ok(Parsed(Ident(name), i + 1))
  {
    assert !EmptyBrackets(s, i + 1);
    assert ParseTypeBase(s, i) == Ok(Parsed(NamedType(name), i + 1));
    assert ParseType(s, i) == Ok(Parsed(NamedType(name), i + 1));
    assert LiteralType(s, i) == None;
    assert ParsePrimary(s, i) == Ok(Parsed(Ident(name), i + 1));
    assert Chain(s, i + 1, Ident(name)) == Ok(Parsed(Ident(name), i + 1));
    assert ParseUnary(s, i) == ParsePostfix(s, i);
    assert ParseOperand(s, i) == Ok(Parsed(Ident(name), i + 1));
  }

  lemma {:induction false} OtherNamesFirst(name: string, rest: seq<Token>)
    requires name == [] || !('A' <= name[0] <= 'Z')
    ensures ParseExpr([Word(name), LBrace] + rest, 0, 0) == Ok(Parsed(Ident(name), 1))
  {
    hide ParseExpr;
    OtherNamesEnd([Word(name), LBrace] + rest, 0, name, 0);
  }

  /** Inside other tokens too: a capital name and a brace never end the expression at the brace. */
  lemma {:induction false} CapitalGoesOn(s: seq<Token>, i: nat, name: string, min: nat)
    requires i + 1 < |s| && s[i] == Word(name) && s[i + 1] == LBrace
    requires name != [] && 'A' <= name[0] <= 'Z'
    ensures ParseExpr(s, i, min) != Ok(Parsed(Ident(name), i + 1))
  {
    hide ParseFields;
    assert !EmptyBrackets(s, i + 1);
    assert ParseTypeBase(s, i) == Ok(Parsed(NamedType(name), i + 1));
    assert ParseType(s, i) == Ok(Parsed(NamedType(name), i + 1));
    assert LiteralType(s, i) == None;
    assert ParsePrimary(s, i) == Ok(Parsed(Ident(name), i + 1));
    assert Chain(s, i + 1, Ident(name)).Ok? ==> Chain(s, i + 1, Ident(name)).value.next > i + 1;
    assert ParseUnary(s, i) == ParsePostfix(s, i);
    assert ParseOperand(s, i).Ok? ==> ParseOperand(s, i).value.next > i + 1;
  }
}
