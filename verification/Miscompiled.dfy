/** Two small functions that the structured path compiles rightly and the bytecode optimizer then breaks. */
module Miscompiled {
  import opened Prelude
  import opened Bytecode
  import opened Disasm
  import opened Vm
  import opened Ast
  import opened Semantics
  import opened CodegenSpec
  import opened CodegenSteps
  import opened CodegenEnv
  import opened CodegenFunction
  import opened Layout
  import opened Shorten
  import opened Peephole
  import opened PeepholeFixpoint
  import opened PeepholeLayout
  import PeepholeLine

  lemma {:induction false} ScanFirst(pass: Pass, r: Routine, from: nat, at: nat)
    requires from <= at < |r.code| && Applies(pass, r, at)
    requires forall k :: from <= k < at ==> !Applies(pass, r, k)
    ensures After(pass, at) <= |Apply(pass, r, at).code|
    ensures Scan(pass, r, from) == (Scan(pass, Apply(pass, r, at), After(pass, at)).0, true)
    decreases at - from
  {
    hide Applies, Apply;
    ApplyLength(pass, r, at);
    if from < at {
      ScanFirst(pass, r, from + 1, at);
    }
  }

  lemma {:induction false} ScanQuiet(pass: Pass, r: Routine, from: nat)
    requires from <= |r.code| && QuietFrom(pass, r, from)
    ensures Scan(pass, r, from) == (r, false)
  {
    hide QuietFrom, Scan, Measure;
    ScanShrinks(pass, r, from);
  }

  /** Two rounds, the second of which finds nothing. */
  lemma {:induction false} OptimizeInOne(r: Routine, out: Routine, rounds: nat)
    requires rounds >= 2 && Round(r) == (out, true) && Settled(out)
    ensures Optimize(r, rounds) == out
  {
    hide Round, Settled, Measure;
    RoundShrinks(out);
    assert Optimize(out, rounds - 1) == out;
  }

  /** What can make a pass apply, by opcode alone. */
  lemma OpcodesDecide(pass: Pass, r: Routine, index: nat)
    requires index < |r.code| && Applies(pass, r, index)
    ensures match pass
            case MergeLoads => index + 1 < |r.code| && LoadSlot(r.code[index]).Some? && LoadSlot(r.code[index + 1]) == LoadSlot(r.code[index])
            case DropDup => r.code[index].opcode == DUP && index + 1 < |r.code| && r.code[index + 1].opcode == DROP
            case DropStore => StoreSlot(r.code[index]).Some? && index + 1 < |r.code| && LoadLocalSlot(r.code[index + 1]).Some?
            case PeelJump => r.code[index].opcode == JMP || r.code[index].opcode == JMP_L
            case Narrow => CanShorten(r.code[index])
  {
    hide TryDelete, Relayout, LoadSlot, LoadLocalSlot, StoreSlot, StillLoaded, CanShorten;
  }

  lemma {:induction false} TwoStatements(env: Env, stmts: seq<Stmt>, first: Code, env1: Env, second: Code, env2: Env)
    requires |stmts| == 2 && StmtCode(env, stmts[0]) == Ok((first, env1)) && StmtCode(env1, stmts[1]) == Ok((second, env2))
    ensures StmtsCode(env, stmts) == Ok((first + second, env2))
  {
    hide StmtCode;
    assert stmts[1..][1..] == [] && stmts[1..][0] == stmts[1] && second + [] == second;
    assert StmtsCode(env2, []) == Ok(([], env2));
    assert StmtsCode(env1, stmts[1..]) == Ok((second, env2));
  }

  lemma OneParameter(param: string, stmts: seq<Stmt>, body: Code, env: Env)
    requires StmtsCode(Enter(StartEnv([param])), stmts) == Ok((body, env)) && env.next < 256
    ensures FunctionCode([param], false, stmts) == Ok([Instruction(INITSLOT, [env.next, 1])] + body)
  {
    hide StmtsCode;
    assert body + [] == body;
  }

  // ----- bool f(int x) { var y = 1; return x < y; } -----

  const LESS: seq<Stmt> := [
    Var("y", Some(LiteralExpr(IntLiteral("1")))), ReturnStmt(Some(BinaryExpr(Lt, Ident("x"), Ident("y"))))]

  const LESS_CODE: Code := [
    Instruction(INITSLOT, [1, 1]), Op(PUSH0 + 1), Op(STLOC0), Op(LDARG0), Op(LDLOC0), Op(LT), Op(RET)]

  /** The load of `y` has become a copy of `x`. */
  const LESS_MERGED: Code := [
    Instruction(INITSLOT, [1, 1]), Op(PUSH0 + 1), Op(STLOC0), Op(LDARG0), Op(DUP), Op(LT), Op(RET)]

  lemma OneLiteral()
    ensures LiteralCode(IntLiteral("1")) == Ok(Op(PUSH0 + 1))
  {
    assert WithoutUnderscores("1") == "1" by {
      assert "1"[1..] == [] && WithoutUnderscores([]) == [];
    }
    assert Digits("1", 10) == Some(1);
    assert ParseSigned("1", 10) == Some(1);
  }

  lemma {:induction false} LessCompiled()
    ensures FunctionCode(["x"], false, LESS) == Ok(LESS_CODE)
  {
    hide LiteralCode, ByteLen, ResolveLocal;
    OneLiteral();
    var env := Enter(StartEnv(["x"]));
    ArgSlotsOk(["x"]);
    var env1 := DeclareLocal(env, "y").value;
    assert ["x"][0] == "x" && "x" in ["x"];
    assert env1.args["x"] == 0;
    assert ResolveLocal(env1.scopes, "y") == Some(0) && ResolveLocal(env1.scopes, "x") == None by { TwoScopes("y", "x"); }
    assert ExprCode(env1, LiteralExpr(IntLiteral("1"))) == Ok([Op(PUSH0 + 1)]);
    assert ExprCode(env1, Ident("x")) == Ok([Op(LDARG0)]);
    assert ExprCode(env1, Ident("y")) == Ok([Op(LDLOC0)]);
    var less := [Op(LDARG0)] + ([Op(LDLOC0)] + [Op(LT)]);
    assert ExprCode(env1, BinaryExpr(Lt, Ident("x"), Ident("y"))) == Ok(less);
    var first, second := [Op(PUSH0 + 1)] + [Op(STLOC0)], less + [Op(RET)];
    assert StmtCode(env, LESS[0]) == Ok((first, env1));
    assert StmtCode(env1, LESS[1]) == Ok((second, env1));
    TwoStatements(env, LESS, first, env1, second, env1);
    OneParameter("x", LESS, first + second, env1);
    assert [Instruction(INITSLOT, [1, 1])] + (first + second) == LESS_CODE;
  }

  lemma TwoScopes(local: string, other: string)
    requires local != other
    ensures var scopes := Cons(map[local := 0 as nat], Cons(map[], Nil));
            ResolveLocal(scopes, local) == Some(0) && ResolveLocal(scopes, other) == None
  {
    assert ResolveLocal(Nil, other) == None;
    assert ResolveLocal(Cons(map[], Nil), other) == None;
  }

  lemma {:induction false} LessOptimized(rounds: nat)
    requires rounds >= 2
    ensures Optimize(Routine(LESS_CODE, []), rounds) == Routine(LESS_MERGED, [])
  {
    hide Scan, Optimize, QuietFrom, Applies, Apply;
    var r, out := Routine(LESS_CODE, []), Routine(LESS_MERGED, []);
    LessQuiet(MergeLoads, r);
    LessMerge();
    ScanFirst(MergeLoads, r, 0, 3);
    forall pass: Pass ensures QuietFrom(pass, out, 0) {
      MergedQuiet(pass);
    }
    assert QuietFrom(MergeLoads, out, 4) by { QuietLater(MergeLoads, out, 4); }
    ScanQuiet(MergeLoads, out, 4);
    ScanQuiet(DropDup, out, 0);
    ScanQuiet(DropStore, out, 0);
    ScanQuiet(PeelJump, out, 0);
    ScanQuiet(Narrow, out, 0);
    assert Round(r) == (out, true);
    OptimizeInOne(r, out, rounds);
  }

  lemma QuietLater(pass: Pass, r: Routine, from: nat)
    requires QuietFrom(pass, r, 0)
    ensures QuietFrom(pass, r, from)
  {
  }

  lemma LessQuiet(pass: Pass, r: Routine)
    requires pass.MergeLoads? && r == Routine(LESS_CODE, [])
    ensures forall k :: 0 <= k < 3 ==> !Applies(pass, r, k)
  {
    hide Applies;
    forall k | 0 <= k < 3 ensures !Applies(pass, r, k) {
      if Applies(pass, r, k) {
        OpcodesDecide(pass, r, k);
      }
    }
  }

  lemma LessMerge()
    ensures Applies(MergeLoads, Routine(LESS_CODE, []), 3)
    ensures Apply(MergeLoads, Routine(LESS_CODE, []), 3) == Routine(LESS_MERGED, [])
  {
    assert LESS_CODE[4 := DUP_INSTRUCTION] == LESS_MERGED;
  }

  lemma {:induction false} MergedQuiet(pass: Pass)
    ensures QuietFrom(pass, Routine(LESS_MERGED, []), 0)
  {
    hide Applies;
    var r := Routine(LESS_MERGED, []);
    forall k | 0 <= k < 7 ensures !Applies(pass, r, k) {
      if Applies(pass, r, k) {
        OpcodesDecide(pass, r, k);
      }
    }
  }

  /** Data before instruction `k`, with the argument `n`, and `second` pushed by instruction 4. */
  function LessData(k: nat, n: int, second: int): Data {
    var d := Data(Nil, [if k <= 2 then Null else Int(1)], [Int(n)], []);
    if k == 0 then Data(Cons(Int(n), Nil), [], [], [])
    else if k == 2 then d.Push(Int(1))
    else if k == 4 then d.Push(Int(n))
    else if k == 5 then d.Push(Int(n)).Push(Int(second))
    else if k == 6 then d.Push(Bool(n < second))
    else d
  }

  lemma LessStep(ops: Ops, merged: bool, n: int, k: nat)
    requires k < 6
    ensures var s, second := if merged then LESS_MERGED else LESS_CODE, if merged then n else 1;
            ExecData(ops, s[k], LessData(k, n, second)) == Some(LessData(k + 1, n, second))
  {
    hide Unary, Take;
    if k == 0 {
      assert Take(LessData(0, n, 1).stack, 1) == Some(([Int(n)], Nil)) by { TakeOne(Int(n)); }
      assert seq(1, _ => Null) == [Null];
    } else if k == 2 {
      assert [Null][0 := Int(1)] == [Int(1)];
    }
  }

  lemma TakeOne(v: Value)
    ensures Take(Cons(v, Nil), 1) == Some(([v], Nil))
  {
    assert Take(Nil, 0) == Some(([], Nil)) && [v] + [] == [v];
  }

  lemma {:induction false} LessLine(ops: Ops, call: PeepholeLine.Calls, merged: bool, n: int, k: nat)
    requires k <= 6
    ensures var s, second := if merged then LESS_MERGED else LESS_CODE, if merged then n else 1;
            PeepholeLine.Line(ops, call, s, k, 0, LessData(k, n, second)) == Some(LessData(6, n, second))
    decreases 6 - k
  {
    hide ExecData, LessData;
    if k < 6 {
      LessStep(ops, merged, n, k);
      LessLine(ops, call, merged, n, k + 1);
    }
  }

  lemma LessStraight(merged: bool)
    ensures var s := if merged then LESS_MERGED else LESS_CODE; PeepholeLine.BranchFree(s) && PeepholeLine.CallFree(s)
  {
    hide PeepholeLine.IsStraight, WellFormed;
    var s := if merged then LESS_MERGED else LESS_CODE;
    forall i | i in s ensures PeepholeLine.IsStraight(i) && i.opcode != CALL_L && WellFormed(i) {
      var k :| 0 <= k < |s| && s[k] == i;
      LessInstruction(merged, k);
    }
  }

  lemma LessInstruction(merged: bool, k: nat)
    requires k < 7
    ensures var i := (if merged then LESS_MERGED else LESS_CODE)[k]; PeepholeLine.IsStraight(i) && i.opcode != CALL_L && WellFormed(i)
  {
  }

  /**
   * Compiled, the function returns whether its argument is below 1; optimized, it returns false
   * for every integer, so it is wrong for each one below 1.
   */
  lemma {:induction false} MergedLoadsBreak(ops: Ops, n: int) returns (before: Data, after: Data)
    ensures FunctionCode(["x"], false, LESS) == Ok(LESS_CODE)
    ensures Ends(ops, LESS_CODE, Data(Cons(Int(n), Nil), [], [], []), Returned(before)) && before.stack == Cons(Bool(n < 1), Nil)
    ensures Ends(ops, Optimize(Routine(LESS_CODE, []), MAX_ROUNDS).code, Data(Cons(Int(n), Nil), [], [], []), Returned(after))
    ensures after.stack == Cons(Bool(false), Nil)
  {
    hide FunctionCode, Ends, Optimize, PeepholeLine.Line, PeepholeLine.BranchFree, PeepholeLine.CallFree;
    var call: PeepholeLine.Calls := (k, stack, trace) => None;
    before, after := LessData(6, n, 1), LessData(6, n, n);
    LessCompiled();
    LessOptimized(MAX_ROUNDS);
    LessStraight(false);
    LessStraight(true);
    LessLine(ops, call, false, n, 0);
    LessLine(ops, call, true, n, 0);
    PeepholeLine.LineEnds(ops, call, LESS_CODE, LessData(0, n, 1));
    PeepholeLine.LineEnds(ops, call, LESS_MERGED, LessData(0, n, n));
  }

  // ----- int f(bool c) { if c { var x = 1; return x; } return 2; } -----

  const BRANCH: seq<Stmt> := [
    If(Ident("c"), [Var("x", Some(LiteralExpr(IntLiteral("1")))), ReturnStmt(Some(Ident("x")))], NoElse),
    ReturnStmt(Some(LiteralExpr(IntLiteral("2"))))]

  const BRANCH_CODE: Code := [
    Instruction(INITSLOT, [1, 1]), Op(LDARG0), Instruction(JMPIFNOT_L, [9, 0, 0, 0]),
    Op(PUSH0 + 1), Op(STLOC0), Op(LDLOC0), Op(RET), Op(PUSH0 + 2), Op(RET)]

  /** The pair is gone; the jump still leads 9 bytes on. */
  const BRANCH_DROPPED: Code := [
    Instruction(INITSLOT, [1, 1]), Op(LDARG0), Instruction(JMPIFNOT_L, [9, 0, 0, 0]),
    Op(PUSH0 + 1), Op(RET), Op(PUSH0 + 2), Op(RET)]

  const BRANCH_NARROWED: Code := [
    Instruction(INITSLOT, [1, 1]), Op(LDARG0), Instruction(JMPIFNOT, [6]),
    Op(PUSH0 + 1), Op(RET), Op(PUSH0 + 2), Op(RET)]

  lemma TwoLiteral()
    ensures LiteralCode(IntLiteral("2")) == Ok(Op(PUSH0 + 2))
  {
    assert WithoutUnderscores("2") == "2" by {
      assert "2"[1..] == [] && WithoutUnderscores([]) == [];
    }
    assert Digits("2", 10) == Some(2);
    assert ParseSigned("2", 10) == Some(2);
  }

  lemma ThenCode()
    ensures ByteLen(([Op(PUSH0 + 1)] + [Op(STLOC0)]) + ([Op(LDLOC0)] + [Op(RET)])) == 4
  {
    hide ByteLen;
    ByteLenAppend([Op(PUSH0 + 1)] + [Op(STLOC0)], [Op(LDLOC0)] + [Op(RET)]);
    ByteLenAppend([Op(PUSH0 + 1)], [Op(STLOC0)]);
    ByteLenAppend([Op(LDLOC0)], [Op(RET)]);
    ByteLenOne(Op(PUSH0 + 1));
    ByteLenOne(Op(STLOC0));
    ByteLenOne(Op(LDLOC0));
    ByteLenOne(Op(RET));
  }

  lemma NineForward()
    ensures Jump(JMPIFNOT_L, 9) == Ok(Instruction(JMPIFNOT_L, [9, 0, 0, 0]))
  {
    assert ToLe(0, 0) == [];
    assert ToLe(0, 1) == [0] && ToLe(0, 2) == [0, 0] && ToLe(0, 3) == [0, 0, 0];
    assert ToLe(9, 4) == [9, 0, 0, 0];
  }

  lemma {:induction false} BranchThen(env: Env)
    requires env == Enter(StartEnv(["c"]))
    ensures BlockCode(env, BRANCH[0].thenBlock) ==
            Ok((([Op(PUSH0 + 1)] + [Op(STLOC0)]) + ([Op(LDLOC0)] + [Op(RET)]), env.(next := 1)))
  {
    hide LiteralCode, ByteLen, ResolveLocal;
    OneLiteral();
    var stmts, inner := BRANCH[0].thenBlock, Enter(env);
    var env1 := DeclareLocal(inner, "x").value;
    assert ResolveLocal(env1.scopes, "x") == Some(0) by { FirstScope(env1.scopes, "x"); }
    assert ExprCode(env1, LiteralExpr(IntLiteral("1"))) == Ok([Op(PUSH0 + 1)]);
    assert ExprCode(env1, Ident("x")) == Ok([Op(LDLOC0)]);
    var first, second := [Op(PUSH0 + 1)] + [Op(STLOC0)], [Op(LDLOC0)] + [Op(RET)];
    assert StmtCode(inner, stmts[0]) == Ok((first, env1));
    assert StmtCode(env1, stmts[1]) == Ok((second, env1));
    TwoStatements(inner, stmts, first, env1, second, env1);
  }

  lemma FirstScope(scopes: List<map<string, nat>>, name: string)
    requires scopes.Cons? && name in scopes.head
    ensures ResolveLocal(scopes, name) == Some(scopes.head[name])
  {
  }

  lemma {:induction false} BranchCompiled()
    ensures FunctionCode(["c"], false, BRANCH) == Ok(BRANCH_CODE)
  {
    hide LiteralCode, ByteLen, ResolveLocal, BlockCode, Jump, DeclareLocal;
    TwoLiteral();
    var env := Enter(StartEnv(["c"]));
    ArgSlotsOk(["c"]);
    assert ["c"][0] == "c" && "c" in ["c"];
    assert env.args["c"] == 0;
    assert ResolveLocal(env.scopes, "c") == None by { NoScopes("c"); }
    assert ExprCode(env, Ident("c")) == Ok([Op(LDARG0)]);
    BranchThen(env);
    ThenCode();
    NineForward();
    var thenCode, env1 := ([Op(PUSH0 + 1)] + [Op(STLOC0)]) + ([Op(LDLOC0)] + [Op(RET)]), env.(next := 1);
    var first := [Op(LDARG0)] + ([Instruction(JMPIFNOT_L, [9, 0, 0, 0])] + thenCode);
    assert StmtCode(env, BRANCH[0]) == Ok((first, env1));
    var second := [Op(PUSH0 + 2)] + [Op(RET)];
    assert ExprCode(env1, LiteralExpr(IntLiteral("2"))) == Ok([Op(PUSH0 + 2)]);
    assert StmtCode(env1, BRANCH[1]) == Ok((second, env1));
    TwoStatements(env, BRANCH, first, env1, second, env1);
    OneParameter("c", BRANCH, first + second, env1);
    assert [Instruction(INITSLOT, [1, 1])] + (first + second) == BRANCH_CODE;
  }

  lemma NoScopes(name: string)
    ensures ResolveLocal(Cons(map[], Cons(map[], Nil)), name) == None
  {
    assert ResolveLocal(Nil, name) == None;
    assert ResolveLocal(Cons(map[], Nil), name) == None;
  }

  lemma {:induction false} BranchQuiet(pass: Pass, k: nat)
    requires k < 9 && (pass.MergeLoads? || pass.DropDup? || (pass.DropStore? && k < 4))
    ensures !Applies(pass, Routine(BRANCH_CODE, []), k)
  {
    hide Applies;
    var r := Routine(BRANCH_CODE, []);
    if Applies(pass, r, k) {
      OpcodesDecide(pass, r, k);
    }
  }

  lemma {:induction false} DroppedQuiet(pass: Pass, k: nat)
    requires k < 7 && (pass.DropStore? || pass.PeelJump? || (pass.Narrow? && k != 2))
    ensures !Applies(pass, Routine(BRANCH_DROPPED, []), k)
  {
    hide Applies;
    var r := Routine(BRANCH_DROPPED, []);
    if Applies(pass, r, k) {
      OpcodesDecide(pass, r, k);
    }
  }

  lemma {:induction false} NarrowedQuiet(pass: Pass)
    ensures QuietFrom(pass, Routine(BRANCH_NARROWED, []), 0)
  {
    hide Applies;
    var r := Routine(BRANCH_NARROWED, []);
    forall k | 0 <= k < 7 ensures !Applies(pass, r, k) {
      if Applies(pass, r, k) {
        OpcodesDecide(pass, r, k);
      }
    }
  }

  lemma BranchDrop()
    ensures Applies(DropStore, Routine(BRANCH_CODE, []), 4)
    ensures Apply(DropStore, Routine(BRANCH_CODE, []), 4) == Routine(BRANCH_DROPPED, [])
  {
    var s := BRANCH_CODE;
    assert !StillLoaded(s, 0, 9);
    assert !StillLoaded(s, 0, 8);
    assert !StillLoaded(s, 0, 7);
    assert !StillLoaded(s, 0, 6);
    assert Remove(s, 4, 2) == BRANCH_DROPPED;
  }

  lemma DroppedOffsets()
    ensures Offset(BRANCH_DROPPED, 2) == 4
    ensures FromLeSigned([9, 0, 0, 0]) == 9
  {
    hide Offset;
    OffsetZero(BRANCH_DROPPED);
    OffsetStep(BRANCH_DROPPED, 0);
    OffsetStep(BRANCH_DROPPED, 1);
    NineForward();
    I32RoundTrip(9);
  }

  lemma {:induction false} DroppedNarrow()
    ensures Applies(Narrow, Routine(BRANCH_DROPPED, []), 2)
    ensures Apply(Narrow, Routine(BRANCH_DROPPED, []), 2) == Routine(BRANCH_NARROWED, [])
  {
    hide Offset, FromLeSigned, Relayout, RelayoutInstruction, ToLe;
    DroppedOffsets();
    var s := BRANCH_DROPPED;
    assert ToLe(9, 1) == [9] && ToLe(6, 1) == [6] by { OneByte(9); OneByte(6); }
    var trial := s[2 := Instruction(JMPIFNOT, [9])];
    assert CanShorten(s[2]) && Narrowed(s[2]) == trial[2];
    var before, after, edit := PrefixOffsets(s), PrefixOffsets(trial), NarrowEdit(s, 2);
    OffsetOfReplaced(s, 2, trial[2], 2);
    assert before[2] == 4 && after[2] == 4 && edit == Shrunk(6, 3);
    I8RoundTrip(9);
    JumpMoves(trial[2], edit);
    forall j | 0 <= j < 7 && j != 2 ensures RelayoutInstruction(trial[j], before[j], after[j], edit) == Some(trial[j]) {
      PlainMoves(trial[j], before[j], after[j], edit);
    }
    RelayoutSteps(trial, before, after, edit, BRANCH_NARROWED, 0);
    assert BRANCH_NARROWED[0..] == BRANCH_NARROWED;
  }

  lemma OneByte(n: byte)
    ensures ToLe(n, 1) == [n]
  {
    assert ToLe(n / 256, 0) == [];
  }

  lemma JumpMoves(i: Instruction, edit: Edit)
    requires i == Instruction(JMPIFNOT, [9]) && edit == Shrunk(6, 3) && FromLeSigned([9]) == 9 && ToLe(6, 1) == [6]
    ensures RelayoutInstruction(i, 4, 4, edit) == Some(Instruction(JMPIFNOT, [6]))
  {
    hide FromLeSigned, ToLe;
    assert i.operands[0..][..1] == [9];
    assert OffsetAt(i, 0) == 9;
    assert FitsSigned(6, 1);
  }

  lemma PlainMoves(i: Instruction, before: nat, after: nat, edit: Edit)
    requires !IsJump(i.opcode) && i.opcode != CALL && i.opcode != CALL_L && !(TRY <= i.opcode <= ENDTRY_L)
    ensures RelayoutInstruction(i, before, after, edit) == Some(i)
  {
  }

  /** Relayout, read off instruction by instruction. */
  lemma {:induction false} RelayoutSteps(s: Script, before: seq<nat>, after: seq<nat>, edit: Edit, out: Script, j: nat)
    requires Offsets(s, before, after, edit) && |out| == |s| && j <= |s|
    requires forall m :: j <= m < |s| ==> RelayoutInstruction(s[m], before[OldIndex(edit, m)], after[m], edit) == Some(out[m])
    ensures Relayout(s, before, after, edit, j) == Some(out[j..])
    decreases |s| - j
  {
    hide RelayoutInstruction;
    if j < |s| {
      RelayoutSteps(s, before, after, edit, out, j + 1);
      assert RelayoutInstruction(s[j], before[OldIndex(edit, j)], after[j], edit) == Some(out[j]);
      assert [out[j]] + out[j + 1..] == out[j..];
    } else {
      assert out[j..] == [];
    }
  }

  lemma {:induction false} BranchRound()
    ensures Round(Routine(BRANCH_CODE, [])) == (Routine(BRANCH_NARROWED, []), true)
  {
    hide Scan, Applies, Apply;
    var r, r3, out := Routine(BRANCH_CODE, []), Routine(BRANCH_DROPPED, []), Routine(BRANCH_NARROWED, []);
    forall k | 0 <= k < 9 ensures !Applies(MergeLoads, r, k) && !Applies(DropDup, r, k) && (k < 4 ==> !Applies(DropStore, r, k)) {
      BranchQuiet(MergeLoads, k);
      BranchQuiet(DropDup, k);
      if k < 4 { BranchQuiet(DropStore, k); }
    }
    forall k | 0 <= k < 7 ensures !Applies(DropStore, r3, k) && !Applies(PeelJump, r3, k) && (k != 2 ==> !Applies(Narrow, r3, k)) {
      DroppedQuiet(DropStore, k);
      DroppedQuiet(PeelJump, k);
      if k != 2 { DroppedQuiet(Narrow, k); }
    }
    ScanQuiet(MergeLoads, r, 0);
    ScanQuiet(DropDup, r, 0);
    BranchDrop();
    ScanFirst(DropStore, r, 0, 4);
    ScanQuiet(DropStore, r3, 4);
    ScanQuiet(PeelJump, r3, 0);
    DroppedNarrow();
    ScanFirst(Narrow, r3, 0, 2);
    NarrowedQuiet(Narrow);
    QuietLater(Narrow, out, 3);
    ScanQuiet(Narrow, out, 3);
  }

  lemma {:induction false} BranchOptimized(rounds: nat)
    requires rounds >= 2
    ensures Optimize(Routine(BRANCH_CODE, []), rounds) == Routine(BRANCH_NARROWED, [])
  {
    hide Round, Optimize, QuietFrom;
    BranchRound();
    forall pass: Pass ensures QuietFrom(pass, Routine(BRANCH_NARROWED, []), 0) {
      NarrowedQuiet(pass);
    }
    OptimizeInOne(Routine(BRANCH_CODE, []), Routine(BRANCH_NARROWED, []), rounds);
  }

  /** The first three instructions bring both versions to the byte the jump leads to. */
  lemma {:induction false} UpToJump(x: Machine, jump: Instruction, rest: Code, v: Value) returns (d: Data)
    requires CodeAt(x.script, 0, [Instruction(INITSLOT, [1, 1])] + ([Op(LDARG0)] + ([jump] + rest)))
    ensures d == Data(Nil, [Null], [v], []) && CodeAt(x.script, 4, [jump] + rest)
    ensures Leads(x, At(x, 0, Data(Cons(v, Nil), [], [], [])), At(x, 4, d.Push(v)))
  {
    hide CodeAt, Leads, ByteLen, ExecData, WellFormed;
    var a := At(x, 0, Data(Cons(v, Nil), [], [], []));
    d := Data(Nil, [Null], [v], []);
    LeadsStart(x, a);
    FirstTwo(x.ops, v);
    DataStep(x, a, Instruction(INITSLOT, [1, 1]), [Op(LDARG0)] + ([jump] + rest), 0, a.data);
    DataStep(x, a, Op(LDARG0), [jump] + rest, 3, d);
  }

  lemma LeadsStart(x: Machine, a: State)
    ensures Leads(x, a, a)
  {
    ReachesSelf(x.ops, x.script, a);
  }

  lemma FirstTwo(ops: Ops, v: Value)
    ensures var d0, d := Data(Cons(v, Nil), [], [], []), Data(Nil, [Null], [v], []);
            && ExecData(ops, Instruction(INITSLOT, [1, 1]), d0) == Some(d) && ExecData(ops, Op(LDARG0), d) == Some(d.Push(v))
            && IsDataInstruction(Instruction(INITSLOT, [1, 1])) && IsDataInstruction(Op(LDARG0))
  {
    TakeOne(v);
    assert seq(1, _ => Null) == [Null];
  }

  lemma WholeScript(code: Code)
    ensures CodeAt(EncodeAll(code), 0, code) && |EncodeAll(code)| == ByteLen(code)
  {
    assert EncodeAll(code)[0..|EncodeAll(code)|] == EncodeAll(code);
  }

  /** As compiled: the false branch returns 2. */
  lemma {:induction false} BranchRuns(ops: Ops, v: Value) returns (d: Data)
    requires !Truthy(v)
    ensures Ends(ops, BRANCH_CODE, Data(Cons(v, Nil), [], [], []), Returned(d)) && d.stack == Cons(Int(2), Nil)
  {
    hide CodeAt, Leads, Reaches, Ends, ByteLen, EncodeAll, Truthy, ExecData, WellFormed;
    var x := Machine(ops, EncodeAll(BRANCH_CODE), Nil);
    var jump, thenCode, elseCode := Instruction(JMPIFNOT_L, [9, 0, 0, 0]), [Op(PUSH0 + 1), Op(STLOC0), Op(LDLOC0), Op(RET)], [Op(PUSH0 + 2)] + [Op(RET)];
    assert BRANCH_CODE == [Instruction(INITSLOT, [1, 1])] + ([Op(LDARG0)] + ([jump] + (thenCode + elseCode)));
    WholeScript(BRANCH_CODE);
    BranchSizes();
    var a := At(x, 0, Data(Cons(v, Nil), [], [], []));
    d := UpToJump(x, jump, thenCode + elseCode, v);
    NineForward();
    BranchStep(x, a, jump, JMPIFNOT_L, 9, thenCode + elseCode, 4, d.Push(v));
    CodeAtSplit(x.script, 9, thenCode, elseCode);
    PushTwo(ops, d);
    DataStep(x, a, Op(PUSH0 + 2), [Op(RET)], 13, d);
    ReturnStep(x, a, 14, d.Push(Int(2)));
    d := d.Push(Int(2));
    EndsBy(x, BRANCH_CODE, a.data, Returned(d));
  }

  lemma PushTwo(ops: Ops, d: Data)
    ensures IsDataInstruction(Op(PUSH0 + 2)) && ExecData(ops, Op(PUSH0 + 2), d) == Some(d.Push(Int(2)))
  {
  }

  lemma BranchSizes()
    ensures ByteLen(BRANCH_CODE) == 15 && ByteLen(BRANCH_NARROWED) == 10
    ensures ByteLen([Op(PUSH0 + 1), Op(STLOC0), Op(LDLOC0), Op(RET)]) == 4
  {
    hide ByteLen, Offset;
    ThenCode();
    assert ([Op(PUSH0 + 1)] + [Op(STLOC0)]) + ([Op(LDLOC0)] + [Op(RET)]) == [Op(PUSH0 + 1), Op(STLOC0), Op(LDLOC0), Op(RET)];
    SizeOf(BRANCH_CODE, 9);
    SizeOf(BRANCH_NARROWED, 7);
    OffsetEnd(BRANCH_CODE);
    OffsetEnd(BRANCH_NARROWED);
  }

  /** Byte offset of instruction `k` of either version. */
  lemma {:induction false} SizeOf(code: Code, k: nat)
    requires (code == BRANCH_CODE || code == BRANCH_NARROWED) && k <= |code|
    ensures Offset(code, k) ==
            if k == 0 then 0 else if k == 1 then 3 else if k == 2 then 4
            else if code == BRANCH_CODE then k + 6 else k + 3
    decreases k
  {
    hide Offset;
    if k == 0 {
      OffsetZero(code);
    } else {
      SizeOf(code, k - 1);
      OffsetStep(code, k - 1);
    }
  }

  lemma EndsBy(x: Machine, code: Code, d: Data, fin: State)
    requires x == Machine(x.ops, EncodeAll(code), Nil) && Leads(x, At(x, 0, d), fin)
    ensures Ends(x.ops, code, d, fin)
  {
  }

  /** Optimized: the false branch leads to the end of the script. */
  lemma {:induction false} NarrowedFaults(ops: Ops, v: Value)
    requires !Truthy(v)
    ensures Ends(ops, BRANCH_NARROWED, Data(Cons(v, Nil), [], [], []), Faulted)
  {
    hide CodeAt, Leads, Reaches, Ends, ByteLen, EncodeAll, Truthy, ExecData, StepInstruction, FromLeSigned;
    var x := Machine(ops, EncodeAll(BRANCH_NARROWED), Nil);
    var jump, rest := Instruction(JMPIFNOT, [6]), [Op(PUSH0 + 1), Op(RET), Op(PUSH0 + 2), Op(RET)];
    assert BRANCH_NARROWED == [Instruction(INITSLOT, [1, 1])] + ([Op(LDARG0)] + ([jump] + rest));
    WholeScript(BRANCH_NARROWED);
    BranchSizes();
    var a := At(x, 0, Data(Cons(v, Nil), [], [], []));
    var d := UpToJump(x, jump, rest, v);
    OneByte(6);
    I8RoundTrip(6);
    PeelCode(x, jump, rest, 4);
    StepAt(ops, x.script, jump, 4, d.Push(v), Nil);
    JumpOut(ops, d, v);
    LeadsOn(x, a, At(x, 4, d.Push(v)), Faulted);
    EndsBy(x, BRANCH_NARROWED, a.data, Faulted);
  }

  lemma LeadsOn(x: Machine, a: State, b: State, c: State)
    requires Leads(x, a, b) && Reaches(x.ops, x.script, b, c)
    ensures Leads(x, a, c)
  {
    ReachesTrans(x.ops, x.script, a, b, c);
  }

  lemma JumpOut(ops: Ops, d: Data, v: Value)
    requires !Truthy(v) && FromLeSigned([6]) == 6
    ensures StepInstruction(ops, 10, Instruction(JMPIFNOT, [6]), 4, d.Push(v), Nil) == Faulted
  {
    hide Truthy, FromLeSigned;
  }

  lemma {:induction false} BranchMeaning(ops: Ops, v: Value)
    requires !Truthy(v)
    ensures var o := ExecBlock(ops, BRANCH, Store(Cons(map[], Nil), ArgValues(["c"], [v]), []), map[], 0);
            o.Return? && o.result == Some(Int(2))
  {
    hide Truthy, LiteralValue;
    ArgSlotsOk(["c"]);
    assert ["c"][0] == "c" && "c" in ["c"];
    var s := Store(Cons(map[], Cons(map[], Nil)), ArgValues(["c"], [v]), []);
    assert LookupScopes(Nil, "c") == None;
    assert LookupScopes(Cons(map[], Nil), "c") == None;
    assert LookupScopes(s.scopes, "c") == None;
    assert EvalExpr(ops, Ident("c"), s) == Val(v, s);
    assert Exec(ops, BRANCH[0], s, 0) == Normal(s);
    TwoValue();
    assert EvalExpr(ops, LiteralExpr(IntLiteral("2")), s) == Val(Int(2), s);
    assert Exec(ops, BRANCH[1], s, 0) == Return(Some(Int(2)), s);
    assert ExecAll(ops, BRANCH[1..], s, 0) == Return(Some(Int(2)), s) by { assert BRANCH[1..][0] == BRANCH[1]; }
    assert ExecAll(ops, BRANCH, s, 0) == Return(Some(Int(2)), s);
  }

  lemma TwoValue()
    ensures LiteralValue(IntLiteral("2")) == Some(Int(2))
  {
    assert WithoutUnderscores("2") == "2" by {
      assert "2"[1..] == [] && WithoutUnderscores([]) == [];
    }
    assert Digits("2", 10) == Some(2);
    assert ParseSigned("2", 10) == Some(2);
  }

  /**
   * Called with a false argument the function returns 2, in the source and as compiled. Optimized,
   * it faults: the STLOC/LDLOC pass took two bytes out from under the jump.
   */
  lemma {:induction false} CrossedBranchBreaks(ops: Ops, v: Value) returns (d: Data)
    requires !Truthy(v)
    ensures var o := ExecBlock(ops, BRANCH, Store(Cons(map[], Nil), ArgValues(["c"], [v]), []), map[], 0);
            o.Return? && o.result == Some(Int(2))
    ensures FunctionCode(["c"], false, BRANCH) == Ok(BRANCH_CODE)
    ensures Ends(ops, BRANCH_CODE, Data(Cons(v, Nil), [], [], []), Returned(d)) && d.stack == Cons(Int(2), Nil)
    ensures Ends(ops, Optimize(Routine(BRANCH_CODE, []), MAX_ROUNDS).code, Data(Cons(v, Nil), [], [], []), Faulted)
  {
    hide FunctionCode, ExecBlock, Ends, Optimize, Truthy;
    BranchCompiled();
    BranchMeaning(ops, v);
    BranchOptimized(MAX_ROUNDS);
    NarrowedFaults(ops, v);
    d := BranchRuns(ops, v);
  }
}
