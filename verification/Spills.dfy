/** Which values of an SSA function get a slot, and which relay blocks are skipped, counted on the function itself. */
module Spills {
  import opened Prelude
  import opened Bytecode
  import opened Ir
  import opened IrDce
  import opened CodegenSpec
  import opened StackPlan
  import opened Stackify
  import Ast
  import Encodings

  // ----- counting uses -----

  function Once(v: ValueRef, id: nat): nat { if v == Value(id) then 1 else 0 }

  function Among(vs: seq<ValueRef>, id: nat): nat {
    if vs == [] then 0 else Among(vs[..|vs| - 1], id) + Once(vs[|vs| - 1], id)
  }

  /** How often an instruction uses the value. */
  function TimesUsed(i: Instr, id: nat): nat {
    match i
    case Const(_) => 0
    case Copy(v) => Once(v, id)
    case Unary(_, v) => Once(v, id)
    case Binary(_, l, r) => Once(l, id) + Once(r, id)
    case IsNull(v, _) => Once(v, id)
    case Cast(v, _) => Once(v, id)
    case StructFieldGet(base, _) => Once(base, id)
    case Pure(_, args) => Among(args, id)
    case ArrayPack(elements) => Among(elements, id)
    case StructPack(fields) => Among(fields, id)
    case StorageGet(_, _) => 0
    case Emit(_, args) => Among(args, id)
    case MapCompound(_, key, value) => Once(key, id) + Once(value, id)
    case Call(_, args) => Among(args, id)
  }

  function EndUsed(t: Terminator, id: nat): nat {
    match t
    case Unset => 0
    case Ret(None) => 0
    case Ret(Some(v)) => Once(v, id)
    case Jump(_, args) => Among(args, id)
    case Branch(cond, _, thenArgs, _, elseArgs) => Once(cond, id) + Among(thenArgs, id) + Among(elseArgs, id)
  }

  function InstrsUse(instrs: Instrs, id: nat): nat {
    if instrs == [] then 0 else InstrsUse(instrs[..|instrs| - 1], id) + TimesUsed(instrs[|instrs| - 1].1, id)
  }

  function BlockUses(b: BasicBlock, id: nat): nat { InstrsUse(b.instrs, id) + EndUsed(b.term, id) }

  /** Uses of the value in the whole function. */
  function TotalUses(f: Blocks, id: nat): nat {
    if f == [] then 0 else TotalUses(f[..|f| - 1], id) + BlockUses(f[|f| - 1], id)
  }

  lemma {:induction false} AmongCounts(vs: seq<ValueRef>, id: nat)
    ensures multiset(vs)[Value(id)] == Among(vs, id)
    decreases |vs|
  {
    if vs != [] {
      AmongCounts(vs[..|vs| - 1], id);
      assert vs == vs[..|vs| - 1] + [vs[|vs| - 1]];
    }
  }

  lemma {:induction false} AmongShort(v: ValueRef, w: ValueRef, id: nat)
    ensures Among([], id) == 0 && Among([v], id) == Once(v, id) && Among([v, w], id) == Once(v, id) + Once(w, id)
  {
    assert [v][..0] == [] && [v, w][..1] == [v];
    assert Among([v], id) == Among([], id) + Once(v, id);
    assert Among([v, w], id) == Among([v], id) + Once(w, id);
  }

  lemma {:induction false} OperandsCount(i: Instr, id: nat)
    ensures multiset(Operands(i))[Value(id)] == TimesUsed(i, id)
  {
    AmongCounts(Operands(i), id);
    AmongShort(Value(0), Value(0), id);
    match i
    case Copy(v) => AmongShort(v, v, id);
    case Unary(_, v) => AmongShort(v, v, id);
    case Binary(_, l, r) => AmongShort(l, r, id);
    case IsNull(v, _) => AmongShort(v, v, id);
    case Cast(v, _) => AmongShort(v, v, id);
    case StructFieldGet(base, _) => AmongShort(base, base, id);
    case MapCompound(_, key, value) => AmongShort(key, value, id);
    case _ =>
  }

  lemma {:induction false} EndCount(t: Terminator, id: nat)
    ensures multiset(TermOperands(t))[Value(id)] == EndUsed(t, id)
  {
    match t
    case Unset => AmongShort(Value(0), Value(0), id);
    case Ret(v) =>
      AmongCounts(TermOperands(t), id);
      AmongShort(if v.Some? then v.value else Value(0), Value(0), id);
    case Jump(_, args) => AmongCounts(args, id);
    case Branch(cond, _, thenArgs, _, elseArgs) =>
      AmongCounts([cond], id);
      AmongShort(cond, cond, id);
      AmongCounts(thenArgs, id);
      AmongCounts(elseArgs, id);
  }

  lemma {:induction false} InstrsCount(instrs: Instrs, p: nat, id: nat)
    requires p <= |instrs|
    ensures multiset(InstrRefs(instrs, p))[Value(id)] == InstrsUse(instrs[..p], id)
  {
    hide Operands, TimesUsed;
    if p > 0 {
      InstrsCount(instrs, p - 1, id);
      OperandsCount(instrs[p - 1].1, id);
      assert instrs[..p][..p - 1] == instrs[..p - 1];
    }
  }

  lemma {:induction false} BlockCount(b: BasicBlock, id: nat)
    ensures multiset(BlockRefs(b))[Value(id)] == BlockUses(b, id)
  {
    hide InstrRefs, TermOperands, InstrsUse, EndUsed;
    InstrsCount(b.instrs, |b.instrs|, id);
    EndCount(b.term, id);
    assert b.instrs[..|b.instrs|] == b.instrs;
  }

  lemma {:induction false} FunctionCount(f: Blocks, b: nat, id: nat)
    requires b <= |f|
    ensures multiset(AllRefs(f, b))[Value(id)] == TotalUses(f[..b], id)
  {
    hide BlockRefs, BlockUses;
    if b > 0 {
      FunctionCount(f, b - 1, id);
      BlockCount(f[b - 1], id);
      assert f[..b][..b - 1] == f[..b - 1];
    }
  }

  lemma UsesCount(f: Blocks, id: nat)
    ensures Uses(f, id) == TotalUses(f, id)
  {
    FunctionCount(f, |f|, id);
    assert f[..|f|] == f;
  }

  // ----- what is spilled -----

  /** Pushed again wherever it is needed: null, truth values, 32-bit integers, up to four bytes, and formals. */
  predicate PushedAgain(i: Instr) {
    match i
    case Const(NullLiteral) => true
    case Const(BoolLiteral(_)) => true
    case Const(IntLiteral(text)) =>
      var n := Ast.ParseIntLiteral(text);
      n.Some? && -0x8000_0000 <= n.value <= 0x7FFF_FFFF
    case Const(StringLiteral(data)) => |data| <= 4
    case Const(BufferLiteral(data)) => |data| <= 4
    case Copy(Param(_)) => true
    case _ => false
  }

  predicate IsEffect(i: Instr) {
    match i
    case Emit(_, _) => true
    case MapCompound(_, _, _) => true
    case Call(_, _) => true
    case _ => false
  }

  /** Some block other than `b` uses the value. */
  predicate UsedElsewhere(f: Blocks, b: nat, id: nat) { exists c :: 0 <= c < |f| && c != b && BlockUses(f[c], id) > 0 }

  /** Some operation of the function has the value on both sides. */
  predicate BothSides(f: Blocks, id: nat) {
    exists c, q :: 0 <= c < |f| && 0 <= q < |f[c].instrs| && f[c].instrs[q].1.Binary?
                   && f[c].instrs[q].1.left == f[c].instrs[q].1.right == Value(id)
  }

  lemma {:induction false} CrossMeans(f: Blocks, b: nat, p: nat)
    requires UniqueIds(f) && b < |f| && p < |f[b].instrs|
    ensures Cross(f, f[b].instrs[p].0) <==> UsedElsewhere(f, b, f[b].instrs[p].0)
  {
    hide BlockRefs, BlockUses;
    var id := f[b].instrs[p].0;
    forall c | 0 <= c < |f| ensures UsedInBlock(f, c, id) <==> BlockUses(f[c], id) > 0 {
      BlockCount(f[c], id);
    }
    assert DefinedInBlock(f, b, id);
  }

  lemma {:induction false} SquaredMeans(f: Blocks, id: nat)
    ensures (exists b :: 0 <= b < |f| && SquaredIn(f[b].instrs, id)) <==> BothSides(f, id)
  {
    if b :| 0 <= b < |f| && SquaredIn(f[b].instrs, id) {
      var p :| 0 <= p < |f[b].instrs| && SquaredBy(f[b].instrs[p].1, id);
    }
    if BothSides(f, id) {
      var c, q :| 0 <= c < |f| && 0 <= q < |f[c].instrs| && f[c].instrs[q].1.Binary? && f[c].instrs[q].1.left == f[c].instrs[q].1.right == Value(id);
      assert SquaredBy(f[c].instrs[q].1, id);
    }
  }

  lemma KindsMean(i: Instr)
    ensures Reloadable(i) <==> PushedAgain(i)
    ensures HasSideEffects(i) <==> IsEffect(i)
  {
    hide Ast.ParseIntLiteral;
  }

  /**
   * A value gets a slot exactly when it cannot be pushed again, is not merely both sides of one
   * operation of its block, and is used twice, or used at all as the result of an effect, or used
   * in another block.
   */
  lemma {:induction false} SpilledExactlyWhen(f: Blocks, b: nat, p: nat)
    requires UniqueIds(f) && b < |f| && p < |f[b].instrs|
    ensures var (id, i) := f[b].instrs[p];
            Spilled(f, id) <==>
            && !PushedAgain(i)
            && !(TotalUses(f, id) == 2 && !UsedElsewhere(f, b, id) && BothSides(f, id))
            && (TotalUses(f, id) >= 2 || (IsEffect(i) && TotalUses(f, id) >= 1) || UsedElsewhere(f, b, id))
  {
    hide Reloadable, PushedAgain, HasSideEffects, IsEffect, Cross, Uses, TotalUses, UsedElsewhere, BothSides, UniqueIds, SquaredIn, DefsOf;
    var (id, i) := f[b].instrs[p];
    TheDefinition(f, b, p);
    UsesCount(f, id);
    CrossMeans(f, b, p);
    SquaredMeans(f, id);
    KindsMean(i);
  }

  // ----- skipped blocks -----

  /** No block but `a` leads to `b`, and `a` only by its else-branch. */
  predicate OnlyFrom(f: Blocks, a: nat, b: nat) {
    forall c :: 0 <= c < |f| ==>
      && !(f[c].term.Jump? && f[c].term.target == b)
      && !(f[c].term.Branch? && f[c].term.thenBb == b)
      && (f[c].term.Branch? && f[c].term.elseBb == b ==> c == a)
  }

  /**
   * Block `a` branches to a returning block, without arguments, and otherwise to `b`, which only
   * goes on to a third block and is reached from nowhere else.
   */
  predicate EarlyReturn(f: Blocks, a: nat, b: nat) {
    && a < |f| && f[a].term.Branch? && f[a].term.elseBb == b && f[a].term.thenArgs == []
    && f[a].term.thenBb < |f| && f[f[a].term.thenBb].term.Ret?
    && b < |f| && f[b].instrs == [] && f[b].term.Jump? && f[b].term.target != b && f[b].term.target != f[a].term.thenBb
    && OnlyFrom(f, a, b)
  }

  lemma {:induction false} ElseCountNone(f: Blocks, n: nat, b: nat)
    requires n <= |f|
    ensures ElseCount(f, n, b) == 0 <==> forall c :: 0 <= c < n ==> !ElseOf(f[c], b)
  {
    hide ElseOf;
    if n > 0 {
      ElseCountNone(f, n - 1, b);
    }
  }

  lemma {:induction false} ElseCountOne(f: Blocks, n: nat, a: nat, b: nat)
    requires a < n <= |f| && ElseOf(f[a], b)
    ensures ElseCount(f, n, b) == 1 <==> forall c :: 0 <= c < n && ElseOf(f[c], b) ==> c == a
  {
    hide ElseOf;
    if a == n - 1 {
      ElseCountNone(f, n - 1, b);
    } else {
      ElseCountOne(f, n - 1, a, b);
      ElseCountNone(f, n - 1, b);
    }
  }

  /** A block is skipped exactly when it is the relay of one early return. */
  lemma {:induction false} SkippedExactlyWhen(f: Blocks, b: nat)
    ensures Skipped(f, b) <==> exists a :: 0 <= a < |f| && EarlyReturn(f, a, b)
  {
    hide EarlyReturn, SkippedBy;
    forall a | 0 <= a < |f| ensures SkippedBy(f, a, b) <==> EarlyReturn(f, a, b) {
      SkippedByMeans(f, a, b);
    }
  }

  lemma {:induction false} SkippedByMeans(f: Blocks, a: nat, b: nat)
    requires a < |f|
    ensures SkippedBy(f, a, b) <==> EarlyReturn(f, a, b)
  {
    hide ElseCount, OnlyFrom;
    if f[a].term.Branch? && f[a].term.elseBb == b {
      ElseCountOne(f, |f|, a, b);
      OnlyMeans(f, a, b);
    }
  }

  lemma OnlyMeans(f: Blocks, a: nat, b: nat)
    ensures OnlyFrom(f, a, b) <==>
            && !(exists c :: 0 <= c < |f| && JumpsTo(f[c], b)) && !(exists c :: 0 <= c < |f| && ThenOf(f[c], b))
            && forall c :: 0 <= c < |f| && ElseOf(f[c], b) ==> c == a
  {
  }

  // ----- storage -----

  /** A read of a stored field: its name, the call of System.Storage.Local.Get, and the conversion to its type. */
  lemma {:induction false} StorageRead(c: Ctx, field: seq<byte>, ty: Ast.Type)
    requires |field| < 0x100
    ensures var n := match ty
                     case BoolType => 0x20
                     case IntType => 0x21
                     case StringType => 0x28
                     case Hash160Type => 0x28
                     case Hash256Type => 0x28
                     case BufferType => 0x30
                     case _ => 0;
            Tail(c, StorageGet(field, ty)) ==
            if n == 0 then Err(Unsupported)
            else Ok([Instruction(0x0C, [|field|] + field), Instruction(0x41, [0xd5, 0x8d, 0x5e, 0xe8]), Instruction(0xDB, [n])])
  {
    hide ToLe;
    Encodings.PushDataShortest(field);
  }
}
