/**
 * What stack code asks of an SSA function, the optimizer keeps: one definition per id, operands
 * defined before they are used, existing targets, no effects but `emit`, and no effect's value in a
 * place where two uses of it could fall together.
 */
module IrPreserved {
  import opened Prelude
  import opened Vm
  import opened Ir
  import opened IrFold
  import opened IrCopy
  import opened IrDce
  import opened IrOptimize
  import opened StackPlan
  import opened Stackify
  import opened StackifyValues
  import opened StackifyRun
  import opened StackifyFlow
  import opened StackifyCorrect
  import opened StackifyRoutine

  // ----- one instruction -----

  predicate IsEffect(effects: set<nat>, v: ValueRef) { v.Value? && v.id in effects }

  predicate Untouched(effects: set<nat>, vs: seq<ValueRef>) { forall v :: v in vs ==> !IsEffect(effects, v) }

  /**
   * The ids in `effects` are those of effects; ids are below `n`; the instruction has stack code;
   * and if it copies or combines values, none of them is the result of an effect.
   */
  ghost predicate Fit(vm: Ops, ops: IrOps, n: nat, effects: set<nat>, x: (nat, Instr)) {
    && x.0 < n && (x.0 in effects <==> HasSideEffects(x.1))
    && !x.1.StorageGet? && (HasSideEffects(x.1) ==> x.1.Emit?)
    && (x.1.Pure? ==> OperatorOk(vm, ops, x.1.opcode, |x.1.args|))
    && (x.1.Copy? || x.1.Binary? ==> Untouched(effects, Operands(x.1)))
  }

  ghost predicate AllFit(vm: Ops, ops: IrOps, n: nat, effects: set<nat>, instrs: Instrs) {
    forall p :: 0 <= p < |instrs| ==> Fit(vm, ops, n, effects, instrs[p])
  }

  /** A substitution that never brings in the result of an effect. */
  predicate Harmless(effects: set<nat>, s: Subst) { forall id :: id in s ==> !IsEffect(effects, s[id]) }

  lemma FoldFits(vm: Ops, ops: IrOps, n: nat, effects: set<nat>, id: nat, i: Instr, consts: Consts)
    requires Fit(vm, ops, n, effects, (id, i))
    ensures Fit(vm, ops, n, effects, (id, FoldInstr(i, consts)))
  {
    hide OperatorOk, FoldUnary, FoldBinary, ConstOf;
  }

  lemma RewriteFits(vm: Ops, ops: IrOps, n: nat, effects: set<nat>, id: nat, i: Instr, s: Subst)
    requires Fit(vm, ops, n, effects, (id, i)) && Harmless(effects, s)
    ensures Fit(vm, ops, n, effects, (id, Rewrite(i, s)))
  {
    hide OperatorOk, Rewrite, Operands;
    SameForm(i, s);
    RewriteOperands(i, s);
    if i.Copy? || i.Binary? {
      forall v | v in ReplaceAll(Operands(i), s) ensures !IsEffect(effects, v) {
        var k :| 0 <= k < |Operands(i)| && v == Replace(Operands(i)[k], s);
        assert Operands(i)[k] in Operands(i);
      }
    }
  }

  lemma SameForm(i: Instr, s: Subst)
    ensures var r := Rewrite(i, s);
            && (r.Copy? <==> i.Copy?) && (r.Binary? <==> i.Binary?) && (r.Emit? <==> i.Emit?) && (r.StorageGet? <==> i.StorageGet?)
            && HasSideEffects(r) == HasSideEffects(i) && (r.Pure? <==> i.Pure?)
            && (i.Pure? ==> r.opcode == i.opcode && |r.args| == |i.args|)
  {
  }

  // ----- one block -----

  lemma FoldBlockFits(vm: Ops, ops: IrOps, n: nat, effects: set<nat>, instrs: Instrs)
    requires AllFit(vm, ops, n, effects, instrs)
    ensures AllFit(vm, ops, n, effects, FoldInstrs(instrs))
  {
    hide Fit, FoldInstr, ConstsOf;
    forall p | 0 <= p < |instrs| ensures Fit(vm, ops, n, effects, FoldInstrs(instrs)[p]) {
      FoldFits(vm, ops, n, effects, instrs[p].0, instrs[p].1, ConstsOf(instrs, |instrs|));
    }
  }

  lemma RewriteBlockFits(vm: Ops, ops: IrOps, n: nat, effects: set<nat>, instrs: Instrs, s: Subst)
    requires AllFit(vm, ops, n, effects, instrs) && Harmless(effects, s)
    ensures AllFit(vm, ops, n, effects, RewriteInstrs(instrs, s))
  {
    hide Fit, Harmless, Rewrite;
    forall p | 0 <= p < |instrs| ensures Fit(vm, ops, n, effects, RewriteInstrs(instrs, s)[p]) {
      RewriteFits(vm, ops, n, effects, instrs[p].0, instrs[p].1, s);
    }
  }

  lemma {:induction false} CopiesHarmless(vm: Ops, ops: IrOps, n: nat, effects: set<nat>, instrs: Instrs, p: nat)
    requires AllFit(vm, ops, n, effects, instrs) && p <= |instrs|
    ensures Harmless(effects, Copies(instrs, p))
  {
    hide OperatorOk;
    if p > 0 {
      CopiesHarmless(vm, ops, n, effects, instrs, p - 1);
      assert Fit(vm, ops, n, effects, instrs[p - 1]);
      if instrs[p - 1].1.Copy? {
        assert instrs[p - 1].1.value in Operands(instrs[p - 1].1);
      }
    }
  }

  /** The walk of common-subexpression elimination: what it has emitted, substitutes, and may still substitute. */
  ghost predicate WalkFits(vm: Ops, ops: IrOps, n: nat, effects: set<nat>, c: Cse) {
    AllFit(vm, ops, n, effects, c.instrs) && Harmless(effects, c.subst) && forall key :: key in c.table ==> c.table[key] !in effects
  }

  lemma {:induction false} CseFits(vm: Ops, ops: IrOps, n: nat, effects: set<nat>, instrs: Instrs, p: nat)
    requires AllFit(vm, ops, n, effects, instrs) && p <= |instrs|
    ensures WalkFits(vm, ops, n, effects, CseUpTo(instrs, p))
  {
    hide Fit, Rewrite;
    if p > 0 {
      CseFits(vm, ops, n, effects, instrs, p - 1);
      var c, id, i := CseUpTo(instrs, p - 1), instrs[p - 1].0, instrs[p - 1].1;
      assert Fit(vm, ops, n, effects, (id, i));
      RewriteFits(vm, ops, n, effects, id, i, c.subst);
      if Keyed(i) {
        KeyedIsNoEffect(vm, ops, n, effects, id, i);
        var key := Rewrite(i, c.subst);
        if key in c.table {
          CopyFits(vm, ops, n, effects, id, c.table[key]);
        }
      }
    }
  }

  lemma KeyedIsNoEffect(vm: Ops, ops: IrOps, n: nat, effects: set<nat>, id: nat, i: Instr)
    requires Fit(vm, ops, n, effects, (id, i)) && Keyed(i)
    ensures id !in effects && id < n
  {
    hide OperatorOk;
  }

  lemma CopyFits(vm: Ops, ops: IrOps, n: nat, effects: set<nat>, id: nat, holder: nat)
    requires id !in effects && id < n && holder !in effects
    ensures Fit(vm, ops, n, effects, (id, Copy(Value(holder))))
  {
  }

  lemma {:induction false} RetainFits(vm: Ops, ops: IrOps, n: nat, effects: set<nat>, instrs: Instrs, used: set<nat>)
    requires AllFit(vm, ops, n, effects, instrs)
    ensures AllFit(vm, ops, n, effects, Retain(instrs, used))
  {
    hide Fit, Retain;
    var out := Retain(instrs, used);
    forall p | 0 <= p < |out| ensures Fit(vm, ops, n, effects, out[p]) {
      assert out[p] in out;
      RetainMembers(instrs, used, out[p]);
    }
  }

  lemma {:induction false} RetainSsa(instrs: Instrs, used: set<nat>)
    requires LocalSsa(instrs)
    ensures LocalSsa(Retain(instrs, used))
  {
    hide Operands, Stays;
    if instrs != [] {
      var tail, out := instrs[1..], Retain(instrs[1..], used);
      TailSsa(instrs);
      RetainSsa(tail, used);
      if Stays(used, instrs[0].0, instrs[0].1) {
        forall q | 0 <= q < |out| ensures exists r :: 1 <= r < |instrs| && out[q] == instrs[r] {
          assert out[q] in out;
          RetainMembers(tail, used, out[q]);
          var r :| 0 <= r < |tail| && tail[r] == out[q];
          assert out[q] == instrs[r + 1];
        }
        ConsSsa(instrs, out);
      } else {
        assert Retain(instrs, used) == [] + out == out;
      }
    } else {
      assert Retain(instrs, used) == instrs;
    }
  }

  lemma TailSsa(instrs: Instrs)
    requires LocalSsa(instrs) && instrs != []
    ensures LocalSsa(instrs[1..])
  {
    hide Operands;
    var tail := instrs[1..];
    forall p | 0 <= p < |tail| ensures UsesEarlier(tail, p) {
      assert UsesEarlier(instrs, p + 1);
      forall k | 0 <= k < |Operands(tail[p].1)| ensures NotDefinedFrom(tail, p, Operands(tail[p].1)[k]) {
        assert NotDefinedFrom(instrs, p + 1, Operands(instrs[p + 1].1)[k]);
      }
    }
  }

  lemma ConsSsa(instrs: Instrs, out: Instrs)
    requires LocalSsa(instrs) && instrs != [] && LocalSsa(out)
    requires forall q :: 0 <= q < |out| ==> exists r :: 1 <= r < |instrs| && out[q] == instrs[r]
    ensures LocalSsa([instrs[0]] + out)
  {
    hide Operands;
    var all := [instrs[0]] + out;
    forall p, q | 0 <= p < q < |all| ensures all[p].0 != all[q].0 {
      assert all[q] == out[q - 1];
      if p > 0 { assert all[p] == out[p - 1]; }
    }
    forall p | 0 <= p < |all| ensures UsesEarlier(all, p) {
      forall k | 0 <= k < |Operands(all[p].1)| ensures NotDefinedFrom(all, p, Operands(all[p].1)[k]) {
        if p == 0 {
          assert UsesEarlier(instrs, 0) && NotDefinedFrom(instrs, 0, Operands(instrs[0].1)[k]);
        } else {
          assert all[p] == out[p - 1] && UsesEarlier(out, p - 1) && NotDefinedFrom(out, p - 1, Operands(out[p - 1].1)[k]);
          assert forall q :: p <= q < |all| ==> all[q] == out[q - 1];
        }
      }
    }
  }

  // ----- the whole function -----

  ghost predicate FitBlocks(vm: Ops, ops: IrOps, n: nat, effects: set<nat>, f: Blocks) {
    forall b :: 0 <= b < |f| ==> AllFit(vm, ops, n, effects, f[b].instrs)
  }

  /** The same blocks with the same parameters, leading to the same blocks. */
  predicate SameGraph(f: Blocks, g: Blocks) {
    |g| == |f| && forall b :: 0 <= b < |f| ==> g[b].params == f[b].params && SameTargets(f[b].term, g[b].term)
  }

  predicate SameTargets(t: Terminator, u: Terminator) {
    && (t.Jump? <==> u.Jump?) && (t.Jump? ==> u.target == t.target)
    && (t.Branch? <==> u.Branch?) && (t.Branch? ==> u.thenBb == t.thenBb && u.elseBb == t.elseBb)
  }

  lemma RewriteTargets(t: Terminator, s: Subst)
    ensures SameTargets(t, RewriteTerm(t, s))
  {
  }

  /** What stack code asks of the graph holds of any function with the same graph. */
  lemma GraphKeeps(f: Blocks, g: Blocks)
    requires SameGraph(f, g)
    ensures TargetsExist(f) ==> TargetsExist(g)
    ensures PlainBlocks(f) ==> PlainBlocks(g)
  {
    forall b | 0 <= b < |f| ensures SameTargets(f[b].term, g[b].term) && g[b].params == f[b].params {
    }
  }

  lemma {:induction false} PassesKeepGraph(f: Blocks)
    ensures SameGraph(f, FoldBlocks(f)) && SameGraph(f, PropagateBlocks(f)) && SameGraph(f, CseBlocks(f)) && SameGraph(f, EliminateBlocks(f))
  {
    hide RewriteTerm, SameTargets, FoldInstrs, RewriteInstrs, Copies, CseUpTo, Retain, NeededSet;
    forall b | 0 <= b < |f|
      ensures SameTargets(f[b].term, PropagateBlocks(f)[b].term) && SameTargets(f[b].term, CseBlocks(f)[b].term) && SameTargets(f[b].term, f[b].term)
    {
      RewriteTargets(f[b].term, Copies(f[b].instrs, |f[b].instrs|));
      RewriteTargets(f[b].term, CseUpTo(f[b].instrs, |f[b].instrs|).subst);
      TargetsSelf(f[b].term);
    }
  }

  lemma TargetsSelf(t: Terminator)
    ensures SameTargets(t, t)
  {
  }

  lemma SameGraphTrans(f: Blocks, g: Blocks, h: Blocks)
    requires SameGraph(f, g) && SameGraph(g, h)
    ensures SameGraph(f, h)
  {
    forall b | 0 <= b < |f| ensures SameTargets(f[b].term, h[b].term) && h[b].params == f[b].params {
      assert SameTargets(f[b].term, g[b].term) && SameTargets(g[b].term, h[b].term);
    }
  }

  lemma {:induction false} PassesFit(vm: Ops, ops: IrOps, n: nat, effects: set<nat>, f: Blocks)
    requires FitBlocks(vm, ops, n, effects, f)
    ensures FitBlocks(vm, ops, n, effects, FoldBlocks(f)) && FitBlocks(vm, ops, n, effects, PropagateBlocks(f))
    ensures FitBlocks(vm, ops, n, effects, CseBlocks(f)) && FitBlocks(vm, ops, n, effects, EliminateBlocks(f))
  {
    hide AllFit, FoldInstrs, RewriteInstrs, Copies, CseUpTo, Retain, NeededSet, RewriteTerm, Harmless;
    forall b | 0 <= b < |f|
      ensures AllFit(vm, ops, n, effects, FoldBlocks(f)[b].instrs) && AllFit(vm, ops, n, effects, PropagateBlocks(f)[b].instrs)
      ensures AllFit(vm, ops, n, effects, CseBlocks(f)[b].instrs) && AllFit(vm, ops, n, effects, EliminateBlocks(f)[b].instrs)
    {
      var instrs := f[b].instrs;
      FoldBlockFits(vm, ops, n, effects, instrs);
      CopiesHarmless(vm, ops, n, effects, instrs, |instrs|);
      RewriteBlockFits(vm, ops, n, effects, instrs, Copies(instrs, |instrs|));
      CseFits(vm, ops, n, effects, instrs, |instrs|);
      RewriteBlockFits(vm, ops, n, effects, CseUpTo(instrs, |instrs|).instrs, CseUpTo(instrs, |instrs|).subst);
      RetainFits(vm, ops, n, effects, instrs, NeededSet(f));
    }
  }

  lemma {:induction false} EliminateKeepsSsa(f: Blocks)
    requires AllLocalSsa(f)
    ensures AllLocalSsa(EliminateBlocks(f))
  {
    hide LocalSsa, Retain, NeededSet;
    forall b | 0 <= b < |f| ensures LocalSsa(EliminateBlocks(f)[b].instrs) {
      RetainSsa(f[b].instrs, NeededSet(f));
    }
  }

  /** Elimination keeps ids unique, since what it keeps is in order and from the same block. */
  lemma {:induction false} EliminateKeepsUnique(f: Blocks)
    requires UniqueIds(f) && AllLocalSsa(f)
    ensures UniqueIds(EliminateBlocks(f))
  {
    hide Retain, NeededSet, UsesEarlier, Stays;
    var g := EliminateBlocks(f);
    EliminateKeepsSsa(f);
    forall b, p, c, q |
        0 <= b < |g| && 0 <= c < |g| && 0 <= p < |g[b].instrs| && 0 <= q < |g[c].instrs| && g[b].instrs[p].0 == g[c].instrs[q].0
      ensures b == c && p == q
    {
      var r := FromBlock(f, b, p);
      var s := FromBlock(f, c, q);
      assert f[b].instrs[r].0 == f[c].instrs[s].0;
      assert b == c && LocalSsa(g[b].instrs);
    }
  }

  lemma FromBlock(f: Blocks, b: nat, p: nat) returns (r: nat)
    requires b < |f| && p < |EliminateBlocks(f)[b].instrs|
    ensures r < |f[b].instrs| && EliminateBlocks(f)[b].instrs[p] == f[b].instrs[r]
  {
    hide Retain, NeededSet, Stays;
    var x := EliminateBlocks(f)[b].instrs[p];
    assert x in EliminateBlocks(f)[b].instrs;
    RetainMembers(f[b].instrs, NeededSet(f), x);
    r :| 0 <= r < |f[b].instrs| && f[b].instrs[r] == x;
  }

  /** All of it together, for the four passes in order. */
  lemma {:induction false} OptimizeKeeps(vm: Ops, ops: IrOps, n: nat, effects: set<nat>, f: Blocks)
    requires AllLocalSsa(f) && UniqueIds(f) && FitBlocks(vm, ops, n, effects, f) && TargetsExist(f) && PlainBlocks(f)
    ensures var g := OptimizeBlocks(f);
            |g| == |f| && AllLocalSsa(g) && UniqueIds(g) && FitBlocks(vm, ops, n, effects, g) && TargetsExist(g) && PlainBlocks(g)
  {
    hide AllLocalSsa, UniqueIds, FitBlocks, TargetsExist, PlainBlocks, FoldBlocks, PropagateBlocks, CseBlocks, EliminateBlocks, SameGraph;
    var f1 := FoldBlocks(f);
    var f2 := PropagateBlocks(f1);
    var f3 := CseBlocks(f2);
    var g := EliminateBlocks(f3);
    PassesKeepSsa(f);
    PassesKeepSsa(f1);
    PassesKeepSsa(f2);
    EliminateKeepsSsa(f3);
    ThreePassesUnique(f);
    EliminateKeepsUnique(f3);
    PassesFit(vm, ops, n, effects, f);
    PassesFit(vm, ops, n, effects, f1);
    PassesFit(vm, ops, n, effects, f2);
    PassesFit(vm, ops, n, effects, f3);
    PassesKeepGraph(f);
    PassesKeepGraph(f1);
    PassesKeepGraph(f2);
    PassesKeepGraph(f3);
    SameGraphTrans(f, f1, f2);
    SameGraphTrans(f, f2, f3);
    SameGraphTrans(f, f3, g);
    GraphKeeps(f, g);
    GraphSize(f, g);
  }

  lemma GraphSize(f: Blocks, g: Blocks)
    requires SameGraph(f, g)
    ensures |f| == |g|
  {
  }

  // ----- what the stackifier asks -----

  /** No copy and no binary operator takes the result of an effect. */
  predicate EffectsApart(f: Blocks) {
    forall b, p, c, q, k ::
      0 <= b < |f| && 0 <= p < |f[b].instrs| && HasSideEffects(f[b].instrs[p].1)
      && 0 <= c < |f| && 0 <= q < |f[c].instrs| && (f[c].instrs[q].1.Copy? || f[c].instrs[q].1.Binary?)
      && 0 <= k < |Operands(f[c].instrs[q].1)| ==>
        Operands(f[c].instrs[q].1)[k] != Value(f[b].instrs[p].0)
  }

  function EffectIds(f: Blocks): set<nat> {
    set b, p | 0 <= b < |f| && 0 <= p < |f[b].instrs| && HasSideEffects(f[b].instrs[p].1) :: f[b].instrs[p].0
  }

  lemma {:induction false} InputFits(vm: Ops, ops: IrOps, n: nat, f: Blocks)
    requires UniqueIds(f) && IdsBelow(f, n) && EffectsApart(f)
    requires forall b :: 0 <= b < |f| ==> Scalar(f[b].instrs) && OperatorsOk(vm, ops, f[b].instrs)
    ensures FitBlocks(vm, ops, n, EffectIds(f), f)
  {
    hide OperatorOk, Operands, HasSideEffects;
    var effects := EffectIds(f);
    forall b, p | 0 <= b < |f| && 0 <= p < |f[b].instrs| ensures Fit(vm, ops, n, effects, f[b].instrs[p]) {
      var x := f[b].instrs[p];
      assert Scalar(f[b].instrs) && OperatorsOk(vm, ops, f[b].instrs);
      if x.0 in effects {
        var c, q :| 0 <= c < |f| && 0 <= q < |f[c].instrs| && HasSideEffects(f[c].instrs[q].1) && f[c].instrs[q].0 == x.0;
        assert c == b && q == p;
      }
      if x.1.Copy? || x.1.Binary? {
        forall v | v in Operands(x.1) ensures !IsEffect(effects, v) {
          var k :| 0 <= k < |Operands(x.1)| && Operands(x.1)[k] == v;
        }
      }
    }
  }

  lemma {:induction false} FitMeans(vm: Ops, ops: IrOps, n: nat, effects: set<nat>, g: Blocks)
    requires FitBlocks(vm, ops, n, effects, g)
    ensures IdsBelow(g, n) && NoSquaredEffects(g)
    ensures forall b :: 0 <= b < |g| ==> Scalar(g[b].instrs) && OperatorsOk(vm, ops, g[b].instrs)
  {
    hide OperatorOk, Uses, Cross;
    forall b, p | 0 <= b < |g| && 0 <= p < |g[b].instrs| ensures Fit(vm, ops, n, effects, g[b].instrs[p]) {
      assert AllFit(vm, ops, n, effects, g[b].instrs);
    }
    forall b, p | 0 <= b < |g| && 0 <= p < |g[b].instrs| && HasSideEffects(g[b].instrs[p].1) ensures !Squared(g, g[b].instrs[p].0) {
      NeverSquared(vm, ops, n, effects, g, g[b].instrs[p].0);
    }
  }

  lemma {:induction false} NeverSquared(vm: Ops, ops: IrOps, n: nat, effects: set<nat>, g: Blocks, id: nat)
    requires FitBlocks(vm, ops, n, effects, g) && id in effects
    ensures !Squared(g, id)
  {
    hide OperatorOk, Uses, Cross;
    forall b | 0 <= b < |g| ensures !SquaredIn(g[b].instrs, id) {
      assert AllFit(vm, ops, n, effects, g[b].instrs);
      forall p | 0 <= p < |g[b].instrs| ensures !SquaredBy(g[b].instrs[p].1, id) {
        assert Fit(vm, ops, n, effects, g[b].instrs[p]);
        if g[b].instrs[p].1.Binary? {
          assert g[b].instrs[p].1.left in Operands(g[b].instrs[p].1);
        }
      }
    }
  }
}
