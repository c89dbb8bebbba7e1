/** `FunctionIr::optimize`: the four passes in place, and that they keep the meaning of a function. */
module IrOptimize {
  import opened Prelude
  import opened Vm
  import opened Ir
  import opened IrFold
  import opened IrCopy
  import opened IrDce
  import Ast

  // ----- the passes on all blocks -----

  function FoldBlocks(f: Blocks): (r: Blocks)
    ensures |r| == |f|
  {
    seq(|f|, b requires 0 <= b < |f| => f[b].(instrs := FoldInstrs(f[b].instrs)))
  }

  function PropagateBlocks(f: Blocks): (r: Blocks)
    ensures |r| == |f|
  {
    seq(|f|, b requires 0 <= b < |f| => PropagateBlock(f[b]))
  }

  function CseBlocks(f: Blocks): (r: Blocks)
    ensures |r| == |f|
  {
    seq(|f|, b requires 0 <= b < |f| => CseBlock(f[b]))
  }

  ghost function EliminateBlocks(f: Blocks): Blocks { RetainBlocks(f, NeededSet(f)) }

  ghost function OptimizeBlocks(f: Blocks): Blocks {
    EliminateBlocks(CseBlocks(PropagateBlocks(FoldBlocks(f))))
  }

  predicate NoPanics(f: Blocks) { forall b :: 0 <= b < |f| ==> NoPanic(f[b].instrs) }

  // ----- meaning -----

  lemma {:induction false} FoldStep(ops: IrOps, f: Blocks, st: Run)
    requires AllLocalSsa(f) && IntegerMachine(ops.vm) && forall b :: 0 <= b < |f| ==> FoldsExactly(f[b].instrs)
    requires StepBlock(ops, f, st) != Crashed
    ensures StepBlock(ops, FoldBlocks(f), st) == StepBlock(ops, f, st)
  {
    hide LocalSsa, FoldsExactly, IntegerMachine, FoldInstrs, Exec;
    if st.AtBlock? {
      var instrs := f[st.block].instrs;
      FoldedExec(ops, instrs, 0, st.params, st.env, st.trace);
      var (env, trace) := Exec(ops, instrs, 0, st.params, st.env, st.trace).value;
      SameTransfer(f, FoldBlocks(f), f[st.block].term, st.params, env, trace);
    }
  }

  lemma SameTransfer(f: Blocks, f': Blocks, t: Terminator, params: seq<Value>, env: Env, trace: seq<Event>)
    requires SameShapes(f, f')
    ensures Transfer(f', t, params, env, trace) == Transfer(f, t, params, env, trace)
  {
  }

  lemma {:induction false} PropagateStep(ops: IrOps, f: Blocks, st: Run)
    requires AllLocalSsa(f)
    ensures StepBlock(ops, PropagateBlocks(f), st) == StepBlock(ops, f, st)
  {
    hide LocalSsa, RewriteInstrs, Exec, Transfer, Copies, RewriteTerm, Knows, OfCopies;
    if st.AtBlock? && st.block < |f| {
      var b := f[st.block];
      var s := Copies(b.instrs, |b.instrs|);
      CopiesAreCopies(b.instrs, |b.instrs|);
      RewrittenExec(ops, b.instrs, s, 0, st.params, st.env, st.trace);
      if Exec(ops, b.instrs, 0, st.params, st.env, st.trace).Some? {
        var (env, trace) := Exec(ops, b.instrs, 0, st.params, st.env, st.trace).value;
        KnowsTerm(b.instrs, s, b.term, st.params, env);
        RewriteTransfer(f, PropagateBlocks(f), b.term, s, st.params, env, trace);
      }
    }
  }

  lemma {:induction false} CseBlockStep(ops: IrOps, f: Blocks, st: Run)
    requires AllLocalSsa(f)
    ensures StepBlock(ops, CseBlocks(f), st) == StepBlock(ops, f, st)
  {
    hide LocalSsa, RewriteInstrs, Exec, Transfer, CseUpTo, RewriteTerm, Knows, OfCopies;
    if st.AtBlock? && st.block < |f| {
      var b := f[st.block];
      var c := CseUpTo(b.instrs, |b.instrs|);
      CseSsa(b.instrs);
      CseStarts(ops, b.instrs, st.params, st.env);
      CseExec(ops, b.instrs, 0, st.params, st.env, st.trace);
      RewrittenExec(ops, c.instrs, c.subst, 0, st.params, st.env, st.trace);
      if Exec(ops, b.instrs, 0, st.params, st.env, st.trace).Some? {
        var (env, trace) := Exec(ops, b.instrs, 0, st.params, st.env, st.trace).value;
        KnowsTerm(c.instrs, c.subst, b.term, st.params, env);
        RewriteTransfer(f, CseBlocks(f), b.term, c.subst, st.params, env, trace);
      }
    }
  }

  lemma CseStarts(ops: IrOps, instrs: Instrs, params: seq<Value>, env: Env)
    ensures CseRunning(ops, instrs, 0, params, env) && CopiesHold(CseUpTo(instrs, |instrs|).instrs, 0, params, env)
  {
  }

  /** The first three passes keep each block in order and its ids. */
  lemma {:induction false} PassesKeepSsa(f: Blocks)
    requires AllLocalSsa(f)
    ensures AllLocalSsa(FoldBlocks(f)) && AllLocalSsa(PropagateBlocks(f)) && AllLocalSsa(CseBlocks(f))
  {
    hide LocalSsa, FoldInstrs, RewriteInstrs, Copies, CseUpTo, OfCopies;
    forall b | 0 <= b < |f|
      ensures LocalSsa(FoldBlocks(f)[b].instrs) && LocalSsa(PropagateBlocks(f)[b].instrs) && LocalSsa(CseBlocks(f)[b].instrs)
    {
      var instrs := f[b].instrs;
      FoldedSsa(instrs);
      CopiesAreCopies(instrs, |instrs|);
      RewrittenSsa(instrs, Copies(instrs, |instrs|));
      CseSsa(instrs);
      RewrittenSsa(CseUpTo(instrs, |instrs|).instrs, CseUpTo(instrs, |instrs|).subst);
    }
  }

  predicate SameIds(a: Instrs, b: Instrs) {
    |a| == |b| && forall p :: 0 <= p < |a| ==> a[p].0 == b[p].0
  }

  predicate AllSameIds(f: Blocks, g: Blocks) {
    |f| == |g| && forall b :: 0 <= b < |f| ==> SameIds(f[b].instrs, g[b].instrs)
  }

  lemma {:induction false} PassesKeepIds(f: Blocks)
    ensures AllSameIds(f, FoldBlocks(f)) && AllSameIds(f, PropagateBlocks(f)) && AllSameIds(f, CseBlocks(f))
  {
    hide FoldInstr, Rewrite, CseUpTo, Copies;
    forall b | 0 <= b < |f| ensures SameIds(f[b].instrs, CseBlocks(f)[b].instrs) {
      var instrs := f[b].instrs;
      forall p | 0 <= p < |instrs| ensures instrs[p].0 == CseUpTo(instrs, |instrs|).instrs[p].0 {
        CseFinal(instrs, p);
      }
    }
  }

  lemma {:induction false} UniqueSameIds(f: Blocks, g: Blocks)
    requires UniqueIds(f) && AllSameIds(f, g)
    ensures UniqueIds(g)
  {
    forall b, p, c, q |
        0 <= b < |g| && 0 <= c < |g| && 0 <= p < |g[b].instrs| && 0 <= q < |g[c].instrs| && g[b].instrs[p].0 == g[c].instrs[q].0
      ensures b == c && p == q
    {
      assert SameIds(f[b].instrs, g[b].instrs) && SameIds(f[c].instrs, g[c].instrs);
      assert f[b].instrs[p].0 == f[c].instrs[q].0;
    }
  }

  /** SSA functions whose folds are exact. */
  predicate Optimizable(f: Blocks) {
    AllLocalSsa(f) && UniqueIds(f) && forall b :: 0 <= b < |f| ==> FoldsExactly(f[b].instrs)
  }

  /** One block of the program before elimination. */
  lemma {:induction false} ThreePassesStep(ops: IrOps, f: Blocks, st: Run)
    requires Optimizable(f) && IntegerMachine(ops.vm) && StepBlock(ops, f, st) != Crashed
    ensures StepBlock(ops, CseBlocks(PropagateBlocks(FoldBlocks(f))), st) == StepBlock(ops, f, st)
  {
    hide AllLocalSsa, UniqueIds, FoldsExactly, StepBlock, FoldBlocks, PropagateBlocks, CseBlocks, IntegerMachine;
    FoldStep(ops, f, st);
    PassesKeepSsa(f);
    PropagateStep(ops, FoldBlocks(f), st);
    PassesKeepSsa(FoldBlocks(f));
    CseBlockStep(ops, PropagateBlocks(FoldBlocks(f)), st);
  }

  lemma UnfoldRun(ops: IrOps, f: Blocks, st: Run, n: nat)
    ensures RunIr(ops, f, st, n) == if n == 0 then st else RunIr(ops, f, StepBlock(ops, f, st), n - 1)
  {
  }

  lemma {:induction false} CrashedStays(ops: IrOps, f: Blocks, n: nat)
    ensures RunIr(ops, f, Crashed, n) == Crashed
    decreases n
  {
    if n > 0 {
      CrashedStays(ops, f, n - 1);
    }
  }

  lemma {:induction false} ThreePassesRun(ops: IrOps, f: Blocks, st: Run, n: nat)
    requires Optimizable(f) && IntegerMachine(ops.vm) && RunIr(ops, f, st, n) != Crashed
    ensures RunIr(ops, CseBlocks(PropagateBlocks(FoldBlocks(f))), st, n) == RunIr(ops, f, st, n)
    decreases n
  {
    hide Optimizable, StepBlock, FoldBlocks, PropagateBlocks, CseBlocks, IntegerMachine;
    if n > 0 {
      if StepBlock(ops, f, st) == Crashed {
        CrashedStays(ops, f, n - 1);
      }
      ThreePassesStep(ops, f, st);
      ThreePassesRun(ops, f, StepBlock(ops, f, st), n - 1);
    }
  }

  lemma {:induction false} EliminatedRun(ops: IrOps, f: Blocks, a: Run, b: Run, n: nat)
    requires UniqueIds(f) && SameRun(NeededSet(f), a, b) && RunIr(ops, f, a, n) != Crashed
    ensures SameRun(NeededSet(f), RunIr(ops, f, a, n), RunIr(ops, EliminateBlocks(f), b, n))
    decreases n
  {
    hide UniqueIds, SameRun, StepBlock, NeededSet, RetainBlocks, RunIr;
    UnfoldRun(ops, f, a, n);
    UnfoldRun(ops, EliminateBlocks(f), b, n);
    if n > 0 {
      if StepBlock(ops, f, a) == Crashed {
        CrashedStays(ops, f, n - 1);
      }
      RetainedStep(ops, f, a, b);
      EliminatedRun(ops, f, StepBlock(ops, f, a), StepBlock(ops, EliminateBlocks(f), b), n - 1);
    }
  }

  /**
   * The optimizer keeps the meaning of a function: a run that does not fault goes, block by
   * block, through the same blocks with the same block parameters, performs the same effects in
   * the same order, and returns the same value.
   */
  lemma {:induction false} OptimizeKeepsMeaning(ops: IrOps, f: Blocks, st: Run, n: nat)
    requires Optimizable(f) && IntegerMachine(ops.vm) && RunIr(ops, f, st, n) != Crashed
    ensures match RunIr(ops, f, st, n)
            case AtBlock(block, params, _, trace) =>
              var r := RunIr(ops, OptimizeBlocks(f), st, n);
              r.AtBlock? && r.block == block && r.params == params && r.trace == trace
            case Finished(result, trace) => RunIr(ops, OptimizeBlocks(f), st, n) == Finished(result, trace)
            case Crashed => false
  {
    hide FoldBlocks, PropagateBlocks, CseBlocks, IntegerMachine, EliminateBlocks, UniqueIds, AllLocalSsa, FoldsExactly, Agree, StepBlock;
    ThreePassesRun(ops, f, st, n);
    var g := CseBlocks(PropagateBlocks(FoldBlocks(f)));
    ThreePassesUnique(f);
    SameRunSelf(NeededSet(g), st);
    EliminatedRun(ops, g, st, st, n);
  }

  lemma SameRunSelf(used: set<nat>, st: Run)
    ensures SameRun(used, st, st)
  {
  }

  lemma {:induction false} ThreePassesUnique(f: Blocks)
    requires UniqueIds(f)
    ensures UniqueIds(CseBlocks(PropagateBlocks(FoldBlocks(f))))
  {
    hide FoldBlocks, PropagateBlocks, CseBlocks, UniqueIds, AllSameIds;
    PassesKeepIds(f);
    UniqueSameIds(f, FoldBlocks(f));
    PassesKeepIds(FoldBlocks(f));
    UniqueSameIds(FoldBlocks(f), PropagateBlocks(FoldBlocks(f)));
    PassesKeepIds(PropagateBlocks(FoldBlocks(f)));
    UniqueSameIds(PropagateBlocks(FoldBlocks(f)), CseBlocks(PropagateBlocks(FoldBlocks(f))));
  }

  // ----- the passes as the compiler runs them -----

  class FunctionIr {
    var blocks: Blocks

    constructor (blocks: Blocks)
      ensures this.blocks == blocks
    {
      this.blocks := blocks;
    }

    /** Fold in place, block by block; `panicked` when a folded division traps. */
    method ConstFold() returns (panicked: bool)
      modifies this
      ensures panicked <==> !NoPanics(old(blocks))
      ensures !panicked ==> blocks == FoldBlocks(old(blocks))
    {
      hide FoldInstr, FoldOf, ConstsOf;
      for b := 0 to |blocks|
        invariant |blocks| == |old(blocks)|
        invariant forall c :: 0 <= c < b ==> blocks[c] == FoldBlocks(old(blocks))[c] && NoPanic(old(blocks)[c].instrs)
        invariant forall c :: b <= c < |blocks| ==> blocks[c] == old(blocks)[c]
      {
        var folded := FoldBlockInstrs(blocks[b].instrs);
        if folded.None? {
          return true;
        }
        blocks := blocks[b := blocks[b].(instrs := folded.value)];
      }
      panicked := false;
    }

    /** Uses of a copied value become uses of what it copies, within each block. */
    method CopyProp()
      modifies this
      ensures blocks == PropagateBlocks(old(blocks))
    {
      hide RewriteInstrs, RewriteTerm, Copies;
      for b := 0 to |blocks|
        invariant |blocks| == |old(blocks)|
        invariant forall c :: 0 <= c < b ==> blocks[c] == PropagateBlocks(old(blocks))[c]
        invariant forall c :: b <= c < |blocks| ==> blocks[c] == old(blocks)[c]
      {
        var block := blocks[b];
        var s: Subst := map[];
        CopiesNone(block.instrs);
        for p := 0 to |block.instrs|
          invariant s == Copies(block.instrs, p)
          modifies {}
        {
          CopiesNext(block.instrs, p);
          if block.instrs[p].1.Copy? {
            s := s[block.instrs[p].0 := block.instrs[p].1.value];
          }
        }
        if s == map[] {
          RewriteNothing(block);
        } else {
          blocks := blocks[b := BasicBlock(block.params, RewriteInstrs(block.instrs, s), RewriteTerm(block.term, s))];
        }
      }
    }

    /** Local value numbering of pure computations, then a rewrite of the block. */
    method CommSubexprElimination()
      modifies this
      ensures blocks == CseBlocks(old(blocks))
    {
      hide RewriteInstrs, RewriteTerm, CseUpTo, CseStep;
      for b := 0 to |blocks|
        invariant |blocks| == |old(blocks)|
        invariant forall c :: 0 <= c < b ==> blocks[c] == CseBlocks(old(blocks))[c]
        invariant forall c :: b <= c < |blocks| ==> blocks[c] == old(blocks)[c]
      {
        var block := blocks[b];
        var out: Instrs, s: Subst, table: Table := [], map[], map[];
        CseNone(block.instrs);
        for p := 0 to |block.instrs|
          invariant Cse(out, s, table) == CseUpTo(block.instrs, p)
          modifies {}
        {
          CseNext(block.instrs, p);
          var (id, i) := block.instrs[p];
          if HasSideEffects(i) || !Keyed(i) {
            out := out + [(id, i)];
          } else {
            var key := Rewrite(i, s);
            if key in table {
              s := s[id := Value(table[key])];
              out := out + [(id, Copy(s[id]))];
            } else {
              out, table := out + [(id, key)], table[key := id];
            }
          }
        }
        var walked := block.(instrs := out);
        if s == map[] {
          RewriteNothing(walked);
          blocks := blocks[b := walked];
        } else {
          blocks := blocks[b := BasicBlock(block.params, RewriteInstrs(out, s), RewriteTerm(block.term, s))];
        }
      }
    }

    /** Mark from terminators and must-keep instructions, then retain. */
    method DeadCodeElimination()
      modifies this
      ensures blocks == EliminateBlocks(old(blocks))
    {
      hide Needed, Retain;
      var used := MarkUsed(blocks);
      assert used == NeededSet(blocks);
      for b := 0 to |blocks|
        invariant |blocks| == |old(blocks)|
        invariant forall c :: 0 <= c < b ==> blocks[c] == RetainBlocks(old(blocks), used)[c]
        invariant forall c :: b <= c < |blocks| ==> blocks[c] == old(blocks)[c]
      {
        var kept := RetainInstrs(blocks[b].instrs, used);
        blocks := blocks[b := blocks[b].(instrs := kept)];
      }
    }

    method Optimize() returns (panicked: bool)
      modifies this
      ensures panicked <==> !NoPanics(old(blocks))
      ensures !panicked ==> blocks == OptimizeBlocks(old(blocks))
    {
      hide FoldBlocks, PropagateBlocks, CseBlocks, EliminateBlocks, NoPanics;
      panicked := ConstFold();
      if !panicked {
        CopyProp();
        CommSubexprElimination();
        DeadCodeElimination();
      }
    }
  }

  method FoldBlockInstrs(instrs: Instrs) returns (r: Option<Instrs>)
    ensures r.Some? <==> NoPanic(instrs)
    ensures r.Some? ==> r.value == FoldInstrs(instrs)
  {
    var consts: Consts := map[];
    for p := 0 to |instrs|
      invariant consts == ConstsOf(instrs, p)
    {
      if instrs[p].1.Const? {
        consts := consts[instrs[p].0 := instrs[p].1.lit];
      }
    }
    var out := instrs;
    for p := 0 to |instrs|
      invariant |out| == |instrs|
      invariant forall q :: 0 <= q < p ==> out[q] == FoldInstrs(instrs)[q] && !FoldOf(instrs[q].1, consts).Panic?
      invariant forall q :: p <= q < |instrs| ==> out[q] == instrs[q]
    {
      var fold := FoldOf(out[p].1, consts);
      if fold.Panic? {
        return None;
      }
      if fold.Folded? {
        out := out[p := (out[p].0, Const(fold.lit))];
      }
    }
    r := Some(out);
  }

  method RetainInstrs(instrs: Instrs, used: set<nat>) returns (out: Instrs)
    ensures out == Retain(instrs, used)
  {
    out := [];
    assert instrs[0..] == instrs;
    for p := 0 to |instrs|
      invariant out + Retain(instrs[p..], used) == Retain(instrs, used)
    {
      assert instrs[p..][1..] == instrs[p + 1..];
      if Stays(used, instrs[p].0, instrs[p].1) {
        out := out + [instrs[p]];
      }
    }
  }

  lemma CopiesNone(instrs: Instrs)
    ensures Copies(instrs, 0) == map[]
  {
  }

  lemma CopiesNext(instrs: Instrs, p: nat)
    requires p < |instrs|
    ensures Copies(instrs, p + 1) ==
            if instrs[p].1.Copy? then Copies(instrs, p)[instrs[p].0 := instrs[p].1.value] else Copies(instrs, p)
  {
  }

  lemma CseNone(instrs: Instrs)
    ensures CseUpTo(instrs, 0) == Cse([], map[], map[])
  {
  }

  lemma CseNext(instrs: Instrs, p: nat)
    requires p < |instrs|
    ensures var c, (id, i) := CseUpTo(instrs, p), instrs[p];
            CseUpTo(instrs, p + 1) ==
            if HasSideEffects(i) || !Keyed(i) then c.(instrs := c.instrs + [(id, i)])
            else
              var key := Rewrite(i, c.subst);
              if key in c.table then Cse(c.instrs + [(id, Copy(Value(c.table[key])))], c.subst[id := Value(c.table[key])], c.table)
              else Cse(c.instrs + [(id, key)], c.subst, c.table[key := id])
  {
    hide Rewrite;
  }

  lemma RewriteNothing(b: BasicBlock)
    ensures RewriteInstrs(b.instrs, map[]) == b.instrs && RewriteTerm(b.term, map[]) == b.term
  {
    forall vs: seq<ValueRef> ensures ReplaceAll(vs, map[]) == vs {
    }
    forall p | 0 <= p < |b.instrs| ensures Rewrite(b.instrs[p].1, map[]) == b.instrs[p].1 {
    }
  }
}
