/** What dead-code elimination leaves, by kind of instruction and by who mentions whom. */
module IrSurvivors {
  import opened Prelude
  import opened Vm
  import opened Ir
  import opened IrDce
  import opened IrOptimize
  import Ast

  /** The value is an operand of the instruction. */
  predicate Uses(i: Instr, v: ValueRef) {
    match i
    case Const(_) => false
    case Copy(w) => v == w
    case Unary(_, w) => v == w
    case Binary(_, l, r) => v == l || v == r
    case IsNull(w, _) => v == w
    case Cast(w, _) => v == w
    case StructFieldGet(base, _) => v == base
    case Pure(_, args) => v in args
    case ArrayPack(elements) => v in elements
    case StructPack(fields) => v in fields
    case StorageGet(_, _) => false
    case Emit(_, args) => v in args
    case MapCompound(_, key, value) => v == key || v == value
    case Call(_, args) => v in args
  }

  predicate EndUses(t: Terminator, v: ValueRef) {
    match t
    case Unset => false
    case Ret(result) => result == Some(v)
    case Jump(_, args) => v in args
    case Branch(cond, _, thenArgs, _, elseArgs) => v == cond || v in thenArgs || v in elseArgs
  }

  /** Instructions that stay whether their value is used or not. */
  predicate Acts(i: Instr) {
    match i
    case Emit(_, _) => true
    case MapCompound(_, _, _) => true
    case Call(_, _) => true
    case StructPack(_) => true
    case _ => false
  }

  /** Used by a terminator, or by an instruction that stays. */
  predicate Wanted(f: Blocks, id: nat) {
    || (exists b :: 0 <= b < |f| && EndUses(f[b].term, Value(id)))
    || exists b, p :: 0 <= b < |f| && 0 <= p < |f[b].instrs| && Acts(f[b].instrs[p].1) && Uses(f[b].instrs[p].1, Value(id))
  }

  /** The instruction that defines `user` uses `id`. */
  predicate Edge(f: Blocks, user: nat, id: nat) {
    exists b, p :: 0 <= b < |f| && 0 <= p < |f[b].instrs| && f[b].instrs[p].0 == user && Uses(f[b].instrs[p].1, Value(id))
  }

  /** Ids from a wanted one to `id`, each used by the definition of the one before. */
  predicate Chain(f: Blocks, path: seq<nat>, id: nat) {
    && path != [] && path[|path| - 1] == id && Wanted(f, path[0])
    && forall k :: 0 <= k < |path| - 1 ==> Edge(f, path[k], path[k + 1])
  }

  // ----- the pass's own notions -----

  lemma {:induction false} UsesMeans(i: Instr, v: ValueRef)
    ensures v in Operands(i) <==> Uses(i, v)
    ensures MustKeep(i) <==> Acts(i)
  {
  }

  lemma {:induction false} EndUsesMeans(t: Terminator, v: ValueRef)
    ensures v in TermOperands(t) <==> EndUses(t, v)
  {
  }

  lemma {:induction false} WantedMeans(f: Blocks, id: nat)
    ensures Root(f, id) <==> Wanted(f, id)
  {
    hide MustKeep, Operands, TermOperands, Uses, EndUses, Acts;
    forall b | 0 <= b < |f|
      ensures Value(id) in TermOperands(f[b].term) <==> EndUses(f[b].term, Value(id))
    {
      EndUsesMeans(f[b].term, Value(id));
    }
    forall b | 0 <= b < |f|
      ensures KeptUse(f[b].instrs, id) <==>
              exists p :: 0 <= p < |f[b].instrs| && Acts(f[b].instrs[p].1) && Uses(f[b].instrs[p].1, Value(id))
    {
      KeptUseMeans(f[b].instrs, id);
    }
  }

  lemma {:induction false} KeptUseMeans(instrs: Instrs, id: nat)
    ensures KeptUse(instrs, id) <==> exists p :: 0 <= p < |instrs| && Acts(instrs[p].1) && Uses(instrs[p].1, Value(id))
  {
    hide MustKeep, Operands, Uses, Acts;
    forall p | 0 <= p < |instrs|
      ensures MustKeep(instrs[p].1) && Value(id) in Operands(instrs[p].1) <==> Acts(instrs[p].1) && Uses(instrs[p].1, Value(id))
    {
      UsesMeans(instrs[p].1, Value(id));
    }
  }

  lemma {:induction false} FeedsEdge(f: Blocks, user: nat, id: nat)
    requires Feeds(f, user, id)
    ensures Edge(f, user, id)
  {
    hide Operands, Uses, DefsOf;
    DefsFind(f, |f|, user);
    var i := DefsOf(f, |f|)[user];
    UsesMeans(i, Value(id));
    var b, p :| 0 <= b < |f| && 0 <= p < |f[b].instrs| && f[b].instrs[p] == (user, i);
  }

  lemma {:induction false} EdgeMeans(f: Blocks, user: nat, id: nat)
    requires UniqueIds(f)
    ensures Feeds(f, user, id) <==> Edge(f, user, id)
  {
    hide Operands, Uses, DefsOf, UniqueIds;
    if Feeds(f, user, id) {
      FeedsEdge(f, user, id);
    }
    if Edge(f, user, id) {
      var b, p :| 0 <= b < |f| && 0 <= p < |f[b].instrs| && f[b].instrs[p].0 == user && Uses(f[b].instrs[p].1, Value(id));
      UsesMeans(f[b].instrs[p].1, Value(id));
      TheDefinition(f, b, p);
    }
  }

  lemma {:induction false} ReachedByChain(f: Blocks, id: nat, n: nat) returns (path: seq<nat>)
    requires UniqueIds(f) && ReachIn(f, id, n)
    ensures Chain(f, path, id)
    decreases n
  {
    hide Root, Wanted, Feeds, Edge, UniqueIds;
    if n == 0 {
      WantedMeans(f, id);
      path := [id];
    } else {
      var user :| ReachIn(f, user, n - 1) && Feeds(f, user, id);
      EdgeMeans(f, user, id);
      var before := ReachedByChain(f, user, n - 1);
      path := before + [id];
      assert forall k :: 0 <= k < |before| - 1 ==> Edge(f, before[k], before[k + 1]);
    }
  }

  lemma {:induction false} ChainReaches(f: Blocks, path: seq<nat>, id: nat)
    requires UniqueIds(f) && Chain(f, path, id)
    ensures ReachIn(f, id, |path| - 1)
    decreases |path|
  {
    hide Root, Wanted, Feeds, Edge, UniqueIds;
    if |path| == 1 {
      WantedMeans(f, id);
    } else {
      var before := path[..|path| - 1];
      var user := before[|before| - 1];
      ChainReaches(f, before, user);
      assert Edge(f, path[|path| - 2], path[|path| - 1]);
      EdgeMeans(f, user, id);
    }
  }

  // ----- what survives -----

  /**
   * An instruction of an SSA function survives exactly when it emits, compounds a stored map
   * entry, calls or packs a struct, or a chain of uses leads to its value from a terminator or
   * from one of those.
   */
  lemma {:induction false} SurvivesExactlyWhen(f: Blocks, b: nat, id: nat, i: Instr)
    requires UniqueIds(f) && b < |f|
    ensures (id, i) in EliminateBlocks(f)[b].instrs <==>
            (id, i) in f[b].instrs && (Acts(i) || exists path :: Chain(f, path, id))
  {
    hide Chain, ReachIn, UniqueIds, MustKeep, Acts, RetainBlocks;
    KeptExactly(f, b, id, i);
    UsesMeans(i, Value(0));
    if Needed(f, id) {
      var n: nat :| ReachIn(f, id, n);
      var path := ReachedByChain(f, id, n);
    }
    if path :| Chain(f, path, id) {
      ChainNonEmpty(f, path, id);
      ChainReaches(f, path, id);
    }
  }

  lemma ChainNonEmpty(f: Blocks, path: seq<nat>, id: nat)
    requires Chain(f, path, id)
    ensures path != []
  {
  }

  /** No instruction and no terminator of the function uses the value. */
  predicate Unmentioned(f: Blocks, id: nat) {
    && (forall b :: 0 <= b < |f| ==> !EndUses(f[b].term, Value(id)))
    && forall b, p :: 0 <= b < |f| && 0 <= p < |f[b].instrs| ==> !Uses(f[b].instrs[p].1, Value(id))
  }

  /** Whatever only computes, reads a field or reads storage is gone when nothing mentions its value. */
  lemma {:induction false} UnmentionedGone(f: Blocks, b: nat, id: nat, i: Instr)
    requires b < |f| && Unmentioned(f, id)
    requires i.Const? || i.Copy? || i.Unary? || i.Binary? || i.IsNull? || i.Cast? || i.StructFieldGet? || i.Pure? || i.ArrayPack? || i.StorageGet?
    ensures (id, i) !in EliminateBlocks(f)[b].instrs
  {
    hide Root, ReachIn, Operands, Uses, EndUses, RetainBlocks, DefsOf;
    KeptExactly(f, b, id, i);
    if Needed(f, id) {
      var n: nat :| ReachIn(f, id, n);
      NotReached(f, id, n);
      assert false;
    }
  }

  lemma {:induction false} NotReached(f: Blocks, id: nat, n: nat)
    requires Unmentioned(f, id)
    ensures !ReachIn(f, id, n)
  {
    hide Root, Operands, Uses, EndUses, DefsOf;
    if n == 0 {
      WantedMeans(f, id);
    } else if user :| ReachIn(f, user, n - 1) && Feeds(f, user, id) {
      FeedsEdge(f, user, id);
    }
  }

  /** Nothing else of a block changes. */
  lemma EliminatedShape(f: Blocks, b: nat)
    requires b < |f|
    ensures |EliminateBlocks(f)| == |f| && EliminateBlocks(f)[b].term == f[b].term && EliminateBlocks(f)[b].params == f[b].params
    ensures forall x :: x in EliminateBlocks(f)[b].instrs ==> x in f[b].instrs
  {
    hide Retain, Stays;
    forall x: (nat, Instr) | x in EliminateBlocks(f)[b].instrs ensures x in f[b].instrs {
      RetainMembers(f[b].instrs, NeededSet(f), x);
    }
  }

  /** `1 + 2; 7` of which only the last is returned: the operation and its operands go. */
  lemma {:induction false} DeadOperands(one: Instr, two: Instr, seven: Instr, op: Ast.BinaryOp)
    requires one.Const? && two.Const? && seven.Const?
    ensures var instrs := [(0, one), (1, two), (2, Binary(op, Value(0), Value(1))), (3, seven)];
            EliminateBlocks([BasicBlock(0, instrs, Ret(Some(Value(3))))])[0].instrs == [(3, seven)]
  {
    hide Retain, NeededSet, Needed, Chain;
    var instrs := [(0, one), (1, two), (2, Binary(op, Value(0), Value(1))), (3, seven)];
    var f := [BasicBlock(0, instrs, Ret(Some(Value(3))))];
    forall id | id in NeededSet(f) ensures id == 3 {
      if Needed(f, id) {
        var n: nat :| ReachIn(f, id, n) by { NeededIs(f, id); }
        OnlyThree(f, one, two, seven, op, id, n);
      }
    }
    assert EndUses(f[0].term, Value(3));
    WantedMeans(f, 3);
    RootNeeded(f, 3);
    RetainFour(instrs, NeededSet(f));
  }

  lemma NeededIs(f: Blocks, id: nat)
    requires Needed(f, id)
    ensures exists n: nat :: ReachIn(f, id, n)
  {
  }

  lemma {:induction false} OnlyThree(f: Blocks, one: Instr, two: Instr, seven: Instr, op: Ast.BinaryOp, id: nat, n: nat)
    requires one.Const? && two.Const? && seven.Const? && ReachIn(f, id, n)
    requires f == [BasicBlock(0, [(0, one), (1, two), (2, Binary(op, Value(0), Value(1))), (3, seven)], Ret(Some(Value(3))))]
    ensures id == 3
    decreases n
  {
    hide Root, DefsOf, Feeds;
    if n == 0 {
      WantedMeans(f, id);
    } else {
      var user :| ReachIn(f, user, n - 1) && Feeds(f, user, id);
      OnlyThree(f, one, two, seven, op, user, n - 1);
      FeedsEdge(f, 3, id);
    }
  }

  lemma RetainFour(instrs: Instrs, used: set<nat>)
    requires |instrs| == 4 && 3 in used && instrs[3].0 == 3
    requires forall p :: 0 <= p < 3 ==> instrs[p].0 == p && instrs[p].0 !in used && !MustKeep(instrs[p].1)
    ensures Retain(instrs, used) == [instrs[3]]
  {
    assert Retain(instrs[1..][1..][1..][1..], used) == [];
    assert Retain(instrs[1..][1..][1..], used) == [instrs[3]] + [];
    assert Retain(instrs[1..][1..], used) == [] + [instrs[3]];
  }
}
