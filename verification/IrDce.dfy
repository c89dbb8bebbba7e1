/** Dead-code elimination (ir/opt.rs): a worklist over the whole function. */
module IrDce {
  import opened Prelude
  import opened Vm
  import opened Ir

  // ----- what is needed -----

  /** Ids among the values used. */
  function IdsOf(vs: seq<ValueRef>): seq<nat> {
    if vs == [] then []
    else (if vs[0].Value? then [vs[0].id] else []) + IdsOf(vs[1..])
  }

  lemma {:induction false} IdsOfMembers(vs: seq<ValueRef>, id: nat)
    ensures id in IdsOf(vs) <==> Value(id) in vs
  {
    if vs != [] {
      IdsOfMembers(vs[1..], id);
      assert vs == [vs[0]] + vs[1..];
    }
  }

  type Defs = map<nat, Instr>

  function BlockDefs(instrs: Instrs, p: nat, defs: Defs): Defs
    requires p <= |instrs|
  {
    if p == 0 then defs else BlockDefs(instrs, p - 1, defs)[instrs[p - 1].0 := instrs[p - 1].1]
  }

  /** Definition of each id of the first `b` blocks; the last one if there are several. */
  function DefsOf(f: Blocks, b: nat): Defs
    requires b <= |f|
  {
    if b == 0 then map[] else BlockDefs(f[b - 1].instrs, |f[b - 1].instrs|, DefsOf(f, b - 1))
  }

  /** Used by a terminator, or by an instruction that must stay. */
  predicate Root(f: Blocks, id: nat) {
    exists b :: 0 <= b < |f| && (Value(id) in TermOperands(f[b].term) || KeptUse(f[b].instrs, id))
  }

  predicate KeptUse(instrs: Instrs, id: nat) {
    exists p :: 0 <= p < |instrs| && MustKeep(instrs[p].1) && Value(id) in Operands(instrs[p].1)
  }

  /** `id` is an operand of what defines `user`. */
  predicate Feeds(f: Blocks, user: nat, id: nat) {
    var defs := DefsOf(f, |f|);
    user in defs && Value(id) in Operands(defs[user])
  }

  /** `id` is reached from a root along `n` operand edges. */
  ghost predicate ReachIn(f: Blocks, id: nat, n: nat)
    decreases n
  {
    if n == 0 then Root(f, id) else exists user :: ReachIn(f, user, n - 1) && Feeds(f, user, id)
  }

  ghost predicate Needed(f: Blocks, id: nat) { exists n: nat :: ReachIn(f, id, n) }

  // ----- marking -----

  /** `used` together with `work` contains the roots and is closed under operands, apart from pending `work`. */
  ghost predicate Marking(f: Blocks, used: set<nat>, work: seq<nat>) {
    && (forall id :: id in used || id in work ==> Needed(f, id))
    && (forall id :: Root(f, id) ==> id in used || id in work)
    && (forall user, id :: user in used && Feeds(f, user, id) ==> id in used || id in work)
  }

  lemma RootNeeded(f: Blocks, id: nat)
    requires Root(f, id)
    ensures Needed(f, id)
  {
    assert ReachIn(f, id, 0);
  }

  lemma FeedsNeeded(f: Blocks, user: nat, id: nat)
    requires Needed(f, user) && Feeds(f, user, id)
    ensures Needed(f, id)
  {
    var n: nat :| ReachIn(f, user, n);
    assert ReachIn(f, id, n + 1);
  }

  lemma {:induction false} MarkedAll(f: Blocks, used: set<nat>, id: nat, n: nat)
    requires Marking(f, used, []) && ReachIn(f, id, n)
    ensures id in used
    decreases n
  {
    hide Root, Feeds;
    if n > 0 {
      var user :| ReachIn(f, user, n - 1) && Feeds(f, user, id);
      MarkedAll(f, used, user, n - 1);
    }
  }

  /** Ids that any value use mentions: what the worklist can ever hold. */
  function Mentioned(defs: Defs): set<nat> {
    set d, v | d in defs && v in Operands(defs[d]) && v.Value? :: v.id
  }

  method CollectUses(vs: seq<ValueRef>, work: seq<nat>) returns (out: seq<nat>)
    ensures out == work + IdsOf(vs)
  {
    out := work;
    assert vs[0..] == vs;
    for k := 0 to |vs|
      invariant out + IdsOf(vs[k..]) == work + IdsOf(vs)
    {
      assert vs[k..][1..] == vs[k + 1..];
      if vs[k].Value? {
        out := out + [vs[k].id];
      }
    }
  }

  predicate UsedByTerms(f: Blocks, b: nat, id: nat) {
    exists c :: 0 <= c < b && c < |f| && Value(id) in TermOperands(f[c].term)
  }

  predicate UsedByKept(f: Blocks, b: nat, id: nat) {
    exists c :: 0 <= c < b && c < |f| && KeptUse(f[c].instrs, id)
  }

  /** Terminator uses first, then those of instructions that must stay. */
  method CollectRoots(f: Blocks) returns (work: seq<nat>)
    ensures forall id :: id in work <==> Root(f, id)
  {
    hide TermOperands, KeptUse, UsedByTerms, UsedByKept, Root, IdsOf;
    work := [];
    RootParts(f);
    for b := 0 to |f|
      invariant forall id :: id in work <==> UsedByTerms(f, b, id)
    {
      TermStep(f, b);
      work := CollectUses(TermOperands(f[b].term), work);
      IdsOfAll(TermOperands(f[b].term));
    }
    for b := 0 to |f|
      invariant forall id :: id in work <==> UsedByTerms(f, |f|, id) || UsedByKept(f, b, id)
    {
      KeptStep(f, b);
      work := CollectKept(f[b].instrs, work);
    }
  }

  /** Operands of the instructions of one block that must stay. */
  method CollectKept(instrs: Instrs, before: seq<nat>) returns (work: seq<nat>)
    ensures forall id :: id in work <==> id in before || KeptUse(instrs, id)
  {
    hide Operands, KeptUse, MustKeep, IdsOf;
    work := before;
    KeptUseNone(instrs);
    for p := 0 to |instrs|
      invariant forall id :: id in work <==> id in before || KeptUse(instrs[..p], id)
    {
      KeptUseStep(instrs, p);
      if MustKeep(instrs[p].1) {
        work := CollectUses(Operands(instrs[p].1), work);
        IdsOfAll(Operands(instrs[p].1));
      }
    }
    assert instrs[..|instrs|] == instrs;
  }

  lemma IdsOfAll(vs: seq<ValueRef>)
    ensures forall id :: id in IdsOf(vs) <==> Value(id) in vs
  {
    hide IdsOf;
    forall id ensures id in IdsOf(vs) <==> Value(id) in vs { IdsOfMembers(vs, id); }
  }

  lemma RootParts(f: Blocks)
    ensures forall id :: Root(f, id) <==> UsedByTerms(f, |f|, id) || UsedByKept(f, |f|, id)
    ensures forall id :: !UsedByTerms(f, 0, id) && !UsedByKept(f, 0, id)
  {
    hide TermOperands, KeptUse;
  }

  lemma TermStep(f: Blocks, b: nat)
    requires b < |f|
    ensures forall id :: UsedByTerms(f, b + 1, id) <==> UsedByTerms(f, b, id) || Value(id) in TermOperands(f[b].term)
  {
    hide TermOperands;
  }

  lemma KeptStep(f: Blocks, b: nat)
    requires b < |f|
    ensures forall id :: UsedByKept(f, b + 1, id) <==> UsedByKept(f, b, id) || KeptUse(f[b].instrs, id)
  {
    hide KeptUse;
  }

  lemma KeptUseNone(instrs: Instrs)
    ensures forall id :: !KeptUse(instrs[..0], id)
  {
  }

  lemma KeptUseStep(instrs: Instrs, p: nat)
    requires p < |instrs|
    ensures forall id :: KeptUse(instrs[..p + 1], id) <==>
              KeptUse(instrs[..p], id) || (MustKeep(instrs[p].1) && Value(id) in Operands(instrs[p].1))
  {
    hide Operands, MustKeep;
    forall id
      ensures KeptUse(instrs[..p + 1], id) <==>
              KeptUse(instrs[..p], id) || (MustKeep(instrs[p].1) && Value(id) in Operands(instrs[p].1))
    {
      assert instrs[..p + 1][p] == instrs[p];
      assert forall q :: 0 <= q < p ==> instrs[..p + 1][q] == instrs[..p][q];
    }
  }

  method CollectDefs(f: Blocks) returns (defs: Defs)
    ensures defs == DefsOf(f, |f|)
  {
    defs := map[];
    for b := 0 to |f|
      invariant defs == DefsOf(f, b)
    {
      ghost var before := defs;
      for p := 0 to |f[b].instrs|
        invariant defs == BlockDefs(f[b].instrs, p, before)
      {
        defs := defs[f[b].instrs[p].0 := f[b].instrs[p].1];
      }
    }
  }

  /** The worklist ends, with exactly the ids reachable from a root through operands. */
  method MarkUsed(f: Blocks) returns (used: set<nat>)
    ensures forall id :: id in used <==> Needed(f, id)
  {
    hide Root, Needed, Operands, Marking, Mentioned, DefsOf;
    used := {};
    var defs := CollectDefs(f);
    var work := CollectRoots(f);
    ghost var all := Mentioned(defs) + set id | id in work;
    MarkStart(f, work);
    while work != []
      invariant Marking(f, used, work)
      invariant used <= all && forall id :: id in work ==> id in all
      decreases |all - used|, |work|
    {
      var v := work[0];
      ghost var before, was := used, work;
      work := work[1..];
      assert was == [v] + work;
      if v in used {
        MarkAgain(f, used, was, work, v);
        continue;
      }
      used := used + {v};
      SetShrinks(all, before, v);
      ghost var rest := work;
      if v in defs {
        work := CollectUses(Operands(defs[v]), work);
        forall id ensures id in work <==> id in rest || Value(id) in Operands(defs[v]) {
          IdsOfMembers(Operands(defs[v]), id);
        }
        MentionedUses(defs, v);
      }
      MarkStep(f, defs, before, used, was, rest, work, v);
    }
    forall id ensures id in used <==> Needed(f, id) {
      MarkingDone(f, used, id);
    }
  }

  lemma MarkStart(f: Blocks, work: seq<nat>)
    requires forall id :: id in work <==> Root(f, id)
    ensures Marking(f, {}, work)
  {
    hide Root, Needed;
    forall id | Root(f, id) ensures Needed(f, id) { RootNeeded(f, id); }
  }

  lemma MarkAgain(f: Blocks, used: set<nat>, was: seq<nat>, work: seq<nat>, v: nat)
    requires Marking(f, used, was) && was == [v] + work && v in used
    ensures Marking(f, used, work)
  {
    hide Root, Needed, Feeds;
  }

  lemma SetShrinks(all: set<nat>, before: set<nat>, v: nat)
    requires v in all && v !in before
    ensures |all - (before + {v})| < |all - before|
  {
    assert all - before == (all - (before + {v})) + {v};
  }

  lemma MentionedUses(defs: Defs, v: nat)
    requires v in defs
    ensures forall id :: Value(id) in Operands(defs[v]) ==> id in Mentioned(defs)
  {
    hide Operands;
    forall id | Value(id) in Operands(defs[v]) ensures id in Mentioned(defs) {
      assert Value(id).id in Mentioned(defs);
    }
  }

  lemma MarkingDone(f: Blocks, used: set<nat>, id: nat)
    requires Marking(f, used, [])
    ensures id in used <==> Needed(f, id)
  {
    hide Root, Feeds;
    if Needed(f, id) {
      var n: nat :| ReachIn(f, id, n);
      MarkedAll(f, used, id, n);
    }
  }

  lemma {:induction false} MarkStep(f: Blocks, defs: Defs, before: set<nat>, used: set<nat>, was: seq<nat>, rest: seq<nat>, work: seq<nat>, v: nat)
    requires defs == DefsOf(f, |f|) && Marking(f, before, was) && was == [v] + rest && used == before + {v}
    requires forall id :: id in work <==> id in rest || (v in defs && Value(id) in Operands(defs[v]))
    ensures Marking(f, used, work)
  {
    hide Root, Needed, Operands;
    forall id | id in work ensures Needed(f, id) {
      if id !in rest {
        assert Feeds(f, v, id);
        FeedsNeeded(f, v, id);
      }
    }
  }

  // ----- retaining -----

  ghost function NeededSet(f: Blocks): (s: set<nat>)
    ensures forall id :: id in s <==> Needed(f, id)
  {
    var all := Mentioned(DefsOf(f, |f|)) + RootSet(f);
    forall id | Needed(f, id) ensures id in all { NeededMentioned(f, id); }
    set id | id in all && Needed(f, id)
  }

  ghost function RootSet(f: Blocks): (s: set<nat>)
    ensures forall id :: id in s <==> Root(f, id)
  {
    var terms := set b, v | 0 <= b < |f| && v in TermOperands(f[b].term) && v.Value? :: v.id;
    var kept := set b, p, v | 0 <= b < |f| && 0 <= p < |f[b].instrs| && MustKeep(f[b].instrs[p].1)
                              && v in Operands(f[b].instrs[p].1) && v.Value? :: v.id;
    var all := terms + kept;
    forall id | Root(f, id) ensures id in all {
      var b :| 0 <= b < |f| && (Value(id) in TermOperands(f[b].term) || KeptUse(f[b].instrs, id));
      if Value(id) in TermOperands(f[b].term) {
        assert Value(id).id in terms;
      } else {
        var p :| 0 <= p < |f[b].instrs| && MustKeep(f[b].instrs[p].1) && Value(id) in Operands(f[b].instrs[p].1);
        assert Value(id).id in kept;
      }
    }
    set id | id in all && Root(f, id)
  }

  lemma NeededMentioned(f: Blocks, id: nat)
    requires Needed(f, id)
    ensures id in Mentioned(DefsOf(f, |f|)) || Root(f, id)
  {
    hide Root;
    var n: nat :| ReachIn(f, id, n);
    if n > 0 {
      var user :| ReachIn(f, user, n - 1) && Feeds(f, user, id);
      assert Value(id) in Operands(DefsOf(f, |f|)[user]);
      assert Value(id).id in Mentioned(DefsOf(f, |f|));
    }
  }

  predicate Stays(used: set<nat>, id: nat, i: Instr) { MustKeep(i) || id in used }

  function Retain(instrs: Instrs, used: set<nat>): Instrs {
    if instrs == [] then []
    else (if Stays(used, instrs[0].0, instrs[0].1) then [instrs[0]] else []) + Retain(instrs[1..], used)
  }

  function RetainBlocks(f: Blocks, used: set<nat>): (r: Blocks)
    ensures |r| == |f|
  {
    seq(|f|, b requires 0 <= b < |f| => f[b].(instrs := Retain(f[b].instrs, used)))
  }

  lemma {:induction false} RetainMembers(instrs: Instrs, used: set<nat>, x: (nat, Instr))
    ensures x in Retain(instrs, used) <==> x in instrs && Stays(used, x.0, x.1)
  {
    if instrs != [] {
      RetainMembers(instrs[1..], used, x);
      assert instrs == [instrs[0]] + instrs[1..];
    }
  }

  /**
   * What elimination keeps: an instruction that may be dropped stays exactly when its value is
   * reachable through operands from a terminator or from an instruction that must stay.
   */
  lemma {:induction false} KeptExactly(f: Blocks, b: nat, id: nat, i: Instr)
    requires b < |f|
    ensures (id, i) in RetainBlocks(f, NeededSet(f))[b].instrs <==>
            (id, i) in f[b].instrs && (MustKeep(i) || Needed(f, id))
  {
    hide Needed, Retain;
    RetainMembers(f[b].instrs, NeededSet(f), (id, i));
  }

  // ----- one definition per id -----

  /** Every id is defined once in the whole function. */
  predicate UniqueIds(f: Blocks) {
    forall b, p, c, q ::
      0 <= b < |f| && 0 <= c < |f| && 0 <= p < |f[b].instrs| && 0 <= q < |f[c].instrs| && f[b].instrs[p].0 == f[c].instrs[q].0 ==>
        b == c && p == q
  }

  lemma {:induction false} BlockDefsFind(instrs: Instrs, p: nat, defs: Defs, id: nat)
    requires p <= |instrs|
    ensures id in BlockDefs(instrs, p, defs) <==> id in defs || exists q :: 0 <= q < p && instrs[q].0 == id
    ensures id in BlockDefs(instrs, p, defs) ==>
              (exists q :: 0 <= q < p && instrs[q] == (id, BlockDefs(instrs, p, defs)[id])) ||
              (id in defs && BlockDefs(instrs, p, defs)[id] == defs[id])
  {
    if p > 0 {
      BlockDefsFind(instrs, p - 1, defs, id);
      if instrs[p - 1].0 == id {
        assert instrs[p - 1] == (id, BlockDefs(instrs, p, defs)[id]);
      }
    }
  }

  ghost predicate DefinedIn(f: Blocks, b: nat, id: nat, i: Instr) {
    exists c, q :: 0 <= c < b && c < |f| && 0 <= q < |f[c].instrs| && f[c].instrs[q] == (id, i)
  }

  lemma {:induction false} DefsFind(f: Blocks, b: nat, id: nat)
    requires b <= |f|
    ensures id in DefsOf(f, b) ==> DefinedIn(f, b, id, DefsOf(f, b)[id])
    ensures forall c, q :: 0 <= c < b && 0 <= q < |f[c].instrs| && f[c].instrs[q].0 == id ==> id in DefsOf(f, b)
  {
    if b > 0 {
      DefsFind(f, b - 1, id);
      var instrs := f[b - 1].instrs;
      BlockDefsFind(instrs, |instrs|, DefsOf(f, b - 1), id);
      if id in DefsOf(f, b) {
        if q :| 0 <= q < |instrs| && instrs[q] == (id, DefsOf(f, b)[id]) {
          assert DefinedIn(f, b, id, DefsOf(f, b)[id]);
        }
      }
    }
  }

  lemma {:induction false} TheDefinition(f: Blocks, b: nat, p: nat)
    requires UniqueIds(f) && b < |f| && p < |f[b].instrs|
    ensures var (id, i) := f[b].instrs[p]; id in DefsOf(f, |f|) && DefsOf(f, |f|)[id] == i
  {
    hide DefsOf;
    DefsFind(f, |f|, f[b].instrs[p].0);
  }

  /** Everything a kept instruction or a terminator uses is needed. */
  lemma {:induction false} KeptUsesNeeded(f: Blocks, b: nat, p: nat, id: nat)
    requires UniqueIds(f) && b < |f| && p < |f[b].instrs| && Stays(NeededSet(f), f[b].instrs[p].0, f[b].instrs[p].1)
    requires Value(id) in Operands(f[b].instrs[p].1)
    ensures Needed(f, id)
  {
    hide Needed, Operands, MustKeep, DefsOf, UniqueIds;
    if MustKeep(f[b].instrs[p].1) {
      assert KeptUse(f[b].instrs, id);
      assert Root(f, id);
      RootNeeded(f, id);
    } else {
      TheDefinition(f, b, p);
      assert Feeds(f, f[b].instrs[p].0, id);
      FeedsNeeded(f, f[b].instrs[p].0, id);
    }
  }

  lemma TermUsesNeeded(f: Blocks, b: nat, id: nat)
    requires b < |f| && Value(id) in TermOperands(f[b].term)
    ensures Needed(f, id)
  {
    assert Root(f, id);
    RootNeeded(f, id);
  }

  /** A value that a kept instruction or a terminator uses, and that was defined, is still defined. */
  lemma {:induction false} StillDefined(f: Blocks, id: nat, c: nat, q: nat)
    requires Needed(f, id) && c < |f| && q < |f[c].instrs| && f[c].instrs[q].0 == id
    ensures f[c].instrs[q] in RetainBlocks(f, NeededSet(f))[c].instrs
  {
    hide Needed, Retain, MustKeep;
    KeptExactly(f, c, id, f[c].instrs[q].1);
  }

  // ----- meaning -----

  /** The same values for everything needed. */
  ghost predicate Agree(used: set<nat>, env: Env, env': Env) {
    forall id :: id in used ==> (id in env <==> id in env') && (id in env ==> env[id] == env'[id])
  }

  lemma {:induction false} AgreeValues(used: set<nat>, vs: seq<ValueRef>, params: seq<Value>, env: Env, env': Env)
    requires Agree(used, env, env') && forall id :: Value(id) in vs ==> id in used
    ensures ValuesOf(vs, params, env) == ValuesOf(vs, params, env')
  {
    if vs != [] {
      assert vs[0] in vs;
      assert forall id :: Value(id) in vs[1..] ==> Value(id) in vs;
      AgreeValue(used, vs[0], params, env, env');
      AgreeValues(used, vs[1..], params, env, env');
    }
  }

  lemma AgreeValue(used: set<nat>, v: ValueRef, params: seq<Value>, env: Env, env': Env)
    requires Agree(used, env, env') && (v.Value? ==> v.id in used)
    ensures ValueOf(v, params, env) == ValueOf(v, params, env')
  {
  }

  lemma {:induction false} ExecShift(ops: IrOps, x: (nat, Instr), rest: Instrs, p: nat, params: seq<Value>, env: Env, trace: seq<Event>)
    ensures Exec(ops, [x] + rest, p + 1, params, env, trace) == Exec(ops, rest, p, params, env, trace)
    decreases |rest| - p
  {
    hide ExecInstr;
    if p < |rest| {
      assert ([x] + rest)[p + 1] == rest[p];
      if ExecInstr(ops, rest[p].1, params, env, trace).Some? {
        var (v, trace') := ExecInstr(ops, rest[p].1, params, env, trace).value;
        ExecShift(ops, x, rest, p + 1, params, env[rest[p].0 := v], trace');
      }
    }
  }

  ghost predicate KeptClosed(instrs: Instrs, used: set<nat>) {
    forall p, id :: 0 <= p < |instrs| && Stays(used, instrs[p].0, instrs[p].1) && Value(id) in Operands(instrs[p].1) ==> id in used
  }

  /** An instruction that may go has no effect. */
  lemma DroppedQuiet(ops: IrOps, i: Instr, params: seq<Value>, env: Env, trace: seq<Event>)
    requires !MustKeep(i) && ExecInstr(ops, i, params, env, trace).Some?
    ensures ExecInstr(ops, i, params, env, trace).value.1 == trace
  {
    hide PureValue;
  }

  /** Running what is left: the same effects, and the same value for everything needed. */
  lemma {:induction false} RetainedExec(ops: IrOps, instrs: Instrs, used: set<nat>, params: seq<Value>, env: Env, env': Env, trace: seq<Event>)
    requires KeptClosed(instrs, used) && Agree(used, env, env')
    requires Exec(ops, instrs, 0, params, env, trace).Some?
    ensures var r, r' := Exec(ops, instrs, 0, params, env, trace).value, Exec(ops, Retain(instrs, used), 0, params, env', trace);
            r'.Some? && Agree(used, r.0, r'.value.0) && r'.value.1 == r.1
  {
    hide ExecInstr, Operands, MustKeep;
    if instrs != [] {
      var (id, i) := instrs[0];
      var rest := instrs[1..];
      var (v, trace') := ExecInstr(ops, i, params, env, trace).value;
      assert instrs == [instrs[0]] + rest;
      ExecShift(ops, instrs[0], rest, 0, params, env[id := v], trace');
      assert forall p :: 0 <= p < |rest| ==> rest[p] == instrs[p + 1];
      if Stays(used, id, i) {
        KeptInstr(ops, instrs, used, params, env, env', trace);
        ExecShift(ops, instrs[0], Retain(rest, used), 0, params, env'[id := v], trace');
        RetainedExec(ops, rest, used, params, env[id := v], env'[id := v], trace');
        assert Retain(instrs, used) == [instrs[0]] + Retain(rest, used);
      } else {
        DroppedQuiet(ops, i, params, env, trace);
        RetainedExec(ops, rest, used, params, env[id := v], env', trace);
        assert Retain(instrs, used) == Retain(rest, used);
      }
    }
  }

  lemma {:induction false} KeptInstr(ops: IrOps, instrs: Instrs, used: set<nat>, params: seq<Value>, env: Env, env': Env, trace: seq<Event>)
    requires instrs != [] && KeptClosed(instrs, used) && Agree(used, env, env') && Stays(used, instrs[0].0, instrs[0].1)
    ensures ExecInstr(ops, instrs[0].1, params, env', trace) == ExecInstr(ops, instrs[0].1, params, env, trace)
  {
    hide Operands, MustKeep, Eval;
    AgreeValues(used, Operands(instrs[0].1), params, env, env');
  }

  lemma RetainedEnter(f: Blocks, used: set<nat>, target: nat, args: seq<ValueRef>, params: seq<Value>, env: Env, env': Env, trace: seq<Event>)
    requires Agree(used, env, env') && forall id :: Value(id) in args ==> id in used
    ensures SameRun(used, Enter(f, target, args, params, env, trace), Enter(RetainBlocks(f, used), target, args, params, env', trace))
  {
    hide Retain, Agree, ValuesOf;
    AgreeValues(used, args, params, env, env');
  }

  lemma {:induction false} RetainedTransfer(f: Blocks, used: set<nat>, t: Terminator, params: seq<Value>, env: Env, env': Env, trace: seq<Event>)
    requires Agree(used, env, env') && forall id :: Value(id) in TermOperands(t) ==> id in used
    ensures SameRun(used, Transfer(f, t, params, env, trace), Transfer(RetainBlocks(f, used), t, params, env', trace))
  {
    hide RetainBlocks, Agree, ValueOf, SameRun, Enter;
    match t
    case Unset => CrashedSame(used);
    case Ret(v) =>
      if v.Some? {
        assert v.value in TermOperands(t);
        AgreeValue(used, v.value, params, env, env');
        FinishedSame(used, ValueOf(v.value, params, env), trace);
      } else {
        FinishedSame(used, None, trace);
      }
      CrashedSame(used);
    case Jump(target, args) => RetainedEnter(f, used, target, args, params, env, env', trace);
    case Branch(c, x, a, y, b) =>
      assert c in TermOperands(t);
      assert forall v :: v in a || v in b ==> v in TermOperands(t);
      AgreeValue(used, c, params, env, env');
      RetainedEnter(f, used, x, a, params, env, env', trace);
      RetainedEnter(f, used, y, b, params, env, env', trace);
      CrashedSame(used);
  }

  lemma CrashedSame(used: set<nat>)
    ensures SameRun(used, Crashed, Crashed)
  {
  }

  lemma FinishedSame(used: set<nat>, r: Option<Value>, trace: seq<Event>)
    ensures SameRun(used, Finished(r, trace), Finished(r, trace))
  {
  }

  /** The same block, parameters, effects and result, and the same value for everything needed. */
  ghost predicate SameRun(used: set<nat>, a: Run, b: Run) {
    match a
    case AtBlock(k, params, env, trace) => b.AtBlock? && b.block == k && b.params == params && b.trace == trace && Agree(used, env, b.env)
    case Finished(_, _) => b == a
    case Crashed => b == a
  }

  lemma {:induction false} RetainedStep(ops: IrOps, f: Blocks, a: Run, b: Run)
    requires UniqueIds(f) && SameRun(NeededSet(f), a, b) && StepBlock(ops, f, a) != Crashed
    ensures SameRun(NeededSet(f), StepBlock(ops, f, a), StepBlock(ops, RetainBlocks(f, NeededSet(f)), b))
  {
    hide Exec, Transfer, Needed, Retain, UniqueIds, Agree, Operands, TermOperands, MustKeep;
    var used := NeededSet(f);
    if a.AtBlock? {
      var k := a.block;
      BlockClosed(f, k);
      RetainedExec(ops, f[k].instrs, used, a.params, a.env, b.env, a.trace);
      var (env, trace) := Exec(ops, f[k].instrs, 0, a.params, a.env, a.trace).value;
      var (env', _) := Exec(ops, Retain(f[k].instrs, used), 0, a.params, b.env, a.trace).value;
      forall id | Value(id) in TermOperands(f[k].term) ensures id in used { TermUsesNeeded(f, k, id); }
      RetainedTransfer(f, used, f[k].term, a.params, env, env', trace);
    }
  }

  lemma {:induction false} BlockClosed(f: Blocks, k: nat)
    requires UniqueIds(f) && k < |f|
    ensures KeptClosed(f[k].instrs, NeededSet(f))
  {
    hide Needed, UniqueIds, Operands, MustKeep, Stays;
    forall p, id | 0 <= p < |f[k].instrs| && Stays(NeededSet(f), f[k].instrs[p].0, f[k].instrs[p].1) && Value(id) in Operands(f[k].instrs[p].1)
      ensures id in NeededSet(f)
    {
      KeptUsesNeeded(f, k, p, id);
    }
  }
}
