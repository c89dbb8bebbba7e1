/**
 * Building the stackify plan (ir_codegen/stackify_plan.rs, analysis.rs): counting uses, choosing
 * spills and handing out slots in loops, each loop proved to compute its part of the plan.
 */
module StackPlanner {
  import opened Prelude
  import opened Ir
  import opened IrDce
  import opened CodegenSpec
  import opened StackPlan

  function CountOf(uses: map<nat, nat>, id: nat): nat { if id in uses then uses[id] else 0 }

  /** `uses` counts the value uses of `refs`. */
  ghost predicate Counts(uses: map<nat, nat>, refs: seq<ValueRef>) {
    forall id :: CountOf(uses, id) == multiset(refs)[Value(id)]
  }

  method CollectValueUses(vs: seq<ValueRef>, before: map<nat, nat>, ghost refs: seq<ValueRef>) returns (uses: map<nat, nat>)
    requires Counts(before, refs)
    ensures Counts(uses, refs + vs)
  {
    uses := before;
    assert refs + vs[..0] == refs;
    for k := 0 to |vs|
      invariant Counts(uses, refs + vs[..k])
    {
      assert refs + vs[..k + 1] == (refs + vs[..k]) + [vs[k]];
      if vs[k].Value? {
        uses := uses[vs[k].id := CountOf(uses, vs[k].id) + 1];
      }
    }
    assert vs[..|vs|] == vs;
  }

  method CountUses(f: Blocks) returns (uses: map<nat, nat>)
    ensures forall id :: CountOf(uses, id) == Uses(f, id)
  {
    hide Counts, Operands, TermOperands, AllRefs, InstrRefs;
    uses := map[];
    CountsNothing();
    NoRefs(f);
    for b := 0 to |f|
      invariant Counts(uses, AllRefs(f, b))
    {
      ghost var before := AllRefs(f, b);
      var instrs := f[b].instrs;
      NoInstrRefs(before, instrs);
      for p := 0 to |instrs|
        invariant Counts(uses, before + InstrRefs(instrs, p))
      {
        uses := CollectValueUses(Operands(instrs[p].1), uses, before + InstrRefs(instrs, p));
        MoreRefs(before, instrs, p);
      }
      uses := CollectValueUses(TermOperands(f[b].term), uses, before + InstrRefs(instrs, |instrs|));
      BlockDone(f, b);
    }
    CountsMean(uses, AllRefs(f, |f|));
  }

  lemma NoRefs(f: Blocks)
    ensures AllRefs(f, 0) == []
  {
  }

  lemma NoInstrRefs(before: seq<ValueRef>, instrs: Instrs)
    ensures before + InstrRefs(instrs, 0) == before
  {
  }

  lemma MoreRefs(before: seq<ValueRef>, instrs: Instrs, p: nat)
    requires p < |instrs|
    ensures before + InstrRefs(instrs, p + 1) == (before + InstrRefs(instrs, p)) + Operands(instrs[p].1)
  {
    hide Operands;
  }

  lemma BlockDone(f: Blocks, b: nat)
    requires b < |f|
    ensures AllRefs(f, b + 1) == (AllRefs(f, b) + InstrRefs(f[b].instrs, |f[b].instrs|)) + TermOperands(f[b].term)
  {
    hide TermOperands, InstrRefs;
  }

  lemma CountsNothing()
    ensures Counts(map[], [])
  {
  }

  lemma CountsMean(uses: map<nat, nat>, refs: seq<ValueRef>)
    requires Counts(uses, refs)
    ensures forall id :: CountOf(uses, id) == multiset(refs)[Value(id)]
  {
  }

  /** Block of the definition of each id. */
  method DefBlocks(f: Blocks) returns (m: map<nat, nat>)
    ensures forall id :: id in m ==> DefinedInBlock(f, m[id], id)
    ensures forall b, id :: DefinedInBlock(f, b, id) ==> id in m
  {
    m := map[];
    for b := 0 to |f|
      invariant forall id :: id in m ==> DefinedInBlock(f, m[id], id)
      invariant forall c, id :: 0 <= c < b && DefinedInBlock(f, c, id) ==> id in m
    {
      for p := 0 to |f[b].instrs|
        invariant forall id :: id in m ==> DefinedInBlock(f, m[id], id)
        invariant forall c, id :: 0 <= c < b && DefinedInBlock(f, c, id) ==> id in m
        invariant forall q :: 0 <= q < p ==> f[b].instrs[q].0 in m
      {
        assert DefinedInBlock(f, b, f[b].instrs[p].0);
        m := m[f[b].instrs[p].0 := b];
      }
    }
  }

  lemma OneDefBlock(f: Blocks, b: nat, c: nat, id: nat)
    requires UniqueIds(f) && DefinedInBlock(f, b, id) && DefinedInBlock(f, c, id)
    ensures b == c
  {
  }

  /** Values among `vs` that the block `b` uses but another block defines. */
  method CollectCrossUses(vs: seq<ValueRef>, b: nat, defBlock: map<nat, nat>, before: set<nat>) returns (cross: set<nat>)
    ensures forall id :: id in cross <==> id in before || (Value(id) in vs && id in defBlock && defBlock[id] != b)
  {
    cross := before;
    for k := 0 to |vs|
      invariant forall id :: id in cross <==> id in before || (Value(id) in vs[..k] && id in defBlock && defBlock[id] != b)
    {
      assert vs[..k + 1] == vs[..k] + [vs[k]];
      if vs[k].Value? && vs[k].id in defBlock && defBlock[vs[k].id] != b {
        cross := cross + {vs[k].id};
      }
    }
    assert vs[..|vs|] == vs;
  }

  ghost predicate CrossUpTo(f: Blocks, defBlock: map<nat, nat>, n: nat, id: nat) {
    exists c :: 0 <= c < n && UsedInBlock(f, c, id) && id in defBlock && defBlock[id] != c
  }

  method CrossUses(f: Blocks, defBlock: map<nat, nat>) returns (cross: set<nat>)
    requires UniqueIds(f)
    requires forall id :: id in defBlock ==> DefinedInBlock(f, defBlock[id], id)
    requires forall b, id :: DefinedInBlock(f, b, id) ==> id in defBlock
    ensures forall id :: id in cross <==> Cross(f, id)
  {
    hide Operands, TermOperands, DefinedInBlock, UniqueIds;
    cross := {};
    for b := 0 to |f|
      invariant forall id :: id in cross <==> CrossUpTo(f, defBlock, b, id)
    {
      ghost var before := cross;
      var instrs := f[b].instrs;
      for p := 0 to |instrs|
        invariant forall id :: id in cross <==> id in before || (Value(id) in InstrRefs(instrs, p) && id in defBlock && defBlock[id] != b)
      {
        cross := CollectCrossUses(Operands(instrs[p].1), b, defBlock, cross);
      }
      cross := CollectCrossUses(TermOperands(f[b].term), b, defBlock, cross);
      forall id ensures id in cross <==> CrossUpTo(f, defBlock, b + 1, id) {
        CrossNext(f, defBlock, b, id);
      }
    }
    forall id ensures CrossUpTo(f, defBlock, |f|, id) <==> Cross(f, id) {
      CrossMeans(f, defBlock, id);
    }
  }

  lemma CrossNext(f: Blocks, defBlock: map<nat, nat>, b: nat, id: nat)
    requires b < |f|
    ensures CrossUpTo(f, defBlock, b + 1, id) <==>
            CrossUpTo(f, defBlock, b, id) || (Value(id) in BlockRefs(f[b]) && id in defBlock && defBlock[id] != b)
  {
    hide BlockRefs;
    assert UsedInBlock(f, b, id) <==> Value(id) in BlockRefs(f[b]);
  }

  lemma CrossMeans(f: Blocks, defBlock: map<nat, nat>, id: nat)
    requires UniqueIds(f)
    requires forall id :: id in defBlock ==> DefinedInBlock(f, defBlock[id], id)
    requires forall b, id :: DefinedInBlock(f, b, id) ==> id in defBlock
    ensures CrossUpTo(f, defBlock, |f|, id) <==> Cross(f, id)
  {
    hide DefinedInBlock, BlockRefs, UniqueIds;
    if Cross(f, id) {
      var b, c :| DefinedInBlock(f, b, id) && c != b && UsedInBlock(f, c, id);
      OneDefBlock(f, b, defBlock[id], id);
    }
  }

  /** Used twice or more and not cheap, or an effect whose result is used. */
  ghost predicate Wanted(f: Blocks, id: nat, i: Instr) {
    (Uses(f, id) > 1 && !CheapConst(i)) || (HasSideEffects(i) && Uses(f, id) > 0)
  }

  ghost predicate WantedIn(f: Blocks, b: nat, p: nat, id: nat)
    requires b < |f| && p <= |f[b].instrs|
  {
    exists q :: 0 <= q < p && f[b].instrs[q].0 == id && Wanted(f, id, f[b].instrs[q].1)
  }

  ghost predicate WantedBy(f: Blocks, b: nat, id: nat)
    requires b <= |f|
  {
    exists c :: 0 <= c < b && WantedIn(f, c, |f[c].instrs|, id)
  }

  method WantedSpills(f: Blocks, uses: map<nat, nat>) returns (spill: set<nat>)
    requires forall id :: CountOf(uses, id) == Uses(f, id)
    ensures forall id :: id in spill <==> WantedBy(f, |f|, id)
  {
    hide Uses, CheapConst, HasSideEffects;
    spill := {};
    for b := 0 to |f|
      invariant forall id :: id in spill <==> WantedBy(f, b, id)
    {
      ghost var before := spill;
      for p := 0 to |f[b].instrs|
        invariant forall id :: id in spill <==> id in before || WantedIn(f, b, p, id)
      {
        var (id, i) := f[b].instrs[p];
        ghost var was := spill;
        if CountOf(uses, id) > 1 {
          if !CheapConst(i) {
            spill := spill + {id};
          }
        } else if HasSideEffects(i) && CountOf(uses, id) > 0 {
          spill := spill + {id};
        }
        CheapIsPure(i);
        WantedNext(f, b, p);
        assert forall x :: x in spill <==> x in was || (x == id && Wanted(f, id, i));
      }
      WantedByNext(f, b);
    }
  }

  lemma CheapIsPure(i: Instr)
    ensures CheapConst(i) ==> !HasSideEffects(i)
  {
  }

  lemma WantedNext(f: Blocks, b: nat, p: nat)
    requires b < |f| && p < |f[b].instrs|
    ensures forall id :: WantedIn(f, b, p + 1, id) <==>
              WantedIn(f, b, p, id) || (id == f[b].instrs[p].0 && Wanted(f, id, f[b].instrs[p].1))
  {
    hide Wanted;
  }

  lemma WantedByNext(f: Blocks, b: nat)
    requires b < |f|
    ensures forall id :: WantedBy(f, b + 1, id) <==> WantedBy(f, b, id) || WantedIn(f, b, |f[b].instrs|, id)
  {
    hide WantedIn;
  }

  lemma {:induction false} WantedMeans(f: Blocks, id: nat)
    requires UniqueIds(f)
    ensures WantedBy(f, |f|, id) <==> id in DefsOf(f, |f|) && Wanted(f, id, DefsOf(f, |f|)[id])
  {
    hide Wanted, DefsOf, UniqueIds;
    DefsFind(f, |f|, id);
    if WantedBy(f, |f|, id) {
      var c :| 0 <= c < |f| && WantedIn(f, c, |f[c].instrs|, id);
      var q :| 0 <= q < |f[c].instrs| && f[c].instrs[q].0 == id && Wanted(f, id, f[c].instrs[q].1);
      TheDefinition(f, c, q);
    }
    if id in DefsOf(f, |f|) && Wanted(f, id, DefsOf(f, |f|)[id]) {
      var c, q :| 0 <= c < |f| && 0 <= q < |f[c].instrs| && f[c].instrs[q] == (id, DefsOf(f, |f|)[id]);
      assert WantedIn(f, c, |f[c].instrs|, id);
    }
  }

  ghost predicate SquaredBelow(f: Blocks, b: nat, id: nat)
    requires b <= |f|
  {
    exists c :: 0 <= c < b && SquaredIn(f[c].instrs, id)
  }

  /** Take out what one instruction can duplicate instead. */
  method DropSquared(f: Blocks, before: set<nat>, uses: map<nat, nat>, cross: set<nat>) returns (spill: set<nat>)
    requires forall id :: CountOf(uses, id) == Uses(f, id)
    requires forall id :: id in cross <==> Cross(f, id)
    ensures forall id :: id in spill <==> id in before && !Squared(f, id)
  {
    hide Uses, Cross, SquaredIn;
    spill := before;
    for b := 0 to |f|
      invariant forall id :: id in spill <==> id in before && !(CountOf(uses, id) == 2 && id !in cross && SquaredBelow(f, b, id))
    {
      ghost var was := spill;
      SquaredNone(f[b].instrs);
      for p := 0 to |f[b].instrs|
        invariant forall id :: id in spill <==> id in was && !(CountOf(uses, id) == 2 && id !in cross && SquaredIn(f[b].instrs[..p], id))
      {
        SquaredNext(f[b].instrs, p);
        var i := f[b].instrs[p].1;
        if i.Binary? && i.left == i.right && i.left.Value? {
          var id := i.left.id;
          if CountOf(uses, id) == 2 && id !in cross {
            spill := spill - {id};
          }
        }
      }
      assert f[b].instrs[..|f[b].instrs|] == f[b].instrs;
      SquaredBelowNext(f, b);
    }
  }

  lemma SquaredNone(instrs: Instrs)
    ensures forall id :: !SquaredIn(instrs[..0], id)
  {
  }

  lemma SquaredNext(instrs: Instrs, p: nat)
    requires p < |instrs|
    ensures forall id :: SquaredIn(instrs[..p + 1], id) <==> SquaredIn(instrs[..p], id) || SquaredBy(instrs[p].1, id)
  {
    hide SquaredBy;
    forall id ensures SquaredIn(instrs[..p + 1], id) <==> SquaredIn(instrs[..p], id) || SquaredBy(instrs[p].1, id) {
      assert instrs[..p + 1][p] == instrs[p];
      assert forall q :: 0 <= q < p ==> instrs[..p + 1][q] == instrs[..p][q];
    }
  }

  lemma SquaredBelowNext(f: Blocks, b: nat)
    requires b < |f|
    ensures forall id :: SquaredBelow(f, b + 1, id) <==> SquaredBelow(f, b, id) || SquaredIn(f[b].instrs, id)
  {
    hide SquaredIn;
  }

  /** The spill set, step by step. */
  method SpillSet(f: Blocks) returns (spill: set<nat>)
    requires UniqueIds(f)
    ensures forall id :: id in spill <==> Spilled(f, id)
  {
    hide Uses, Cross, Squared, WantedBy, DefsOf, CheapConst, Formal, Wanted, UniqueIds;
    var uses := CountUses(f);
    var defs := CollectDefs(f);
    var defBlock := DefBlocks(f);
    var cross := CrossUses(f, defBlock);
    var wanted := WantedSpills(f, uses);
    var all := wanted + cross;
    var loadable := set id | id in all && id in defs && !Formal(defs[id]);
    var kept := set id | id in loadable && !(id in cross && CheapConst(defs[id]));
    spill := DropSquared(f, kept, uses, cross);
    forall id ensures id in spill <==> Spilled(f, id) {
      WantedMeans(f, id);
      SpilledMeans(f, id);
    }
  }

  lemma SpilledMeans(f: Blocks, id: nat)
    ensures Spilled(f, id) <==>
            && id in DefsOf(f, |f|) && !Formal(DefsOf(f, |f|)[id]) && !Squared(f, id)
            && (Wanted(f, id, DefsOf(f, |f|)[id]) || Cross(f, id))
            && !(Cross(f, id) && CheapConst(DefsOf(f, |f|)[id]))
  {
    hide Uses, Cross, Squared, DefsOf;
  }

  // ----- slots -----

  lemma {:induction false} ValueSlotsGrow(spill: set<nat>, n: nat, m: nat)
    requires n <= m
    ensures ValueSlots(spill, n).1 <= ValueSlots(spill, m).1
    decreases m
  {
    if n < m {
      ValueSlotsGrow(spill, n, m - 1);
    }
  }

  lemma {:induction false} ParamSlotsGrow(f: Blocks, entry: nat, b: nat, c: nat, k: nat)
    requires b <= c <= |f|
    ensures k <= ParamSlots(f, entry, b, k).1 <= ParamSlots(f, entry, c, k).1
    decreases c
  {
    hide AddParams;
    if c > 0 {
      var (m, k') := ParamSlots(f, entry, c - 1, k);
      AddParamsFill(m, c - 1, f[c - 1].params, k');
      ParamSlotsGrow(f, entry, if b < c then b else c - 1, c - 1, k);
    }
  }

  lemma {:induction false} CompoundsGrow(f: Blocks, b: nat, c: nat)
    requires b <= c <= |f|
    ensures AllCompounds(f, b) <= AllCompounds(f, c)
    decreases c
  {
    hide Compounds;
    if b < c {
      CompoundsGrow(f, b, c - 1);
    }
  }

  lemma {:induction false} CompoundsIn(instrs: Instrs, p: nat, q: nat)
    requires p <= q <= |instrs|
    ensures Compounds(instrs, p) <= Compounds(instrs, q)
    decreases q
  {
    if p < q {
      CompoundsIn(instrs, p, q - 1);
    }
  }

  method AllocValues(spill: set<nat>, n: nat) returns (r: Option<(map<nat, nat>, nat)>)
    ensures r.Some? <==> ValueSlots(spill, n).1 <= MAX_PLANNED
    ensures r.Some? ==> r.value == ValueSlots(spill, n)
  {
    var slots, next := map[], 0;
    for id := 0 to n
      invariant (slots, next) == ValueSlots(spill, id) && next <= MAX_PLANNED
    {
      if id in spill {
        slots, next := slots[id := next], next + 1;
        if next == 255 {
          ValueSlotsGrow(spill, id + 1, n);
          return None;
        }
      }
    }
    r := Some((slots, next));
  }

  method AllocParams(f: Blocks, entry: nat, k: nat) returns (r: Option<(ParamMap, nat)>)
    requires k <= MAX_PLANNED
    ensures r.Some? <==> ParamSlots(f, entry, |f|, k).1 <= MAX_PLANNED
    ensures r.Some? ==> r.value == ParamSlots(f, entry, |f|, k)
  {
    hide AddParams;
    var slots: ParamMap, next := map[], k;
    for b := 0 to |f|
      invariant (slots, next) == ParamSlots(f, entry, b, k) && next <= MAX_PLANNED
    {
      if b == entry {
        continue;
      }
      ghost var before, start := slots, next;
      AddParamsStart(before, b, start);
      for i := 0 to f[b].params
        invariant (slots, next) == AddParams(before, b, i, start) && next <= MAX_PLANNED
      {
        AddParamsNext(before, b, i, start);
        slots, next := slots[(b, i) := next], next + 1;
        if next == 255 {
          AddParamsFill(before, b, f[b].params, start);
          AddParamsFill(before, b, i + 1, start);
          ParamSlotsGrow(f, entry, b + 1, |f|, k);
          return None;
        }
      }
    }
    r := Some((slots, next));
  }

  lemma AddParamsStart(m: ParamMap, b: nat, k: nat)
    ensures AddParams(m, b, 0, k) == (m, k)
  {
  }

  lemma AddParamsNext(m: ParamMap, b: nat, i: nat, k: nat)
    ensures AddParams(m, b, i + 1, k) ==
            (AddParams(m, b, i, k).0[(b, i) := AddParams(m, b, i, k).1], AddParams(m, b, i, k).1 + 1)
  {
  }

  method AllocPairs(f: Blocks, k: nat) returns (r: Option<seq<(nat, nat)>>)
    requires k <= MAX_PLANNED
    ensures r.Some? <==> k + 2 * AllCompounds(f, |f|) <= MAX_PLANNED
    ensures r.Some? ==> r.value == PairSlots(AllCompounds(f, |f|), k)
  {
    hide Compounds;
    var pairs: seq<(nat, nat)>, next := [], k;
    for b := 0 to |f|
      invariant next == k + 2 * |pairs| && |pairs| == AllCompounds(f, b) && pairs == PairSlots(|pairs|, k) && next <= MAX_PLANNED
    {
      CompoundsGrow(f, b + 1, |f|);
      CompoundsNone(f[b].instrs);
      for p := 0 to |f[b].instrs|
        invariant next == k + 2 * |pairs| && |pairs| == AllCompounds(f, b) + Compounds(f[b].instrs, p)
        invariant pairs == PairSlots(|pairs|, k) && next <= MAX_PLANNED
      {
        CompoundsNext(f[b].instrs, p);
        CompoundsIn(f[b].instrs, p + 1, |f[b].instrs|);
        if f[b].instrs[p].1.MapCompound? {
          var keySlot := next;
          next := next + 1;
          if next == 255 {
            return None;
          }
          var valueSlot := next;
          next := next + 1;
          if next == 255 {
            return None;
          }
          pairs := pairs + [(keySlot, valueSlot)];
        }
      }
    }
    r := Some(pairs);
  }

  lemma CompoundsNone(instrs: Instrs)
    ensures Compounds(instrs, 0) == 0
  {
  }

  lemma CompoundsNext(instrs: Instrs, p: nat)
    requires p < |instrs|
    ensures Compounds(instrs, p + 1) == Compounds(instrs, p) + if instrs[p].1.MapCompound? then 1 else 0
  {
  }

  /**
   * The plan: exactly the values that need a slot are spilled, and slots are handed out in order;
   * it fails exactly when more than 254 locals are needed.
   */
  method BuildStackifyPlan(f: Blocks, entry: nat, n: nat) returns (r: Result<Plan, CodegenError>)
    requires UniqueIds(f)
    ensures r == if PlanOf(f, entry, n).nextLocal <= 254 then Ok(PlanOf(f, entry, n)) else Err(LocalLimitExceeded)
  {
    hide Spilled, UniqueIds, ValueSlots, ParamSlots, AllCompounds;
    var chosen := SpillSet(f);
    assert chosen == SpillIds(f);
    ParamSlotsGrow(f, entry, 0, |f|, ValueSlots(chosen, n).1);
    var values := AllocValues(chosen, n);
    if values.None? {
      return Err(LocalLimitExceeded);
    }
    var params := AllocParams(f, entry, values.value.1);
    if params.None? {
      return Err(LocalLimitExceeded);
    }
    var pairs := AllocPairs(f, params.value.1);
    if pairs.None? {
      return Err(LocalLimitExceeded);
    }
    r := Ok(Plan(chosen, values.value.0, params.value.0, pairs.value, params.value.1 + 2 * |pairs.value|));
  }
}
