/** Which SSA values are spilled to locals, and where (ir_codegen/stackify_plan.rs, analysis.rs). */
module StackPlan {
  import opened Prelude
  import opened Bytecode
  import opened Ir
  import opened IrDce
  import opened CodegenSpec
  import Ast

  // ----- uses -----

  function InstrRefs(instrs: Instrs, p: nat): seq<ValueRef>
    requires p <= |instrs|
  {
    if p == 0 then [] else InstrRefs(instrs, p - 1) + Operands(instrs[p - 1].1)
  }

  function BlockRefs(b: BasicBlock): seq<ValueRef> {
    InstrRefs(b.instrs, |b.instrs|) + TermOperands(b.term)
  }

  /** Every use of a value in the first `b` blocks. */
  function AllRefs(f: Blocks, b: nat): seq<ValueRef>
    requires b <= |f|
  {
    if b == 0 then [] else AllRefs(f, b - 1) + BlockRefs(f[b - 1])
  }

  function Uses(f: Blocks, id: nat): nat { multiset(AllRefs(f, |f|))[Value(id)] }

  predicate DefinedInBlock(f: Blocks, b: nat, id: nat) {
    b < |f| && exists p :: 0 <= p < |f[b].instrs| && f[b].instrs[p].0 == id
  }

  predicate UsedInBlock(f: Blocks, b: nat, id: nat) { b < |f| && Value(id) in BlockRefs(f[b]) }

  /** Used in a block other than the one that defines it. */
  ghost predicate Cross(f: Blocks, id: nat) {
    exists b, c :: DefinedInBlock(f, b, id) && c != b && UsedInBlock(f, c, id)
  }

  // ----- the spill set -----

  /** Constants cheaper to push again than to store. */
  predicate CheapLiteral(lit: Ast.Literal) {
    match lit
    case NullLiteral => true
    case BoolLiteral(_) => true
    case IntLiteral(s) => Ast.ParseIntLiteral(s).Some? && FitsI32(Ast.ParseIntLiteral(s).value)
    case StringLiteral(v) => |v| <= 4
    case BufferLiteral(v) => |v| <= 4
  }

  predicate CheapConst(i: Instr) { i.Const? && CheapLiteral(i.lit) }

  /** A formal parameter, reloadable by LDARG anywhere. */
  predicate Formal(i: Instr) { i.Copy? && i.value.Param? }

  predicate Reloadable(i: Instr) { CheapConst(i) || Formal(i) }

  /** Both operands of a binary instruction. */
  predicate SquaredBy(i: Instr, id: nat) { i.Binary? && i.left == Value(id) && i.right == Value(id) }

  predicate SquaredIn(instrs: Instrs, id: nat) { exists p :: 0 <= p < |instrs| && SquaredBy(instrs[p].1, id) }

  /** Its only two uses are the two operands of one instruction of its block, which duplicates it instead. */
  ghost predicate Squared(f: Blocks, id: nat) {
    Uses(f, id) == 2 && !Cross(f, id) && exists b :: 0 <= b < |f| && SquaredIn(f[b].instrs, id)
  }

  ghost predicate SpilledAs(f: Blocks, id: nat, i: Instr) {
    && !Reloadable(i) && !Squared(f, id)
    && (Uses(f, id) > 1 || (HasSideEffects(i) && Uses(f, id) > 0) || Cross(f, id))
  }

  ghost predicate Spilled(f: Blocks, id: nat) {
    var defs := DefsOf(f, |f|);
    id in defs && SpilledAs(f, id, defs[id])
  }

  /** The values that need a slot. */
  ghost function SpillIds(f: Blocks): (spill: set<nat>)
    ensures forall id :: id in spill <==> Spilled(f, id)
  {
    set id | id in DefsOf(f, |f|) && Spilled(f, id)
  }

  // ----- slots -----

  /** Values in id order. */
  function ValueSlots(spill: set<nat>, n: nat): (map<nat, nat>, nat) {
    if n == 0 then (map[], 0)
    else
      var (m, k) := ValueSlots(spill, n - 1);
      if n - 1 in spill then (m[n - 1 := k], k + 1) else (m, k)
  }

  type ParamMap = map<(nat, nat), nat>

  function AddParams(m: ParamMap, b: nat, count: nat, k: nat): (ParamMap, nat) {
    if count == 0 then (m, k)
    else
      var (m', k') := AddParams(m, b, count - 1, k);
      (m'[(b, count - 1) := k'], k' + 1)
  }

  /** Then the parameters of every block but the entry. */
  function ParamSlots(f: Blocks, entry: nat, b: nat, k: nat): (ParamMap, nat)
    requires b <= |f|
  {
    if b == 0 then (map[], k)
    else
      var (m, k') := ParamSlots(f, entry, b - 1, k);
      if b - 1 == entry then (m, k') else AddParams(m, b - 1, f[b - 1].params, k')
  }

  function Compounds(instrs: Instrs, p: nat): nat
    requires p <= |instrs|
  {
    if p == 0 then 0 else Compounds(instrs, p - 1) + if instrs[p - 1].1.MapCompound? then 1 else 0
  }

  function AllCompounds(f: Blocks, b: nat): nat
    requires b <= |f|
  {
    if b == 0 then 0 else AllCompounds(f, b - 1) + Compounds(f[b - 1].instrs, |f[b - 1].instrs|)
  }

  /** Then one pair of scratch slots per compound assignment, in program order. */
  function PairSlots(count: nat, k: nat): (r: seq<(nat, nat)>)
    ensures |r| == count
  {
    seq(count, i => (k + 2 * i, k + 2 * i + 1))
  }

  datatype Plan = Plan(
    spill: set<nat>, valueSlot: map<nat, nat>, paramSlot: ParamMap, pairs: seq<(nat, nat)>, nextLocal: nat)

  function SlotPlan(f: Blocks, entry: nat, n: nat, spill: set<nat>): Plan {
    var (values, k1) := ValueSlots(spill, n);
    var (params, k2) := ParamSlots(f, entry, |f|, k1);
    var count := AllCompounds(f, |f|);
    Plan(spill, values, params, PairSlots(count, k2), k2 + 2 * count)
  }

  const MAX_PLANNED := 254

  /** The plan of a function whose ids are below `n`. */
  ghost function PlanOf(f: Blocks, entry: nat, n: nat): Plan { SlotPlan(f, entry, n, SpillIds(f)) }

  // ----- slots never collide -----

  /** The slots of values below `n`, in id order. */
  function ValueList(spill: set<nat>, n: nat): seq<nat> {
    if n == 0 then []
    else if n - 1 in spill then ValueList(spill, n - 1) + [ValueSlots(spill, n - 1).1]
    else ValueList(spill, n - 1)
  }

  function ParamList(f: Blocks, entry: nat, b: nat, k: nat): seq<nat>
    requires b <= |f|
  {
    if b == 0 then []
    else if b - 1 == entry then ParamList(f, entry, b - 1, k)
    else ParamList(f, entry, b - 1, k) + Counting(ParamSlots(f, entry, b - 1, k).1, f[b - 1].params)
  }

  /** `k`, `k + 1`, …: `count` numbers. */
  function Counting(k: nat, count: nat): (r: seq<nat>)
    ensures |r| == count
  {
    seq(count, i => k + i)
  }

  lemma CountingAppend(k: nat, a: nat, b: nat)
    ensures Counting(k, a) + Counting(k + a, b) == Counting(k, a + b)
  {
  }

  lemma {:induction false} ValueSlotsFill(spill: set<nat>, n: nat)
    ensures ValueList(spill, n) == Counting(0, ValueSlots(spill, n).1)
    ensures forall id :: id in ValueSlots(spill, n).0 <==> id in spill && id < n
    ensures forall id :: id in ValueSlots(spill, n).0 ==>
              ValueSlots(spill, n).0[id] == ValueSlots(spill, id).1 < ValueSlots(spill, n).1
  {
    if n > 0 {
      ValueSlotsFill(spill, n - 1);
    }
  }

  lemma {:induction false} AddParamsFill(m: ParamMap, b: nat, count: nat, k: nat)
    ensures AddParams(m, b, count, k).1 == k + count
    ensures forall i :: 0 <= i < count ==> (b, i) in AddParams(m, b, count, k).0 && AddParams(m, b, count, k).0[(b, i)] == k + i
    ensures forall x: (nat, nat) :: x.0 != b ==> (x in AddParams(m, b, count, k).0 <==> x in m)
    ensures forall x: (nat, nat) :: x.0 != b && x in m ==> AddParams(m, b, count, k).0[x] == m[x]
  {
    if count > 0 {
      AddParamsFill(m, b, count - 1, k);
    }
  }

  lemma {:induction false} ParamSlotsFill(f: Blocks, entry: nat, b: nat, k: nat)
    requires b <= |f|
    ensures ParamSlots(f, entry, b, k).1 == k + |ParamList(f, entry, b, k)|
    ensures ParamList(f, entry, b, k) == Counting(k, |ParamList(f, entry, b, k)|)
  {
    hide Counting, AddParams;
    if b == 0 {
      CountingNone(k);
    } else {
      ParamSlotsFill(f, entry, b - 1, k);
      var (m, k') := ParamSlots(f, entry, b - 1, k);
      if b - 1 != entry {
        AddParamsFill(m, b - 1, f[b - 1].params, k');
        CountingAppend(k, |ParamList(f, entry, b - 1, k)|, f[b - 1].params);
      }
    }
  }

  lemma CountingNone(k: nat)
    ensures Counting(k, 0) == []
  {
  }

  /** Parameter `i` of block `c` has the i-th slot of those of its block. */
  lemma {:induction false} ParamSlot(f: Blocks, entry: nat, b: nat, k: nat, c: nat, i: nat)
    requires c < b <= |f| && c != entry && i < f[c].params
    ensures (c, i) in ParamSlots(f, entry, b, k).0
    ensures ParamSlots(f, entry, b, k).0[(c, i)] == ParamSlots(f, entry, c, k).1 + i
    decreases b
  {
    hide AddParams;
    var (m, k') := ParamSlots(f, entry, b - 1, k);
    AddParamsFill(m, b - 1, f[b - 1].params, k');
    if c < b - 1 {
      ParamSlot(f, entry, b - 1, k, c, i);
    }
  }

  /** Both scratch slots of each pair, in order. */
  function PairList(pairs: seq<(nat, nat)>): seq<nat> {
    if pairs == [] then [] else [pairs[0].0, pairs[0].1] + PairList(pairs[1..])
  }

  lemma {:induction false} PairSlotsFill(count: nat, k: nat)
    ensures PairList(PairSlots(count, k)) == Counting(k, 2 * count)
  {
    var pairs := PairSlots(count, k);
    if count == 0 {
      assert pairs == [];
    } else {
      assert pairs[1..] == PairSlots(count - 1, k + 2);
      PairSlotsFill(count - 1, k + 2);
      CountingAppend(k, 2, 2 * (count - 1));
    }
  }

  /**
   * Slots never collide: listed in order, the slots of spilled values, of block parameters and
   * of compound scratch pairs are exactly 0, 1, … up to the number of locals, each once; and the
   * i-th compound assignment has the i-th pair.
   */
  lemma {:induction false} SlotsFill(f: Blocks, entry: nat, n: nat, spill: set<nat>)
    ensures var plan := SlotPlan(f, entry, n, spill);
            && ValueList(spill, n) + ParamList(f, entry, |f|, ValueSlots(spill, n).1) + PairList(plan.pairs) == Counting(0, plan.nextLocal)
            && (forall id :: id in plan.valueSlot <==> id in spill && id < n)
            && (forall i :: 0 <= i < |plan.pairs| ==>
                  plan.pairs[i] == (ParamSlots(f, entry, |f|, ValueSlots(spill, n).1).1 + 2 * i, ParamSlots(f, entry, |f|, ValueSlots(spill, n).1).1 + 2 * i + 1))
  {
    hide ValueSlots, ParamSlots, ValueList, ParamList, Counting;
    ValueSlotsFill(spill, n);
    var k1 := ValueSlots(spill, n).1;
    ParamSlotsFill(f, entry, |f|, k1);
    var k2, count := ParamSlots(f, entry, |f|, k1).1, AllCompounds(f, |f|);
    PairSlotsFill(count, k2);
    CountingAppend(0, k1, |ParamList(f, entry, |f|, k1)|);
    CountingAppend(0, k2, 2 * count);
  }

  /** Distinct spilled values have distinct slots, below the slots of parameters and pairs. */
  lemma {:induction false} ValueSlotsDistinct(spill: set<nat>, n: nat, a: nat, b: nat)
    requires a < b && a in ValueSlots(spill, n).0 && b in ValueSlots(spill, n).0
    ensures ValueSlots(spill, n).0[a] < ValueSlots(spill, n).0[b] < ValueSlots(spill, n).1
  {
    ValueSlotsFill(spill, n);
    ValueSlotsFill(spill, b);
    assert a in ValueSlots(spill, b).0;
  }
}
