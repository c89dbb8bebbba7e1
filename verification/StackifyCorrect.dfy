/**
 * The simulation behind the stackifier: at every block boundary the machine mirrors the SSA run,
 * with each value other blocks use in its slot, and one block of code takes it to the next boundary.
 */
module StackifyCorrect {
  import opened Prelude
  import opened Bytecode
  import opened Disasm
  import opened Vm
  import opened Ir
  import opened IrDce
  import opened CodegenSpec
  import opened CodegenSteps
  import opened StackPlan
  import opened Stackify
  import opened StackifyValues
  import opened StackifyRun
  import opened StackifyFlow

  // ----- everything another block loads is stored -----

  lemma {:induction false} RefGrows(c: Ctx, b: nat, emitted: set<nat>, v: ValueRef)
    requires b < |c.f| && AllLocalSsa(c.f) && EmitRef(c, b, emitted, v).Ok?
    ensures emitted <= EmitRef(c, b, emitted, v).value.1
    decreases Rank(c, b, v), 3, 0
  {
    hide EmitId, AllLocalSsa;
    if v.Value? {
      IdGrows(c, b, emitted, v.id);
    }
  }

  lemma {:induction false} IdGrows(c: Ctx, b: nat, emitted: set<nat>, id: nat)
    requires b < |c.f| && AllLocalSsa(c.f) && EmitId(c, b, emitted, id).Ok?
    ensures emitted <= EmitId(c, b, emitted, id).value.1
    decreases Rank(c, b, Value(id)), 2, 0
  {
    hide EmitPure, AllLocalSsa, LocalPos, DefsOf, Pushed, StoreCode, LoadCode;
    var here := Here(c, b, id);
    if here.Some? {
      var i := c.f[b].instrs[here.value].1;
      BlockLocal(c, b);
      OperandsBelow(c, b, here.value);
      if EmitPure(c, b, emitted, i, here.value + 1).Ok? {
        PureGrows(c, b, emitted, i, here.value + 1);
      }
    } else if id !in c.spill {
      var i := DefsOf(c.f, |c.f|)[id];
      NothingPushed(i);
      PureNothing(c, b, emitted, i);
    }
  }

  lemma PureNothing(c: Ctx, b: nat, emitted: set<nat>, i: Instr)
    requires b < |c.f| && AllLocalSsa(c.f) && Pushed(i) == [] && EmitPure(c, b, emitted, i, 0).Ok?
    ensures EmitPure(c, b, emitted, i, 0).value.1 == emitted
  {
    hide Tail, Pushed;
    assert EmitRefs(c, b, emitted, Pushed(i), 0) == Ok(([], emitted));
  }

  lemma {:induction false} PureGrows(c: Ctx, b: nat, emitted: set<nat>, i: Instr, bound: nat)
    requires b < |c.f| && AllLocalSsa(c.f) && Below(c, b, Pushed(i), bound) && EmitPure(c, b, emitted, i, bound).Ok?
    ensures emitted <= EmitPure(c, b, emitted, i, bound).value.1
    decreases bound, 1, 0
  {
    hide EmitRefs, Tail, Pushed, AllLocalSsa, Below;
    RefsGrow(c, b, emitted, Pushed(i), bound);
  }

  lemma {:induction false} RefsGrow(c: Ctx, b: nat, emitted: set<nat>, vs: seq<ValueRef>, bound: nat)
    requires b < |c.f| && AllLocalSsa(c.f) && Below(c, b, vs, bound) && EmitRefs(c, b, emitted, vs, bound).Ok?
    ensures emitted <= EmitRefs(c, b, emitted, vs, bound).value.1
    decreases bound, 0, |vs|
  {
    hide EmitRef, AllLocalSsa, Rank;
    if vs != [] {
      RefGrows(c, b, emitted, vs[0]);
      RefsGrow(c, b, EmitRef(c, b, emitted, vs[0]).value.1, vs[1..], bound);
    }
  }

  /** A used effect result of an instruction from `p` on is in its slot when the effects are done. */
  lemma {:induction false} EffectsGrow(c: Ctx, b: nat, emitted: set<nat>, p: nat, q: nat)
    requires b < |c.f| && AllLocalSsa(c.f) && p <= q <= |c.f[b].instrs| && EmitEffects(c, b, emitted, p).Ok?
    ensures emitted <= EmitEffects(c, b, emitted, p).value.1
    ensures q < |c.f[b].instrs| && HasSideEffects(c.f[b].instrs[q].1) && Uses(c.f, c.f[b].instrs[q].0) > 0 && c.f[b].instrs[q].0 in c.spill ==>
              c.f[b].instrs[q].0 in EmitEffects(c, b, emitted, p).value.1
    decreases |c.f[b].instrs| - p
  {
    hide EmitEffect, AllLocalSsa, Uses;
    var instrs := c.f[b].instrs;
    if p < |instrs| {
      if HasSideEffects(instrs[p].1) {
        EffectGrows(c, b, emitted, p);
        EffectsGrow(c, b, EmitEffect(c, b, emitted, p).value.1, p + 1, if q > p then q else p + 1);
      } else {
        EffectsGrow(c, b, emitted, p + 1, if q > p then q else p + 1);
      }
    }
  }

  lemma {:induction false} EffectGrows(c: Ctx, b: nat, emitted: set<nat>, p: nat)
    requires b < |c.f| && AllLocalSsa(c.f) && p < |c.f[b].instrs| && EmitEffect(c, b, emitted, p).Ok?
    ensures emitted <= EmitEffect(c, b, emitted, p).value.1
    ensures Uses(c.f, c.f[b].instrs[p].0) > 0 && c.f[b].instrs[p].0 in c.spill ==> c.f[b].instrs[p].0 in EmitEffect(c, b, emitted, p).value.1
  {
    hide EmitRefs, Operands, Uses, PackCode, PushData, ResultCode, AllLocalSsa, Below;
    BlockLocal(c, b);
    OperandsBelow(c, b, p);
    EmitOperands(c.f[b].instrs[p].1);
    RefsGrow(c, b, emitted, c.f[b].instrs[p].1.args, p + 1);
  }

  /** Every listed value that could be stored before the terminator is in its slot. */
  lemma {:induction false} SpillsGrow(c: Ctx, b: nat, emitted: set<nat>, order: seq<nat>, id: nat)
    requires b < |c.f| && AllLocalSsa(c.f) && EmitSpills(c, b, emitted, order).Ok?
    ensures emitted <= EmitSpills(c, b, emitted, order).value.1
    ensures id in order && id in c.spill && id in c.slot && Here(c, b, id).Some? && !HasSideEffects(c.f[b].instrs[Here(c, b, id).value].1) ==>
              id in EmitSpills(c, b, emitted, order).value.1
    decreases |order|
  {
    hide EmitPure, AllLocalSsa, LocalPos, Pushed, StoreCode, Below, HasSideEffects;
    if order != [] {
      if StoresLate(c, b, emitted, order[0]) {
        var p := Here(c, b, order[0]).value;
        BlockLocal(c, b);
        OperandsBelow(c, b, p);
        PureGrows(c, b, emitted, c.f[b].instrs[p].1, p + 1);
        SpillsGrow(c, b, EmitPure(c, b, emitted, c.f[b].instrs[p].1, p + 1).value.1 + {order[0]}, order[1..], id);
      } else {
        SpillsGrow(c, b, emitted, order[1..], id);
      }
    }
  }

  lemma {:induction false} AllRefsContain(f: Blocks, n: nat, b: nat, v: ValueRef)
    requires b < n <= |f| && v in BlockRefs(f[b])
    ensures v in AllRefs(f, n)
  {
    hide BlockRefs;
    if b < n - 1 {
      AllRefsContain(f, n - 1, b, v);
    }
  }

  lemma CrossUsed(f: Blocks, id: nat)
    requires Cross(f, id)
    ensures Uses(f, id) > 0
  {
    hide BlockRefs, DefinedInBlock, AllRefs;
    var b, c :| DefinedInBlock(f, b, id) && c != b && UsedInBlock(f, c, id);
    AllRefsContain(f, |f|, c, Value(id));
  }

  /** What other blocks use, this block stores before it ends. */
  lemma {:induction false} CrossStored(c: Ctx, b: nat, order: seq<nat>, id: nat)
    requires b < |c.f| && AllLocalSsa(c.f) && Cross(c.f, id) && id in order && id in c.spill && id in c.slot && Here(c, b, id).Some?
    requires EmitEffects(c, b, {}, 0).Ok? && EmitSpills(c, b, EmitEffects(c, b, {}, 0).value.1, order).Ok?
    ensures id in EmitSpills(c, b, EmitEffects(c, b, {}, 0).value.1, order).value.1
  {
    hide EmitEffects, EmitSpills, AllLocalSsa, LocalPos, Cross, Uses;
    CrossUsed(c.f, id);
    EffectsGrow(c, b, {}, 0, Here(c, b, id).value);
    SpillsGrow(c, b, EmitEffects(c, b, {}, 0).value.1, order, id);
  }

  ghost predicate AllStored(c: Ctx, b: nat, emitted: set<nat>)
    requires b < |c.f|
  {
    forall id :: id in c.spill && id in c.slot && Cross(c.f, id) && Here(c, b, id).Some? ==> id in emitted
  }

  // ----- between blocks -----

  /** The slots of values that other blocks use hold them. */
  ghost predicate Stored(c: Ctx, env: Ir.Env, d: Data) {
    forall id :: id in c.spill && id in c.slot && id in env && Cross(c.f, id) ==>
      c.slot[id] < |d.locals| && d.locals[c.slot[id]] == env[id]
  }

  /** The machine's data at a block boundary. */
  ghost predicate Linked(w: Routine, env: Ir.Env, trace: seq<Event>, below: List<Value>, d: Data) {
    && d.args == w.args && d.stack == below && d.trace == trace
    && (forall id :: id in w.c.slot ==> w.c.slot[id] < |d.locals|)
    && Stored(w.c, env, d)
    && forall id :: Constant(w.c.f, w.args, env, id)
  }

  /** What the theorem asks of the function, the plan and the machine. */
  ghost predicate Good(w: Routine) {
    && AllLocalSsa(w.c.f) && UniqueIds(w.c.f) && SlotsOk(w.c) && EffectsStored(w.c)
    && w.c.entry == 0 && |w.c.f| > 0 && w.ops.vm == w.x.ops && |w.args| == w.c.argCount < 256
    && (forall b :: 0 <= b < |w.c.f| ==> Scalar(w.c.f[b].instrs) && OperatorsOk(w.x.ops, w.ops, w.c.f[b].instrs))
    && (forall id :: id in w.c.spill ==> id in w.c.slot && id in DefsOf(w.c.f, |w.c.f|))
    && (forall id :: Cross(w.c.f, id) ==> id in w.order)
    && (forall b :: 0 <= b < |w.c.f| && !Skipped(w.c.f, b) ==> Placed(w, b))
    && !Skipped(w.c.f, 0)
  }

  /** Parameters of the running block: the arguments in the entry block, none elsewhere. */
  predicate ParamsOf(w: Routine, b: nat, params: seq<Value>) {
    params == if b == w.c.entry then w.args else []
  }

  lemma {:induction false} ForeignCross(w: Routine, b: nat, id: nat)
    requires UniqueIds(w.c.f) && b < |w.c.f| && id in DefsOf(w.c.f, |w.c.f|) && Here(w.c, b, id).None? && UsedInBlock(w.c.f, b, id)
    ensures Cross(w.c.f, id)
  {
    hide UsedInBlock, UniqueIds, DefsOf;
    DefsFind(w.c.f, |w.c.f|, id);
    var k, q :| 0 <= k < |w.c.f| && 0 <= q < |w.c.f[k].instrs| && w.c.f[k].instrs[q] == (id, DefsOf(w.c.f, |w.c.f|)[id]);
    assert DefinedInBlock(w.c.f, k, id);
    if k == b {
      HereFinds(w.c.f[b].instrs, |w.c.f[b].instrs|, q);
    }
  }

  lemma {:induction false} HereFinds(instrs: Instrs, n: nat, q: nat)
    requires q < n <= |instrs|
    ensures LocalPos(instrs, n, instrs[q].0).Some?
  {
    if instrs[n - 1].0 != instrs[q].0 {
      HereFinds(instrs, n - 1, q);
    }
  }

  /** Values not defined in the block keep their value through it. */
  lemma {:induction false} NotHereSame(w: Routine, b: nat, env: Ir.Env, env': Ir.Env, id: nat)
    requires b < |w.c.f| && SameOthers(w.c.f[b].instrs, 0, env, env') && Here(w.c, b, id).None?
    ensures (id in env <==> id in env') && (id in env ==> env[id] == env'[id])
  {
    hide LocalPos, SameOthers;
    var instrs := w.c.f[b].instrs;
    forall q | 0 <= q < |instrs| ensures instrs[q].0 != id {
      HereFinds(instrs, |instrs|, q);
    }
    assert NotDefinedFrom(instrs, 0, Value(id));
    OthersSame(instrs, env, env', id);
  }

  /** Entering a block: what its code may rely on. */
  lemma {:induction false} BlockEnters(w: Routine, b: nat, params: seq<Value>, env: Ir.Env, trace: seq<Event>, below: List<Value>, d: Data, env': Ir.Env, trace': seq<Event>)
    returns (s: Setting)
    requires Good(w) && b < |w.c.f| && ParamsOf(w, b, params) && Linked(w, env, trace, below, d)
    requires Exec(w.ops, w.c.f[b].instrs, 0, params, env, trace) == Some((env', trace'))
    ensures s == Setting(w.x, w.ops, w.c, b, params, w.args, env') && Fixed(s) && Slots(s, {}, d)
    ensures SameOthers(w.c.f[b].instrs, 0, env, env')
    ensures trace' == trace + EventsFrom(w.c.f[b].instrs, 0, params, env')
  {
    hide LocalSsa, Scalar, OperatorsOk, Placed, Skipped, Cross, UniqueIds, ValueAt, SlotsOk, SameOthers, EventsFrom, Constant, DefsOf, EffectsStored, LocalPos;
    s := Setting(w.x, w.ops, w.c, b, params, w.args, env');
    ExecFacts(s, 0, env, trace, trace');
    forall id ensures Constant(w.c.f, w.args, env', id) {
      ConstantsKept(s, env, id);
    }
    forall id | Foreign(s, id) ensures d.locals[w.c.slot[id]] == env'[id] {
      ForeignCross(w, b, id);
      NotHereSame(w, b, env, env', id);
    }
  }

  /** Running a block up to its terminator. */
  lemma {:induction false} BlockRuns(w: Routine, a: State, b: nat, params: seq<Value>, env: Ir.Env, trace: seq<Event>, below: List<Value>, d: Data, env': Ir.Env, trace': seq<Event>)
    returns (s: Setting, emitted: set<nat>, d': Data)
    requires Good(w) && b < |w.c.f| && ParamsOf(w, b, params) && Linked(w, env, trace, below, d) && Placed(w, b)
    requires Leads(w.x, a, At(w.x, w.base + BlockStart(w.c, w.order, b).value, d))
    requires Exec(w.ops, w.c.f[b].instrs, 0, params, env, trace) == Some((env', trace'))
    ensures s == Setting(w.x, w.ops, w.c, b, params, w.args, env') && Fixed(s) && Slots(s, emitted, d')
    ensures Linked(w, env', trace', below, d')
    ensures var start, bc := BlockStart(w.c, w.order, b).value, EmitBlock(w.c, b, w.order).value;
            && Leads(w.x, a, At(w.x, w.base + start + ByteLen(bc.body), d'))
            && EmitExit(w.c, b, emitted) == Ok(bc.exit) && AllStored(w.c, b, emitted)
  {
    hide CodeAt, Leads, ByteLen, Slots, Ran, EmitEffects, EmitSpills, EmitExit, Exec, PlaceBlock, BlockStart, Fixed, Good, Linked, EventsFrom;
    GoodMeans(w);
    LinkedShape(w, env, trace, below, d);
    s := BlockEnters(w, b, params, env, trace, below, d, env', trace');
    var start, bc := BlockStart(w.c, w.order, b).value, EmitBlock(w.c, b, w.order).value;
    var effects := EmitEffects(w.c, b, {}, 0).value;
    var spills := EmitSpills(w.c, b, effects.1, w.order).value;
    emitted := spills.1;
    BodyAt(w, b);
    var pc := w.base + start;
    CodeAtSplit(w.x.script, pc, effects.0, spills.0);
    ByteLenAppend(effects.0, spills.0);
    var d1 := EffectsRun(s, a, {}, 0, pc, d);
    var events := EventsFrom(w.c.f[b].instrs, 0, params, env');
    RanShape(s, a, effects.1, pc + ByteLen(effects.0), d, events, d1);
    d' := SpillsRun(s, a, effects.1, w.order, pc + ByteLen(effects.0), d1);
    RanTrans(s, a, effects.1, spills.1, pc + ByteLen(effects.0), pc + ByteLen(effects.0) + ByteLen(spills.0), d, events, d1, [], d');
    NoEvents(events);
    RanShape(s, a, spills.1, pc + ByteLen(effects.0) + ByteLen(spills.0), d, events, d');
    AllCrossStored(w, b);
    BlockLeaves(w, s, params, env, trace, below, d, emitted, d');
  }

  lemma {:induction false} AllCrossStored(w: Routine, b: nat)
    requires Good(w) && b < |w.c.f|
    requires EmitEffects(w.c, b, {}, 0).Ok? && EmitSpills(w.c, b, EmitEffects(w.c, b, {}, 0).value.1, w.order).Ok?
    ensures AllStored(w.c, b, EmitSpills(w.c, b, EmitEffects(w.c, b, {}, 0).value.1, w.order).value.1)
  {
    hide EmitEffects, EmitSpills, AllLocalSsa, UniqueIds, Scalar, OperatorsOk, Placed, Skipped, EffectsStored, SlotsOk, LocalPos, Cross, DefsOf;
    forall id | id in w.c.spill && id in w.c.slot && Cross(w.c.f, id) && Here(w.c, b, id).Some?
      ensures id in EmitSpills(w.c, b, EmitEffects(w.c, b, {}, 0).value.1, w.order).value.1
    {
      CrossStored(w.c, b, w.order, id);
    }
  }

  lemma LinkedShape(w: Routine, env: Ir.Env, trace: seq<Event>, below: List<Value>, d: Data)
    requires Linked(w, env, trace, below, d)
    ensures d.trace == trace && d.stack == below && d.args == w.args
  {
    hide Stored, Constant;
  }

  lemma GoodMeans(w: Routine)
    requires Good(w)
    ensures AllLocalSsa(w.c.f) && UniqueIds(w.c.f) && EffectsStored(w.c) && w.c.entry == 0 && |w.c.f| > 0 && |w.args| == w.c.argCount
    ensures forall b :: 0 <= b < |w.c.f| && !Skipped(w.c.f, b) ==> Placed(w, b)
    ensures !Skipped(w.c.f, 0)
  {
    hide AllLocalSsa, UniqueIds, EffectsStored, Placed, Skipped;
  }

  lemma {:induction false} BodyAt(w: Routine, b: nat)
    requires AllLocalSsa(w.c.f) && Placed(w, b)
    ensures var start, bc := BlockStart(w.c, w.order, b).value, EmitBlock(w.c, b, w.order).value;
            CodeAt(w.x.script, w.base + start, bc.body)
  {
    hide CodeAt, BlockStart, EmitBlock, PatchedJump, AllLocalSsa;
    var start, bc := BlockStart(w.c, w.order, b).value, EmitBlock(w.c, b, w.order).value;
    var code := PlaceBlock(w.c, w.order, bc, start).value;
    assert code[..|bc.body|] == bc.body && code == bc.body + code[|bc.body|..];
    CodeAtSplit(w.x.script, w.base + start, bc.body, code[|bc.body|..]);
  }

  /** Leaving a block: the next one finds its operands in their slots. */
  lemma {:induction false} BlockLeaves(w: Routine, s: Setting, params: seq<Value>, env: Ir.Env, trace: seq<Event>, below: List<Value>, d: Data, emitted: set<nat>, d': Data)
    requires Good(w) && s.b < |w.c.f| && s == Setting(w.x, w.ops, w.c, s.b, params, w.args, s.env) && Fixed(s)
    requires Linked(w, env, trace, below, d) && SameOthers(w.c.f[s.b].instrs, 0, env, s.env)
    requires Slots(s, emitted, d') && d'.stack == d.stack && OtherLocals(s, d, d')
    requires AllStored(w.c, s.b, emitted)
    ensures Linked(w, s.env, d'.trace, below, d')
  {
    hide SameOthers, Cross, DefsOf, Placed, Skipped, UniqueIds, Scalar, OperatorsOk, ValueAt, EffectsStored, SlotsOk, Constant, Foreign, AllLocalSsa, LocalPos;
    forall id | id in w.c.spill && id in w.c.slot && id in s.env && Cross(w.c.f, id)
      ensures w.c.slot[id] < |d'.locals| && d'.locals[w.c.slot[id]] == s.env[id]
    {
      if Here(w.c, s.b, id).None? {
        NotHereSame(w, s.b, env, s.env, id);
      }
    }
  }

  // ----- terminators -----

  /** A patched jump takes the machine to the start of its block. */
  lemma {:induction false} HopRuns(w: Routine, a: State, op: byte, at: nat, target: nat, taken: bool, rest: Code, d: Data)
    requires AllLocalSsa(w.c.f) && PatchedJump(w.c, w.order, op, at, target).Ok? && Placed(w, target)
    requires if op == JMP_L then taken else op == JMPIF_L && d.stack.Cons? && taken == Truthy(d.stack.head)
    requires Leads(w.x, a, At(w.x, w.base + at, d)) && CodeAt(w.x.script, w.base + at, [PatchedJump(w.c, w.order, op, at, target).value] + rest)
    ensures BlockStart(w.c, w.order, target).Ok? && CodeAt(w.x.script, w.base + at + 5, rest)
    ensures var next := At(w.x, if taken then w.base + BlockStart(w.c, w.order, target).value else w.base + at + 5,
                           if op == JMP_L then d else d.(stack := d.stack.tail));
            Vm.Step(w.x.ops, w.x.script, At(w.x, w.base + at, d)) == next && Leads(w.x, a, next)
  {
    hide CodeAt, Leads, BlockStart, Placed, AllLocalSsa, Truthy, PatchedJump, IsLongJump, Skipped;
    var i := PatchedJump(w.c, w.order, op, at, target).value;
    PatchedLen(w.c, w.order, op, at, target);
    PlacedInScript(w, target);
    var start := BlockStart(w.c, w.order, target).value;
    if op == JMP_L {
      JumpStep(w.x, a, i, start - at, rest, w.base + at, d);
    } else {
      BranchStep(w.x, a, i, JMPIF_L, start - at, rest, w.base + at, d);
    }
  }

  /** What the machine does at the end of a block. */
  ghost predicate Exits(w: Routine, a: State, b: nat, s: Setting, exit: Exit, below: List<Value>, trace: seq<Event>, hop: State, d: Data)
    requires AllLocalSsa(w.c.f)
  {
    match exit
    case Leave(_) =>
      && Leads(w.x, a, Vm.Return(d, w.x.calls)) && d.trace == trace
      && b < |w.c.f| && w.c.f[b].term.Ret?
      && d.stack == if w.c.f[b].term.result.Some? && ValueOf(w.c.f[b].term.result.value, s.params, s.env).Some?
                    then Cons(ValueOf(w.c.f[b].term.result.value, s.params, s.env).value, below) else below
    case Go(target) => Arrives(w, a, target, hop, d) && Linked(w, s.env, trace, below, d)
    case Split(_, thenTarget, elseTarget) =>
      && b < |w.c.f| && w.c.f[b].term.Branch? && ValueOf(w.c.f[b].term.cond, s.params, s.env).Some?
      && Arrives(w, a, if Truthy(ValueOf(w.c.f[b].term.cond, s.params, s.env).value) then thenTarget else elseTarget, hop, d)
      && Linked(w, s.env, trace, below, d)
  }

  /** By one last step, from `hop`, the machine is at the start of block `target`. */
  ghost predicate Arrives(w: Routine, a: State, target: nat, hop: State, d: Data)
    requires AllLocalSsa(w.c.f)
  {
    && Reachable(w.c.f, target) && BlockStart(w.c, w.order, target).Ok?
    && var there := At(w.x, w.base + BlockStart(w.c, w.order, target).value, d);
       Leads(w.x, a, hop) && Vm.Step(w.x.ops, w.x.script, hop) == there && Leads(w.x, a, there)
  }

  /** The terminator's own operands have values. */
  predicate TermValued(s: Setting)
    requires s.b < |s.c.f|
  {
    match s.c.f[s.b].term
    case Ret(Some(v)) => ValueOf(v, s.params, s.env).Some?
    case Branch(cond, _, _, _, _) => ValueOf(cond, s.params, s.env).Some?
    case _ => true
  }

  lemma {:induction false} ExitAt(w: Routine, b: nat)
    requires AllLocalSsa(w.c.f) && Placed(w, b)
    ensures var start, bc := BlockStart(w.c, w.order, b).value, EmitBlock(w.c, b, w.order).value;
            var at := start + ByteLen(bc.body);
            match bc.exit
            case Leave(code) => CodeAt(w.x.script, w.base + at, code)
            case Go(target) =>
              PatchedJump(w.c, w.order, JMP_L, at, target).Ok? &&
              CodeAt(w.x.script, w.base + at, [PatchedJump(w.c, w.order, JMP_L, at, target).value] + [])
            case Split(cond, thenTarget, elseTarget) =>
              && PatchedJump(w.c, w.order, JMPIF_L, at + ByteLen(cond), thenTarget).Ok?
              && PatchedJump(w.c, w.order, JMP_L, at + ByteLen(cond) + 5, elseTarget).Ok?
              && CodeAt(w.x.script, w.base + at, cond)
              && CodeAt(w.x.script, w.base + at + ByteLen(cond),
                        [PatchedJump(w.c, w.order, JMPIF_L, at + ByteLen(cond), thenTarget).value] +
                        ([PatchedJump(w.c, w.order, JMP_L, at + ByteLen(cond) + 5, elseTarget).value] + []))
  {
    hide CodeAt, BlockStart, EmitBlock, PatchedJump, AllLocalSsa, ByteLen;
    var start, bc := BlockStart(w.c, w.order, b).value, EmitBlock(w.c, b, w.order).value;
    var at := start + ByteLen(bc.body);
    match bc.exit
    case Leave(code) => CodeAtSplit(w.x.script, w.base + start, bc.body, code);
    case Go(target) =>
      var jump := PatchedJump(w.c, w.order, JMP_L, at, target).value;
      assert [jump] == [jump] + [];
      CodeAtSplit(w.x.script, w.base + start, bc.body, [jump]);
    case Split(cond, thenTarget, elseTarget) =>
      var branch := PatchedJump(w.c, w.order, JMPIF_L, at + ByteLen(cond), thenTarget).value;
      var jump := PatchedJump(w.c, w.order, JMP_L, at + ByteLen(cond) + 5, elseTarget).value;
      assert [jump] == [jump] + [];
      CodeAtSplit(w.x.script, w.base + start, bc.body, cond + ([branch] + [jump]));
      CodeAtSplit(w.x.script, w.base + at, cond, [branch] + [jump]);
  }

  lemma {:induction false} LeaveRuns(w: Routine, a: State, s: Setting, emitted: set<nat>, below: List<Value>, trace: seq<Event>, code: Code, pc: nat, d: Data)
    returns (d': Data)
    requires s.b < |w.c.f| && AllLocalSsa(w.c.f) && s == Setting(w.x, w.ops, w.c, s.b, s.params, w.args, s.env) && Fixed(s)
    requires Slots(s, emitted, d) && d.trace == trace && d.stack == below && TermValued(s)
    requires EmitExit(w.c, s.b, emitted) == Ok(Leave(code)) && CodeAt(w.x.script, pc, code) && Leads(w.x, a, At(w.x, pc, d))
    ensures Leads(w.x, a, Vm.Return(d', w.x.calls)) && d'.trace == trace && w.c.f[s.b].term.Ret?
    ensures d'.stack == if w.c.f[s.b].term.result.Some? then Cons(ValueOf(w.c.f[s.b].term.result.value, s.params, s.env).value, below) else below
  {
    hide CodeAt, Leads, ByteLen, Slots, Pushes, EmitRef, Fixed, RelayJoin, AllLocalSsa;
    d' := d;
    match w.c.f[s.b].term
    case Ret(None) => ReturnStep(w.x, a, pc, d);
    case Ret(Some(v)) =>
      TermUsed(s, v);
      var (front, emitted') := EmitRef(w.c, s.b, emitted, v).value;
      var value := ValueOf(v, s.params, s.env).value;
      CodeAtSplit(w.x.script, pc, front, [Op(RET)]);
      d' := RefRuns(s, a, emitted, v, pc, d);
      PushesShape(s, a, emitted', pc + ByteLen(front), d, [value], d');
      PushedOne(below, value);
      ReturnStep(w.x, a, pc + ByteLen(front), d');
  }

  /** JMPIF_L to one block, JMP_L to the other. */
  lemma {:induction false} SplitHops(w: Routine, a: State, thenTarget: nat, elseTarget: nat, p: nat, value: Value, below: List<Value>, d: Data)
    returns (hop: State, d': Data)
    requires AllLocalSsa(w.c.f) && Placed(w, thenTarget) && Placed(w, elseTarget) && Reachable(w.c.f, thenTarget) && Reachable(w.c.f, elseTarget)
    requires Leads(w.x, a, At(w.x, w.base + p, d)) && d.stack == Cons(value, below)
    requires PatchedJump(w.c, w.order, JMPIF_L, p, thenTarget).Ok? && PatchedJump(w.c, w.order, JMP_L, p + 5, elseTarget).Ok?
    requires CodeAt(w.x.script, w.base + p, [PatchedJump(w.c, w.order, JMPIF_L, p, thenTarget).value] +
                                            ([PatchedJump(w.c, w.order, JMP_L, p + 5, elseTarget).value] + []))
    ensures d' == d.(stack := below) && Arrives(w, a, if Truthy(value) then thenTarget else elseTarget, hop, d')
  {
    hide CodeAt, Leads, BlockStart, Truthy, PatchedJump, Placed, Skipped, AllLocalSsa, Vm.Step, Reachable;
    d' := d.(stack := below);
    HopRuns(w, a, JMPIF_L, p, thenTarget, Truthy(value), [PatchedJump(w.c, w.order, JMP_L, p + 5, elseTarget).value] + [], d);
    hop := At(w.x, w.base + p, d);
    if !Truthy(value) {
      HopRuns(w, a, JMP_L, p + 5, elseTarget, true, [], d');
      hop := At(w.x, w.base + p + 5, d');
    }
  }

  lemma {:induction false} SplitRuns(w: Routine, a: State, s: Setting, emitted: set<nat>, below: List<Value>, trace: seq<Event>,
                                     cond: Code, thenTarget: nat, elseTarget: nat, at: nat, d: Data)
    returns (hop: State, d': Data)
    requires s.b < |w.c.f| && AllLocalSsa(w.c.f) && s == Setting(w.x, w.ops, w.c, s.b, s.params, w.args, s.env) && Fixed(s)
    requires Slots(s, emitted, d) && Linked(w, s.env, trace, below, d) && TermValued(s) && AllStored(w.c, s.b, emitted)
    requires EmitExit(w.c, s.b, emitted) == Ok(Split(cond, thenTarget, elseTarget)) && Leads(w.x, a, At(w.x, w.base + at, d))
    requires Placed(w, thenTarget) && Placed(w, elseTarget) && Reachable(w.c.f, thenTarget) && Reachable(w.c.f, elseTarget)
    requires && PatchedJump(w.c, w.order, JMPIF_L, at + ByteLen(cond), thenTarget).Ok?
             && PatchedJump(w.c, w.order, JMP_L, at + ByteLen(cond) + 5, elseTarget).Ok?
             && CodeAt(w.x.script, w.base + at, cond)
             && CodeAt(w.x.script, w.base + at + ByteLen(cond),
                       [PatchedJump(w.c, w.order, JMPIF_L, at + ByteLen(cond), thenTarget).value] +
                       ([PatchedJump(w.c, w.order, JMP_L, at + ByteLen(cond) + 5, elseTarget).value] + []))
    ensures Exits(w, a, s.b, s, Split(cond, thenTarget, elseTarget), below, trace, hop, d')
  {
    hide CodeAt, Leads, ByteLen, Slots, Pushes, EmitRef, EmitBlock, Fixed, Linked, BlockStart, Truthy, PatchedJump, Placed, RelayJoin, Skipped, AllLocalSsa, Cross, LocalPos, Arrives, Vm.Step;
    LinkedShape(w, s.env, trace, below, d);
    var v := w.c.f[s.b].term.cond;
    TermUsed(s, v);
    var value := ValueOf(v, s.params, s.env).value;
    var emitted' := EmitRef(w.c, s.b, emitted, v).value.1;
    var d1 := RefRuns(s, a, emitted, v, w.base + at, d);
    var p := at + ByteLen(cond);
    PushesShape(s, a, emitted', w.base + p, d, [value], d1);
    PushesOthers(s, a, emitted', w.base + p, d, [value], d1);
    PushedOne(below, value);
    hop, d' := SplitHops(w, a, thenTarget, elseTarget, p, value, below, d1);
    RefGrows(w.c, s.b, emitted, v);
    FixedSlots(s);
    StillLinked(w, s, trace, below, d, emitted', d1);
  }

  lemma {:induction false} ExitRuns(w: Routine, a: State, s: Setting, emitted: set<nat>, below: List<Value>, trace: seq<Event>, d: Data)
    returns (hop: State, d': Data)
    requires Good(w) && TargetsExist(w.c.f) && s.b < |w.c.f| && s == Setting(w.x, w.ops, w.c, s.b, s.params, w.args, s.env) && Fixed(s)
    requires Slots(s, emitted, d) && Linked(w, s.env, trace, below, d) && Placed(w, s.b) && TermValued(s) && AllStored(w.c, s.b, emitted)
    requires var start, bc := BlockStart(w.c, w.order, s.b).value, EmitBlock(w.c, s.b, w.order).value;
             Leads(w.x, a, At(w.x, w.base + start + ByteLen(bc.body), d)) && EmitExit(w.c, s.b, emitted) == Ok(bc.exit)
    ensures Exits(w, a, s.b, s, EmitBlock(w.c, s.b, w.order).value.exit, below, trace, hop, d')
  {
    hide CodeAt, Leads, ByteLen, Slots, Pushes, EmitRef, EmitEffects, EmitSpills, EmitBlock, Fixed, Good, Linked, BlockStart, Truthy, PatchedJump, PlaceBlock, RelayJoin, Skipped, TargetsExist, AllLocalSsa;
    GoodMeans(w);
    LinkedShape(w, s.env, trace, below, d);
    var start, bc := BlockStart(w.c, w.order, s.b).value, EmitBlock(w.c, s.b, w.order).value;
    var at := start + ByteLen(bc.body);
    ExitAt(w, s.b);
    FoldingClosed(w.c, s.b, emitted);
    hop, d' := a, d;
    match bc.exit
    case Leave(code) => d' := LeaveRuns(w, a, s, emitted, below, trace, code, w.base + at, d);
    case Go(target) =>
      HopRuns(w, a, JMP_L, at, target, true, [], d);
      hop := At(w.x, w.base + at, d);
    case Split(cond, thenTarget, elseTarget) =>
      hop, d' := SplitRuns(w, a, s, emitted, below, trace, cond, thenTarget, elseTarget, at, d);
  }

  /** Evaluating the terminator's operand disturbs nothing another block reads. */
  lemma {:induction false} StillLinked(w: Routine, s: Setting, trace: seq<Event>, below: List<Value>, d: Data, emitted: set<nat>, d1: Data)
    requires SlotsOk(w.c) && s.b < |w.c.f| && s.c == w.c && s.args == w.args
    requires Linked(w, s.env, trace, below, d) && Slots(s, emitted, d1) && d1.trace == d.trace && |d1.locals| == |d.locals| && OtherLocals(s, d, d1)
    requires AllStored(w.c, s.b, emitted)
    ensures Linked(w, s.env, trace, below, d1.(stack := below))
  {
    hide Constant, Foreign, Cross, LocalPos;
  }

  // ----- runs -----

  /** The machine, at block `st.block` of the routine, mirrors the SSA run. */
  ghost predicate Mirrors(w: Routine, a: State, st: Run, below: List<Value>, d: Data)
    requires AllLocalSsa(w.c.f)
  {
    && st.AtBlock? && Reachable(w.c.f, st.block) && ParamsOf(w, st.block, st.params) && Placed(w, st.block)
    && Leads(w.x, a, At(w.x, w.base + BlockStart(w.c, w.order, st.block).value, d))
    && Linked(w, st.env, st.trace, below, d)
  }

  /** Blocks but the entry take no parameters, and nothing jumps back to the entry. */
  predicate PlainBlocks(f: Blocks) {
    forall b :: 0 <= b < |f| ==>
      (b > 0 ==> f[b].params == 0) && !JumpsTo(f[b], 0) && !ThenOf(f[b], 0) && !ElseOf(f[b], 0)
  }

  /** Entering a block that takes no parameters. */
  lemma EnterPlain(f: Blocks, target: nat, args: seq<ValueRef>, params: seq<Value>, env: Ir.Env, trace: seq<Event>)
    requires target < |f| && f[target].params == 0 && Ir.Enter(f, target, args, params, env, trace) != Crashed
    ensures Ir.Enter(f, target, args, params, env, trace) == AtBlock(target, [], env, trace)
  {
    var vs := ValuesOf(args, params, env);
    assert vs.value == [];
  }

  /** The relay that was skipped does nothing but go on to where it leads. */
  lemma {:induction false} RelayStep(ops: IrOps, f: Blocks, b: nat, join: nat, env: Ir.Env, trace: seq<Event>)
    requires b < |f| && f[b].instrs == [] && JumpsTo(f[b], join) && join < |f| && f[join].params == 0
    requires StepBlock(ops, f, AtBlock(b, [], env, trace)) != Crashed
    ensures StepBlock(ops, f, AtBlock(b, [], env, trace)) == AtBlock(join, [], env, trace)
  {
    hide Ir.Enter;
    assert Exec(ops, f[b].instrs, 0, [], env, trace) == Some((env, trace));
    EnterPlain(f, join, f[b].term.args, [], env, trace);
  }

  /** What the machine has done when the SSA run is at `r` after `n` blocks. */
  ghost predicate Follows(w: Routine, a: State, r: Run, below: List<Value>, n: nat, d: Data) {
    match r
    case AtBlock(_, _, _, _) => Outlasts(w.x.ops, w.x.script, a, n / 2)
    case Finished(result, trace) =>
      && Leads(w.x, a, Vm.Return(d, w.x.calls)) && d.trace == trace
      && d.stack == if result.Some? then Cons(result.value, below) else below
    case Crashed => true
  }

  lemma OneMoreStep(w: Routine, a: State, hop: State, there: State, r: Run, below: List<Value>, n: nat, d: Data)
    requires Leads(w.x, a, hop) && Vm.Step(w.x.ops, w.x.script, hop) == there && Follows(w, there, r, below, n, d)
    ensures Follows(w, a, r, below, n + 2, d)
  {
    hide Outlasts, Vm.Step;
    if r.AtBlock? {
      assert Leads(w.x, hop, there) by { OneStep(w.x, hop, there); }
      OutlastsAfter(w.x.ops, w.x.script, hop, there, n / 2);
      OutlastsAfter(w.x.ops, w.x.script, a, hop, n / 2 + 1);
    }
    if r.Finished? {
      assert Leads(w.x, hop, there) by { OneStep(w.x, hop, there); }
      ReachesTrans(w.x.ops, w.x.script, hop, there, Vm.Return(d, w.x.calls));
      ReachesTrans(w.x.ops, w.x.script, a, hop, Vm.Return(d, w.x.calls));
    }
  }

  lemma OneStep(x: Machine, a: State, b: State)
    requires Vm.Step(x.ops, x.script, a) == b
    ensures Leads(x, a, b)
  {
    assert Vm.Run(x.ops, x.script, Vm.Step(x.ops, x.script, a), 0) == b;
    assert Vm.Run(x.ops, x.script, a, 1) == b;
  }

  lemma FollowsFewer(w: Routine, a: State, r: Run, below: List<Value>, m: nat, n: nat, d: Data)
    requires Follows(w, a, r, below, n, d) && m <= n
    ensures Follows(w, a, r, below, m, d)
  {
    hide Outlasts;
    if r.AtBlock? {
      OutlastsFewer(w.x.ops, w.x.script, a, m / 2, n / 2);
    }
  }

  lemma StillRunning(w: Routine, a: State, pc: nat, d: Data)
    requires Leads(w.x, a, At(w.x, pc, d))
    ensures Outlasts(w.x.ops, w.x.script, a, 0)
  {
    assert Outlasts(w.x.ops, w.x.script, At(w.x, pc, d), 0);
    OutlastsAfter(w.x.ops, w.x.script, a, At(w.x, pc, d), 0);
  }

  /** One block: the SSA step and the machine's. */
  lemma {:induction false} BlockStep(w: Routine, a: State, st: Run, below: List<Value>, d: Data)
    returns (next: Run, hop: State, d': Data)
    requires Good(w) && TargetsExist(w.c.f) && PlainBlocks(w.c.f) && Mirrors(w, a, st, below, d)
    requires StepBlock(w.ops, w.c.f, st) != Crashed
    ensures next == StepBlock(w.ops, w.c.f, st)
    ensures next.Finished? ==> Follows(w, a, next, below, 0, d')
    ensures next.AtBlock? ==>
              exists target, env, trace :: Lands(w, a, next, target, env, trace, below, hop, d')
  {
    hide CodeAt, Leads, ByteLen, EmitEffects, EmitSpills, EmitExit, EmitBlock, Fixed, Good, Linked, BlockStart, PlaceBlock, Exec, Truthy, Skipped, TargetsExist, AllLocalSsa, AllStored, Slots, Arrives, PlainBlocks, Ir.Enter;
    GoodMeans(w);
    next := StepBlock(w.ops, w.c.f, st);
    var b := st.block;
    var (env', trace') := Exec(w.ops, w.c.f[b].instrs, 0, st.params, st.env, st.trace).value;
    var s, emitted, d1 := BlockRuns(w, a, b, st.params, st.env, st.trace, below, d, env', trace');
    TermHasValues(w, s, trace');
    hop, d' := ExitRuns(w, a, s, emitted, below, trace', d1);
    var exit := EmitBlock(w.c, b, w.order).value.exit;
    ExitShape(w.c, b, emitted, exit);
    if next.AtBlock? {
      NextBlock(w, a, s, emitted, next, below, trace', hop, d');
    } else {
      LastBlock(w, a, s, emitted, next, below, trace', hop, d');
    }
  }

  lemma {:induction false} LastBlock(w: Routine, a: State, s: Setting, emitted: set<nat>, next: Run, below: List<Value>, trace: seq<Event>, hop: State, d: Data)
    requires AllLocalSsa(w.c.f) && s.b < |w.c.f| && s.c == w.c
    requires EmitExit(w.c, s.b, emitted).Ok? && Exits(w, a, s.b, s, EmitExit(w.c, s.b, emitted).value, below, trace, hop, d)
    requires next == Transfer(w.c.f, w.c.f[s.b].term, s.params, s.env, trace) && next.Finished?
    ensures Follows(w, a, next, below, 0, d)
  {
    hide Leads, EmitExit, EmitRef, RelayJoin, AllLocalSsa, Linked, Truthy, Ir.Enter, ElseCount, Skipped, BlockStart, Arrives;
    ExitShape(w.c, s.b, emitted, EmitExit(w.c, s.b, emitted).value);
    EnterNeverFinishes(w.c.f, s.params, s.env, trace);
  }

  lemma EnterNeverFinishes(f: Blocks, params: seq<Value>, env: Ir.Env, trace: seq<Event>)
    ensures forall target, args :: !Ir.Enter(f, target, args, params, env, trace).Finished?
  {
  }

  /** The machine is at `target`: the block the SSA run is at, or the block after the relay it is at. */
  ghost predicate Lands(w: Routine, a: State, next: Run, target: nat, env: Ir.Env, trace: seq<Event>, below: List<Value>, hop: State, d: Data)
    requires AllLocalSsa(w.c.f)
  {
    && next.AtBlock? && next.block < |w.c.f| && Arrives(w, a, target, hop, d) && target != w.c.entry
    && Linked(w, env, trace, below, d)
    && (next == AtBlock(target, [], env, trace) ||
        (w.c.f[next.block].instrs == [] && JumpsTo(w.c.f[next.block], target) && next == AtBlock(next.block, [], env, trace)))
  }

  lemma {:induction false} TermHasValues(w: Routine, s: Setting, trace: seq<Event>)
    requires s.b < |w.c.f| && s.c == w.c && Transfer(w.c.f, w.c.f[s.b].term, s.params, s.env, trace) != Crashed
    ensures TermValued(s)
  {
    hide Ir.Enter;
  }

  lemma {:induction false} ExitShape(c: Ctx, b: nat, emitted: set<nat>, exit: Exit)
    requires b < |c.f| && AllLocalSsa(c.f) && EmitExit(c, b, emitted) == Ok(exit)
    ensures match c.f[b].term
            case Unset => false
            case Ret(_) => exit.Leave?
            case Jump(target, args) => args == [] && exit == Go(target)
            case Branch(_, thenBb, thenArgs, elseBb, elseArgs) =>
              && thenArgs == [] && elseArgs == [] && exit.Split? && exit.thenTarget == thenBb
              && var join := RelayJoin(c.f, thenBb, elseBb, thenArgs);
                 exit.elseTarget == if join.Some? then join.value else elseBb
  {
    hide EmitRef, RelayJoin, AllLocalSsa;
  }

  lemma {:induction false} NextBlock(w: Routine, a: State, s: Setting, emitted: set<nat>, next: Run, below: List<Value>, trace: seq<Event>, hop: State, d: Data)
    requires AllLocalSsa(w.c.f) && s.b < |w.c.f| && s.c == w.c && w.c.entry == 0 && PlainBlocks(w.c.f)
    requires EmitExit(w.c, s.b, emitted).Ok? && Exits(w, a, s.b, s, EmitExit(w.c, s.b, emitted).value, below, trace, hop, d)
    requires next == Transfer(w.c.f, w.c.f[s.b].term, s.params, s.env, trace) && next.AtBlock?
    ensures exists target, env, trace :: Lands(w, a, next, target, env, trace, below, hop, d)
  {
    hide Leads, EmitExit, EmitRef, RelayJoin, AllLocalSsa, Linked, Truthy, Ir.Enter, ElseCount, Skipped, BlockStart;
    var f := w.c.f;
    ExitShape(w.c, s.b, emitted, EmitExit(w.c, s.b, emitted).value);
    match f[s.b].term
    case Jump(target, args) =>
      assert JumpsTo(f[s.b], target);
      EnterPlain(f, target, args, s.params, s.env, trace);
      assert Lands(w, a, next, target, s.env, trace, below, hop, d);
    case Branch(cond, thenBb, thenArgs, elseBb, elseArgs) =>
      assert ThenOf(f[s.b], thenBb) && ElseOf(f[s.b], elseBb);
      if Truthy(ValueOf(cond, s.params, s.env).value) {
        EnterPlain(f, thenBb, thenArgs, s.params, s.env, trace);
        assert Lands(w, a, next, thenBb, s.env, trace, below, hop, d);
      } else {
        var join := RelayJoin(f, thenBb, elseBb, thenArgs);
        if join.Some? {
          RelayMeans(f, thenBb, elseBb, thenArgs);
          EnterPlain(f, elseBb, elseArgs, s.params, s.env, trace);
          assert Lands(w, a, next, join.value, s.env, trace, below, hop, d);
        } else {
          EnterPlain(f, elseBb, elseArgs, s.params, s.env, trace);
          assert Lands(w, a, next, elseBb, s.env, trace, below, hop, d);
        }
      }
  }

  /** The simulation: block by block, the machine follows the SSA function. */
  lemma {:induction false} BlocksFollow(w: Routine, a: State, st: Run, below: List<Value>, d: Data, n: nat) returns (d': Data)
    requires Good(w) && TargetsExist(w.c.f) && PlainBlocks(w.c.f) && Mirrors(w, a, st, below, d)
    requires RunIr(w.ops, w.c.f, st, n) != Crashed
    ensures Follows(w, a, RunIr(w.ops, w.c.f, st, n), below, n, d')
    decreases n, 0
  {
    hide Leads, Good, Linked, StepBlock, TargetsExist, PlainBlocks, AllLocalSsa, BlockStart, Outlasts, Skipped, EmitBlock, PlaceBlock, CodeAt;
    d' := d;
    GoodMeans(w);
    if n == 0 {
      StillRunning(w, a, w.base + BlockStart(w.c, w.order, st.block).value, d);
    } else {
      if StepBlock(w.ops, w.c.f, st) == Crashed {
        CrashedRun(w.ops, w.c.f, n - 1);
      }
      var next, hop, d1 := BlockStep(w, a, st, below, d);
      if next.Finished? {
        FinishedRun(w.ops, w.c.f, next, n - 1);
        d' := d1;
      } else {
        var target, env, trace :| Lands(w, a, next, target, env, trace, below, hop, d1);
        d' := LandedFollow(w, a, next, target, env, trace, below, hop, d1, n - 1);
      }
    }
  }

  lemma {:induction false} LandedFollow(w: Routine, a: State, next: Run, target: nat, env: Ir.Env, trace: seq<Event>, below: List<Value>, hop: State, d: Data, n: nat)
    returns (d': Data)
    requires Good(w) && TargetsExist(w.c.f) && PlainBlocks(w.c.f) && Lands(w, a, next, target, env, trace, below, hop, d)
    requires RunIr(w.ops, w.c.f, next, n) != Crashed
    ensures Follows(w, a, RunIr(w.ops, w.c.f, next, n), below, n + 1, d')
    decreases n, 1
  {
    hide *;
    LandedMirrors(w, a, next, target, env, trace, below, hop, d);
    LandedHop(w, a, next, target, env, trace, below, hop, d);
    var there := At(w.x, w.base + BlockStart(w.c, w.order, target).value, d);
    var arrived := AtBlock(target, [], env, trace);
    if next == arrived {
      d' := BlocksFollow(w, there, arrived, below, d, n);
      OneMoreStep(w, a, hop, there, RunIr(w.ops, w.c.f, next, n), below, n, d');
      FollowsFewer(w, a, RunIr(w.ops, w.c.f, next, n), below, n + 1, n + 2, d');
    } else if n == 0 {
      d' := d;
      ZeroRun(w.ops, w.c.f, next);
      StillRunning(w, a, w.base + BlockStart(w.c, w.order, target).value, d);
      RunningFollows(w, a, next, below, d);
    } else {
      RelayRun(w, next, target, env, trace, n);
      d' := BlocksFollow(w, there, arrived, below, d, n - 1);
      OneMoreStep(w, a, hop, there, RunIr(w.ops, w.c.f, arrived, n - 1), below, n - 1, d');
    }
  }

  /** What landing says of the machine and of the SSA run. */
  lemma LandedHop(w: Routine, a: State, next: Run, target: nat, env: Ir.Env, trace: seq<Event>, below: List<Value>, hop: State, d: Data)
    requires AllLocalSsa(w.c.f) && Lands(w, a, next, target, env, trace, below, hop, d) && PlainBlocks(w.c.f) && target < |w.c.f| && BlockStart(w.c, w.order, target).Ok?
    ensures var there := At(w.x, w.base + BlockStart(w.c, w.order, target).value, d);
            Leads(w.x, a, hop) && Vm.Step(w.x.ops, w.x.script, hop) == there && Leads(w.x, a, there)
    ensures next.AtBlock?
    ensures next == AtBlock(target, [], env, trace) ||
            (next.block < |w.c.f| && w.c.f[next.block].instrs == [] && JumpsTo(w.c.f[next.block], target) && next == AtBlock(next.block, [], env, trace))
  {
    hide Leads, Linked, AllLocalSsa, BlockStart, Skipped, JumpsTo, ThenOf, ElseOf;
  }

  lemma ZeroRun(ops: IrOps, f: Blocks, st: Run)
    ensures RunIr(ops, f, st, 0) == st
  {
  }

  /** Where the machine landed it mirrors the SSA run at the block it landed at. */
  lemma {:induction false} LandedMirrors(w: Routine, a: State, next: Run, target: nat, env: Ir.Env, trace: seq<Event>, below: List<Value>, hop: State, d: Data)
    requires Good(w) && PlainBlocks(w.c.f) && Lands(w, a, next, target, env, trace, below, hop, d)
    ensures AllLocalSsa(w.c.f) && target < |w.c.f| && BlockStart(w.c, w.order, target).Ok? && w.c.f[target].params == 0
    ensures Mirrors(w, At(w.x, w.base + BlockStart(w.c, w.order, target).value, d), AtBlock(target, [], env, trace), below, d)
  {
    hide Leads, Good, Linked, StepBlock, Placed, AllLocalSsa, BlockStart, Outlasts, Skipped;
    GoodMeans(w);
    LeadsSame(w.x, At(w.x, w.base + BlockStart(w.c, w.order, target).value, d));
    assert w.c.f[target].params == 0;
  }

  /** A skipped relay takes one block of the SSA run and no code. */
  lemma {:induction false} RelayRun(w: Routine, next: Run, target: nat, env: Ir.Env, trace: seq<Event>, n: nat)
    requires n > 0 && next.AtBlock? && next.block < |w.c.f| && target < |w.c.f| && w.c.f[target].params == 0
    requires w.c.f[next.block].instrs == [] && JumpsTo(w.c.f[next.block], target) && next == AtBlock(next.block, [], env, trace)
    requires RunIr(w.ops, w.c.f, next, n) != Crashed
    ensures RunIr(w.ops, w.c.f, next, n) == RunIr(w.ops, w.c.f, AtBlock(target, [], env, trace), n - 1)
  {
    hide StepBlock;
    if StepBlock(w.ops, w.c.f, next) == Crashed {
      CrashedRun(w.ops, w.c.f, n - 1);
    }
    RelayStep(w.ops, w.c.f, next.block, target, env, trace);
  }

  lemma RunningFollows(w: Routine, a: State, next: Run, below: List<Value>, d: Data)
    requires next.AtBlock? && Outlasts(w.x.ops, w.x.script, a, 0)
    ensures Follows(w, a, next, below, 1, d)
  {
  }

  lemma LeadsSame(x: Machine, a: State)
    ensures Leads(x, a, a)
  {
    ReachesSelf(x.ops, x.script, a);
  }

  lemma {:induction false} CrashedRun(ops: IrOps, f: Blocks, n: nat)
    ensures RunIr(ops, f, Crashed, n) == Crashed
    decreases n
  {
    if n > 0 {
      CrashedRun(ops, f, n - 1);
    }
  }

  lemma {:induction false} FinishedRun(ops: IrOps, f: Blocks, st: Run, n: nat)
    requires st.Finished?
    ensures RunIr(ops, f, st, n) == st
    decreases n
  {
    if n > 0 {
      FinishedRun(ops, f, st, n - 1);
    }
  }
}
