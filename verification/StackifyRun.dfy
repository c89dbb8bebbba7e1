/**
 * One block of emitted code: its effects in program order, then the stores that other blocks wait
 * for. Both keep the slots of the values stored so far and leave the stack as they found it.
 */
module StackifyRun {
  import opened Prelude
  import opened Bytecode
  import opened Disasm
  import opened Vm
  import opened Ir
  import opened IrDce
  import opened CodegenSpec
  import opened CodegenSteps
  import opened StackPlan
  import opened Stackify
  import opened StackifyValues
  import Ast
  import Semantics

  // ----- what running a block leaves in the environment -----

  /** No storage reads, and no effects but `emit`. */
  predicate Scalar(instrs: Instrs) {
    forall p :: 0 <= p < |instrs| ==> !instrs[p].1.StorageGet? && (HasSideEffects(instrs[p].1) ==> instrs[p].1.Emit?)
  }

  /** Events of the instructions from `p` on. */
  function EventsFrom(instrs: Instrs, p: nat, params: seq<Value>, env: Ir.Env): seq<Event>
    requires p <= |instrs|
    decreases |instrs| - p
  {
    if p == |instrs| then []
    else
      OwnEvents(instrs[p].1, params, env) + EventsFrom(instrs, p + 1, params, env)
  }

  ghost predicate SameOthers(instrs: Instrs, p: nat, env: Ir.Env, env': Ir.Env) {
    forall id :: NotDefinedFrom(instrs, p, Value(id)) ==> (id in env <==> id in env') && (id in env ==> env[id] == env'[id])
  }

  lemma {:induction false} OthersValues(instrs: Instrs, p: nat, vs: seq<ValueRef>, params: seq<Value>, env: Ir.Env, env': Ir.Env)
    requires SameOthers(instrs, p, env, env') && forall k :: 0 <= k < |vs| ==> NotDefinedFrom(instrs, p, vs[k])
    ensures ValuesOf(vs, params, env) == ValuesOf(vs, params, env')
  {
    hide NotDefinedFrom;
    if vs != [] {
      assert NotDefinedFrom(instrs, p, vs[0]);
      OthersValue(instrs, p, vs[0], params, env, env');
      OthersValues(instrs, p, vs[1..], params, env, env');
    }
  }

  lemma OthersValue(instrs: Instrs, p: nat, v: ValueRef, params: seq<Value>, env: Ir.Env, env': Ir.Env)
    requires SameOthers(instrs, p, env, env') && NotDefinedFrom(instrs, p, v)
    ensures ValueOf(v, params, env) == ValueOf(v, params, env')
  {
    hide NotDefinedFrom;
    if v.Value? {
      assert NotDefinedFrom(instrs, p, Value(v.id));
    }
  }

  lemma SameOthersStep(instrs: Instrs, p: nat, env: Ir.Env, v: Value, env': Ir.Env)
    requires p < |instrs| && SameOthers(instrs, p + 1, env[instrs[p].0 := v], env')
    ensures SameOthers(instrs, p, env, env')
  {
    forall id | NotDefinedFrom(instrs, p, Value(id))
      ensures (id in env <==> id in env') && (id in env ==> env[id] == env'[id])
    {
      assert NotDefinedFrom(instrs, p + 1, Value(id));
    }
  }

  /** In the final environment every instruction of the block still computes its value. */
  lemma {:induction false} ExecFacts(s: Setting, p: nat, env: Ir.Env, trace: seq<Event>, trace': seq<Event>)
    requires s.b < |s.c.f| && p <= |s.c.f[s.b].instrs| && LocalSsa(s.c.f[s.b].instrs) && Scalar(s.c.f[s.b].instrs)
    requires Exec(s.ops, s.c.f[s.b].instrs, p, s.params, env, trace) == Some((s.env, trace'))
    ensures SameOthers(s.c.f[s.b].instrs, p, env, s.env)
    ensures forall q :: p <= q < |s.c.f[s.b].instrs| ==> ValueAt(s, q)
    ensures trace' == trace + EventsFrom(s.c.f[s.b].instrs, p, s.params, s.env)
    decreases |s.c.f[s.b].instrs| - p
  {
    hide ValueAt, LocalSsa, Scalar, ExecInstr;
    var instrs := s.c.f[s.b].instrs;
    if p == |instrs| {
      assert trace + [] == trace;
    } else {
      var (v, trace1) := ExecInstr(s.ops, instrs[p].1, s.params, env, trace).value;
      ExecFacts(s, p + 1, env[instrs[p].0 := v], trace1, trace');
      SameOthersStep(instrs, p, env, v, s.env);
      InstrFacts(s, p, env, trace, v, trace1);
    }
  }

  lemma {:induction false} InstrFacts(s: Setting, p: nat, env: Ir.Env, trace: seq<Event>, v: Value, trace1: seq<Event>)
    requires s.b < |s.c.f| && p < |s.c.f[s.b].instrs| && LocalSsa(s.c.f[s.b].instrs) && Scalar(s.c.f[s.b].instrs)
    requires var instrs := s.c.f[s.b].instrs;
             && ExecInstr(s.ops, instrs[p].1, s.params, env, trace) == Some((v, trace1))
             && SameOthers(instrs, p, env, s.env) && SameOthers(instrs, p + 1, env[instrs[p].0 := v], s.env)
    ensures ValueAt(s, p)
    ensures trace1 + EventsFrom(s.c.f[s.b].instrs, p + 1, s.params, s.env) == trace + EventsFrom(s.c.f[s.b].instrs, p, s.params, s.env)
  {
    hide PureValue, Operands, SameOthers, EventsFrom, Eval;
    var instrs := s.c.f[s.b].instrs;
    var (id, i) := instrs[p];
    assert UsesEarlier(instrs, p);
    OthersValues(instrs, p, Operands(i), s.params, env, s.env);
    assert NotDefinedFrom(instrs, p + 1, Value(id));
    OthersValue(instrs, p + 1, Value(id), s.params, env[id := v], s.env);
    EvalFacts(s.ops, i, ValuesOf(Operands(i), s.params, s.env).value, trace);
    EventsStep(instrs, p, s.params, s.env);
    Regroup(trace, OwnEvents(i, s.params, s.env), EventsFrom(instrs, p + 1, s.params, s.env));
  }

  /** What one instruction adds to the trace. */
  function OwnEvents(i: Instr, params: seq<Value>, env: Ir.Env): seq<Event> {
    if i.Emit? && ValuesOf(i.args, params, env).Some? then [Event(i.event, Array(Reverse(ValuesOf(i.args, params, env).value)))] else []
  }

  lemma EventsStep(instrs: Instrs, p: nat, params: seq<Value>, env: Ir.Env)
    requires p < |instrs|
    ensures EventsFrom(instrs, p, params, env) == OwnEvents(instrs[p].1, params, env) + EventsFrom(instrs, p + 1, params, env)
    ensures instrs[p].1.Emit? ==> Operands(instrs[p].1) == instrs[p].1.args
  {
    hide ValuesOf;
  }

  lemma {:induction false} EvalFacts(ops: IrOps, i: Instr, vs: seq<Value>, trace: seq<Event>)
    requires |vs| == |Operands(i)| && !i.StorageGet? && (HasSideEffects(i) ==> i.Emit?)
    ensures IsPure(i) ==> Eval(ops, i, vs, trace) == if PureValue(ops, i, vs).Some? then Some((PureValue(ops, i, vs).value, trace)) else None
    ensures i.Emit? ==> Eval(ops, i, vs, trace) == Some((Null, trace + [Event(i.event, Array(Reverse(vs)))]))
  {
    hide PureValue;
  }

  lemma EmitOperands(i: Instr)
    ensures i.Emit? ==> Operands(i) == i.args
  {
  }

  lemma {:induction false} ConstantsKept(s: Setting, env: Ir.Env, id: nat)
    requires s.b < |s.c.f| && UniqueIds(s.c.f) && SameOthers(s.c.f[s.b].instrs, 0, env, s.env)
    requires Constant(s.c.f, s.args, env, id) && forall p :: 0 <= p < |s.c.f[s.b].instrs| ==> ValueAt(s, p)
    requires s.params == if s.b == s.c.entry then s.args else []
    ensures Constant(s.c.f, s.args, s.env, id)
  {
    hide DefsOf, UniqueIds, Semantics.LiteralValue, SameOthers;
    var instrs := s.c.f[s.b].instrs;
    if p :| 0 <= p < |instrs| && instrs[p].0 == id {
      TheDefinition(s.c.f, s.b, p);
      assert ValueAt(s, p);
      if Formal(instrs[p].1) {
        OneValue(instrs[p].1.value, s.params, s.env);
      }
    } else {
      assert NotDefinedFrom(instrs, 0, Value(id));
      OthersSame(instrs, env, s.env, id);
    }
  }

  lemma OthersSame(instrs: Instrs, env: Ir.Env, env': Ir.Env, id: nat)
    requires SameOthers(instrs, 0, env, env') && NotDefinedFrom(instrs, 0, Value(id))
    ensures (id in env <==> id in env') && (id in env ==> env[id] == env'[id])
  {
  }

  // ----- effects -----

  /** The machine got to `pc`, the stack as before, having emitted `events`. */
  ghost predicate Ran(s: Setting, a: State, emitted: set<nat>, pc: nat, d: Data, events: seq<Event>, d': Data) {
    && Leads(s.x, a, At(s.x, pc, d')) && Slots(s, emitted, d')
    && d'.stack == d.stack && d'.trace == d.trace + events && OtherLocals(s, d, d')
  }

  lemma RanTrans(s: Setting, a: State, e1: set<nat>, e2: set<nat>, pc1: nat, pc2: nat, d: Data, ev1: seq<Event>, d1: Data, ev2: seq<Event>, d2: Data)
    requires Ran(s, a, e1, pc1, d, ev1, d1) && Ran(s, a, e2, pc2, d1, ev2, d2)
    ensures Ran(s, a, e2, pc2, d, ev1 + ev2, d2)
  {
    hide Leads, Slots;
    assert (d.trace + ev1) + ev2 == d.trace + (ev1 + ev2);
  }

  lemma RanNothing(s: Setting, a: State, emitted: set<nat>, pc: nat, d: Data)
    requires Leads(s.x, a, At(s.x, pc, d)) && Slots(s, emitted, d)
    ensures Ran(s, a, emitted, pc, d, [], d)
  {
    hide Leads, Slots;
    OtherSelf(s, d);
    assert d.trace + [] == d.trace;
  }

  lemma RanShape(s: Setting, a: State, emitted: set<nat>, pc: nat, d: Data, events: seq<Event>, d': Data)
    requires Ran(s, a, emitted, pc, d, events, d')
    ensures Leads(s.x, a, At(s.x, pc, d')) && Slots(s, emitted, d') && d'.stack == d.stack
    ensures d'.trace == d.trace + events && OtherLocals(s, d, d')
  {
    hide Leads, Slots, OtherLocals;
  }

  /** Nothing computed for an effect is left on the stack. */
  predicate EffectsStored(c: Ctx) {
    forall b, p :: 0 <= b < |c.f| && 0 <= p < |c.f[b].instrs| && HasSideEffects(c.f[b].instrs[p].1) && Uses(c.f, c.f[b].instrs[p].0) > 0 ==>
      c.f[b].instrs[p].0 in c.spill
  }

  lemma {:induction false} StoreOnTop(s: Setting, a: State, emitted: set<nat>, id: nat, slot: nat, pc: nat, d: Data, d0: Data) returns (d': Data)
    requires Fixed(s) && id in s.env && id in s.c.slot && slot == s.c.slot[id] < 256 && Here(s.c, s.b, id).Some?
    requires Leads(s.x, a, At(s.x, pc, d)) && Slots(s, emitted, d) && d.stack == Cons(s.env[id], d0.stack)
    requires d.trace == d0.trace && OtherLocals(s, d0, d)
    requires CodeAt(s.x.script, pc, [StoreCode(Local(slot))])
    ensures Ran(s, a, emitted + {id}, pc + ByteLen([StoreCode(Local(slot))]), d0, [], d')
  {
    hide Leads, CodeAt, ByteLen, Fixed, ExecData, IsDataInstruction, StackifyValues.Computes, StoreCode, Foreign;
    FixedSlots(s);
    FixedBlock(s);
    var store := StoreCode(Local(slot));
    ExecStoreSlot(s.x.ops, Local(slot), d);
    d' := d.(stack := d0.stack, locals := d.locals[slot := s.env[id]]);
    assert StoredData(Local(slot), d) == d';
    ComputesOne(s.x.ops, store, d, d');
    RunCode(s.x, a, [store], pc, d, d');
    StoredSlots(s, emitted, id, d);
    StoredOthers(s, id, d0, d);
    SlotsIgnoreStack(s, emitted + {id}, d.(locals := d.locals[slot := s.env[id]]), d0.stack);
    OthersIgnoreStack(s, d0, d.(locals := d.locals[slot := s.env[id]]), d0.stack);
    assert d0.trace + [] == d0.trace;
  }

  lemma SlotsIgnoreStack(s: Setting, emitted: set<nat>, d: Data, stack: List<Value>)
    requires Slots(s, emitted, d)
    ensures Slots(s, emitted, d.(stack := stack))
  {
    hide Foreign;
  }

  lemma OthersIgnoreStack(s: Setting, d0: Data, d: Data, stack: List<Value>)
    requires OtherLocals(s, d0, d)
    ensures OtherLocals(s, d0, d.(stack := stack))
  {
  }

  /** The name and the system call, then null into the value's slot if anything uses it. */
  lemma {:induction false} EffectRuns(s: Setting, a: State, emitted: set<nat>, p: nat, pc: nat, d: Data) returns (d': Data)
    requires Fixed(s) && EffectsStored(s.c) && p < |s.c.f[s.b].instrs| && EmitEffect(s.c, s.b, emitted, p).Ok?
    requires Leads(s.x, a, At(s.x, pc, d)) && Slots(s, emitted, d)
    requires CodeAt(s.x.script, pc, EmitEffect(s.c, s.b, emitted, p).value.0)
    ensures s.c.f[s.b].instrs[p].1.Emit? && ValuesOf(s.c.f[s.b].instrs[p].1.args, s.params, s.env).Some?
    ensures var (code, emitted') := EmitEffect(s.c, s.b, emitted, p).value;
            var i := s.c.f[s.b].instrs[p].1;
            Ran(s, a, emitted', pc + ByteLen(code), d, [Event(i.event, Array(Reverse(ValuesOf(i.args, s.params, s.env).value)))], d')
  {
    hide Leads, CodeAt, ByteLen, Slots, Pushes, Ran, EmitRefs, PackCode, PushData, ResultCode, Uses, Operands, ValuesOf, UsedRefs, AllLocalSsa, OperatorsOk, Constant, SlotsOk, StackifyValues.Computes, Below;
    var (id, i) := s.c.f[s.b].instrs[p];
    assert ValueAt(s, p);
    BlockLocal(s.c, s.b);
    OperandsBelow(s.c, s.b, p);
    OperandsUsed(s, p);
    EmitOperands(i);
    var ws := ValuesOf(i.args, s.params, s.env).value;
    var r := EmitRefs(s.c, s.b, emitted, i.args, p + 1).value;
    var pack, name, result := PackCode(|i.args|).value, PushData(i.event).value, ResultCode(s.c, id).value;
    var notify := [name] + [Instruction(SYSCALL, NOTIFY)];
    var front := pack + notify;
    assert pack + ([name] + ([Instruction(SYSCALL, NOTIFY)] + result)) == front + result;
    CodeAtSplit(s.x.script, pc, r.0, front + result);
    ByteLenAppend(r.0, front + result);
    var pc1 := pc + ByteLen(r.0);
    CodeAtSplit(s.x.script, pc1, front, result);
    ByteLenAppend(front, result);
    var d1 := RefsRun(s, a, emitted, i.args, p + 1, pc, d);
    PushesShape(s, a, r.1, pc1, d, ws, d1);
    PushesOthers(s, a, r.1, pc1, d, ws, d1);
    var d2 := NotifyRuns(s, a, r.1, i.event, ws, pc1, d, d1);
    RanShape(s, a, r.1, pc1 + ByteLen(front), d, [Event(i.event, Array(Reverse(ws)))], d2);
    d' := ResultRuns(s, a, r.1, p, pc1 + ByteLen(front), d2);
    RanTrans(s, a, r.1, EmitEffect(s.c, s.b, emitted, p).value.1, pc1 + ByteLen(front), pc1 + ByteLen(front) + ByteLen(result), d,
             [Event(i.event, Array(Reverse(ws)))], d2, [], d');
    assert [Event(i.event, Array(Reverse(ws)))] + [] == [Event(i.event, Array(Reverse(ws)))];
  }

  lemma PushesOthers(s: Setting, a: State, emitted: set<nat>, pc: nat, d: Data, ws: seq<Value>, d': Data)
    requires Pushes(s, a, emitted, pc, d, ws, d')
    ensures OtherLocals(s, d, d')
  {
  }

  lemma {:induction false} NotifyRuns(s: Setting, a: State, emitted: set<nat>, event: seq<byte>, ws: seq<Value>, pc: nat, d: Data, d1: Data) returns (d2: Data)
    requires PackCode(|ws|).Ok? && PushData(event).Ok?
    requires Leads(s.x, a, At(s.x, pc, d1)) && Slots(s, emitted, d1) && d1.stack == PushAll(d.stack, ws) && d1.trace == d.trace && OtherLocals(s, d, d1)
    requires CodeAt(s.x.script, pc, PackCode(|ws|).value + ([PushData(event).value] + [Instruction(SYSCALL, NOTIFY)]))
    ensures Ran(s, a, emitted, pc + ByteLen(PackCode(|ws|).value + ([PushData(event).value] + [Instruction(SYSCALL, NOTIFY)])), d, [Event(event, Array(Reverse(ws)))], d2)
  {
    hide Leads, CodeAt, ByteLen, PackCode, PushData, PushAll, StackifyValues.Computes, ExecData, IsDataInstruction, Foreign;
    var base := d1.(stack := d.stack);
    assert d1 == base.(stack := PushAll(base.stack, ws));
    PackComputes(s.x.ops, ws, base);
    var packed := base.Push(Array(Reverse(ws)));
    ExecPushData(s.x.ops, event, packed);
    var named := packed.Push(Bytes(event));
    ExecNotify(s.x.ops, named);
    d2 := base.(trace := d.trace + [Event(event, Array(Reverse(ws)))]);
    ComputesTwo(s.x.ops, PushData(event).value, Instruction(SYSCALL, NOTIFY), packed, named, d2);
    assert [PushData(event).value] + [Instruction(SYSCALL, NOTIFY)] == [PushData(event).value, Instruction(SYSCALL, NOTIFY)];
    ComputesAppend(s.x.ops, PackCode(|ws|).value, [PushData(event).value, Instruction(SYSCALL, NOTIFY)], d1, packed, d2);
    RunCode(s.x, a, PackCode(|ws|).value + [PushData(event).value, Instruction(SYSCALL, NOTIFY)], pc, d1, d2);
  }

  lemma {:induction false} ResultRuns(s: Setting, a: State, emitted: set<nat>, p: nat, pc: nat, d: Data) returns (d': Data)
    requires Fixed(s) && EffectsStored(s.c) && p < |s.c.f[s.b].instrs| && s.c.f[s.b].instrs[p].1.Emit?
    requires ResultCode(s.c, s.c.f[s.b].instrs[p].0).Ok? && CodeAt(s.x.script, pc, ResultCode(s.c, s.c.f[s.b].instrs[p].0).value)
    requires Leads(s.x, a, At(s.x, pc, d)) && Slots(s, emitted, d)
    ensures var id := s.c.f[s.b].instrs[p].0;
            Ran(s, a, if Uses(s.c.f, id) > 0 && id in s.c.spill then emitted + {id} else emitted, pc + ByteLen(ResultCode(s.c, id).value), d, [], d')
  {
    hide Leads, CodeAt, ByteLen, Slots, Ran, StackifyValues.Computes, ExecData, IsDataInstruction, StoreCode, OperatorsOk, Constant, SlotsOk, Uses, OtherLocals;
    var id := s.c.f[s.b].instrs[p].0;
    if Uses(s.c.f, id) == 0 {
      ByteLenNone();
      RanNothing(s, a, emitted, pc, d);
      d' := d;
    } else {
      assert id in s.c.spill;
      assert ValueAt(s, p);
      BlockLocal(s.c, s.b);
      LocalPosUnique(s.c.f[s.b].instrs, |s.c.f[s.b].instrs|, p);
      var slot := s.c.slot[id];
      CodeAtSplit(s.x.script, pc, [Op(PUSHNULL)], [StoreCode(Local(slot))]);
      ByteLenAppend([Op(PUSHNULL)], [StoreCode(Local(slot))]);
      PushNull(s.x.ops, d);
      ComputesOne(s.x.ops, Op(PUSHNULL), d, d.Push(Null));
      RunCode(s.x, a, [Op(PUSHNULL)], pc, d, d.Push(Null));
      SlotsIgnoreStack(s, emitted, d, Cons(Null, d.stack));
      OtherSelf(s, d);
      OthersIgnoreStack(s, d, d, Cons(Null, d.stack));
      d' := StoreOnTop(s, a, emitted, id, slot, pc + ByteLen([Op(PUSHNULL)]), d.Push(Null), d);
    }
  }

  lemma PushNull(ops: Ops, d: Data)
    ensures IsDataInstruction(Op(PUSHNULL)) && ExecData(ops, Op(PUSHNULL), d) == Some(d.Push(Null))
  {
  }

  /** All effects of the block, in order. */
  lemma {:induction false} EffectsRun(s: Setting, a: State, emitted: set<nat>, p: nat, pc: nat, d: Data) returns (d': Data)
    requires Fixed(s) && EffectsStored(s.c) && p <= |s.c.f[s.b].instrs| && EmitEffects(s.c, s.b, emitted, p).Ok?
    requires Leads(s.x, a, At(s.x, pc, d)) && Slots(s, emitted, d)
    requires CodeAt(s.x.script, pc, EmitEffects(s.c, s.b, emitted, p).value.0)
    ensures var (code, emitted') := EmitEffects(s.c, s.b, emitted, p).value;
            Ran(s, a, emitted', pc + ByteLen(code), d, EventsFrom(s.c.f[s.b].instrs, p, s.params, s.env), d')
    decreases |s.c.f[s.b].instrs| - p
  {
    hide Leads, CodeAt, ByteLen, Slots, Ran, EmitEffect, Fixed, EffectsStored, ValuesOf;
    FixedBlock(s);
    var instrs := s.c.f[s.b].instrs;
    if p == |instrs| {
      ByteLenNone();
      RanNothing(s, a, emitted, pc, d);
      d' := d;
    } else if !HasSideEffects(instrs[p].1) {
      d' := EffectsRun(s, a, emitted, p + 1, pc, d);
      var rest := EventsFrom(instrs, p + 1, s.params, s.env);
      assert [] + rest == rest;
    } else {
      var first := EmitEffect(s.c, s.b, emitted, p).value;
      var rest := EmitEffects(s.c, s.b, first.1, p + 1).value;
      CodeAtSplit(s.x.script, pc, first.0, rest.0);
      ByteLenAppend(first.0, rest.0);
      var d1 := EffectRuns(s, a, emitted, p, pc, d);
      var events := [Event(instrs[p].1.event, Array(Reverse(ValuesOf(instrs[p].1.args, s.params, s.env).value)))];
      RanShape(s, a, first.1, pc + ByteLen(first.0), d, events, d1);
      d' := EffectsRun(s, a, first.1, p + 1, pc + ByteLen(first.0), d1);
      RanTrans(s, a, first.1, rest.1, pc + ByteLen(first.0), pc + ByteLen(first.0) + ByteLen(rest.0), d, events, d1,
               EventsFrom(instrs, p + 1, s.params, s.env), d');
    }
  }

  lemma NoEvents(events: seq<Event>)
    ensures events + [] == events
  {
  }

  /** Stores before the terminator. */
  lemma {:induction false} SpillsRun(s: Setting, a: State, emitted: set<nat>, order: seq<nat>, pc: nat, d: Data) returns (d': Data)
    requires Fixed(s) && EmitSpills(s.c, s.b, emitted, order).Ok?
    requires Leads(s.x, a, At(s.x, pc, d)) && Slots(s, emitted, d)
    requires CodeAt(s.x.script, pc, EmitSpills(s.c, s.b, emitted, order).value.0)
    ensures var (code, emitted') := EmitSpills(s.c, s.b, emitted, order).value;
            Ran(s, a, emitted', pc + ByteLen(code), d, [], d')
    decreases |order|
  {
    hide Leads, CodeAt, ByteLen, Slots, Ran, Pushes, EmitPure, Fixed, StoreCode, Below, PushAll, OtherLocals;
    FixedBlock(s);
    if order == [] {
      ByteLenNone();
      RanNothing(s, a, emitted, pc, d);
      d' := d;
    } else if !StoresLate(s.c, s.b, emitted, order[0]) {
      d' := SpillsRun(s, a, emitted, order[1..], pc, d);
    } else {
      var id, p := order[0], Here(s.c, s.b, order[0]).value;
      BlockLocal(s.c, s.b);
      OperandsBelow(s.c, s.b, p);
      var i := s.c.f[s.b].instrs[p].1;
      var r := EmitPure(s.c, s.b, emitted, i, p + 1).value;
      var slot := s.c.slot[id];
      SlotBound(s, id);
      var store := [StoreCode(Local(slot))];
      var rest := EmitSpills(s.c, s.b, r.1 + {id}, order[1..]).value;
      CodeAtSplit(s.x.script, pc, r.0, store + rest.0);
      ByteLenAppend(r.0, store + rest.0);
      var pc1 := pc + ByteLen(r.0);
      CodeAtSplit(s.x.script, pc1, store, rest.0);
      ByteLenAppend(store, rest.0);
      var d1 := PureRuns(s, a, emitted, i, p + 1, p, pc, d);
      PushesShape(s, a, r.1, pc1, d, [s.env[id]], d1);
      PushesOthers(s, a, r.1, pc1, d, [s.env[id]], d1);
      PushedOne(d.stack, s.env[id]);
      var d2 := StoreOnTop(s, a, r.1, id, slot, pc1, d1, d);
      RanShape(s, a, r.1 + {id}, pc1 + ByteLen(store), d, [], d2);
      d' := SpillsRun(s, a, r.1 + {id}, order[1..], pc1 + ByteLen(store), d2);
      RanTrans(s, a, r.1 + {id}, rest.1, pc1 + ByteLen(store), pc1 + ByteLen(store) + ByteLen(rest.0), d, [], d2, [], d');
      NoEvents([]);
    }
  }
}
