/**
 * How each emitted instruction moves the machine, and how slots mirror named variables. One lemma
 * per kind of instruction, stated so that the proofs about expressions and statements only chain them.
 */
module CodegenSteps {
  import opened Prelude
  import opened Bytecode
  import opened Disasm
  import opened Vm
  import opened Ast
  import opened Semantics
  import opened CodegenSpec

  /** A machine, the script it runs and the contexts below the current one. */
  datatype Machine = Machine(ops: Ops, script: seq<byte>, calls: List<Frame>)

  function At(x: Machine, pc: nat, d: Data): State { Running(pc, d, x.calls) }

  ghost predicate Leads(x: Machine, a: State, b: State) { Reaches(x.ops, x.script, a, b) }

  predicate IsControl(op: byte) {
    IsJump(op) || op == CALL || op == CALL_L || op == RET || IsUnmodelled(op)
  }

  predicate IsDataInstruction(i: Instruction) { WellFormed(i) && !IsControl(i.opcode) }

  lemma PeelCode(x: Machine, i: Instruction, rest: Code, pc: nat)
    requires CodeAt(x.script, pc, [i] + rest)
    ensures CodeAt(x.script, pc, [i]) && CodeAt(x.script, pc + EncodedLen(i), rest)
    ensures ByteLen([i] + rest) == EncodedLen(i) + ByteLen(rest)
  {
    CodeAtSplit(x.script, pc, [i], rest);
    ByteLenAppend([i], rest);
    ByteLenOne(i);
  }

  /** Execute a data instruction after having come from `a`. */
  lemma DataStep(x: Machine, a: State, i: Instruction, rest: Code, pc: nat, d: Data)
    requires Leads(x, a, At(x, pc, d)) && CodeAt(x.script, pc, [i] + rest) && IsDataInstruction(i)
    ensures CodeAt(x.script, pc + EncodedLen(i), rest) && ByteLen([i] + rest) == EncodedLen(i) + ByteLen(rest)
    ensures match ExecData(x.ops, i, d)
            case None => Leads(x, a, Faulted)
            case Some(d1) => Leads(x, a, At(x, pc + EncodedLen(i), d1))
  {
    hide CodeAt, WellFormed, ExecData, Reaches;
    PeelCode(x, i, rest, pc);
    StepAt(x.ops, x.script, i, pc, d, x.calls);
    ReachesTrans(x.ops, x.script, a, At(x, pc, d), StepInstruction(x.ops, |x.script|, i, pc, d, x.calls));
  }

  predicate IsLongJump(i: Instruction, op: byte, relative: int) {
    FitsI32(relative) && i == LongJump(op, relative)
  }

  /** An unconditional jump. */
  lemma JumpStep(x: Machine, a: State, i: Instruction, relative: int, rest: Code, pc: nat, d: Data)
    requires IsLongJump(i, JMP_L, relative)
    requires Leads(x, a, At(x, pc, d)) && CodeAt(x.script, pc, [i] + rest)
    requires 0 <= pc + relative < |x.script|
    ensures CodeAt(x.script, pc + 5, rest) && ByteLen([i] + rest) == 5 + ByteLen(rest)
    ensures Step(x.ops, x.script, At(x, pc, d)) == At(x, pc + relative, d)
    ensures Leads(x, a, At(x, pc + relative, d))
  {
    hide CodeAt, Reaches, ToLe, FromLeSigned;
    PeelCode(x, i, rest, pc);
    I32RoundTrip(relative);
    StepAt(x.ops, x.script, i, pc, d, x.calls);
    ReachesTrans(x.ops, x.script, a, At(x, pc, d), At(x, pc + relative, d));
  }

  predicate Taken(op: byte, v: Value) {
    if op == JMPIF_L then Truthy(v) else !Truthy(v)
  }

  /** A jump on the truth of the top of the stack, which it pops. */
  lemma BranchStep(x: Machine, a: State, i: Instruction, op: byte, relative: int, rest: Code, pc: nat, d: Data)
    requires (op == JMPIF_L || op == JMPIFNOT_L) && IsLongJump(i, op, relative)
    requires Leads(x, a, At(x, pc, d)) && CodeAt(x.script, pc, [i] + rest)
    requires d.stack.Cons? && 0 <= pc + relative < |x.script|
    ensures CodeAt(x.script, pc + 5, rest) && ByteLen([i] + rest) == 5 + ByteLen(rest)
    ensures var next := At(x, pc + if Taken(op, d.stack.head) then relative else 5, d.(stack := d.stack.tail));
            Step(x.ops, x.script, At(x, pc, d)) == next && Leads(x, a, next)
  {
    hide CodeAt, Reaches, ToLe, FromLeSigned, Truthy;
    PeelCode(x, i, rest, pc);
    I32RoundTrip(relative);
    StepAt(x.ops, x.script, i, pc, d, x.calls);
    ReachesTrans(x.ops, x.script, a, At(x, pc, d), Step(x.ops, x.script, At(x, pc, d)));
  }

  lemma ReturnStep(x: Machine, a: State, pc: nat, d: Data)
    requires Leads(x, a, At(x, pc, d)) && CodeAt(x.script, pc, [Op(RET)])
    ensures Leads(x, a, Vm.Return(d, x.calls))
  {
    hide CodeAt, Reaches;
    StepAt(x.ops, x.script, Op(RET), pc, d, x.calls);
    ReachesTrans(x.ops, x.script, a, At(x, pc, d), Vm.Return(d, x.calls));
  }

  // ----- what the emitted data instructions do -----

  lemma PushIntShape(n: int)
    requires FitsI128(n)
    ensures var i := PushInt(n);
            WellFormed(i) && i.opcode <= PUSH16 && i.opcode != PUSHA && PushedValue(i) == Some(Int(n))
  {
    hide ToLe, FromLeSigned;
    WidthRanges();
    var i := PushInt(n);
    if i.operands != [] {
      SignedRoundTrip(n, |i.operands|);
    }
  }

  lemma ExecPushInt(ops: Ops, n: int, d: Data)
    requires FitsI128(n)
    ensures IsDataInstruction(PushInt(n)) && ExecData(ops, PushInt(n), d) == Some(d.Push(Int(n)))
  {
    hide PushInt, WellFormed, PushedValue, NeedsOne, NeedsTwo, ExecOne, ExecTwo, Other;
    PushIntShape(n);
  }

  lemma ExecPushData(ops: Ops, data: seq<byte>, d: Data)
    requires PushData(data).Ok?
    ensures var i := PushData(data).value;
            IsDataInstruction(i) && ExecData(ops, i, d) == Some(d.Push(Bytes(data)))
  {
    hide ToLe, FromLeUnsigned;
    WidthRanges();
    var i := PushData(data).value;
    var w := DataPrefix(i.opcode);
    UnsignedRoundTrip(|data|, w);
    assert i.operands == ToLe(|data|, w) + data;
    assert i.operands[..w] == ToLe(|data|, w) && i.operands[w..] == data;
  }

  lemma ExecLiteral(ops: Ops, lit: Literal, d: Data)
    requires LiteralCode(lit).Ok?
    ensures var i := LiteralCode(lit).value;
            LiteralValue(lit).Some? && IsDataInstruction(i)
            && ExecData(ops, i, d) == Some(d.Push(LiteralValue(lit).value))
  {
    hide PushInt, PushData;
    match lit
    case IntLiteral(text) => ExecPushInt(ops, ParseIntLiteral(text).value, d);
    case StringLiteral(data) => ExecPushData(ops, data, d);
    case BufferLiteral(data) => ExecPushData(ops, data, d);
    case _ =>
  }

  lemma ExecLoadSlot(ops: Ops, slot: Slot, d: Data)
    requires slot.index < 256 && slot.index < |if slot.Arg? then d.args else d.locals|
    ensures var i := LoadCode(slot);
            IsDataInstruction(i)
            && ExecData(ops, i, d) == Some(d.Push((if slot.Arg? then d.args else d.locals)[slot.index]))
  {
  }

  function StoredData(slot: Slot, d: Data): Data
    requires d.stack.Cons? && slot.index < |if slot.Arg? then d.args else d.locals|
  {
    if slot.Arg? then d.(stack := d.stack.tail, args := d.args[slot.index := d.stack.head])
    else d.(stack := d.stack.tail, locals := d.locals[slot.index := d.stack.head])
  }

  lemma ExecStoreSlot(ops: Ops, slot: Slot, d: Data)
    requires slot.index < 256 && slot.index < |if slot.Arg? then d.args else d.locals| && d.stack.Cons?
    ensures var i := StoreCode(slot);
            IsDataInstruction(i) && ExecData(ops, i, d) == Some(StoredData(slot, d))
  {
  }

  lemma ExecDup(ops: Ops, d: Data)
    requires d.stack.Cons?
    ensures IsDataInstruction(Op(DUP)) && ExecData(ops, Op(DUP), d) == Some(d.Push(d.stack.head))
    ensures IsDataInstruction(Op(DROP)) && ExecData(ops, Op(DROP), d) == Some(d.(stack := d.stack.tail))
  {
  }

  lemma ExecUnary(ops: Ops, i: Instruction, d: Data)
    requires IsUnaryOperation(i.opcode)
    requires d.stack.Cons? && WellFormed(i)
    ensures IsDataInstruction(i)
    ensures var v := Unary(ops, i, d.stack.head);
            ExecData(ops, i, d) == if v.Some? then Some(d.(stack := Cons(v.value, d.stack.tail))) else None
  {
    hide Unary;
  }

  lemma ExecBinary(ops: Ops, op: byte, d: Data)
    requires IsBinary(op) || op == PICKITEM
    requires d.stack.Cons? && d.stack.tail.Cons?
    ensures IsDataInstruction(Op(op))
    ensures var v := Binary(ops, Op(op), d.stack.tail.head, d.stack.head);
            ExecData(ops, Op(op), d) == if v.Some? then Some(d.(stack := Cons(v.value, d.stack.tail.tail))) else None
  {
    hide Binary;
  }

  lemma ExecPack(ops: Ops, d: Data)
    requires d.stack.Cons? && d.stack.head.Int? && d.stack.head.n >= 0
    ensures IsDataInstruction(Op(PACK))
    ensures ExecData(ops, Op(PACK), d) ==
            match Take(d.stack.tail, d.stack.head.n)
            case None => None
            case Some((items, below)) => Some(d.(stack := Cons(Array(items), below)))
  {
    hide Take;
  }

  lemma ExecNotify(ops: Ops, d: Data)
    requires d.stack.Cons? && d.stack.head.Bytes? && d.stack.tail.Cons?
    ensures var i := Instruction(SYSCALL, NOTIFY);
            IsDataInstruction(i)
            && ExecData(ops, i, d) ==
               Some(d.(stack := d.stack.tail.tail, trace := d.trace + [Event(d.stack.head.data, d.stack.tail.head)]))
  {
  }

  // ----- pushing several values -----

  /** `vs` pushed left to right. */
  function PushAll(stack: List<Value>, vs: seq<Value>): List<Value>
    decreases |vs|
  {
    if vs == [] then stack else PushAll(Cons(vs[0], stack), vs[1..])
  }

  lemma {:induction false} TakePushed(stack: List<Value>, vs: seq<Value>)
    ensures Take(PushAll(stack, vs), |vs|) == Some((Reverse(vs), stack))
    decreases |vs|
  {
    if vs == [] {
      assert Reverse(vs) == [];
    } else {
      var n := |vs|;
      PushAllLast(stack, vs);
      TakePushed(stack, vs[..n - 1]);
      assert Reverse(vs) == [vs[n - 1]] + Reverse(vs[..n - 1]);
    }
  }

  lemma {:induction false} PushAllLast(stack: List<Value>, vs: seq<Value>)
    requires vs != []
    ensures PushAll(stack, vs) == Cons(vs[|vs| - 1], PushAll(stack, vs[..|vs| - 1]))
    decreases |vs|
  {
    if |vs| > 1 {
      PushAllLast(Cons(vs[0], stack), vs[1..]);
      assert vs[1..][..|vs| - 2] == vs[..|vs| - 1][1..];
    } else {
      assert vs[1..] == [];
    }
  }

  lemma PushNone(stack: List<Value>)
    ensures PushAll(stack, []) == stack
  {
  }

  lemma PushFirst(stack: List<Value>, v: Value, vs: seq<Value>)
    ensures PushAll(stack, [v] + vs) == PushAll(Cons(v, stack), vs)
  {
    assert ([v] + vs)[1..] == vs;
  }

  // ----- slots mirror variables -----

  function SlotsOf(scopes: List<map<string, nat>>): set<nat> {
    match scopes
    case Nil => {}
    case Cons(top, rest) => top.Values + SlotsOf(rest)
  }

  /** No two variables of any scope share a slot. */
  ghost predicate Distinct(scopes: List<map<string, nat>>) {
    match scopes
    case Nil => true
    case Cons(top, rest) =>
      && (forall a, b :: a in top && b in top && a != b ==> top[a] != top[b])
      && top.Values !! SlotsOf(rest)
      && Distinct(rest)
  }

  ghost predicate EnvOk(env: Env) {
    && env.scopes.Cons?
    && Distinct(env.scopes)
    && (forall k :: k in SlotsOf(env.scopes) ==> k < env.next)
    && env.next <= MAX_LOCAL
    && (forall a :: a in env.args ==> env.args[a] < 256)
    && (forall a, b :: a in env.args && b in env.args && a != b ==> env.args[a] != env.args[b])
  }

  ghost predicate MirrorScopes(es: List<map<string, nat>>, ss: List<map<string, Value>>, locals: seq<Value>) {
    match es
    case Nil => ss.Nil?
    case Cons(top, rest) =>
      && ss.Cons?
      && top.Keys == ss.head.Keys
      && (forall n :: n in top ==> top[n] < |locals| && locals[top[n]] == ss.head[n])
      && MirrorScopes(rest, ss.tail, locals)
  }

  ghost predicate MirrorArgs(es: map<string, nat>, ss: map<string, Value>, args: seq<Value>) {
    es.Keys == ss.Keys && forall n :: n in es ==> es[n] < |args| && args[es[n]] == ss[n]
  }

  /** The machine's slots hold the values of the variables, and it has emitted the same events. */
  ghost predicate Mirrors(env: Env, s: Store, d: Data) {
    MirrorScopes(env.scopes, s.scopes, d.locals) && MirrorArgs(env.args, s.args, d.args) && s.trace == d.trace
  }

  /** Slots below `bound` that belong to no visible variable are untouched, and so is the stack. */
  ghost predicate Frames(env: Env, bound: nat, d: Data, d': Data) {
    && d'.stack == d.stack && |d'.locals| == |d.locals| && |d'.args| == |d.args|
    && forall k :: 0 <= k < |d.locals| && k < bound && k !in SlotsOf(env.scopes) ==> d'.locals[k] == d.locals[k]
  }

  lemma {:induction false} ResolveScopes(es: List<map<string, nat>>, ss: List<map<string, Value>>, locals: seq<Value>, name: string)
    requires MirrorScopes(es, ss, locals)
    ensures match ResolveLocal(es, name)
            case None => LookupScopes(ss, name).None?
            case Some(k) => k in SlotsOf(es) && k < |locals| && LookupScopes(ss, name) == Some(locals[k])
  {
    if es.Cons? && name !in es.head {
      ResolveScopes(es.tail, ss.tail, locals, name);
    }
  }

  lemma {:induction false} MirrorOther(es: List<map<string, nat>>, ss: List<map<string, Value>>, locals: seq<Value>, locals': seq<Value>)
    requires MirrorScopes(es, ss, locals) && |locals| <= |locals'|
    requires forall k :: k in SlotsOf(es) && k < |locals| ==> locals'[k] == locals[k]
    ensures MirrorScopes(es, ss, locals')
  {
    if es.Cons? {
      assert forall n :: n in es.head ==> es.head[n] in es.head.Values;
      MirrorOther(es.tail, ss.tail, locals, locals');
    }
  }

  lemma {:induction false} MirrorUpdate(es: List<map<string, nat>>, ss: List<map<string, Value>>, locals: seq<Value>, name: string, v: Value)
    requires MirrorScopes(es, ss, locals) && Distinct(es) && ResolveLocal(es, name).Some?
    ensures var k := ResolveLocal(es, name).value;
            k < |locals| && MirrorScopes(es, UpdateScopes(ss, name, v), locals[k := v])
  {
    ResolveScopes(es, ss, locals, name);
    var k := ResolveLocal(es, name).value;
    if name in es.head {
      MirrorTop(es, ss, locals, name, v);
    } else {
      ResolveScopes(es.tail, ss.tail, locals, name);
      MirrorBelow(es, k);
      MirrorUpdate(es.tail, ss.tail, locals, name, v);
    }
  }

  /** Slots of the innermost scope are not those of a variable further out. */
  lemma MirrorBelow(es: List<map<string, nat>>, k: nat)
    requires es.Cons? && Distinct(es) && k in SlotsOf(es.tail)
    ensures Distinct(es.tail) && forall n :: n in es.head ==> es.head[n] != k
  {
    assert forall n :: n in es.head ==> es.head[n] in es.head.Values;
  }

  lemma {:induction false} MirrorTop(es: List<map<string, nat>>, ss: List<map<string, Value>>, locals: seq<Value>, name: string, v: Value)
    requires MirrorScopes(es, ss, locals) && Distinct(es) && es.Cons? && name in es.head
    ensures var k := es.head[name];
            k < |locals| && MirrorScopes(es, UpdateScopes(ss, name, v), locals[k := v])
  {
    var k := es.head[name];
    assert k in es.head.Values;
    MirrorOther(es.tail, ss.tail, locals, locals[k := v]);
  }

  /** Reading a variable. */
  lemma {:induction false} ExecLoad(ops: Ops, env: Env, name: string, s: Store, d: Data)
    requires VariableCode(env, name, false).Ok? && Mirrors(env, s, d)
    ensures var i := VariableCode(env, name, false).value;
            IsDataInstruction(i) && Lookup(s, name).Some?
            && ExecData(ops, i, d) == Some(d.Push(Lookup(s, name).value))
  {
    hide ExecData, IsDataInstruction, SlotInstruction;
    ResolveScopes(env.scopes, s.scopes, d.locals, name);
    ExecLoadSlot(ops, Resolve(env, name).value, d);
  }

  /** Writing a variable. */
  lemma {:induction false} ExecStore(ops: Ops, env: Env, name: string, s: Store, d: Data) returns (d': Data)
    requires VariableCode(env, name, true).Ok? && EnvOk(env) && Mirrors(env, s, d) && d.stack.Cons?
    ensures var i := VariableCode(env, name, true).value;
            IsDataInstruction(i) && ExecData(ops, i, d) == Some(d')
    ensures Mirrors(env, Update(s, name, d.stack.head), d')
    ensures Frames(env, |d.locals|, d.(stack := d.stack.tail), d')
    ensures Lookup(s, name).Some?
  {
    hide ExecData, IsDataInstruction, SlotInstruction, MirrorScopes, Distinct, SlotsOf, UpdateScopes;
    ResolveScopes(env.scopes, s.scopes, d.locals, name);
    var slot := Resolve(env, name).value;
    ExecStoreSlot(ops, slot, d);
    d' := StoredData(slot, d);
    if slot.Local? {
      MirrorUpdate(env.scopes, s.scopes, d.locals, name, d.stack.head);
    }
  }
}
