/**
 * The part of NeoVM the compiler targets: a byte-addressed stack machine with locals, arguments,
 * call frames and a trace of events. Operations on data are a parameter of the machine.
 */
module Vm {
  import opened Prelude
  import opened Bytecode
  import opened Disasm

  datatype Value =
    | Null
    | Bool(b: bool)
    | Int(n: int)
    | Bytes(data: seq<byte>)
    | Array(items: seq<Value>)

  /** What an execution leaves outside: one notification per `System.Runtime.Notify`. */
  datatype Event = Event(name: seq<byte>, state: Value)

  datatype Data = Data(stack: List<Value>, locals: seq<Value>, args: seq<Value>, trace: seq<Event>) {
    function Push(v: Value): Data { this.(stack := Cons(v, stack)) }
  }

  /** The caller's context, restored by RET. */
  datatype Frame = Frame(returnPc: nat, locals: seq<Value>, args: seq<Value>)

  datatype State =
    | Running(pc: nat, data: Data, calls: List<Frame>)
    | Returned(data: Data)
    | Faulted

  /**
   * The data operations whose meaning nothing here depends on: every theorem holds for all of
   * them. `None` is a fault. `unary` gets the whole instruction (CONVERT has an operand),
   * `compare` the short form of a comparing jump, `other` any remaining instruction; no other
   * instruction reads or writes locals or arguments.
   */
  datatype Ops = Ops(
    unary: (Instruction, Value) -> Option<Value>,
    binary: (byte, Value, Value) -> Option<Value>,
    compare: (byte, Value, Value) -> Option<bool>,
    other: (Instruction, List<Value>, seq<Event>) -> Option<(List<Value>, seq<Event>)>)

  /** True value: true, non-null, non-zero. */
  predicate Truthy(v: Value) {
    match v
    case Null => false
    case Bool(b) => b
    case Int(n) => n != 0
    case Bytes(data) => exists k :: 0 <= k < |data| && data[k] != 0
    case Array(_) => true
  }

  /** First four bytes of SHA-256("System.Runtime.Notify"). */
  const NOTIFY: seq<byte> := [0x95, 0x01, 0x6f, 0x61]

  // ----- slots -----

  function ShortOrLongSlot(base: byte, i: Instruction): Option<byte>
    requires base <= 0xF0
  {
    if base <= i.opcode < base + 7 then Some(i.opcode - base)
    else if i.opcode == base + 7 && |i.operands| == 1 then Some(i.operands[0])
    else None
  }

  /** Slot stored by STLOC0..6 / STLOC. */
  function StoreSlot(i: Instruction): Option<byte> { ShortOrLongSlot(STLOC0, i) }

  /** Slot loaded by LDLOC0..6 / LDLOC. */
  function LoadLocalSlot(i: Instruction): Option<byte> { ShortOrLongSlot(LDLOC0, i) }

  function LoadArgSlot(i: Instruction): Option<byte> { ShortOrLongSlot(LDARG0, i) }

  function StoreArgSlot(i: Instruction): Option<byte> { ShortOrLongSlot(STARG0, i) }

  // ----- data instructions -----

  /** The constant a PUSH instruction pushes. */
  function PushedValue(i: Instruction): Option<Value> {
    var op := i.opcode;
    if op <= PUSHINT256 then
      if i.operands == [] then None else Some(Int(FromLeSigned(i.operands)))
    else if op == PUSHT then Some(Bool(true))
    else if op == PUSHF then Some(Bool(false))
    else if op == PUSHNULL then Some(Null)
    else if DataPrefix(op) > 0 then
      if |i.operands| >= DataPrefix(op) then Some(Bytes(i.operands[DataPrefix(op)..])) else None
    else if PUSHM1 <= op <= PUSH16 then Some(Int(op - PUSH0))
    else None
  }

  predicate IsUnary(op: byte) {
    op == INVERT || op == NEGATE || op == CONVERT
  }

  predicate IsBinary(op: byte) {
    || AND <= op <= XOR || op == EQUAL || op == NOTEQUAL
    || ADD <= op <= MOD || op == SHL || op == SHR || LT <= op <= GE
  }

  /** `a op b`, `b` being the top of the stack. Only `<` on integers has a fixed meaning. */
  function BinaryValue(ops: Ops, op: byte, a: Value, b: Value): Option<Value> {
    if op == LT && a.Int? && b.Int? then Some(Bool(a.n < b.n)) else ops.binary(op, a, b)
  }

  /** The elements SIZE counts and PICKITEM selects. */
  function Elements(v: Value): Option<seq<Value>> {
    if v.Array? then Some(v.items) else None
  }

  /** PACK: the top of the stack becomes element 0. */
  function Take(stack: List<Value>, n: nat): Option<(seq<Value>, List<Value>)> {
    if n == 0 then Some(([], stack))
    else if stack.Nil? then None
    else
      match Take(stack.tail, n - 1)
      case None => None
      case Some((items, rest)) => Some(([stack.head] + items, rest))
  }

  function Unary(ops: Ops, i: Instruction, v: Value): Option<Value> {
    if i.opcode == ISNULL then Some(Bool(v == Null))
    else if i.opcode == NOT then Some(Bool(!Truthy(v)))
    else if i.opcode == INC && v.Int? then Some(Int(v.n + 1))
    else if i.opcode == SIZE && Elements(v).Some? then Some(Int(|Elements(v).value|))
    else ops.unary(i, v)
  }

  function Binary(ops: Ops, i: Instruction, a: Value, b: Value): Option<Value> {
    if i.opcode == PICKITEM && Elements(a).Some? && b.Int? then
      var items := Elements(a).value;
      if 0 <= b.n < |items| then Some(items[b.n]) else None
    else BinaryValue(ops, i.opcode, a, b)
  }

  function Initialize(d: Data, locals: nat, args: nat): Option<Data> {
    if locals == 0 && args == 0 then None
    else
      match Take(d.stack, args)
      case None => None
      case Some((items, rest)) =>
        Some(d.(stack := rest, locals := seq(locals, _ => Null), args := items))
  }

  function Other(ops: Ops, i: Instruction, d: Data): Option<Data> {
    match ops.other(i, d.stack, d.trace)
    case None => None
    case Some((stack, trace)) => Some(d.(stack := stack, trace := trace))
  }

  predicate IsUnaryOperation(op: byte) {
    IsUnary(op) || op == ISNULL || op == NOT || op == INC || op == SIZE
  }

  /** Instructions that need one item on the stack. */
  predicate NeedsOne(i: Instruction) {
    || StoreSlot(i).Some? || StoreArgSlot(i).Some?
    || i.opcode == DROP || i.opcode == DUP || IsUnaryOperation(i.opcode) || i.opcode == PACK
  }

  predicate NeedsTwo(i: Instruction) {
    IsBinary(i.opcode) || i.opcode == PICKITEM || (i.opcode == SYSCALL && i.operands == NOTIFY)
  }

  function ExecOne(ops: Ops, i: Instruction, d: Data): Option<Data>
    requires d.stack.Cons?
  {
    var op, top, rest := i.opcode, d.stack.head, d.(stack := d.stack.tail);
    if StoreSlot(i).Some? then
      var k := StoreSlot(i).value;
      if k < |d.locals| then Some(rest.(locals := d.locals[k := top])) else None
    else if StoreArgSlot(i).Some? then
      var k := StoreArgSlot(i).value;
      if k < |d.args| then Some(rest.(args := d.args[k := top])) else None
    else if op == DROP then Some(rest)
    else if op == DUP then Some(d.Push(top))
    else if op == PACK then
      if top.Int? && top.n >= 0 then
        match Take(rest.stack, top.n)
        case None => None
        case Some((items, below)) => Some(d.(stack := Cons(Array(items), below)))
      else Other(ops, i, d)
    else
      var v := Unary(ops, i, top);
      if v.Some? then Some(rest.Push(v.value)) else None
  }

  function ExecTwo(ops: Ops, i: Instruction, d: Data): Option<Data>
    requires d.stack.Cons? && d.stack.tail.Cons?
  {
    var top, second, below := d.stack.head, d.stack.tail.head, d.(stack := d.stack.tail.tail);
    if i.opcode == SYSCALL then
      if top.Bytes? then Some(below.(trace := d.trace + [Event(top.data, second)])) else Other(ops, i, d)
    else
      var v := Binary(ops, i, second, top);
      if v.Some? then Some(below.Push(v.value)) else None
  }

  /** Effect of an instruction that does not transfer control; `None` is a fault. */
  function ExecData(ops: Ops, i: Instruction, d: Data): Option<Data> {
    if PushedValue(i).Some? then Some(d.Push(PushedValue(i).value))
    else if i.opcode == NOP then Some(d)
    else if LoadLocalSlot(i).Some? then
      var k := LoadLocalSlot(i).value;
      if k < |d.locals| then Some(d.Push(d.locals[k])) else None
    else if LoadArgSlot(i).Some? then
      var k := LoadArgSlot(i).value;
      if k < |d.args| then Some(d.Push(d.args[k])) else None
    else if i.opcode == INITSLOT && |i.operands| == 2 then Initialize(d, i.operands[0], i.operands[1])
    else if NeedsOne(i) then
      if d.stack.Cons? then ExecOne(ops, i, d) else None
    else if NeedsTwo(i) then
      if d.stack.Cons? && d.stack.tail.Cons? then ExecTwo(ops, i, d) else None
    else Other(ops, i, d)
  }

  // ----- control -----

  /** Opcodes of the machine that this model stops at: code pointers and exception handlers. */
  predicate IsUnmodelled(op: byte) {
    op == PUSHA || op == CALLA || THROW <= op <= ENDFINALLY
  }

  /** The signed offset a jump or call carries, from the first byte of its own instruction. */
  function Relative(i: Instruction): int
    requires |i.operands| > 0
  {
    FromLeSigned(i.operands)
  }

  /** Whether the jump is taken, and the data left after it popped its operands. */
  function JumpTest(ops: Ops, op: byte, d: Data): Option<(bool, Data)> {
    var family := op - op % 2;
    if family == JMP then Some((true, d))
    else if d.stack.Nil? then None
    else
      var top, rest := d.stack.head, d.(stack := d.stack.tail);
      if family == JMPIF then Some((Truthy(top), rest))
      else if family == JMPIFNOT then Some((!Truthy(top), rest))
      else if rest.stack.Nil? then None
      else
        match ops.compare(family, rest.stack.head, top)
        case None => None
        case Some(taken) => Some((taken, rest.(stack := rest.stack.tail)))
  }

  function JumpTo(size: nat, target: int, d: Data, calls: List<Frame>): State {
    if 0 <= target < size then Running(target, d, calls) else Faulted
  }

  function Return(d: Data, calls: List<Frame>): State {
    match calls
    case Nil => Returned(d)
    case Cons(f, rest) => Running(f.returnPc, d.(locals := f.locals, args := f.args), rest)
  }

  function StepInstruction(ops: Ops, size: nat, i: Instruction, pc: nat, d: Data, calls: List<Frame>): State {
    var next := pc + EncodedLen(i);
    if IsJump(i.opcode) then
      if i.operands == [] then Faulted
      else
        match JumpTest(ops, i.opcode, d)
        case None => Faulted
        case Some((taken, d')) =>
          if taken then JumpTo(size, pc + Relative(i), d', calls) else Running(next, d', calls)
    else if i.opcode == CALL || i.opcode == CALL_L then
      if i.operands == [] then Faulted
      else
        JumpTo(size, pc + Relative(i), d.(locals := [], args := []), Cons(Frame(next, d.locals, d.args), calls))
    else if i.opcode == RET then Return(d, calls)
    else if IsUnmodelled(i.opcode) then Faulted
    else
      match ExecData(ops, i, d)
      case None => Faulted
      case Some(d') => Running(next, d', calls)
  }

  /** One instruction. Falling off the end of the script returns, as RET does. */
  function Step(ops: Ops, script: seq<byte>, st: State): State {
    if !st.Running? then st
    else if st.pc >= |script| then Return(st.data, st.calls)
    else
      match DecodeOne(script, st.pc)
      case Err(_) => Faulted
      case Ok((i, _)) => StepInstruction(ops, |script|, i, st.pc, st.data, st.calls)
  }

  function Run(ops: Ops, script: seq<byte>, st: State, n: nat): State
    decreases n
  {
    if n == 0 then st else Run(ops, script, Step(ops, script, st), n - 1)
  }

  lemma {:induction false} RunAdd(ops: Ops, script: seq<byte>, st: State, m: nat, n: nat)
    ensures Run(ops, script, st, m + n) == Run(ops, script, Run(ops, script, st, m), n)
    decreases m
  {
    if m > 0 {
      RunAdd(ops, script, Step(ops, script, st), m - 1, n);
    }
  }

  /** Some number of steps, possibly none, leads from `a` to `b`. */
  ghost predicate Reaches(ops: Ops, script: seq<byte>, a: State, b: State) {
    exists n: nat :: Run(ops, script, a, n) == b
  }

  /** The machine is still running after `n` steps. */
  ghost predicate Outlasts(ops: Ops, script: seq<byte>, st: State, n: nat) {
    Run(ops, script, st, n).Running?
  }

  lemma ReachesSelf(ops: Ops, script: seq<byte>, a: State)
    ensures Reaches(ops, script, a, a)
  {
    assert Run(ops, script, a, 0) == a;
  }

  lemma ReachesTrans(ops: Ops, script: seq<byte>, a: State, b: State, c: State)
    requires Reaches(ops, script, a, b) && Reaches(ops, script, b, c)
    ensures Reaches(ops, script, a, c)
  {
    var m: nat :| Run(ops, script, a, m) == b;
    var n: nat :| Run(ops, script, b, n) == c;
    RunAdd(ops, script, a, m, n);
  }

  lemma {:induction false} RunHalted(ops: Ops, script: seq<byte>, st: State, n: nat)
    requires !st.Running?
    ensures Run(ops, script, st, n) == st
    decreases n
  {
    if n > 0 {
      RunHalted(ops, script, st, n - 1);
    }
  }

  lemma OutlastsFewer(ops: Ops, script: seq<byte>, st: State, m: nat, n: nat)
    requires Outlasts(ops, script, st, n) && m <= n
    ensures Outlasts(ops, script, st, m)
  {
    RunAdd(ops, script, st, m, n - m);
    if !Run(ops, script, st, m).Running? {
      RunHalted(ops, script, Run(ops, script, st, m), n - m);
    }
  }

  lemma OutlastsAfter(ops: Ops, script: seq<byte>, a: State, b: State, n: nat)
    requires Reaches(ops, script, a, b) && Outlasts(ops, script, b, n)
    ensures Outlasts(ops, script, a, n)
    ensures b == Step(ops, script, a) ==> Outlasts(ops, script, a, n + 1)
  {
    var m: nat :| Run(ops, script, a, m) == b;
    RunAdd(ops, script, a, m, n);
    OutlastsFewer(ops, script, a, n, m + n);
  }

  /** Fetch and execute the instruction written at `pc`. */
  lemma StepAt(ops: Ops, script: seq<byte>, i: Instruction, pc: nat, d: Data, calls: List<Frame>)
    requires WellFormed(i) && CodeAt(script, pc, [i])
    ensures Step(ops, script, Running(pc, d, calls)) == StepInstruction(ops, |script|, i, pc, d, calls)
    ensures Reaches(ops, script, Running(pc, d, calls), StepInstruction(ops, |script|, i, pc, d, calls))
  {
    hide StepInstruction;
    DecodeAt(script, pc, i);
    assert Run(ops, script, Running(pc, d, calls), 1) == Step(ops, script, Running(pc, d, calls)) by {
      assert Run(ops, script, Step(ops, script, Running(pc, d, calls)), 0) == Step(ops, script, Running(pc, d, calls));
    }
  }
}
