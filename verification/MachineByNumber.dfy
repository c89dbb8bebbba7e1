/** The machine by opcode number: what each byte the compiler writes does, as target/opcode.rs documents it. */
module MachineByNumber {
  import opened Prelude
  import opened Bytecode
  import opened Vm

  /** Pushes of constants. */
  lemma {:induction false} PushByNumber(ops: Ops, i: Instruction, d: Data)
    requires WellFormed(i)
    ensures i.opcode <= 0x05 ==> ExecData(ops, i, d) == Some(d.Push(Int(FromLeSigned(i.operands))))
    ensures i.opcode == 0x08 ==> ExecData(ops, i, d) == Some(d.Push(Bool(true)))
    ensures i.opcode == 0x09 ==> ExecData(ops, i, d) == Some(d.Push(Bool(false)))
    ensures i.opcode == 0x0B ==> ExecData(ops, i, d) == Some(d.Push(Null))
    ensures i.opcode == 0x0C ==> ExecData(ops, i, d) == Some(d.Push(Bytes(i.operands[1..])))
    ensures i.opcode == 0x0D ==> ExecData(ops, i, d) == Some(d.Push(Bytes(i.operands[2..])))
    ensures i.opcode == 0x0E ==> ExecData(ops, i, d) == Some(d.Push(Bytes(i.operands[4..])))
    ensures 0x0F <= i.opcode <= 0x20 ==> ExecData(ops, i, d) == Some(d.Push(Int(i.opcode - 0x10)))
    ensures i.opcode == 0x21 ==> ExecData(ops, i, d) == Some(d)
  {
    hide FromLeSigned, FromLeUnsigned, LoadLocalSlot, LoadArgSlot, NeedsOne, NeedsTwo, ExecOne, ExecTwo, Other;
  }

  /** The slot of a short form, 0 to 6, or of the long form with its byte. */
  predicate InSlot(i: Instruction, first: byte, k: byte) {
    (k < 7 && i.opcode == first + k) || (i.opcode == first + 7 && i.operands == [k])
  }

  lemma SlotIs(i: Instruction, first: byte, k: byte)
    requires first <= 0xF0
    ensures InSlot(i, first, k) ==> ShortOrLongSlot(first, i) == Some(k) && first <= i.opcode <= first + 7
  {
  }

  /** Loads and stores of locals (0x68, 0x70) and arguments (0x78, 0x80). */
  lemma {:induction false} LoadByNumber(ops: Ops, i: Instruction, k: byte, d: Data)
    ensures InSlot(i, 0x68, k) ==> ExecData(ops, i, d) == if k < |d.locals| then Some(d.Push(d.locals[k])) else None
    ensures InSlot(i, 0x78, k) ==> ExecData(ops, i, d) == if k < |d.args| then Some(d.Push(d.args[k])) else None
  {
    hide NeedsOne, NeedsTwo, ExecOne, ExecTwo, Other, FromLeSigned, InSlot, ShortOrLongSlot;
    SlotIs(i, 0x68, k);
    SlotIs(i, 0x78, k);
    OtherNamespace(i, 0x68, 0x78);
  }

  lemma OtherNamespace(i: Instruction, first: byte, second: byte)
    requires first + 7 < second <= 0xF0
    ensures second <= i.opcode ==> ShortOrLongSlot(first, i) == None
  {
  }

  lemma {:induction false} StoreByNumber(ops: Ops, i: Instruction, k: byte, d: Data)
    requires d.stack.Cons?
    ensures InSlot(i, 0x70, k) ==>
              ExecData(ops, i, d) == if k < |d.locals| then Some(d.(stack := d.stack.tail, locals := d.locals[k := d.stack.head])) else None
    ensures InSlot(i, 0x80, k) ==>
              ExecData(ops, i, d) == if k < |d.args| then Some(d.(stack := d.stack.tail, args := d.args[k := d.stack.head])) else None
  {
    hide NeedsTwo, ExecTwo, Other, FromLeSigned, InSlot, ShortOrLongSlot, IsUnaryOperation;
    SlotIs(i, 0x70, k);
    SlotIs(i, 0x80, k);
    OtherNamespace(i, 0x68, 0x70);
    OtherNamespace(i, 0x68, 0x80);
    OtherNamespace(i, 0x70, 0x80);
    BelowNamespace(i, 0x78, 0x70);
    OtherNamespace(i, 0x78, 0x80);
  }

  lemma BelowNamespace(i: Instruction, first: byte, second: byte)
    requires second + 7 < first <= 0xF0
    ensures i.opcode <= second + 7 ==> ShortOrLongSlot(first, i) == None
  {
  }

  /** DROP, DUP. */
  lemma {:induction false} CopyByNumber(ops: Ops, d: Data)
    requires d.stack.Cons?
    ensures ExecData(ops, Instruction(0x45, []), d) == Some(d.(stack := d.stack.tail))
    ensures ExecData(ops, Instruction(0x4A, []), d) == Some(d.Push(d.stack.head))
  {
    hide Other, ExecTwo, Unary;
  }

  /** ISNULL, NOT, INC, SIZE. */
  lemma {:induction false} OneByNumber(ops: Ops, op: byte, d: Data)
    requires d.stack.Cons? && op in {0xD8, 0xAA, 0x9C, 0xCA}
    requires (op == 0x9C ==> d.stack.head.Int?) && (op == 0xCA ==> d.stack.head.Array?)
    ensures var v := d.stack.head;
            ExecData(ops, Instruction(op, []), d) ==
            Some(d.(stack := Cons(if op == 0xD8 then Bool(v == Null)
                                  else if op == 0xAA then Bool(!Truthy(v))
                                  else if op == 0x9C then Int(v.n + 1)
                                  else Int(|v.items|), d.stack.tail)))
  {
    hide Truthy, Other, ExecTwo, Unary;
    OneValue(ops, op, d.stack.head);
  }

  lemma {:induction false} OneValue(ops: Ops, op: byte, v: Value)
    requires op in {0xD8, 0xAA, 0x9C, 0xCA} && (op == 0x9C ==> v.Int?) && (op == 0xCA ==> v.Array?)
    ensures Unary(ops, Instruction(op, []), v) ==
            Some(if op == 0xD8 then Bool(v == Null)
                 else if op == 0xAA then Bool(!Truthy(v))
                 else if op == 0x9C then Int(v.n + 1)
                 else Int(|v.items|))
  {
    hide Truthy;
  }

  /** PACK takes its items from the top down; PICKITEM takes the index from the top. */
  lemma {:induction false} ArrayByNumber(ops: Ops, d: Data)
    requires d.stack.Cons? && d.stack.head.Int?
    ensures var n := d.stack.head.n;
            && (n >= 0 ==>
                  ExecData(ops, Instruction(0xC0, []), d) ==
                  match Take(d.stack.tail, n)
                  case None => None
                  case Some((items, below)) => Some(d.(stack := Cons(Array(items), below))))
            && (d.stack.tail.Cons? && d.stack.tail.head.Array? ==>
                  var items := d.stack.tail.head.items;
                  ExecData(ops, Instruction(0xCE, []), d) ==
                  if 0 <= n < |items| then Some(d.(stack := Cons(items[n], d.stack.tail.tail))) else None)
  {
    hide Other, Take, Truthy;
  }

  /** SYSCALL of System.Runtime.Notify: the name is on top, the state below it. */
  lemma {:induction false} NotifyByNumber(ops: Ops, d: Data)
    requires d.stack.Cons? && d.stack.head.Bytes? && d.stack.tail.Cons?
    ensures ExecData(ops, Instruction(0x41, [0x95, 0x01, 0x6f, 0x61]), d) ==
            Some(d.(stack := d.stack.tail.tail, trace := d.trace + [Event(d.stack.head.data, d.stack.tail.head)]))
  {
    hide Other;
  }

  /** INITSLOT: number of locals, then number of arguments. */
  lemma {:induction false} InitByNumber(ops: Ops, locals: byte, args: byte, d: Data)
    ensures ExecData(ops, Instruction(0x57, [locals, args]), d) ==
            if locals == 0 && args == 0 then None
            else
              match Take(d.stack, args)
              case None => None
              case Some((items, rest)) => Some(d.(stack := rest, locals := seq(locals, _ => Null), args := items))
  {
    hide Other, Take;
  }

  /** JMP, JMPIF, JMPIFNOT and CALL, short and long, count from their own first byte; RET. */
  lemma {:induction false} ControlByNumber(ops: Ops, size: nat, i: Instruction, pc: nat, d: Data, calls: List<Frame>)
    requires WellFormed(i)
    ensures i.opcode == 0x22 || i.opcode == 0x23 ==>
              |i.operands| > 0 && StepInstruction(ops, size, i, pc, d, calls) == JumpTo(size, pc + FromLeSigned(i.operands), d, calls)
    ensures 0x24 <= i.opcode <= 0x27 && d.stack.Cons? ==>
              && |i.operands| > 0
              && var (taken, rest) := (Truthy(d.stack.head) == (i.opcode <= 0x25), d.(stack := d.stack.tail));
                 StepInstruction(ops, size, i, pc, d, calls) ==
                 if taken then JumpTo(size, pc + FromLeSigned(i.operands), rest, calls) else Running(pc + 1 + |i.operands|, rest, calls)
    ensures i.opcode == 0x34 || i.opcode == 0x35 ==>
              && |i.operands| > 0
              && StepInstruction(ops, size, i, pc, d, calls) ==
                 JumpTo(size, pc + FromLeSigned(i.operands), d.(locals := [], args := []), Cons(Frame(pc + 1 + |i.operands|, d.locals, d.args), calls))
    ensures i.opcode == 0x40 ==>
              StepInstruction(ops, size, i, pc, d, calls) ==
              match calls
              case Nil => Returned(d)
              case Cons(f, rest) => Running(f.returnPc, d.(locals := f.locals, args := f.args), rest)
  {
    hide Truthy, FromLeSigned, FromLeUnsigned, ExecData, JumpTo;
  }
}
