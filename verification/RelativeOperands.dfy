/** Which operand bytes an edit of the script re-encodes, by opcode number. */
module RelativeOperands {
  import opened Prelude
  import opened Bytecode
  import opened Layout

  /** The short jumps, CALL and ENDTRY: one signed byte. */
  const SHORT: set<byte> := {0x22, 0x24, 0x26, 0x28, 0x2A, 0x2C, 0x2E, 0x30, 0x32, 0x34, 0x3D}

  /** The long jumps, CALL_L and ENDTRY_L: four bytes. */
  const LONG: set<byte> := {0x23, 0x25, 0x27, 0x29, 0x2B, 0x2D, 0x2F, 0x31, 0x33, 0x35, 0x3E}

  /** The offsets an instruction carries; TRY and TRY_L have one for the handler and one for the end. */
  function OffsetsOf(i: Instruction): seq<int>
    requires WellFormed(i)
  {
    if i.opcode in SHORT then [FromLeSigned(i.operands)]
    else if i.opcode in LONG then [FromLeSigned(i.operands)]
    else if i.opcode == 0x3B then [FromLeSigned(i.operands[..1]), FromLeSigned(i.operands[1..])]
    else if i.opcode == 0x3C then [FromLeSigned(i.operands[..4]), FromLeSigned(i.operands[4..])]
    else []
  }

  /** Those are the operands relayout re-encodes; every other operand byte stays, the pointer of PUSHA included. */
  lemma {:induction false} RelaidOperands(i: Instruction)
    requires WellFormed(i)
    ensures OffsetCount(i) == |OffsetsOf(i)|
    ensures forall n :: 0 <= n < OffsetCount(i) ==> OffsetAt(i, n) == OffsetsOf(i)[n]
    ensures OffsetWidth(i) == if i.opcode in SHORT || i.opcode == 0x3B then 1 else if i.opcode in LONG || i.opcode == 0x3C then 4 else 0
    ensures forall oldPc, newPc, edit :: OffsetsOf(i) == [] ==> RelayoutInstruction(i, oldPc, newPc, edit) == Some(i)
  {
    hide FromLeSigned, Retarget;
    WidthOf(i);
    if OffsetWidth(i) > 0 {
      Halves(i.operands, OffsetWidth(i));
    }
  }

  lemma WidthOf(i: Instruction)
    requires WellFormed(i)
    ensures OffsetWidth(i) == if i.opcode in SHORT || i.opcode == 0x3B then 1 else if i.opcode in LONG || i.opcode == 0x3C then 4 else 0
    ensures OffsetWidth(i) > 0 ==> |i.operands| == if i.opcode == 0x3B || i.opcode == 0x3C then 2 * OffsetWidth(i) else OffsetWidth(i)
  {
  }

  lemma Halves(b: seq<byte>, w: nat)
    requires |b| == w || |b| == 2 * w
    ensures b[0..] == b && (|b| == w ==> b[..w] == b) && (|b| == 2 * w ==> b[w..][..w] == b[w..])
  {
  }
}
