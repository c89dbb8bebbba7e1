/** Operand widths by opcode number, and that pushes and slot accesses are written as short as they can be. */
module Encodings {
  import opened Prelude
  import opened Bytecode
  import opened Disasm
  import opened Ast
  import opened Semantics
  import opened CodegenSpec
  import opened CodegenSteps

  // ----- what the decoder takes -----

  /** Bytes that are no opcode. */
  predicate Undeclared(op: byte) {
    || 0x06 <= op <= 0x07 || op == 0x42 || op == 0x44 || op == 0x47 || op == 0x4C || op == 0x4F || op == 0x8A || op == 0x8F
    || 0x94 <= op <= 0x96 || op == 0xA7 || 0xAD <= op <= 0xB0 || op == 0xB2 || 0xBC <= op <= 0xBD || op == 0xC7 || op == 0xC9
    || 0xD5 <= op <= 0xD7 || op == 0xDA || 0xDC <= op <= 0xDF || 0xE2 <= op
  }

  /** Operand bytes of every other opcode than the three PUSHDATA. */
  function Width(op: byte): nat {
    if op in {0x00, 0x22, 0x24, 0x26, 0x28, 0x2A, 0x2C, 0x2E, 0x30, 0x32, 0x34, 0x3D} then 1
    else if op in {0x56, 0x5F, 0x67, 0x6F, 0x77, 0x7F, 0x87, 0xC4, 0xD9, 0xDB} then 1
    else if op in {0x01, 0x37, 0x3B, 0x57} then 2
    else if op in {0x02, 0x0A, 0x23, 0x25, 0x27, 0x29, 0x2B, 0x2D, 0x2F, 0x31, 0x33, 0x35, 0x3E, 0x41} then 4
    else if op in {0x03, 0x3C} then 8
    else if op == 0x04 then 16
    else if op == 0x05 then 32
    else 0
  }

  predicate IsData(op: byte) { 0x0C <= op <= 0x0E }

  /** One instruction from its bytes: an opcode and its operands, or nothing when they are missing. */
  lemma {:induction false} DecodeFixed(data: seq<byte>, ip: nat)
    requires ip < |data| && !IsData(data[ip])
    ensures DecodeOne(data, ip) ==
            if Undeclared(data[ip]) then Err(UnknownOpcode(data[ip]))
            else if ip + 1 + Width(data[ip]) > |data| then Err(UnexpectedEof)
            else Ok((Instruction(data[ip], data[ip + 1..ip + 1 + Width(data[ip])]), 1 + Width(data[ip])))
  {
    hide Undeclared, IsOpCode, Width, FixedOperands;
    SameOpcodes(data[ip]);
    SameWidth(data[ip]);
  }

  lemma SameOpcodes(op: byte)
    ensures IsOpCode(op) <==> !Undeclared(op)
  {
  }

  lemma SameWidth(op: byte)
    requires !IsData(op)
    ensures FixedOperands(op) == Width(op) && DataPrefix(op) == 0
  {
  }

  /** PUSHDATA1, 2 and 4: a length in one, two or four bytes, least significant first, then as many bytes. */
  lemma {:induction false} DecodeData(data: seq<byte>, ip: nat, w: nat, n: nat)
    requires ip < |data| && ((data[ip] == 0x0C && w == 1) || (data[ip] == 0x0D && w == 2) || (data[ip] == 0x0E && w == 4))
    requires ip + 1 + w <= |data| ==>
               n == (if w == 1 then data[ip + 1] as int
                     else if w == 2 then data[ip + 1] as int + 0x100 * data[ip + 2] as int
                     else data[ip + 1] as int + 0x100 * data[ip + 2] as int + 0x1_0000 * data[ip + 3] as int + 0x100_0000 * data[ip + 4] as int)
    ensures DecodeOne(data, ip) ==
            if ip + 1 + w > |data| || ip + 1 + w + n > |data| then Err(UnexpectedEof)
            else Ok((Instruction(data[ip], data[ip + 1..ip + 1 + w + n]), 1 + w + n))
  {
    hide FromLeUnsigned, FixedOperands;
    if ip + 1 + w <= |data| {
      LengthBytes(data[ip + 1..ip + 1 + w]);
    }
  }

  lemma LengthBytes(b: seq<byte>)
    ensures |b| == 1 ==> FromLeUnsigned(b) == b[0] as int
    ensures |b| == 2 ==> FromLeUnsigned(b) == b[0] as int + 0x100 * b[1] as int
    ensures |b| == 4 ==> FromLeUnsigned(b) == b[0] as int + 0x100 * b[1] as int + 0x1_0000 * b[2] as int + 0x100_0000 * b[3] as int
  {
    if |b| == 1 {
      LengthCons(b);
    }
    if |b| == 2 {
      LengthCons(b);
      LengthCons(b[1..]);
    }
    if |b| == 4 {
      LengthCons(b);
      LengthCons(b[1..]);
      LengthCons(b[2..]);
      LengthCons(b[3..]);
      assert b[1..][1..] == b[2..] && b[2..][1..] == b[3..] && b[3..][1..] == [];
    }
  }

  lemma LengthCons(b: seq<byte>)
    requires b != []
    ensures FromLeUnsigned(b) == b[0] + 256 * FromLeUnsigned(b[1..])
    ensures FromLeUnsigned([]) == 0
  {
  }

  // ----- what the code generator writes -----

  /** Integers take the narrowest PUSH: -1 to 16 have opcodes of their own, then 1, 2, 4, 8 and 16 bytes. */
  lemma {:induction false} PushIntNarrowest(n: int)
    requires FitsI128(n)
    ensures var i := PushInt(n);
            && (i.operands != [] ==> FromLeSigned(i.operands) == n)
            && IntShape(i, n, if -1 <= n <= 16 then 0
                              else if -0x80 <= n <= 0x7F then 1
                              else if -0x8000 <= n <= 0x7FFF then 2
                              else if -0x8000_0000 <= n <= 0x7FFF_FFFF then 4
                              else if -0x8000_0000_0000_0000 <= n <= 0x7FFF_FFFF_FFFF_FFFF then 8
                              else 16)
  {
    hide ToLe, FromLeSigned;
    WidthRanges();
    var i := PushInt(n);
    if i.operands != [] {
      SignedRoundTrip(n, |i.operands|);
    }
  }

  /** `width` operand bytes, and the opcode for that. */
  predicate IntShape(i: Instruction, n: int, width: nat) {
    && |i.operands| == width
    && (width == 0 ==> i.opcode == 0x10 + n)
    && (width == 1 ==> i.opcode == 0x00) && (width == 2 ==> i.opcode == 0x01) && (width == 4 ==> i.opcode == 0x02)
    && (width == 8 ==> i.opcode == 0x03) && (width == 16 ==> i.opcode == 0x04)
  }

  /** Byte strings take the shortest length prefix, up to four bytes of it. */
  lemma {:induction false} PushDataShortest(data: seq<byte>)
    ensures var n := |data|;
            PushData(data) ==
            if n < 0x100 then Ok(Instruction(0x0C, [n] + data))
            else if n < 0x1_0000 then Ok(Instruction(0x0D, [n % 0x100, n / 0x100] + data))
            else if n < 0x1_0000_0000 then
              Ok(Instruction(0x0E, [n % 0x100, n / 0x100 % 0x100, n / 0x1_0000 % 0x100, n / 0x100_0000] + data))
            else Err(DataTooLong)
  {
    hide ToLe;
    var n := |data|;
    if n < 0x100 {
      OneByte(n);
    } else if n < 0x1_0000 {
      TwoBytes(n);
    } else if n < 0x1_0000_0000 {
      FourBytes(n);
    }
  }

  lemma OneByte(n: nat)
    requires n < 0x100
    ensures ToLe(n, 1) == [n]
  {
    assert ToLe(n, 1) == [n % 256] + ToLe(n / 256, 0);
  }

  lemma TwoBytes(n: nat)
    requires n < 0x1_0000
    ensures ToLe(n, 2) == [n % 0x100, n / 0x100]
  {
    var a := n / 256;
    assert ToLe(a, 1) == [a % 256] + ToLe(a / 256, 0);
    assert ToLe(n, 2) == [n % 256] + ToLe(a, 1);
  }

  lemma FourBytes(n: nat)
    requires n < 0x1_0000_0000
    ensures ToLe(n, 4) == [n % 0x100, n / 0x100 % 0x100, n / 0x1_0000 % 0x100, n / 0x100_0000]
  {
    var a, b, c := n / 256, n / 256 / 256, n / 256 / 256 / 256;
    assert b == n / 0x1_0000 && c == n / 0x100_0000;
    assert ToLe(c, 1) == [c % 256] + ToLe(c / 256, 0);
    assert ToLe(b, 2) == [b % 256] + ToLe(c, 1);
    assert ToLe(a, 3) == [a % 256] + ToLe(b, 2);
    assert ToLe(n, 4) == [n % 256] + ToLe(a, 3);
  }

  /** Slots 0 to 6 have opcodes of their own, the others an operand byte. */
  lemma SlotShortest(k: nat)
    requires k < 256
    ensures LoadCode(Local(k)) == if k < 7 then Instruction(0x68 + k, []) else Instruction(0x6F, [k])
    ensures StoreCode(Local(k)) == if k < 7 then Instruction(0x70 + k, []) else Instruction(0x77, [k])
    ensures LoadCode(Arg(k)) == if k < 7 then Instruction(0x78 + k, []) else Instruction(0x7F, [k])
    ensures StoreCode(Arg(k)) == if k < 7 then Instruction(0x80 + k, []) else Instruction(0x87, [k])
  {
  }

  /** Literals, by opcode. */
  lemma {:induction false} LiteralInstruction(lit: Literal)
    ensures lit == NullLiteral ==> LiteralCode(lit) == Ok(Instruction(0x0B, []))
    ensures lit == BoolLiteral(true) ==> LiteralCode(lit) == Ok(Instruction(0x08, []))
    ensures lit == BoolLiteral(false) ==> LiteralCode(lit) == Ok(Instruction(0x09, []))
    ensures lit.StringLiteral? || lit.BufferLiteral? ==> LiteralCode(lit) == PushData(lit.data)
    ensures lit.IntLiteral? ==>
              LiteralCode(lit) == match ParseIntLiteral(lit.text)
                                  case Some(n) => Ok(PushInt(n))
                                  case None => Err(BadIntegerLiteral(lit.text))
  {
    hide PushInt, PushData, ParseIntLiteral;
  }
}
