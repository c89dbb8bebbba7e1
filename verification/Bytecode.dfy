/** NeoVM instructions and their byte encoding. */
module Bytecode {
  import opened Prelude

  type byte = x: int | 0 <= x < 256

  /** One opcode byte (`repr(u8)`) followed by its serialized operands. */
  datatype Instruction = Instruction(opcode: byte, operands: seq<byte>)

  const PUSHINT8: byte := 0x00
  const PUSHINT16: byte := 0x01
  const PUSHINT32: byte := 0x02
  const PUSHINT64: byte := 0x03
  const PUSHINT128: byte := 0x04
  const PUSHINT256: byte := 0x05
  const PUSHT: byte := 0x08
  const PUSHF: byte := 0x09
  const PUSHA: byte := 0x0A
  const PUSHNULL: byte := 0x0B
  const PUSHDATA1: byte := 0x0C
  const PUSHDATA2: byte := 0x0D
  const PUSHDATA4: byte := 0x0E
  const PUSHM1: byte := 0x0F
  const PUSH0: byte := 0x10
  const PUSH16: byte := 0x20
  const NOP: byte := 0x21
  const JMP: byte := 0x22
  const JMP_L: byte := 0x23
  const JMPIF: byte := 0x24
  const JMPIF_L: byte := 0x25
  const JMPIFNOT: byte := 0x26
  const JMPIFNOT_L: byte := 0x27
  const JMPLE_L: byte := 0x33
  const CALL: byte := 0x34
  const CALL_L: byte := 0x35
  const CALLA: byte := 0x36
  const CALLT: byte := 0x37
  const THROW: byte := 0x3A
  const TRY: byte := 0x3B
  const TRY_L: byte := 0x3C
  const ENDTRY: byte := 0x3D
  const ENDTRY_L: byte := 0x3E
  const ENDFINALLY: byte := 0x3F
  const RET: byte := 0x40
  const SYSCALL: byte := 0x41
  const DROP: byte := 0x45
  const DUP: byte := 0x4A
  const SWAP: byte := 0x50
  const INITSSLOT: byte := 0x56
  const INITSLOT: byte := 0x57
  const LDSFLD: byte := 0x5F
  const STSFLD: byte := 0x67
  const LDLOC0: byte := 0x68
  const LDLOC: byte := 0x6F
  const STLOC0: byte := 0x70
  const STLOC: byte := 0x77
  const LDARG0: byte := 0x78
  const LDARG: byte := 0x7F
  const STARG0: byte := 0x80
  const STARG: byte := 0x87
  const INVERT: byte := 0x90
  const AND: byte := 0x91
  const OR: byte := 0x92
  const XOR: byte := 0x93
  const EQUAL: byte := 0x97
  const NOTEQUAL: byte := 0x98
  const NEGATE: byte := 0x9B
  const INC: byte := 0x9C
  const ADD: byte := 0x9E
  const SUB: byte := 0x9F
  const MUL: byte := 0xA0
  const DIV: byte := 0xA1
  const MOD: byte := 0xA2
  const SHL: byte := 0xA8
  const SHR: byte := 0xA9
  const NOT: byte := 0xAA
  const LT: byte := 0xB5
  const LE: byte := 0xB6
  const GT: byte := 0xB7
  const GE: byte := 0xB8
  const PACK: byte := 0xC0
  const NEWARRAY_T: byte := 0xC4
  const SIZE: byte := 0xCA
  const PICKITEM: byte := 0xCE
  const ISNULL: byte := 0xD8
  const ISTYPE: byte := 0xD9
  const CONVERT: byte := 0xDB

  /** The byte is one of the declared opcodes (`OpCode::try_from` succeeds). */
  predicate IsOpCode(op: byte) {
    || op <= 0x05
    || 0x08 <= op <= 0x41
    || op == 0x43 || op == 0x45 || op == 0x46
    || 0x48 <= op <= 0x4B
    || op == 0x4D || op == 0x4E
    || 0x50 <= op <= 0x89
    || 0x8B <= op <= 0x8E
    || 0x90 <= op <= 0x93
    || 0x97 <= op <= 0xA6
    || 0xA8 <= op <= 0xAC
    || op == 0xB1
    || 0xB3 <= op <= 0xBB
    || 0xBE <= op <= 0xC6
    || op == 0xC8
    || 0xCA <= op <= 0xD4
    || op == 0xD8 || op == 0xD9 || op == 0xDB || op == 0xE0 || op == 0xE1
  }

  predicate IsJump(op: byte) {
    JMP <= op <= JMPLE_L
  }

  /** Width of the length prefix of PUSHDATA1/2/4, 0 for every other opcode. */
  function DataPrefix(op: byte): nat {
    if op == PUSHDATA1 then 1 else if op == PUSHDATA2 then 2 else if op == PUSHDATA4 then 4 else 0
  }

  /** Operand bytes of an opcode that is not a PUSHDATA. */
  function FixedOperands(op: byte): nat {
    if op == PUSHINT8 then 1
    else if op == PUSHINT16 then 2
    else if op == PUSHINT32 then 4
    else if op == PUSHINT64 then 8
    else if op == PUSHINT128 then 16
    else if op == PUSHINT256 then 32
    else if op == PUSHA then 4
    else if IsJump(op) || op == CALL || op == CALL_L then if op % 2 == 0 then 1 else 4
    else if op == CALLT then 2
    else if op == TRY then 2
    else if op == TRY_L then 8
    else if op == ENDTRY then 1
    else if op == ENDTRY_L then 4
    else if op == SYSCALL then 4
    else if op == INITSSLOT then 1
    else if op == INITSLOT then 2
    else if op == LDSFLD || op == STSFLD || op == LDLOC || op == STLOC || op == LDARG || op == STARG then 1
    else if op == ISTYPE || op == CONVERT || op == NEWARRAY_T then 1
    else 0
  }

  // ----- little-endian operands -----

  /** The `width` low bytes of `n` in two's complement, least significant first (`to_le_bytes`). */
  function ToLe(n: int, width: nat): (b: seq<byte>)
    ensures |b| == width
    decreases width
  {
    if width == 0 then [] else [n % 256] + ToLe(n / 256, width - 1)
  }

  function FromLeSigned(b: seq<byte>): int
    requires |b| > 0
  {
    if |b| == 1 then if b[0] < 128 then b[0] else b[0] - 256
    else b[0] + 256 * FromLeSigned(b[1..])
  }

  function FromLeUnsigned(b: seq<byte>): nat {
    if b == [] then 0 else b[0] + 256 * FromLeUnsigned(b[1..])
  }

  /** 2 to the power `8 * width - 1`. */
  function HalfRange(width: nat): (h: int)
    requires width > 0
    ensures h >= 128
  {
    if width == 1 then 128 else 256 * HalfRange(width - 1)
  }

  predicate FitsSigned(n: int, width: nat)
    requires width > 0
  {
    -HalfRange(width) <= n < HalfRange(width)
  }

  predicate FitsI8(n: int) { -0x80 <= n <= 0x7F }
  predicate FitsI32(n: int) { -0x8000_0000 <= n <= 0x7FFF_FFFF }

  lemma {:induction false} SignedRoundTrip(n: int, width: nat)
    requires width > 0 && FitsSigned(n, width)
    ensures FromLeSigned(ToLe(n, width)) == n
    decreases width
  {
    if width > 1 {
      var h := HalfRange(width - 1);
      assert HalfRange(width) == 256 * h;
      assert -h <= n / 256 < h;
      SignedRoundTrip(n / 256, width - 1);
      assert ToLe(n, width)[1..] == ToLe(n / 256, width - 1);
    }
  }

  lemma {:induction false} SignedDecodeEncode(b: seq<byte>)
    requires |b| > 0
    ensures FitsSigned(FromLeSigned(b), |b|)
    ensures ToLe(FromLeSigned(b), |b|) == b
  {
    if |b| == 1 {
      assert ToLe(FromLeSigned(b), 1) == [FromLeSigned(b) % 256] + ToLe(FromLeSigned(b) / 256, 0);
    } else {
      SignedDecodeEncode(b[1..]);
      var m := FromLeSigned(b[1..]);
      assert (b[0] + 256 * m) / 256 == m && (b[0] + 256 * m) % 256 == b[0];
      assert b == [b[0]] + b[1..];
    }
  }

  lemma {:induction false} UnsignedRoundTrip(n: nat, width: nat)
    requires width > 0 && n < 2 * HalfRange(width)
    ensures FromLeUnsigned(ToLe(n, width)) == n
  {
    if width == 1 {
      assert ToLe(n, 1)[1..] == [];
    } else {
      UnsignedRoundTrip(n / 256, width - 1);
      assert ToLe(n, width)[1..] == ToLe(n / 256, width - 1);
    }
  }

  lemma WidthRanges()
    ensures HalfRange(1) == 0x80 && HalfRange(2) == 0x8000
    ensures HalfRange(4) == 0x8000_0000 && HalfRange(8) == 0x8000_0000_0000_0000
    ensures HalfRange(16) == 0x8000_0000_0000_0000_0000_0000_0000_0000
  {
    assert HalfRange(2) == 256 * HalfRange(1);
    assert HalfRange(3) == 256 * HalfRange(2);
    assert HalfRange(4) == 256 * HalfRange(3);
    assert HalfRange(6) == 256 * 256 * HalfRange(4);
    assert HalfRange(8) == 256 * 256 * HalfRange(6);
    assert HalfRange(10) == 256 * 256 * HalfRange(8);
    assert HalfRange(12) == 256 * 256 * HalfRange(10);
    assert HalfRange(14) == 256 * 256 * HalfRange(12);
    assert HalfRange(16) == 256 * 256 * HalfRange(14);
  }

  lemma I8RoundTrip(n: int)
    requires FitsI8(n)
    ensures FromLeSigned(ToLe(n, 1)) == n
  {
    SignedRoundTrip(n, 1);
  }

  lemma I32RoundTrip(n: int)
    requires FitsI32(n)
    ensures FromLeSigned(ToLe(n, 4)) == n
  {
    WidthRanges();
    SignedRoundTrip(n, 4);
  }

  // ----- scripts -----

  function EncodedLen(i: Instruction): nat {
    1 + |i.operands|
  }

  function Encode(i: Instruction): (b: seq<byte>)
    ensures |b| == EncodedLen(i)
  {
    [i.opcode] + i.operands
  }

  function ByteLen(code: seq<Instruction>): nat {
    if code == [] then 0 else EncodedLen(code[0]) + ByteLen(code[1..])
  }

  function EncodeAll(code: seq<Instruction>): (b: seq<byte>)
    ensures |b| == ByteLen(code)
  {
    if code == [] then [] else Encode(code[0]) + EncodeAll(code[1..])
  }

  lemma {:induction false} ByteLenAppend(a: seq<Instruction>, b: seq<Instruction>)
    ensures ByteLen(a + b) == ByteLen(a) + ByteLen(b)
  {
    if a == [] {
      assert a + b == b;
    } else {
      assert (a + b)[1..] == a[1..] + b;
      ByteLenAppend(a[1..], b);
    }
  }

  lemma {:induction false} EncodeAllAppend(a: seq<Instruction>, b: seq<Instruction>)
    ensures EncodeAll(a + b) == EncodeAll(a) + EncodeAll(b)
  {
    if a == [] {
      assert a + b == b;
    } else {
      assert (a + b)[1..] == a[1..] + b;
      EncodeAllAppend(a[1..], b);
    }
  }

  /** The instruction's operands have the shape its opcode calls for. */
  predicate WellFormed(i: Instruction) {
    && IsOpCode(i.opcode)
    && var w := DataPrefix(i.opcode);
       if w == 0 then |i.operands| == FixedOperands(i.opcode)
       else |i.operands| >= w && |i.operands| == w + FromLeUnsigned(i.operands[..w])
  }
}

/** Optional values, results and cons lists shared by every module. */
module Prelude {
  datatype Option<+T> = None | Some(value: T)

  datatype Result<+T, +E> = Ok(value: T) | Err(error: E) {
    predicate IsFailure() { Err? }
    function PropagateFailure<U>(): Result<U, E>
      requires Err?
    {
      Err(error)
    }
    function Extract(): T
      requires Ok?
    {
      value
    }
  }

  /** A stack whose head is the top. */
  datatype List<+T> = Nil | Cons(head: T, tail: List<T>)

  function Length<T>(xs: List<T>): nat {
    match xs
    case Nil => 0
    case Cons(_, rest) => 1 + Length(rest)
  }

  lemma Regroup<T>(a: seq<T>, b: seq<T>, c: seq<T>)
    ensures (a + b) + c == a + (b + c)
  {
  }

  lemma SplitSeq<T>(s: seq<T>, i: nat, j: nat)
    requires i <= j <= |s|
    ensures s == s[..i] + (s[i..j] + s[j..])
  {
  }

  function Reverse<T>(s: seq<T>): (r: seq<T>)
    ensures |r| == |s|
    ensures forall k :: 0 <= k < |s| ==> r[k] == s[|s| - 1 - k]
  {
    seq(|s|, k requires 0 <= k < |s| => s[|s| - 1 - k])
  }
}
