/** Decoding raw script bytes (disasm.rs), the inverse of `Instruction::encode_into`. */
module Disasm {
  import opened Prelude
  import opened Bytecode

  datatype DecodeError = NoOpcode | UnknownOpcode(op: byte) | UnexpectedEof

  /** Operand bytes of the instruction whose opcode is `op` and whose operands start at `start`. */
  function OperandLen(data: seq<byte>, start: nat, op: byte): Result<nat, DecodeError> {
    var w := DataPrefix(op);
    if w == 0 then
      if start + FixedOperands(op) <= |data| then Ok(FixedOperands(op)) else Err(UnexpectedEof)
    else if start + w > |data| then
      Err(UnexpectedEof)
    else
      var n := w + FromLeUnsigned(data[start..start + w]);
      if start + n <= |data| then Ok(n) else Err(UnexpectedEof)
  }

  function DecodeOne(data: seq<byte>, ip: nat): (r: Result<(Instruction, nat), DecodeError>)
    ensures r.Ok? ==> r.value.1 == EncodedLen(r.value.0) && ip + r.value.1 <= |data|
  {
    if ip >= |data| then Err(NoOpcode)
    else if !IsOpCode(data[ip]) then Err(UnknownOpcode(data[ip]))
    else
      var n :- OperandLen(data, ip + 1, data[ip]);
      Ok((Instruction(data[ip], data[ip + 1..ip + 1 + n]), 1 + n))
  }

  function DecodeFrom(data: seq<byte>, ip: nat): Result<seq<Instruction>, DecodeError>
    decreases |data| - ip
  {
    if ip >= |data| then Ok([])
    else
      var first :- DecodeOne(data, ip);
      var rest :- DecodeFrom(data, ip + first.1);
      Ok([first.0] + rest)
  }

  ghost function Prepend(front: seq<Instruction>, r: Result<seq<Instruction>, DecodeError>)
    : Result<seq<Instruction>, DecodeError>
  {
    if r.Ok? then Ok(front + r.value) else r
  }

  lemma PrependStep(front: seq<Instruction>, data: seq<byte>, ip: nat)
    requires ip < |data|
    ensures Prepend(front, DecodeFrom(data, ip)) ==
            match DecodeOne(data, ip)
            case Err(e) => Err(e)
            case Ok((i, n)) => Prepend(front + [i], DecodeFrom(data, ip + n))
  {
    hide DecodeOne;
    if DecodeOne(data, ip).Ok? {
      var (i, n) := DecodeOne(data, ip).value;
      var rest := DecodeFrom(data, ip + n);
      assert rest.Ok? ==> front + ([i] + rest.value) == (front + [i]) + rest.value;
    }
  }

  /** `decode_script`: one cursor walking the script, collecting instructions. */
  method DecodeScript(data: seq<byte>) returns (r: Result<seq<Instruction>, DecodeError>)
    ensures r == DecodeFrom(data, 0)
    ensures r.Ok? ==> EncodeAll(r.value) == data && forall i :: i in r.value ==> WellFormed(i)
  {
    hide DecodeOne, DecodeFrom, Prepend, WellFormed, EncodeAll;
    var ip := 0;
    var out: seq<Instruction> := [];
    ghost var goal := DecodeFrom(data, 0);
    assert goal == Prepend(out, goal) by { PrependNothing(goal); }
    while ip < |data|
      invariant ip <= |data|
      invariant goal == Prepend(out, DecodeFrom(data, ip))
      decreases |data| - ip
    {
      PrependStep(out, data, ip);
      var one := DecodeOne(data, ip);
      if one.Err? {
        return Err(one.error);
      }
      out := out + [one.value.0];
      ip := ip + one.value.1;
    }
    r := Ok(out);
    DecodeEnd(out, data, ip);
    DecodeThenEncode(data, 0);
    assert data[0..] == data;
  }

  lemma PrependNothing(r: Result<seq<Instruction>, DecodeError>)
    ensures Prepend([], r) == r
  {
    assert r.Ok? ==> [] + r.value == r.value;
  }

  lemma DecodeEnd(front: seq<Instruction>, data: seq<byte>, ip: nat)
    requires ip == |data|
    ensures Prepend(front, DecodeFrom(data, ip)) == Ok(front)
  {
    assert front + [] == front;
  }

  ghost predicate BytesAt(script: seq<byte>, pc: nat, bytes: seq<byte>) {
    pc + |bytes| <= |script| && script[pc..pc + |bytes|] == bytes
  }

  /** The encoding of `code` occupies the bytes of `script` that start at `pc`. */
  ghost predicate CodeAt(script: seq<byte>, pc: nat, code: seq<Instruction>) {
    BytesAt(script, pc, EncodeAll(code))
  }

  lemma BytesAtSplit(script: seq<byte>, pc: nat, x: seq<byte>, y: seq<byte>)
    ensures BytesAt(script, pc, x + y) <==> BytesAt(script, pc, x) && BytesAt(script, pc + |x|, y)
  {
    if pc + |x| + |y| <= |script| {
      var whole := script[pc..pc + |x| + |y|];
      assert whole[..|x|] == script[pc..pc + |x|] && whole[|x|..] == script[pc + |x|..pc + |x| + |y|];
      assert (x + y)[..|x|] == x && (x + y)[|x|..] == y;
      assert whole == whole[..|x|] + whole[|x|..];
    }
  }

  lemma CodeAtSplit(script: seq<byte>, pc: nat, a: seq<Instruction>, b: seq<Instruction>)
    ensures CodeAt(script, pc, a + b) <==> CodeAt(script, pc, a) && CodeAt(script, pc + ByteLen(a), b)
  {
    hide EncodeAll, ByteLen, BytesAt;
    EncodeAllAppend(a, b);
    BytesAtSplit(script, pc, EncodeAll(a), EncodeAll(b));
  }

  lemma CodeAtBytes(script: seq<byte>, pc: nat, i: Instruction)
    requires CodeAt(script, pc, [i])
    ensures pc + EncodedLen(i) <= |script| && script[pc..pc + EncodedLen(i)] == Encode(i)
  {
    assert [i][1..] == [];
    assert EncodeAll([i]) == Encode(i) + [];
  }

  /** Fetching where a well-formed instruction was written yields that instruction. */
  lemma DecodeAt(script: seq<byte>, pc: nat, i: Instruction)
    requires WellFormed(i)
    requires CodeAt(script, pc, [i])
    ensures DecodeOne(script, pc) == Ok((i, EncodedLen(i)))
  {
    CodeAtBytes(script, pc, i);
    var n := |i.operands|;
    var here := script[pc..pc + 1 + n];
    assert script[pc] == here[0] == Encode(i)[0];
    assert script[pc + 1..pc + 1 + n] == here[1..] == Encode(i)[1..] == i.operands;
    var w := DataPrefix(i.opcode);
    if w > 0 {
      assert script[pc + 1..pc + 1 + w] == i.operands[..w];
    }
  }

  lemma ByteLenOne(i: Instruction)
    ensures ByteLen([i]) == EncodedLen(i)
  {
    assert [i][1..] == [];
  }

  lemma ByteLenNone()
    ensures ByteLen([]) == 0
  {
  }

  /** Decoding the bytes of any well-formed instruction list returns that list. */
  lemma {:induction false} EncodeThenDecode(script: seq<byte>, ip: nat, code: seq<Instruction>)
    requires forall i :: i in code ==> WellFormed(i)
    requires CodeAt(script, ip, code) && ip + ByteLen(code) == |script|
    ensures DecodeFrom(script, ip) == Ok(code)
    decreases |code|
  {
    hide EncodeAll, WellFormed, DecodeOne;
    if code != [] {
      var first, rest := code[0], code[1..];
      assert code == [first] + rest;
      assert DecodeOne(script, ip) == Ok((first, EncodedLen(first)))
          && CodeAt(script, ip + EncodedLen(first), rest) by {
        CodeAtSplit(script, ip, [first], rest);
        ByteLenOne(first);
        DecodeAt(script, ip, first);
      }
      EncodeThenDecode(script, ip + EncodedLen(first), rest);
    }
  }

  lemma DecodeScriptOfEncoding(code: seq<Instruction>)
    requires forall i :: i in code ==> WellFormed(i)
    ensures DecodeFrom(EncodeAll(code), 0) == Ok(code)
  {
    assert EncodeAll(code)[0..ByteLen(code)] == EncodeAll(code);
    EncodeThenDecode(EncodeAll(code), 0, code);
  }

  /** A successful decode consumed every byte, and its instructions encode back to them. */
  lemma {:induction false} DecodeThenEncode(data: seq<byte>, ip: nat)
    requires ip <= |data|
    ensures var r := DecodeFrom(data, ip);
            r.Ok? ==> EncodeAll(r.value) == data[ip..] && forall i :: i in r.value ==> WellFormed(i)
    decreases |data| - ip
  {
    hide DecodeOne, WellFormed;
    if ip < |data| && DecodeFrom(data, ip).Ok? {
      var (i, n) := DecodeOne(data, ip).value;
      DecodedWellFormed(data, ip);
      DecodeThenEncode(data, ip + n);
      assert data[ip..] == data[ip..ip + n] + data[ip + n..];
      assert DecodeFrom(data, ip).value[1..] == DecodeFrom(data, ip + n).value;
    }
  }

  lemma DecodedWellFormed(data: seq<byte>, ip: nat)
    requires ip < |data| && DecodeOne(data, ip).Ok?
    ensures var (i, n) := DecodeOne(data, ip).value;
            WellFormed(i) && data[ip..ip + n] == Encode(i)
  {
    var i := DecodeOne(data, ip).value.0;
    var w := DataPrefix(i.opcode);
    assert w > 0 ==> data[ip + 1..ip + 1 + w] == i.operands[..w];
  }
}
