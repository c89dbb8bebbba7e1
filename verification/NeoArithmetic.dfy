/**
 * What NeoVM documents of its arithmetic, comparing and converting instructions, on integers and
 * by opcode number (target/opcode.rs). Theorems about operators assume it of the machine.
 */
module NeoArithmetic {
  import opened Prelude
  import opened Bytecode
  import opened Vm

  function Pow2(n: nat): (p: nat)
    ensures p > 0
  {
    if n == 0 then 1 else 2 * Pow2(n - 1)
  }

  function Magnitude(n: int): nat { if n < 0 then -n else n }

  /** Quotient rounded toward zero. */
  function Quotient(a: int, b: int): int
    requires b != 0
  {
    if (a < 0) == (b < 0) then Magnitude(a) / Magnitude(b) else -(Magnitude(a) / Magnitude(b))
  }

  /** What is left after the quotient; it has the sign of `a`. */
  function Remainder(a: int, b: int): int
    requires b != 0
  {
    a - b * Quotient(a, b)
  }

  // ----- bits of an integer, in two's complement without end -----

  predicate BitAt(n: int, k: nat) { n / Pow2(k) % 2 == 1 }

  function Depth(n: int): nat { if n < 0 then -1 - n else n }

  /** The integer whose bits are `join` of the bits of `a` and `b`. */
  function Bitwise(join: (bool, bool) -> bool, a: int, b: int): int
    decreases Depth(a) + Depth(b)
  {
    if -1 <= a <= 0 && -1 <= b <= 0 then if join(a == -1, b == -1) then -1 else 0
    else 2 * Bitwise(join, a / 2, b / 2) + if join(a % 2 == 1, b % 2 == 1) then 1 else 0
  }

  function Conjunction(a: int, b: int): int { Bitwise((x, y) => x && y, a, b) }

  function Disjunction(a: int, b: int): int { Bitwise((x, y) => x || y, a, b) }

  function Difference(a: int, b: int): int { Bitwise((x, y) => x != y, a, b) }

  /** The bits of the result, one by one. */
  lemma {:induction false} BitwiseBits(join: (bool, bool) -> bool, a: int, b: int, k: nat)
    ensures BitAt(Bitwise(join, a, b), k) == join(BitAt(a, k), BitAt(b, k))
    decreases Depth(a) + Depth(b)
  {
    hide BitAt;
    if -1 <= a <= 0 && -1 <= b <= 0 {
      UniformBits(k);
    } else {
      BitwiseSplit(join, a, b);
      if k > 0 {
        BitwiseBits(join, a / 2, b / 2, k - 1);
        BitsBelow(a, b, Bitwise(join, a, b), k);
      }
    }
  }

  lemma BitwiseSplit(join: (bool, bool) -> bool, a: int, b: int)
    requires !(-1 <= a <= 0 && -1 <= b <= 0)
    ensures Bitwise(join, a, b) / 2 == Bitwise(join, a / 2, b / 2)
    ensures BitAt(Bitwise(join, a, b), 0) == join(BitAt(a, 0), BitAt(b, 0))
  {
    assert Pow2(0) == 1;
  }

  lemma BitsBelow(a: int, b: int, c: int, k: nat)
    requires k > 0
    ensures BitAt(a, k) == BitAt(a / 2, k - 1) && BitAt(b, k) == BitAt(b / 2, k - 1) && BitAt(c, k) == BitAt(c / 2, k - 1)
  {
    hide BitAt;
    BitBelow(a, k);
    BitBelow(b, k);
    BitBelow(c, k);
  }

  lemma UniformBits(k: nat)
    ensures !BitAt(0, k) && BitAt(-1, k)
  {
    assert -1 / Pow2(k) == -1;
  }

  lemma BitBelow(n: int, k: nat)
    requires k > 0
    ensures BitAt(n, k) == BitAt(n / 2, k - 1)
  {
    HalfFirst(n, Pow2(k - 1));
  }

  /** Dividing by `2 * p` is halving and then dividing by `p`. */
  lemma HalfFirst(n: int, p: int)
    requires p > 0
    ensures n / (2 * p) == (n / 2) / p
  {
    var h, q := n / 2, (n / 2) / p;
    assert n == 2 * h + n % 2 && h == p * q + h % p;
    assert n == 2 * p * q + (2 * (h % p) + n % 2);
    Euclid(n, 2 * p, q, 2 * (h % p) + n % 2);
  }

  lemma Euclid(n: int, d: int, q: int, r: int)
    requires d > 0 && 0 <= r < d && n == d * q + r
    ensures n / d == q
  {
    var e := n / d - q;
    assert d * e == r - n % d;
    Multiple(d, e);
  }

  lemma Multiple(d: int, e: int)
    requires d > 0 && -d < d * e < d
    ensures e == 0
  {
    assert e >= 1 ==> d * e >= d;
    assert e <= -1 ==> d * e <= -d;
  }

  // ----- the machine -----

  /** An integer of at most 32 bytes; the machine faults on a larger result. */
  function Sized(n: int): Option<Value> { if FitsSigned(n, 32) then Some(Int(n)) else None }

  function Truth(b: bool): Option<Value> { Some(Bool(b)) }

  /** Results on two integers, the second one on top of the stack; shifts fault beyond `limit`. */
  predicate ComputesPair(ops: Ops, limit: nat, a: int, b: int) {
    && ops.binary(0x91, Int(a), Int(b)) == Sized(Conjunction(a, b))
    && ops.binary(0x92, Int(a), Int(b)) == Sized(Disjunction(a, b))
    && ops.binary(0x93, Int(a), Int(b)) == Sized(Difference(a, b))
    && ops.binary(0x97, Int(a), Int(b)) == Truth(a == b)
    && ops.binary(0x98, Int(a), Int(b)) == Truth(a != b)
    && ops.binary(0x9E, Int(a), Int(b)) == Sized(a + b)
    && ops.binary(0x9F, Int(a), Int(b)) == Sized(a - b)
    && ops.binary(0xA0, Int(a), Int(b)) == Sized(a * b)
    && ops.binary(0xA1, Int(a), Int(b)) == (if b == 0 then None else Sized(Quotient(a, b)))
    && ops.binary(0xA2, Int(a), Int(b)) == (if b == 0 then None else Sized(Remainder(a, b)))
    && ops.binary(0xA8, Int(a), Int(b)) == (if 0 <= b <= limit then Sized(a * Pow2(b)) else None)
    && ops.binary(0xA9, Int(a), Int(b)) == (if 0 <= b <= limit then Sized(a / Pow2(b)) else None)
    && ops.binary(0xB5, Int(a), Int(b)) == Truth(a < b)
    && ops.binary(0xB6, Int(a), Int(b)) == Truth(a <= b)
    && ops.binary(0xB7, Int(a), Int(b)) == Truth(a > b)
    && ops.binary(0xB8, Int(a), Int(b)) == Truth(a >= b)
  }

  /** Sign change and the flipping of all bits. */
  predicate ComputesOne(ops: Ops, a: int) {
    && ops.unary(Instruction(0x9B, []), Int(a)) == Sized(-a)
    && ops.unary(Instruction(0x90, []), Int(a)) == Sized(-a - 1)
  }

  ghost predicate Arithmetic(ops: Ops, limit: nat) {
    && (forall a, b :: FitsSigned(a, 32) && FitsSigned(b, 32) ==> ComputesPair(ops, limit, a, b))
    && (forall a :: FitsSigned(a, 32) ==> ComputesOne(ops, a))
  }

  /** The integer a value converts to. */
  function AsInteger(v: Value): Option<Value> {
    match v
    case Int(n) => Some(Int(n))
    case Bool(b) => Some(Int(if b then 1 else 0))
    case Bytes(data) => if data == [] then Some(Int(0)) else if |data| <= 32 then Some(Int(FromLeSigned(data))) else None
    case _ => None
  }

  /** CONVERT to Boolean, to Integer, and of bytes and arrays to their own types. */
  predicate Converts(ops: Ops, v: Value) {
    && (!v.Null? && !v.Bytes? ==> ops.unary(Instruction(0xDB, [0x20]), v) == Truth(Truthy(v)))
    && (!v.Null? && !v.Array? ==> ops.unary(Instruction(0xDB, [0x21]), v) == AsInteger(v))
    && (v.Bytes? ==> ops.unary(Instruction(0xDB, [0x28]), v) == Some(v) && ops.unary(Instruction(0xDB, [0x30]), v) == Some(v))
    && (v.Array? ==> ops.unary(Instruction(0xDB, [0x40]), v) == Some(v))
  }

  ghost predicate Conversions(ops: Ops) { forall v :: Converts(ops, v) }
}
