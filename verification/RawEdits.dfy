/**
 * When the three passes that do not relayout keep a branch on its target. Two of them remove a
 * pair of instructions, the third puts the one-byte DUP in the place of a load.
 */
module RawEdits {
  import opened Prelude
  import opened Bytecode
  import opened Vm
  import opened Layout
  import opened Shorten
  import opened Peephole

  /** The index that stands for `k` once `count` instructions at `index` are gone: the next one for what is gone. */
  function IndexAfter(index: nat, count: nat, k: nat): nat {
    if k >= index + count then k - count else if k > index then index else k
  }

  /** `k` is a removed instruction other than the first: what leads there ran part of what is removed. */
  predicate Inside(index: nat, count: nat, k: nat) { index < k < index + count }

  /** Instruction `j` and the target `k` lie both before or both after the edit at `index`. */
  predicate OnSameSide(j: nat, index: nat, k: nat) { j < index <==> k <= index }

  /**
   * Remove instructions and rewrite no operand: an operand of what remains still leads to the
   * instruction that stands for its target exactly when it does not lead into the removed part
   * and its instruction and its target are on the same side.
   */
  lemma {:induction false} RawRemovalKeepsTarget(s: Script, index: nat, count: nat, j: nat, n: nat, k: nat)
    requires 0 < count && index + count <= |s|
    requires Denotes(s, j, n, k) && !(index <= j < index + count)
    ensures var out := Remove(s, index, count);
            Denotes(out, IndexAfter(index, count, j), n, IndexAfter(index, count, k)) <==>
            !Inside(index, count, k) && OnSameSide(j, index, k)
  {
    hide Offset, OffsetCount, OffsetAt;
    var out, j', k' := Remove(s, index, count), IndexAfter(index, count, j), IndexAfter(index, count, k);
    assert out[j'] == s[j];
    OffsetOfRemoved(s, index, count, j');
    OffsetOfRemoved(s, index, count, k');
    OffsetsIncrease(s, index, index + count);
    if Inside(index, count, k) {
      OffsetsIncrease(s, index, k);
      OffsetsIncrease(s, k, index + count);
    }
  }

  /**
   * Put another instruction in the place of one without relative operands, and rewrite no operand:
   * a target is kept exactly when the two are equally long, or the branch and its target lie on
   * the same side.
   */
  lemma {:induction false} RawReplacementKeepsTarget(s: Script, index: nat, i: Instruction, j: nat, n: nat, k: nat)
    requires index < |s| && OffsetCount(s[index]) == 0 && Denotes(s, j, n, k)
    ensures Denotes(s[index := i], j, n, k) <==>
            EncodedLen(i) == EncodedLen(s[index]) || OnSameSide(j, index, k)
  {
    hide Offset, OffsetAt;
    assert j != index;
    OffsetOfReplaced(s, index, i, j);
    OffsetOfReplaced(s, index, i, k);
  }

  lemma PairHasNoOperand(pass: Pass, r: Routine, index: nat)
    requires index < |r.code| && Applies(pass, r, index) && (pass.MergeLoads? || pass.DropDup? || pass.DropStore?)
    ensures index + 1 < |r.code| && OffsetCount(r.code[index]) == 0 && OffsetCount(r.code[index + 1]) == 0
    ensures pass.MergeLoads? ==> EncodedLen(r.code[index + 1]) == 1 + |r.code[index + 1].operands|
  {
    hide Touched, StillLoaded;
    NoOperand(r.code[index]);
    NoOperand(r.code[index + 1]);
  }

  lemma NoOperand(i: Instruction)
    requires LoadSlot(i).Some? || StoreSlot(i).Some? || i.opcode == DUP || i.opcode == DROP
    ensures OffsetCount(i) == 0
  {
  }

  /** The DUP/DROP and the STLOC/LDLOC pass, on any routine and any operand. */
  lemma {:induction false} DroppedPairKeepsTarget(pass: Pass, r: Routine, index: nat, j: nat, n: nat, k: nat)
    requires pass.DropDup? || pass.DropStore?
    requires index < |r.code| && Applies(pass, r, index) && Denotes(r.code, j, n, k)
    ensures Denotes(Apply(pass, r, index).code, IndexAfter(index, 2, j), n, IndexAfter(index, 2, k)) <==>
            k != index + 1 && OnSameSide(j, index, k)
  {
    hide Offset, OffsetAt, OffsetCount, Touched, StillLoaded, LoadLocalSlot, StoreSlot;
    PairHasNoOperand(pass, r, index);
    RawRemovalKeepsTarget(r.code, index, 2, j, n, k);
  }

  /** The merging pass: a target can only be lost when the load has an operand byte, as the compiler gives it from slot 7 on. */
  lemma {:induction false} MergedLoadKeepsTarget(r: Routine, index: nat, j: nat, n: nat, k: nat)
    requires index < |r.code| && Applies(MergeLoads, r, index) && Denotes(r.code, j, n, k)
    ensures Denotes(Apply(MergeLoads, r, index).code, j, n, k) <==>
            r.code[index + 1].operands == [] || OnSameSide(j, index + 1, k)
  {
    hide Offset, OffsetAt, OffsetCount, Touched, LoadLocalSlot, LoadArgSlot;
    PairHasNoOperand(MergeLoads, r, index);
    RawReplacementKeepsTarget(r.code, index + 1, DUP_INSTRUCTION, j, n, k);
  }

  /**
   * A branch kept on the second of two merged loads is no longer right either: DUP copies whatever
   * is on the stack there, which is what the load pushes only if it lay there already.
   */
  lemma MergedLoadEntered(ops: Ops, i: Instruction, d: Data)
    requires LoadSlot(i).Some?
    requires LoadSlot(i).value as nat < |if LoadLocalSlot(i).Some? then d.locals else d.args|
    ensures ExecData(ops, i, d) == ExecData(ops, DUP_INSTRUCTION, d) <==>
            d.stack.Cons? && d.stack.head == (if LoadLocalSlot(i).Some? then d.locals else d.args)[LoadSlot(i).value]
  {
  }
}
