/** The two edits that re-encode the script: narrowing a long branch, deleting a jump to the next instruction. */
module Shorten {
  import opened Prelude
  import opened Bytecode
  import opened Layout

  /** A call site: instruction index and callee symbol. */
  type Patches = seq<(nat, string)>

  // ----- narrowing -----

  /** Every long jump and ENDTRY_L; CALL_L stays long until it is linked. */
  function ShortForm(op: byte): Option<byte> {
    if (IsJump(op) && op % 2 == 1) || op == ENDTRY_L then Some(op - 1) else None
  }

  predicate CanShorten(i: Instruction) {
    ShortForm(i.opcode).Some? && |i.operands| == 4 && FitsI8(FromLeSigned(i.operands))
  }

  function Narrowed(i: Instruction): Instruction
    requires CanShorten(i)
  {
    Instruction(ShortForm(i.opcode).value, ToLe(FromLeSigned(i.operands), 1))
  }

  function NarrowEdit(s: Script, index: nat): Edit
    requires index < |s|
  {
    Shrunk(Offset(s, index) + 2, 3)
  }

  /** `try_shorten_long_pc_branch_at`; `None` is "unchanged". */
  function TryShorten(s: Script, index: nat): Option<Script>
    requires index < |s|
  {
    if !CanShorten(s[index]) then None
    else
      var trial := s[index := Narrowed(s[index])];
      Relayout(trial, PrefixOffsets(s), PrefixOffsets(trial), NarrowEdit(s, index), 0)
  }

  method TryShortenAt(s: Script, index: nat) returns (r: Option<Script>)
    requires index < |s|
    ensures r == TryShorten(s, index)
  {
    if ShortForm(s[index].opcode).None? || |s[index].operands| != 4 {
      return None;
    }
    var relative := FromLeSigned(s[index].operands);
    if !FitsI8(relative) {
      return None;
    }
    var before := PrefixByteOffsets(s);
    var start := before[index] + 2;
    var trial := s[index := Instruction(ShortForm(s[index].opcode).value, ToLe(relative, 1))];
    var after := PrefixByteOffsets(trial);
    r := RelayoutPcRelatives(trial, before, after, Shrunk(start, 3));
  }

  // ----- deleting a jump to the next instruction -----

  /** `JMP` / `JMP_L` whose offset is its own length, with an instruction after it. */
  predicate IsRedundantJump(s: Script, index: nat)
    requires index < |s|
  {
    var i := s[index];
    && ((i.opcode == JMP_L && |i.operands| == 4) || (i.opcode == JMP && |i.operands| == 1))
    && FromLeSigned(i.operands) == EncodedLen(i)
    && index + 1 < |s|
  }

  function Remove(s: Script, index: nat, count: nat): (r: Script)
    requires index + count <= |s|
    ensures |r| == |s| - count
  {
    s[..index] + s[index + count..]
  }

  function DeleteEdit(s: Script, index: nat): Edit
    requires index < |s|
  {
    Deleted(index, Offset(s, index), EncodedLen(s[index]))
  }

  /** The script without the jump; `None` when relayout gives up. */
  function TryDelete(s: Script, index: nat): Option<Script>
    requires index < |s|
  {
    var trial := Remove(s, index, 1);
    Relayout(trial, PrefixOffsets(s), PrefixOffsets(trial), DeleteEdit(s, index), 0)
  }

  method TryDeleteAt(s: Script, index: nat) returns (r: Option<Script>)
    requires index < |s|
    ensures r == TryDelete(s, index)
  {
    var before := PrefixByteOffsets(s);
    var trial := s[..index] + s[index + 1..];
    var after := PrefixByteOffsets(trial);
    r := RelayoutPcRelatives(trial, before, after, Deleted(index, before[index], EncodedLen(s[index])));
  }

  // ----- offsets around an edit -----

  lemma {:induction false} OffsetOfReplaced(s: Script, index: nat, i: Instruction, k: nat)
    requires index < |s| && k <= |s|
    ensures Offset(s[index := i], k) ==
            if k <= index then Offset(s, k) else Offset(s, k) - EncodedLen(s[index]) + EncodedLen(i)
    decreases k
  {
    hide Offset;
    if k > 0 {
      OffsetOfReplaced(s, index, i, k - 1);
      OffsetStep(s, k - 1);
      OffsetStep(s[index := i], k - 1);
    } else {
      OffsetZero(s);
      OffsetZero(s[index := i]);
    }
  }

  lemma OffsetZero(s: Script)
    ensures Offset(s, 0) == 0
  {
  }

  lemma {:induction false} OffsetOfRemoved(s: Script, index: nat, count: nat, k: nat)
    requires index + count <= |s| && k <= |s| - count
    ensures Offset(Remove(s, index, count), k) ==
            if k <= index then Offset(s, k) else Offset(s, k + count) - Offset(s, index + count) + Offset(s, index)
    decreases k
  {
    hide Offset;
    var r := Remove(s, index, count);
    if k > 0 {
      OffsetOfRemoved(s, index, count, k - 1);
      OffsetStep(r, k - 1);
      if k - 1 < index {
        OffsetStep(s, k - 1);
      } else {
        OffsetStep(s, k - 1 + count);
      }
    } else {
      OffsetZero(s);
      OffsetZero(r);
    }
  }

  lemma NarrowedSame(i: Instruction)
    requires CanShorten(i)
    ensures SameOffsets(i, Narrowed(i)) && WellFormed(Narrowed(i)) && EncodedLen(i) == 5 && EncodedLen(Narrowed(i)) == 2
  {
    I8RoundTrip(FromLeSigned(i.operands));
    assert i.operands[0..][..4] == i.operands;
    assert Narrowed(i).operands[0..][..1] == Narrowed(i).operands;
  }

  lemma SameOffsetsSelf(i: Instruction)
    ensures SameOffsets(i, i)
  {
  }

  lemma NarrowEdited(s: Script, index: nat)
    requires index < |s| && CanShorten(s[index])
    ensures Edited(s, s[index := Narrowed(s[index])], NarrowEdit(s, index))
  {
    hide Offset, CanShorten, Narrowed, SameOffsets;
    var s2, edit := s[index := Narrowed(s[index])], NarrowEdit(s, index);
    NarrowedSame(s[index]);
    OffsetStep(s, index);
    forall k | 0 <= k <= |s| ensures MapOffset(edit, Offset(s, k)) == Some(Offset(s2, NewIndex(edit, k))) {
      OffsetOfReplaced(s, index, Narrowed(s[index]), k);
      if k < index {
        OffsetsIncrease(s, k, index);
      } else if index + 1 < k {
        OffsetsIncrease(s, index + 1, k);
      }
    }
    forall j | 0 <= j < |s2| ensures SameOffsets(s[OldIndex(edit, j)], s2[j]) {
      SameOffsetsSelf(s[j]);
    }
  }

  lemma DeleteEdited(s: Script, index: nat)
    requires index < |s|
    ensures Edited(s, Remove(s, index, 1), DeleteEdit(s, index))
  {
    hide Offset, SameOffsets;
    var s2, edit := Remove(s, index, 1), DeleteEdit(s, index);
    OffsetStep(s, index);
    forall k | 0 <= k <= |s| ensures MapOffset(edit, Offset(s, k)) == Some(Offset(s2, NewIndex(edit, k))) {
      OffsetOfRemoved(s, index, 1, NewIndex(edit, k));
      if k < index {
        OffsetsIncrease(s, k, index);
      } else if index + 1 < k {
        OffsetsIncrease(s, index + 1, k);
      }
    }
    forall j | 0 <= j < |s2| ensures SameOffsets(s[OldIndex(edit, j)], s2[j]) {
      SameOffsetsSelf(s2[j]);
    }
  }

  /** What narrowing leaves of each instruction: the operand widths may change, the meaning may not. */
  ghost predicate SameUpToWidth(i: Instruction, i2: Instruction) {
    && (i2.opcode == i.opcode || ShortForm(i.opcode) == Some(i2.opcode))
    && (OffsetCount(i) == 0 ==> i2 == i)
  }

  /**
   * Narrowing an eligible branch of a good script always succeeds: no `i8` or `i32` check fails.
   * Every branch, call and try operand still denotes the same instruction, no offset grows,
   * and the script stays good, so the edit can be repeated.
   */
  lemma ShortenCorrect(s: Script, index: nat)
    requires GoodScript(s) && index < |s| && CanShorten(s[index])
    ensures TryShorten(s, index).Some?
    ensures var out := TryShorten(s, index).value;
            && GoodScript(out) && |out| == |s| && ByteLen(out) == ByteLen(s) - 3
            && (forall j :: 0 <= j < |s| ==> SameUpToWidth(s[j], out[j]))
            && KeepsTargets(s, out, NarrowEdit(s, index))
  {
    hide Offset, CanShorten, Narrowed, WellFormed, Edited, GoodScript, KeepsTargets, OffsetCount;
    NarrowEdited(s, index);
    NarrowedSame(s[index]);
    var trial := s[index := Narrowed(s[index])];
    forall i | i in trial ensures WellFormed(i) {
      AllWellFormed(s);
    }
    var out := RelaidScript(s, trial, NarrowEdit(s, index));
    SameLengths(trial, out, |s|);
    OffsetOfReplaced(s, index, Narrowed(s[index]), |s|);
    OffsetEnd(s);
    OffsetEnd(out);
    forall j | 0 <= j < |s| ensures SameUpToWidth(s[j], out[j]) {
      if j == index {
        assert ShortForm(s[j].opcode) == Some(out[j].opcode) && OffsetCount(s[j]) > 0 by { NarrowedShape(s[j]); }
      }
    }
  }

  lemma NarrowedShape(i: Instruction)
    requires CanShorten(i)
    ensures ShortForm(i.opcode) == Some(Narrowed(i).opcode) && OffsetCount(i) > 0
  {
  }

  lemma GoodWellFormed(s: Script, j: nat)
    requires GoodScript(s) && j < |s|
    ensures WellFormed(s[j])
  {
  }

  lemma AllWellFormed(s: Script)
    requires GoodScript(s)
    ensures forall i :: i in s ==> WellFormed(i)
  {
  }

  lemma OffsetEnd(s: Script)
    ensures Offset(s, |s|) == ByteLen(s)
  {
    assert s[..|s|] == s;
  }

  /**
   * Deleting an instruction of a good script always succeeds. Every operand of every other
   * instruction denotes the instruction it denoted, or the successor if that one is gone; no
   * offset grows and the script stays good.
   */
  lemma DeleteCorrect(s: Script, index: nat)
    requires GoodScript(s) && index < |s|
    ensures TryDelete(s, index).Some?
    ensures var out, edit := TryDelete(s, index).value, DeleteEdit(s, index);
            && GoodScript(out) && |out| == |s| - 1 && ByteLen(out) == ByteLen(s) - EncodedLen(s[index])
            && (forall j :: 0 <= j < |out| ==> out[j].opcode == s[OldIndex(edit, j)].opcode)
            && (forall j :: 0 <= j < |out| && OffsetCount(out[j]) == 0 ==> out[j] == s[OldIndex(edit, j)])
            && KeepsTargets(s, out, edit)
  {
    hide Offset, WellFormed, Edited, GoodScript, KeepsTargets, OffsetCount, Relayout, ByteLen;
    DeleteEdited(s, index);
    AllWellFormed(s);
    var trial := Remove(s, index, 1);
    var out := RelaidScript(s, trial, DeleteEdit(s, index));
    forall j | 0 <= j < |out|
      ensures out[j].opcode == s[OldIndex(DeleteEdit(s, index), j)].opcode
      ensures OffsetCount(out[j]) == 0 ==> out[j] == s[OldIndex(DeleteEdit(s, index), j)]
    {
      assert trial[j] == s[OldIndex(DeleteEdit(s, index), j)];
      SameCount(trial[j], out[j]);
    }
    DeletedLength(s, index);
    SameLengths(trial, out, |out|);
    OffsetEnd(trial);
    OffsetEnd(out);
  }

  lemma SameCount(i: Instruction, i2: Instruction)
    requires i.opcode == i2.opcode && |i.operands| == |i2.operands|
    ensures OffsetCount(i) == OffsetCount(i2)
  {
  }

  lemma DeletedLength(s: Script, index: nat)
    requires index < |s|
    ensures ByteLen(Remove(s, index, 1)) == ByteLen(s) - EncodedLen(s[index])
  {
    hide *;
    var out := Remove(s, index, 1);
    OffsetOfRemoved(s, index, 1, |out|);
    OffsetStep(s, index);
    OffsetEnd(s);
    OffsetEnd(out);
  }
}
