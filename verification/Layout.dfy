/** Re-encoding PC-relative operands after a script edit (codegen/opt.rs). */
module Layout {
  import opened Prelude
  import opened Bytecode

  type Script = seq<Instruction>

  /** Byte offset of instruction `k`; of the end for `k == |s|`. */
  function Offset(s: Script, k: nat): nat
    requires k <= |s|
  {
    ByteLen(s[..k])
  }

  // ----- which operands are relative -----

  predicate IsShortRelative(op: byte) {
    (IsJump(op) && op % 2 == 0) || op == CALL || op == TRY || op == ENDTRY
  }

  /** `is_change_pc_long`: its `is_jump_long` masks with 0, so it accepts every jump, short ones too. */
  predicate IsLongRelative(op: byte) {
    IsJump(op) || op == CALL_L || op == TRY_L || op == ENDTRY_L
  }

  /** Width of each relative operand that relayout re-encodes, 0 when it leaves the instruction alone. */
  function OffsetWidth(i: Instruction): nat {
    if i.opcode == TRY then if |i.operands| == 2 then 1 else 0
    else if IsShortRelative(i.opcode) then if |i.operands| == 1 then 1 else 0
    else if i.opcode == TRY_L then if |i.operands| == 8 then 4 else 0
    else if IsLongRelative(i.opcode) then if |i.operands| == 4 then 4 else 0
    else 0
  }

  function OffsetCount(i: Instruction): (n: nat)
    ensures OffsetWidth(i) > 0 ==> 1 <= n <= 2 && n * OffsetWidth(i) == |i.operands|
  {
    if OffsetWidth(i) == 0 then 0
    else if i.opcode == TRY || i.opcode == TRY_L then 2
    else 1
  }

  function OffsetAt(i: Instruction, n: nat): int
    requires n < OffsetCount(i)
  {
    FromLeSigned(i.operands[if n == 0 then 0 else OffsetWidth(i)..][..OffsetWidth(i)])
  }

  // ----- edits -----

  /**
   * `Deleted`: the instruction at `index`, `len` bytes at `start`, is gone.
   * `Shrunk`: `len` operand bytes at `start` are gone; every instruction is still there.
   */
  datatype Edit = Deleted(index: nat, start: nat, len: nat) | Shrunk(start: nat, len: nat)

  /** Where a byte offset moves. Inside a deleted jump means the instruction after it. */
  function MapOffset(edit: Edit, p: nat): Option<nat> {
    if p < edit.start then Some(p)
    else if p < edit.start + edit.len then if edit.Deleted? then Some(edit.start) else None
    else Some(p - edit.len)
  }

  /** Index, before the edit, of the instruction now at `j`. */
  function OldIndex(edit: Edit, j: nat): nat {
    if edit.Deleted? && j >= edit.index then j + 1 else j
  }

  /** Index, after the edit, that stands for the old index `k`: a deleted jump stands for its successor. */
  function NewIndex(edit: Edit, k: nat): nat {
    if edit.Deleted? && k > edit.index then k - 1 else k
  }

  function Retarget(relative: int, oldPc: nat, newPc: nat, edit: Edit, width: nat): Option<seq<byte>>
    requires width > 0
  {
    if oldPc + relative < 0 then None
    else
      match MapOffset(edit, oldPc + relative)
      case None => None
      case Some(target) => if FitsSigned(target - newPc, width) then Some(ToLe(target - newPc, width)) else None
  }

  function RelayoutInstruction(i: Instruction, oldPc: nat, newPc: nat, edit: Edit): Option<Instruction> {
    if OffsetCount(i) == 0 then Some(i)
    else
      var first := Retarget(OffsetAt(i, 0), oldPc, newPc, edit, OffsetWidth(i));
      if first.None? then None
      else if OffsetCount(i) == 1 then Some(i.(operands := first.value))
      else
        var second := Retarget(OffsetAt(i, 1), oldPc, newPc, edit, OffsetWidth(i));
        if second.None? then None else Some(i.(operands := first.value + second.value))
  }

  /** `before` and `after` are the offsets of the instructions before and after the edit. */
  predicate Offsets(s: Script, before: seq<nat>, after: seq<nat>, edit: Edit) {
    |after| == |s| && forall j :: 0 <= j < |s| ==> OldIndex(edit, j) < |before|
  }

  function Relayout(s: Script, before: seq<nat>, after: seq<nat>, edit: Edit, j: nat): Option<Script>
    requires j <= |s| && Offsets(s, before, after, edit)
    decreases |s| - j
  {
    if j == |s| then Some([])
    else
      var first := RelayoutInstruction(s[j], before[OldIndex(edit, j)], after[j], edit);
      if first.None? then None
      else
        var rest := Relayout(s, before, after, edit, j + 1);
        if rest.None? then None else Some([first.value] + rest.value)
  }

  /** Relayout only ever rewrites operand bytes of relative instructions. */
  lemma {:induction false} RelayoutShape(s: Script, before: seq<nat>, after: seq<nat>, edit: Edit, j: nat)
    requires j <= |s| && Offsets(s, before, after, edit)
    ensures var r := Relayout(s, before, after, edit, j);
            r.Some? ==> |r.value| == |s| - j && forall m :: j <= m < |s| ==> Reshaped(s[m], r.value[m - j])
    ensures var r := Relayout(s, before, after, edit, j);
            r.Some? ==> forall m :: j <= m < |s| ==>
              RelayoutInstruction(s[m], before[OldIndex(edit, m)], after[m], edit) == Some(r.value[m - j])
    decreases |s| - j
  {
    hide RelayoutInstruction, Reshaped;
    if j < |s| {
      RelayoutShape(s, before, after, edit, j + 1);
      ReshapedInstruction(s[j], before[OldIndex(edit, j)], after[j], edit);
      var r := Relayout(s, before, after, edit, j);
      assert r.Some? ==> r.value[1..] == Relayout(s, before, after, edit, j + 1).value;
    }
  }

  /** The same instruction up to the value of its relative operands. */
  predicate Reshaped(i: Instruction, i2: Instruction) {
    i2.opcode == i.opcode && |i2.operands| == |i.operands| && (OffsetCount(i) == 0 ==> i2 == i)
  }

  lemma ReshapedInstruction(i: Instruction, oldPc: nat, newPc: nat, edit: Edit)
    ensures var r := RelayoutInstruction(i, oldPc, newPc, edit); r.Some? ==> Reshaped(i, r.value)
  {
    hide OffsetAt, MapOffset, FitsSigned;
  }

  /** `relayout_pc_relatives`: one pass that rewrites operands in place, giving up at the first misfit. */
  method RelayoutPcRelatives(s: Script, before: seq<nat>, after: seq<nat>, edit: Edit) returns (r: Option<Script>)
    requires Offsets(s, before, after, edit)
    ensures r == Relayout(s, before, after, edit, 0)
  {
    hide RelayoutInstruction, Relayout;
    var out := s;
    ghost var goal := Relayout(s, before, after, edit, 0);
    RelayoutStarts(goal);
    for j := 0 to |s|
      invariant |out| == |s| && forall m :: j <= m < |s| ==> out[m] == s[m]
      invariant goal == Prepended(out[..j], Relayout(s, before, after, edit, j))
    {
      RelayoutStep(out[..j], s, before, after, edit, j);
      var i := RelayoutInstruction(out[j], before[OldIndex(edit, j)], after[j], edit);
      if i.None? {
        return None;
      }
      ghost var prev := out;
      out := out[j := i.value];
      assert out[..j + 1] == prev[..j] + [i.value];
    }
    r := Some(out);
    RelayoutEnds(out, s, before, after, edit);
    assert out[..|s|] == out;
  }

  ghost function Prepended(front: Script, r: Option<Script>): Option<Script> {
    if r.Some? then Some(front + r.value) else None
  }

  lemma RelayoutStarts(r: Option<Script>)
    ensures r == Prepended([], r)
  {
    assert r.Some? ==> [] + r.value == r.value;
  }

  lemma RelayoutStep(front: Script, s: Script, before: seq<nat>, after: seq<nat>, edit: Edit, j: nat)
    requires j < |s| && Offsets(s, before, after, edit)
    ensures var i := RelayoutInstruction(s[j], before[OldIndex(edit, j)], after[j], edit);
            Prepended(front, Relayout(s, before, after, edit, j)) ==
            if i.None? then None else Prepended(front + [i.value], Relayout(s, before, after, edit, j + 1))
  {
    hide RelayoutInstruction;
    var i := RelayoutInstruction(s[j], before[OldIndex(edit, j)], after[j], edit);
    var rest := Relayout(s, before, after, edit, j + 1);
    if i.Some? && rest.Some? {
      assert front + ([i.value] + rest.value) == (front + [i.value]) + rest.value;
    }
  }

  lemma RelayoutEnds(front: Script, s: Script, before: seq<nat>, after: seq<nat>, edit: Edit)
    requires Offsets(s, before, after, edit)
    ensures Prepended(front, Relayout(s, before, after, edit, |s|)) == Some(front)
  {
    assert front + [] == front;
  }

  function PrefixOffsets(s: Script): (p: seq<nat>)
    ensures |p| == |s| && forall k :: 0 <= k < |s| ==> p[k] == Offset(s, k)
  {
    seq(|s|, k requires 0 <= k < |s| => Offset(s, k))
  }

  /** `prefix_byte_offsets`. */
  method PrefixByteOffsets(s: Script) returns (out: seq<nat>)
    ensures out == PrefixOffsets(s)
  {
    out := [];
    var pc := 0;
    for k := 0 to |s|
      invariant pc == Offset(s, k) && |out| == k && forall m :: 0 <= m < k ==> out[m] == Offset(s, m)
    {
      out := out + [pc];
      OffsetStep(s, k);
      pc := pc + EncodedLen(s[k]);
    }
  }

  // ----- offsets -----

  lemma OffsetStep(s: Script, k: nat)
    requires k < |s|
    ensures Offset(s, k + 1) == Offset(s, k) + EncodedLen(s[k])
  {
    assert s[..k + 1] == s[..k] + [s[k]];
    ByteLenAppend(s[..k], [s[k]]);
    assert [s[k]][1..] == [];
  }

  lemma {:induction false} OffsetsIncrease(s: Script, j: nat, k: nat)
    requires j < k <= |s|
    ensures Offset(s, j) + EncodedLen(s[j]) <= Offset(s, k)
    decreases k
  {
    OffsetStep(s, k - 1);
    if j < k - 1 {
      OffsetsIncrease(s, j, k - 1);
    }
  }

  lemma OffsetInjective(s: Script, j: nat, k: nat)
    requires j <= |s| && k <= |s| && Offset(s, j) == Offset(s, k)
    ensures j == k
  {
    if j < k { OffsetsIncrease(s, j, k); } else if k < j { OffsetsIncrease(s, k, j); }
  }

  /** Operand `n` of instruction `j` leads to instruction `k`, or to the end. */
  predicate Denotes(s: Script, j: nat, n: nat, k: nat) {
    j < |s| && n < OffsetCount(s[j]) && k <= |s| && Offset(s, j) + OffsetAt(s[j], n) == Offset(s, k)
  }

  ghost predicate HasTarget(s: Script, j: nat, n: nat) { exists k :: Denotes(s, j, n, k) }

  /** Every instruction is well formed and every relative operand leads to an instruction or the end. */
  ghost predicate GoodScript(s: Script) {
    && (forall i :: i in s ==> WellFormed(i))
    && (forall j, n :: 0 <= j < |s| && 0 <= n < OffsetCount(s[j]) ==> HasTarget(s, j, n))
  }

  lemma DenotesUnique(s: Script, j: nat, n: nat, k: nat, k': nat)
    requires Denotes(s, j, n, k) && Denotes(s, j, n, k')
    ensures k == k'
  {
    OffsetInjective(s, k, k');
  }

  // ----- relayout keeps every target -----

  /** Byte offsets of `s2` are those of `s`, moved by the edit. */
  ghost predicate Edited(s: Script, s2: Script, edit: Edit) {
    && (forall k :: 0 <= k <= |s| ==> NewIndex(edit, k) <= |s2|)
    && (forall k :: 0 <= k <= |s| ==> MapOffset(edit, Offset(s, k)) == Some(Offset(s2, NewIndex(edit, k))))
    && (forall j :: 0 <= j < |s2| ==> OldIndex(edit, j) < |s|)
    && (forall j :: 0 <= j < |s2| ==> SameOffsets(s[OldIndex(edit, j)], s2[j]))
  }

  /** The same relative offsets, possibly in another width. */
  ghost predicate SameOffsets(i: Instruction, i2: Instruction) {
    && OffsetCount(i) == OffsetCount(i2)
    && forall n :: 0 <= n < OffsetCount(i) ==> OffsetAt(i, n) == OffsetAt(i2, n)
  }

  /** `b` lies between 0 and `a`. */
  predicate Within(a: int, b: int) {
    if a >= 0 then 0 <= b <= a else a <= b <= 0
  }

  lemma MapShrinks(edit: Edit, p: nat, q: nat)
    requires MapOffset(edit, p).Some? && MapOffset(edit, q).Some?
    ensures Within(q - p, MapOffset(edit, q).value - MapOffset(edit, p).value)
  {
  }

  lemma OffsetFits(i: Instruction, n: nat)
    requires n < OffsetCount(i)
    ensures FitsSigned(OffsetAt(i, n), OffsetWidth(i))
  {
    SignedDecodeEncode(i.operands[if n == 0 then 0 else OffsetWidth(i)..][..OffsetWidth(i)]);
  }

  /** One operand: re-encoding succeeds, and reads back as the distance to the moved target. */
  lemma RetargetCorrect(i: Instruction, n: nat, oldPc: nat, newPc: nat, target: nat, edit: Edit)
    requires n < OffsetCount(i) && oldPc + OffsetAt(i, n) == target
    requires MapOffset(edit, oldPc) == Some(newPc) && MapOffset(edit, target).Some?
    ensures var r := Retarget(OffsetAt(i, n), oldPc, newPc, edit, OffsetWidth(i));
            && r.Some? && |r.value| == OffsetWidth(i)
            && FromLeSigned(r.value) == MapOffset(edit, target).value - newPc
  {
    hide OffsetAt, ToLe, FromLeSigned;
    MapShrinks(edit, oldPc, target);
    OffsetFits(i, n);
    SignedRoundTrip(MapOffset(edit, target).value - newPc, OffsetWidth(i));
  }

  /** What relayout does to one instruction whose targets the edit maps. */
  ghost predicate Moved(i: Instruction, i2: Instruction, oldPc: nat, newPc: nat, edit: Edit) {
    && i2.opcode == i.opcode && |i2.operands| == |i.operands|
    && (OffsetCount(i) == 0 ==> i2 == i)
    && forall n | 0 <= n < OffsetCount(i) ::
         var target := oldPc + OffsetAt(i, n);
         && target >= 0 && MapOffset(edit, target).Some?
         && newPc + OffsetAt(i2, n) == MapOffset(edit, target).value
         && Within(OffsetAt(i, n), OffsetAt(i2, n))
  }

  lemma MovedInstruction(i: Instruction, oldPc: nat, newPc: nat, edit: Edit)
    requires MapOffset(edit, oldPc) == Some(newPc)
    requires forall n | 0 <= n < OffsetCount(i) :: oldPc + OffsetAt(i, n) >= 0 && MapOffset(edit, oldPc + OffsetAt(i, n)).Some?
    ensures RelayoutInstruction(i, oldPc, newPc, edit).Some?
    ensures Moved(i, RelayoutInstruction(i, oldPc, newPc, edit).value, oldPc, newPc, edit)
  {
    hide Retarget, FromLeSigned, MapOffset;
    var w := OffsetWidth(i);
    if OffsetCount(i) > 0 {
      RetargetCorrect(i, 0, oldPc, newPc, oldPc + OffsetAt(i, 0), edit);
      MapShrinks(edit, oldPc, oldPc + OffsetAt(i, 0));
      var first := Retarget(OffsetAt(i, 0), oldPc, newPc, edit, w).value;
      if OffsetCount(i) == 1 {
        assert first[0..][..w] == first;
      } else {
        RetargetCorrect(i, 1, oldPc, newPc, oldPc + OffsetAt(i, 1), edit);
        MapShrinks(edit, oldPc, oldPc + OffsetAt(i, 1));
        var second := Retarget(OffsetAt(i, 1), oldPc, newPc, edit, w).value;
        assert (first + second)[0..][..w] == first && (first + second)[w..][..w] == second;
      }
    }
  }

  /**
   * Relayout of a good script never fails, keeps the shape of every instruction, moves every
   * target to the index that stands for it, and no offset changes sign or grows.
   */
  lemma {:induction false} RelayoutCorrect(s: Script, s2: Script, edit: Edit, j: nat)
    requires GoodScript(s) && Edited(s, s2, edit) && j <= |s2|
    ensures Offsets(s2, PrefixOffsets(s), PrefixOffsets(s2), edit)
    ensures var r := Relayout(s2, PrefixOffsets(s), PrefixOffsets(s2), edit, j);
            && r.Some? && |r.value| == |s2| - j
            && forall m | j <= m < |s2| :: Moved(s2[m], r.value[m - j], Offset(s, OldIndex(edit, m)), Offset(s2, m), edit)
    decreases |s2| - j
  {
    hide Moved, RelayoutInstruction, Offset, GoodScript, Edited;
    EditedBounds(s, s2, edit);
    if j < |s2| {
      InstructionMoves(s, s2, edit, j);
      RelayoutCorrect(s, s2, edit, j + 1);
      var rest := Relayout(s2, PrefixOffsets(s), PrefixOffsets(s2), edit, j + 1).value;
      assert Relayout(s2, PrefixOffsets(s), PrefixOffsets(s2), edit, j).value[1..] == rest;
    }
  }

  lemma EditedBounds(s: Script, s2: Script, edit: Edit)
    requires Edited(s, s2, edit)
    ensures Offsets(s2, PrefixOffsets(s), PrefixOffsets(s2), edit)
  {
    hide Offset, MapOffset, SameOffsets;
  }

  lemma InstructionMoves(s: Script, s2: Script, edit: Edit, j: nat)
    requires GoodScript(s) && Edited(s, s2, edit) && j < |s2|
    ensures OldIndex(edit, j) < |s|
    ensures var oldPc, newPc := Offset(s, OldIndex(edit, j)), Offset(s2, j);
            var r := RelayoutInstruction(s2[j], oldPc, newPc, edit);
            r.Some? && Moved(s2[j], r.value, oldPc, newPc, edit)
  {
    hide Moved, RelayoutInstruction, Offset, OffsetAt, MapOffset, WellFormed;
    var o := OldIndex(edit, j);
    assert NewIndex(edit, o) == j;
    forall n | 0 <= n < OffsetCount(s2[j])
      ensures Offset(s, o) + OffsetAt(s2[j], n) >= 0 && MapOffset(edit, Offset(s, o) + OffsetAt(s2[j], n)).Some?
    {
      assert OffsetAt(s2[j], n) == OffsetAt(s[o], n) && HasTarget(s, o, n);
      var k :| Denotes(s, o, n, k);
      assert MapOffset(edit, Offset(s, k)).Some?;
    }
    MovedInstruction(s2[j], Offset(s, o), Offset(s2, j), edit);
  }

  /** Same lengths, same offsets. */
  lemma {:induction false} SameLengths(s: Script, s2: Script, k: nat)
    requires |s| == |s2| && k <= |s| && forall m :: 0 <= m < |s| ==> |s[m].operands| == |s2[m].operands|
    ensures Offset(s, k) == Offset(s2, k)
    decreases k
  {
    if k > 0 {
      SameLengths(s, s2, k - 1);
      OffsetStep(s, k - 1);
      OffsetStep(s2, k - 1);
    }
  }

  /** `out` is `s` after the edit: same instructions, every target where the edit moved it. */
  ghost predicate KeepsTargets(s: Script, out: Script, edit: Edit) {
    && (forall j :: 0 <= j < |out| ==> OldIndex(edit, j) < |s|)
    && (forall j :: 0 <= j < |out| ==> OffsetCount(out[j]) == OffsetCount(s[OldIndex(edit, j)]))
    && (forall j, n, k :: 0 <= j < |out| && Denotes(s, OldIndex(edit, j), n, k) ==> Denotes(out, j, n, NewIndex(edit, k)))
    && (forall j, n :: 0 <= j < |out| && 0 <= n < OffsetCount(out[j]) ==>
          Within(OffsetAt(s[OldIndex(edit, j)], n), OffsetAt(out[j], n)))
  }

  lemma {:induction false} RelaidScript(s: Script, s2: Script, edit: Edit) returns (out: Script)
    requires GoodScript(s) && Edited(s, s2, edit) && forall i :: i in s2 ==> WellFormed(i)
    ensures Offsets(s2, PrefixOffsets(s), PrefixOffsets(s2), edit)
    ensures Relayout(s2, PrefixOffsets(s), PrefixOffsets(s2), edit, 0) == Some(out)
    ensures |out| == |s2|
    ensures forall j :: 0 <= j < |s2| ==> out[j].opcode == s2[j].opcode && |out[j].operands| == |s2[j].operands|
    ensures forall j :: 0 <= j < |s2| && OffsetCount(s2[j]) == 0 ==> out[j] == s2[j]
    ensures KeepsTargets(s, out, edit) && GoodScript(out)
  {
    hide Offset, OffsetAt, RelayoutInstruction, MapOffset, Edited, GoodScript, WellFormed, KeepsTargets;
    RelayoutCorrect(s, s2, edit, 0);
    out := Relayout(s2, PrefixOffsets(s), PrefixOffsets(s2), edit, 0).value;
    forall j | 0 <= j < |s2| ensures Moved(s2[j], out[j], Offset(s, OldIndex(edit, j)), Offset(s2, j), edit) {
      assert out[j - 0] == out[j];
    }
    RelaidTargets(s, s2, out, edit);
    EditedBounds(s, s2, edit);
    RelaidGood(s, s2, out, edit);
  }

  lemma RelaidGood(s: Script, s2: Script, out: Script, edit: Edit)
    requires GoodScript(s) && (forall i :: i in s2 ==> WellFormed(i)) && |out| == |s2|
    requires forall j :: 0 <= j < |s2| ==> OldIndex(edit, j) < |s|
    requires forall j :: 0 <= j < |s2| ==> Moved(s2[j], out[j], Offset(s, OldIndex(edit, j)), Offset(s2, j), edit)
    requires KeepsTargets(s, out, edit)
    ensures GoodScript(out)
  {
    hide Offset, OffsetAt, MapOffset, WellFormed, Moved, Denotes;
    forall j | 0 <= j < |out| ensures WellFormed(out[j]) {
      assert s2[j] in s2;
      MovedWellFormed(s2[j], out[j], Offset(s, OldIndex(edit, j)), Offset(s2, j), edit);
    }
    forall j, n | 0 <= j < |out| && 0 <= n < OffsetCount(out[j]) ensures HasTarget(out, j, n) {
      assert HasTarget(s, OldIndex(edit, j), n);
      var k :| Denotes(s, OldIndex(edit, j), n, k);
      assert Denotes(out, j, n, NewIndex(edit, k));
    }
  }

  lemma MovedWellFormed(i: Instruction, i2: Instruction, oldPc: nat, newPc: nat, edit: Edit)
    requires Moved(i, i2, oldPc, newPc, edit) && WellFormed(i)
    ensures WellFormed(i2)
  {
    hide OffsetAt, MapOffset;
  }

  lemma RelaidTargets(s: Script, s2: Script, out: Script, edit: Edit)
    requires Edited(s, s2, edit) && |out| == |s2|
    requires forall j :: 0 <= j < |s2| ==> Moved(s2[j], out[j], Offset(s, OldIndex(edit, j)), Offset(s2, j), edit)
    ensures KeepsTargets(s, out, edit)
  {
    hide Offset, OffsetAt, MapOffset;
    forall j | 0 <= j < |out| ensures OffsetCount(out[j]) == OffsetCount(s[OldIndex(edit, j)]) && |out[j].operands| == |s2[j].operands| {
      assert Moved(s2[j], out[j], Offset(s, OldIndex(edit, j)), Offset(s2, j), edit);
    }
    forall j, n, k | 0 <= j < |out| && Denotes(s, OldIndex(edit, j), n, k)
      ensures Denotes(out, j, n, NewIndex(edit, k))
    {
      assert Moved(s2[j], out[j], Offset(s, OldIndex(edit, j)), Offset(s2, j), edit);
      assert OffsetAt(s[OldIndex(edit, j)], n) == OffsetAt(s2[j], n);
      assert MapOffset(edit, Offset(s, k)) == Some(Offset(s2, NewIndex(edit, k)));
      SameLengths(s2, out, j);
      SameLengths(s2, out, NewIndex(edit, k));
    }
    forall j, n | 0 <= j < |out| && 0 <= n < OffsetCount(out[j])
      ensures Within(OffsetAt(s[OldIndex(edit, j)], n), OffsetAt(out[j], n))
    {
      assert Moved(s2[j], out[j], Offset(s, OldIndex(edit, j)), Offset(s2, j), edit);
      assert OffsetAt(s[OldIndex(edit, j)], n) == OffsetAt(s2[j], n);
    }
  }
}
