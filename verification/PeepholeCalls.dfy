/** No peephole pass loses, duplicates or mixes up a call site. */
module PeepholeCalls {
  import opened Prelude
  import opened Bytecode
  import opened Vm
  import opened Layout
  import opened Shorten
  import opened Peephole

  /** CALL_L as the builder leaves it for the linker. */
  const OPEN_CALL := Instruction(CALL_L, [0, 0, 0, 0])

  predicate HasPatch(r: Routine, j: nat) {
    exists k :: 0 <= k < |r.patches| && r.patches[k].0 == j
  }

  /** The call sites are exactly the CALL_L instructions, in program order, all still open. */
  predicate CallTable(r: Routine) {
    && (forall k :: 0 <= k < |r.patches| ==> r.patches[k].0 < |r.code| && r.code[r.patches[k].0] == OPEN_CALL)
    && (forall j, k :: 0 <= j < k < |r.patches| ==> r.patches[j].0 < r.patches[k].0)
    && (forall j :: 0 <= j < |r.code| && r.code[j].opcode == CALL_L ==> HasPatch(r, j))
  }

  function Symbols(patches: Patches): (r: seq<string>)
    ensures |r| == |patches|
  {
    seq(|patches|, k requires 0 <= k < |patches| => patches[k].1)
  }

  lemma ZeroOperand()
    ensures ToLe(0, 4) == OPEN_CALL.operands && FromLeSigned(OPEN_CALL.operands) == 0
  {
    assert ToLe(0, 4) == OPEN_CALL.operands by {
      assert ToLe(0, 3) == [0] + ToLe(0, 2);
      assert ToLe(0, 1) == [0] + ToLe(0, 0);
    }
    I32RoundTrip(0);
  }

  lemma OpenCallKept(oldPc: nat, newPc: nat, edit: Edit)
    requires MapOffset(edit, oldPc) == Some(newPc)
    ensures RelayoutInstruction(OPEN_CALL, oldPc, newPc, edit) == Some(OPEN_CALL)
  {
    hide ToLe, FromLeSigned, MapOffset, HalfRange;
    ZeroOperand();
    assert OPEN_CALL.operands[0..][..4] == OPEN_CALL.operands;
    WidthRanges();
  }

  /** Relayout leaves open calls open: their offset is 0, to themselves. */
  lemma RelayoutKeepsCalls(s: Script, s2: Script, edit: Edit)
    requires Edited(s, s2, edit)
    ensures Offsets(s2, PrefixOffsets(s), PrefixOffsets(s2), edit)
    ensures var r := Relayout(s2, PrefixOffsets(s), PrefixOffsets(s2), edit, 0);
            r.Some? ==>
              && |r.value| == |s2|
              && forall j :: 0 <= j < |s2| ==> r.value[j].opcode == s2[j].opcode && (s2[j] == OPEN_CALL ==> r.value[j] == OPEN_CALL)
  {
    hide RelayoutInstruction, Offset, Edited, Relayout;
    EditedBounds(s, s2, edit);
    RelayoutShape(s2, PrefixOffsets(s), PrefixOffsets(s2), edit, 0);
    var r := Relayout(s2, PrefixOffsets(s), PrefixOffsets(s2), edit, 0);
    if r.Some? {
      forall j | 0 <= j < |s2|
        ensures r.value[j].opcode == s2[j].opcode && (s2[j] == OPEN_CALL ==> r.value[j] == OPEN_CALL)
      {
        assert Reshaped(s2[j], r.value[j - 0]);
        EditedStart(s, s2, edit, j);
        if s2[j] == OPEN_CALL {
          OpenCallKept(Offset(s, OldIndex(edit, j)), Offset(s2, j), edit);
        }
      }
    }
  }

  lemma EditedStart(s: Script, s2: Script, edit: Edit, j: nat)
    requires Edited(s, s2, edit) && j < |s2|
    ensures OldIndex(edit, j) < |s| && MapOffset(edit, Offset(s, OldIndex(edit, j))) == Some(Offset(s2, j))
  {
    hide Offset, MapOffset, SameOffsets;
    assert NewIndex(edit, OldIndex(edit, j)) == j;
  }

  /** `out` is `code` with `count` instructions gone at `index`, call for call. */
  lemma RemovedCalls(r: Routine, index: nat, count: nat, out: Script)
    requires CallTable(r) && index + count <= |r.code| && !Touched(r.patches, index, count)
    requires |out| == |r.code| - count
    requires forall j :: 0 <= j < |out| ==> out[j].opcode == Remove(r.code, index, count)[j].opcode
    requires forall j :: 0 <= j < |out| && Remove(r.code, index, count)[j] == OPEN_CALL ==> out[j] == OPEN_CALL
    ensures CallTable(Routine(out, Shifted(r.patches, index, count)))
    ensures Symbols(Shifted(r.patches, index, count)) == Symbols(r.patches)
  {
    var next := Routine(out, Shifted(r.patches, index, count));
    forall j | 0 <= j < |out| && out[j].opcode == CALL_L ensures HasPatch(next, j) {
      RemovedPatch(r, index, count, j);
    }
    forall k | 0 <= k < |r.patches| ensures next.patches[k].0 < |out| && out[next.patches[k].0] == OPEN_CALL {
      RemovedSite(r, index, count, k);
    }
    RemovedOrder(r, index, count);
  }

  lemma RemovedPatch(r: Routine, index: nat, count: nat, j: nat)
    requires CallTable(r) && index + count <= |r.code| && j < |r.code| - count
    requires Remove(r.code, index, count)[j].opcode == CALL_L
    ensures HasPatch(Routine(Remove(r.code, index, count), Shifted(r.patches, index, count)), j)
  {
    var o := if j < index then j else j + count;
    assert Remove(r.code, index, count)[j] == r.code[o] && HasPatch(r, o);
    var k :| 0 <= k < |r.patches| && r.patches[k].0 == o;
    assert Shifted(r.patches, index, count)[k].0 == j;
  }

  lemma RemovedSite(r: Routine, index: nat, count: nat, k: nat)
    requires CallTable(r) && index + count <= |r.code| && !Touched(r.patches, index, count) && k < |r.patches|
    ensures var j := Shifted(r.patches, index, count)[k].0;
            j < |r.code| - count && Remove(r.code, index, count)[j] == OPEN_CALL
  {
    var o := r.patches[k].0;
    assert !(index <= o < index + count);
  }

  lemma RemovedOrder(r: Routine, index: nat, count: nat)
    requires CallTable(r) && !Touched(r.patches, index, count)
    ensures var p := Shifted(r.patches, index, count); forall j, k :: 0 <= j < k < |p| ==> p[j].0 < p[k].0
  {
    var p := Shifted(r.patches, index, count);
    forall j, k | 0 <= j < k < |p| ensures p[j].0 < p[k].0 {
      assert !(index <= r.patches[j].0 < index + count) && !(index <= r.patches[k].0 < index + count);
    }
  }

  lemma ReplacedCalls(r: Routine, out: Script)
    requires CallTable(r) && |out| == |r.code|
    requires forall j :: 0 <= j < |out| ==> (out[j].opcode == CALL_L <==> r.code[j].opcode == CALL_L)
    requires forall j :: 0 <= j < |out| && r.code[j] == OPEN_CALL ==> out[j] == OPEN_CALL
    ensures CallTable(r.(code := out))
  {
    forall j | 0 <= j < |out| && out[j].opcode == CALL_L ensures HasPatch(r.(code := out), j) {
      assert HasPatch(r, j);
    }
  }

  lemma ApplyKeepsCalls(pass: Pass, r: Routine, index: nat)
    requires CallTable(r) && index < |r.code| && Applies(pass, r, index)
    ensures CallTable(Apply(pass, r, index)) && Symbols(Apply(pass, r, index).patches) == Symbols(r.patches)
  {
    hide CallTable, Shifted, TryDelete, TryShorten, Relayout, PrefixOffsets, StillLoaded, Symbols, Touched, CanShorten, Narrowed;
    var s := r.code;
    match pass
    case MergeLoads =>
      ReplacedCalls(r, s[index + 1 := DUP_INSTRUCTION]);
    case DropDup =>
      RemovedCalls(r, index, 2, Remove(s, index, 2));
    case DropStore =>
      RemovedCalls(r, index, 2, Remove(s, index, 2));
    case PeelJump =>
      DeleteKeepsCalls(s, index);
      RemovedCalls(r, index, 1, TryDelete(s, index).value);
    case Narrow =>
      ShortenKeepsCalls(s, index);
      ReplacedCalls(r, TryShorten(s, index).value);
  }

  lemma DeleteKeepsCalls(s: Script, index: nat)
    requires index < |s| && TryDelete(s, index).Some?
    ensures var out, trial := TryDelete(s, index).value, Remove(s, index, 1);
            && |out| == |trial|
            && (forall j :: 0 <= j < |out| ==> out[j].opcode == trial[j].opcode)
            && (forall j :: 0 <= j < |out| && trial[j] == OPEN_CALL ==> out[j] == OPEN_CALL)
  {
    hide Relayout, PrefixOffsets, Edited, Remove, DeleteEdit;
    DeleteEdited(s, index);
    RelayoutKeepsCalls(s, Remove(s, index, 1), DeleteEdit(s, index));
  }

  lemma ShortenKeepsCalls(s: Script, index: nat)
    requires index < |s| && TryShorten(s, index).Some?
    ensures var out := TryShorten(s, index).value;
            && |out| == |s|
            && (forall j :: 0 <= j < |out| ==> (out[j].opcode == CALL_L <==> s[j].opcode == CALL_L))
            && (forall j :: 0 <= j < |out| && s[j] == OPEN_CALL ==> out[j] == OPEN_CALL)
  {
    hide Relayout, PrefixOffsets, Edited, NarrowEdit;
    NarrowEdited(s, index);
    RelayoutKeepsCalls(s, s[index := Narrowed(s[index])], NarrowEdit(s, index));
  }

  lemma {:induction false} ScanKeepsCalls(pass: Pass, r: Routine, index: nat)
    requires CallTable(r) && index <= |r.code|
    ensures CallTable(Scan(pass, r, index).0) && Symbols(Scan(pass, r, index).0.patches) == Symbols(r.patches)
    decreases |r.code| - index
  {
    hide CallTable, Symbols, Applies, Apply;
    if index < |r.code| {
      if Applies(pass, r, index) {
        ApplyLength(pass, r, index);
        ApplyKeepsCalls(pass, r, index);
        ScanKeepsCalls(pass, Apply(pass, r, index), After(pass, index));
      } else {
        ScanKeepsCalls(pass, r, index + 1);
      }
    }
  }

  /**
   * However often the passes run, the k-th CALL_L of the routine is still the k-th entry of its
   * call table, and the callees are the same symbols in the same order.
   */
  lemma {:induction false} OptimizeKeepsCalls(r: Routine, rounds: nat)
    requires CallTable(r)
    ensures CallTable(Optimize(r, rounds)) && Symbols(Optimize(r, rounds).patches) == Symbols(r.patches)
    decreases rounds
  {
    hide CallTable, Symbols, Scan;
    if rounds > 0 {
      ScanKeepsCalls(MergeLoads, r, 0);
      var r1 := Scan(MergeLoads, r, 0).0;
      ScanKeepsCalls(DropDup, r1, 0);
      var r2 := Scan(DropDup, r1, 0).0;
      ScanKeepsCalls(DropStore, r2, 0);
      var r3 := Scan(DropStore, r2, 0).0;
      ScanKeepsCalls(PeelJump, r3, 0);
      var r4 := Scan(PeelJump, r3, 0).0;
      ScanKeepsCalls(Narrow, r4, 0);
      OptimizeKeepsCalls(Round(r).0, rounds - 1);
    }
  }
}
