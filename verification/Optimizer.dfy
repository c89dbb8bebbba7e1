/**
 * The optimizer as the compiler runs it: passes that edit a function in place (codegen/opt.rs),
 * each proved to be the scan of the same pass on values.
 */
module Optimizer {
  import opened Prelude
  import opened Bytecode
  import opened Vm
  import opened Layout
  import opened Shorten
  import opened Peephole
  import opened PeepholeFixpoint

  /** What a scan that has got to `index` still has to do. */
  ghost function Remaining(pass: Pass, r: Routine, index: nat, changed: bool): (Routine, bool)
    requires index <= |r.code|
  {
    (Scan(pass, r, index).0, changed || Scan(pass, r, index).1)
  }

  class CompiledFunction {
    const name: string
    const contract: Option<string>
    var instructions: Script
    var callPatches: Patches

    constructor (name: string, contract: Option<string>, instructions: Script, callPatches: Patches)
      ensures this.name == name && this.contract == contract && View() == Routine(instructions, callPatches)
    {
      this.name, this.contract, this.instructions, this.callPatches := name, contract, instructions, callPatches;
    }

    /** The name CALL_L sites use for this routine. */
    function LinkSymbol(): string {
      if contract.Some? then contract.value + "::" + name else name
    }

    function View(): Routine
      reads this
    {
      Routine(instructions, callPatches)
    }

    method ShiftCallPatchesAfterRemove(removedAt: nat, count: nat)
      modifies this`callPatches
      ensures callPatches == Shifted(old(callPatches), removedAt, count)
    {
      var threshold := removedAt + count;
      ghost var before := callPatches;
      for k := 0 to |callPatches|
        invariant |callPatches| == |before|
        invariant forall m :: 0 <= m < k ==> callPatches[m] == Shifted(before, removedAt, count)[m]
        invariant forall m :: k <= m < |before| ==> callPatches[m] == before[m]
      {
        var (index, callee) := callPatches[k];
        if index >= threshold {
          callPatches := callPatches[k := (index - count, callee)];
        }
      }
    }

    /** Is slot `n` loaded at or after `from`, before the next store to it? */
    method LoadedBeforeStore(n: byte, from: nat) returns (loaded: bool)
      ensures loaded == StillLoaded(instructions, n, from)
    {
      var next := from;
      while next < |instructions|
        invariant StillLoaded(instructions, n, from) == StillLoaded(instructions, n, next)
      {
        if LoadLocalSlot(instructions[next]) == Some(n) {
          return true;
        }
        if StoreSlot(instructions[next]) == Some(n) {
          return false;
        }
        next := next + 1;
      }
      return false;
    }

    method MergeAdjacentDuplicateLoads() returns (changed: bool)
      modifies this
      ensures (View(), changed) == Scan(MergeLoads, old(View()), 0)
    {
      hide Scan, Touched, LoadSlot;
      ghost var goal := Scan(MergeLoads, View(), 0);
      changed := false;
      var index := 0;
      while index + 1 < |instructions|
        invariant index <= |instructions| && Remaining(MergeLoads, View(), index, changed) == goal
        decreases |instructions| - index
      {
        ScanOnce(MergeLoads, View(), index, changed);
        var first, second := LoadSlot(instructions[index]), LoadSlot(instructions[index + 1]);
        if first.Some? && first == second {
          if Touched(callPatches, index, 2) {
            index := index + 1;
            continue;
          }
          instructions := instructions[index + 1 := Instruction(DUP, [])];
          changed := true;
          index := index + 1;
          continue;
        }
        index := index + 1;
      }
      ScanLast(MergeLoads, View(), index, changed);
    }

    method PeelRedundantDupDrop() returns (changed: bool)
      modifies this
      ensures (View(), changed) == Scan(DropDup, old(View()), 0)
    {
      hide Scan, Touched, Shifted;
      ghost var goal := Scan(DropDup, View(), 0);
      changed := false;
      var index := 0;
      while index + 1 < |instructions|
        invariant index <= |instructions| && Remaining(DropDup, View(), index, changed) == goal
        decreases |instructions| - index
      {
        ScanOnce(DropDup, View(), index, changed);
        if instructions[index].opcode == DUP && instructions[index + 1].opcode == DROP {
          if Touched(callPatches, index, 2) {
            index := index + 1;
            continue;
          }
          instructions := instructions[..index] + instructions[index + 2..];
          ShiftCallPatchesAfterRemove(index, 2);
          changed := true;
          continue;
        }
        index := index + 1;
      }
      ScanLast(DropDup, View(), index, changed);
    }

    method PeelRedundantStlocLdlocPair() returns (changed: bool)
      modifies this
      ensures (View(), changed) == Scan(DropStore, old(View()), 0)
    {
      hide Scan, Touched, Shifted, StoreSlot, LoadLocalSlot, StillLoaded;
      ghost var goal := Scan(DropStore, View(), 0);
      changed := false;
      var index := 0;
      while index + 1 < |instructions|
        invariant index <= |instructions| && Remaining(DropStore, View(), index, changed) == goal
        decreases |instructions| - index
      {
        ScanOnce(DropStore, View(), index, changed);
        var first, second := StoreSlot(instructions[index]), LoadLocalSlot(instructions[index + 1]);
        if first != second || first.None? {
          index := index + 1;
          continue;
        }
        if Touched(callPatches, index, 2) {
          index := index + 1;
          continue;
        }
        var loaded := LoadedBeforeStore(first.value, index + 2);
        if loaded {
          index := index + 1;
          continue;
        }
        instructions := instructions[..index] + instructions[index + 2..];
        ShiftCallPatchesAfterRemove(index, 2);
        changed := true;
      }
      ScanLast(DropStore, View(), index, changed);
    }

    method PeelRedundantUncondJmpToNext() returns (changed: bool)
      modifies this
      ensures (View(), changed) == Scan(PeelJump, old(View()), 0)
    {
      hide Scan, Touched, Shifted, TryDelete, FromLeSigned;
      ghost var goal := Scan(PeelJump, View(), 0);
      changed := false;
      var index := 0;
      while index < |instructions|
        invariant index <= |instructions| && Remaining(PeelJump, View(), index, changed) == goal
        decreases |instructions| - index
      {
        ScanOnce(PeelJump, View(), index, changed);
        var i := instructions[index];
        if !(i.opcode == JMP_L && |i.operands| == 4) && !(i.opcode == JMP && |i.operands| == 1) {
          index := index + 1;
          continue;
        }
        if FromLeSigned(i.operands) != EncodedLen(i) || index + 1 >= |instructions| {
          index := index + 1;
          continue;
        }
        if Touched(callPatches, index, 1) {
          index := index + 1;
          continue;
        }
        var trial := TryDeleteAt(instructions, index);
        if trial.None? {
          index := index + 1;
          continue;
        }
        ghost var before := View();
        instructions := trial.value;
        ShiftCallPatchesAfterRemove(index, 1);
        changed := true;
        assert View() == Apply(PeelJump, before, index);
        ApplyLength(PeelJump, before, index);
      }
      ScanEnd(PeelJump, View(), changed);
    }

    method ShortenLongPcRelativeBranches() returns (changed: bool)
      modifies this`instructions
      ensures (View(), changed) == Scan(Narrow, old(View()), 0)
    {
      hide Scan, TryShorten, Touched;
      ghost var goal := Scan(Narrow, View(), 0);
      changed := false;
      for index := 0 to |instructions|
        invariant |instructions| == |old(instructions)| && Remaining(Narrow, View(), index, changed) == goal
      {
        ScanOnce(Narrow, View(), index, changed);
        ghost var before := View();
        var trial := TryShortenAt(instructions, index);
        if trial.Some? {
          instructions := trial.value;
          changed := true;
          assert View() == Apply(Narrow, before, index);
          ApplyLength(Narrow, before, index);
        }
      }
      ScanEnd(Narrow, View(), changed);
    }

    /**
     * At most 64 rounds of the five passes, stopping after a round that changed nothing. A
     * function of fewer than 64 bytes and loads always ends with no pass applicable.
     */
    method Optimize()
      modifies this
      ensures View() == Peephole.Optimize(old(View()), 64)
      ensures Measure(old(instructions)) < 64 ==> Settled(View())
    {
      hide Scan, Measure, Settled;
      ghost var goal := Peephole.Optimize(View(), MAX_ROUNDS);
      CapOnlyTruncates(View(), MAX_ROUNDS);
      var round := 0;
      while round < MAX_ROUNDS
        invariant 0 <= round <= MAX_ROUNDS && goal == Peephole.Optimize(View(), MAX_ROUNDS - round)
      {
        round := round + 1;
        var merged := MergeAdjacentDuplicateLoads();
        var dropped := PeelRedundantDupDrop();
        var paired := PeelRedundantStlocLdlocPair();
        var peeled := PeelRedundantUncondJmpToNext();
        var shortened := ShortenLongPcRelativeBranches();
        if !merged && !dropped && !paired && !peeled && !shortened {
          break;
        }
      }
    }
  }

  lemma ScanOnce(pass: Pass, r: Routine, index: nat, changed: bool)
    requires index < |r.code|
    ensures Applies(pass, r, index) ==>
              && After(pass, index) <= |Apply(pass, r, index).code|
              && Remaining(pass, r, index, changed) == Remaining(pass, Apply(pass, r, index), After(pass, index), true)
    ensures !Applies(pass, r, index) ==> Remaining(pass, r, index, changed) == Remaining(pass, r, index + 1, changed)
  {
    hide Applies, Apply;
    if Applies(pass, r, index) {
      ApplyLength(pass, r, index);
    }
  }

  /** The passes over pairs stop one early: nothing applies at the last instruction. */
  lemma ScanLast(pass: Pass, r: Routine, index: nat, changed: bool)
    requires (pass.MergeLoads? || pass.DropDup? || pass.DropStore?) && |r.code| <= index + 1 && index <= |r.code|
    ensures Remaining(pass, r, index, changed) == (r, changed)
  {
    hide Touched, LoadSlot, StoreSlot, LoadLocalSlot, StillLoaded;
    assert Scan(pass, r, |r.code|) == (r, false);
  }

  lemma ScanEnd(pass: Pass, r: Routine, changed: bool)
    ensures Remaining(pass, r, |r.code|, changed) == (r, changed)
  {
  }
}
