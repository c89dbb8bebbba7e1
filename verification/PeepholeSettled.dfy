/** What code no pass can improve looks like, by opcode numbers and operands. */
module PeepholeSettled {
  import opened Prelude
  import opened Bytecode
  import opened Vm
  import opened Layout
  import opened Shorten
  import opened Peephole
  import opened PeepholeFixpoint
  import opened PeepholeCalls
  import opened PeepholeLayout

  /** LDLOC0 to LDLOC6, or LDLOC with a byte. */
  predicate LoadsLocal(i: Instruction, n: nat) {
    (n < 7 && i.opcode == 0x68 + n) || (i.opcode == 0x6F && i.operands == [n])
  }

  predicate LoadsArgument(i: Instruction, n: nat) {
    (n < 7 && i.opcode == 0x78 + n) || (i.opcode == 0x7F && i.operands == [n])
  }

  predicate StoresLocal(i: Instruction, n: nat) {
    (n < 7 && i.opcode == 0x70 + n) || (i.opcode == 0x77 && i.operands == [n])
  }

  /** Local `n` is read at or after `from` before it is written again. */
  predicate ReadLater(s: Script, n: nat, from: nat) {
    exists j :: from <= j < |s| && LoadsLocal(s[j], n) && forall k :: from <= k < j ==> !StoresLocal(s[k], n)
  }

  lemma SlotByNumber(i: Instruction, n: byte)
    requires WellFormed(i)
    ensures LoadLocalSlot(i) == Some(n) <==> LoadsLocal(i, n)
    ensures LoadArgSlot(i) == Some(n) <==> LoadsArgument(i, n)
    ensures StoreSlot(i) == Some(n) <==> StoresLocal(i, n)
  {
    assert |i.operands| == 1 ==> (i.operands == [n] <==> i.operands[0] == n);
  }

  lemma {:induction false} StillLoadedMeans(s: Script, n: byte, from: nat)
    requires forall k :: 0 <= k < |s| ==> WellFormed(s[k])
    ensures StillLoaded(s, n, from) <==> ReadLater(s, n, from)
    decreases |s| - from
  {
    hide LoadsLocal, StoresLocal, LoadLocalSlot, StoreSlot, WellFormed;
    if from < |s| {
      SlotByNumber(s[from], n);
      StillLoadedMeans(s, n, from + 1);
      LoadNotStore(s[from], n);
      if ReadLater(s, n, from) && !LoadsLocal(s[from], n) {
        var j :| from <= j < |s| && LoadsLocal(s[j], n) && forall k :: from <= k < j ==> !StoresLocal(s[k], n);
        assert from + 1 <= j;
      }
    }
  }

  lemma LoadNotStore(i: Instruction, n: nat)
    ensures LoadsLocal(i, n) ==> !StoresLocal(i, n)
  {
  }

  /** CALL_L sites are named by the table, so no other instruction is one. */
  lemma {:induction false} NotTouched(r: Routine, index: nat, len: nat)
    requires CallTable(r) && index + len <= |r.code|
    requires forall k :: index <= k < index + len ==> r.code[k].opcode != 0x35
    ensures !Touched(r.patches, index, len)
  {
  }

  /** Settled code has no DUP before a DROP. */
  lemma {:induction false} NoDupDrop(r: Routine, index: nat)
    requires Settled(r) && CallTable(r) && index + 1 < |r.code|
    ensures !(r.code[index].opcode == 0x4A && r.code[index + 1].opcode == 0x45)
  {
    hide Touched, CallTable;
    assert QuietFrom(DropDup, r, 0);
    assert !Applies(DropDup, r, index);
    if r.code[index].opcode == 0x4A && r.code[index + 1].opcode == 0x45 {
      NotTouched(r, index, 2);
    }
  }

  /** Nor two loads in a row of one slot number, be it a local's or an argument's. */
  lemma {:induction false} NoRepeatedLoad(r: Routine, index: nat, n: byte)
    requires Settled(r) && CallTable(r) && index + 1 < |r.code| && WellFormed(r.code[index]) && WellFormed(r.code[index + 1])
    requires LoadsLocal(r.code[index], n) || LoadsArgument(r.code[index], n)
    ensures !LoadsLocal(r.code[index + 1], n) && !LoadsArgument(r.code[index + 1], n)
  {
    hide Touched, CallTable, WellFormed, LoadsLocal, LoadsArgument, StoresLocal, LoadLocalSlot, LoadArgSlot, StoreSlot;
    SlotByNumber(r.code[index], n);
    SlotByNumber(r.code[index + 1], n);
    OneNamespace(r.code[index], n);
    OneNamespace(r.code[index + 1], n);
    assert QuietFrom(MergeLoads, r, 0);
    assert !Applies(MergeLoads, r, index);
    if LoadsLocal(r.code[index + 1], n) || LoadsArgument(r.code[index + 1], n) {
      NotTouched(r, index, 2);
    }
  }

  lemma OneNamespace(i: Instruction, n: byte)
    ensures LoadsArgument(i, n) ==> LoadLocalSlot(i) == None
    ensures LoadsLocal(i, n) || LoadsArgument(i, n) ==> i.opcode != 0x35
    ensures StoresLocal(i, n) ==> i.opcode != 0x35
  {
  }

  /** Nor a store followed by the load of that local, unless the local is read again before it is written. */
  lemma {:induction false} NoStoreLoad(r: Routine, index: nat, n: byte)
    requires Settled(r) && CallTable(r) && index + 1 < |r.code| && forall k :: 0 <= k < |r.code| ==> WellFormed(r.code[k])
    requires StoresLocal(r.code[index], n) && LoadsLocal(r.code[index + 1], n)
    ensures ReadLater(r.code, n, index + 2)
  {
    hide Touched, CallTable, WellFormed, LoadsLocal, LoadsArgument, StoresLocal, LoadLocalSlot, LoadArgSlot, StoreSlot, StillLoaded, ReadLater;
    SlotByNumber(r.code[index], n);
    SlotByNumber(r.code[index + 1], n);
    OneNamespace(r.code[index], n);
    OneNamespace(r.code[index + 1], n);
    assert QuietFrom(DropStore, r, 0);
    assert !Applies(DropStore, r, index);
    NotTouched(r, index, 2);
    StillLoadedMeans(r.code, n, index + 2);
  }

  /** JMP_L, JMPIF_L, JMPIFNOT_L and the six comparing long jumps, and ENDTRY_L. */
  const LONG: set<byte> := {0x23, 0x25, 0x27, 0x29, 0x2B, 0x2D, 0x2F, 0x31, 0x33, 0x3E}

  /** Nor a long branch whose offset would fit one byte. */
  lemma {:induction false} NoNarrowLong(r: Routine, index: nat)
    requires GoodScript(r.code) && CallTable(r) && Settled(r) && index < |r.code| && r.code[index].opcode in LONG
    ensures |r.code[index].operands| == 4 && !(-128 <= FromLeSigned(r.code[index].operands) <= 127)
  {
    hide GoodScript, CallTable, Settled, WellFormed, FromLeSigned, IsRedundantJump;
    SettledJumps(r, index);
    GoodAt(r.code, index);
    LongShape(r.code[index]);
  }

  lemma GoodAt(s: Script, index: nat)
    requires GoodScript(s) && index < |s|
    ensures WellFormed(s[index])
  {
  }

  lemma LongShape(i: Instruction)
    requires WellFormed(i) && i.opcode in LONG
    ensures |i.operands| == 4 && ShortForm(i.opcode).Some?
  {
  }

  /** Nor a jump to the instruction after it. */
  lemma {:induction false} NoJumpToNext(r: Routine, index: nat)
    requires GoodScript(r.code) && CallTable(r) && Settled(r) && index + 1 < |r.code|
    ensures r.code[index].opcode == 0x22 ==> |r.code[index].operands| == 1 && FromLeSigned(r.code[index].operands) != 2
    ensures r.code[index].opcode == 0x23 ==> |r.code[index].operands| == 4 && FromLeSigned(r.code[index].operands) != 5
  {
    hide GoodScript, CallTable, Settled, FromLeSigned, CanShorten;
    SettledJumps(r, index);
    GoodAt(r.code, index);
  }

  /** A routine of fewer than 64 bytes and loads ends so: 64 rounds are allowed. */
  lemma {:induction false} SmallSettles(r: Routine)
    requires Measure(r.code) < 64
    ensures Settled(Optimize(r, MAX_ROUNDS)) && Optimize(r, MAX_ROUNDS) == OptimizeFully(r) && MAX_ROUNDS == 64
  {
    hide Settled, Measure, Round;
    CapOnlyTruncates(r, MAX_ROUNDS);
  }
}
