/** Laying routines out in one script and resolving CALL_L sites (codegen/mod.rs), as functions on values. */
module Linker {
  import opened Prelude
  import opened Bytecode
  import opened Disasm
  import opened Vm
  import opened Layout
  import opened Shorten
  import opened LayoutRun
  import opened Peephole
  import opened PeepholeCalls

  datatype Function = Function(symbol: string, routine: Routine)

  /** Package functions, then struct methods, then contract methods. */
  type Program = seq<Function>

  datatype LinkError = DuplicateRoutine(symbol: string) | TargetNotFound(symbol: string) | OffsetOverflow | WrongInstruction

  /** The instructions of all routines, in order. */
  function Code(p: Program): Script {
    if p == [] then [] else p[0].routine.code + Code(p[1..])
  }

  /** Index in `Code(p)` of the first instruction of routine `t`. */
  function Base(p: Program, t: nat): nat
    requires t <= |p|
  {
    |Code(p[..t])|
  }

  /** Byte offset of routine `t` in the flattened script. */
  function Start(p: Program, t: nat): nat
    requires t <= |p|
  {
    ByteLen(Code(p[..t]))
  }

  /** Symbol to byte offset, for the first `k` routines. */
  function Table(p: Program, k: nat): Result<map<string, nat>, LinkError>
    requires k <= |p|
  {
    if k == 0 then Ok(map[])
    else
      var m :- Table(p, k - 1);
      var symbol := p[k - 1].symbol;
      if symbol in m then Err(DuplicateRoutine(symbol)) else Ok(m[symbol := Start(p, k - 1)])
  }

  predicate PatchesInRange(r: Routine) {
    forall k :: 0 <= k < |r.patches| ==> r.patches[k].0 < |r.code|
  }

  function Displacement(code: Script, start: nat, target: nat, index: nat): int
    requires index < |code|
  {
    target - (start + Offset(code, index))
  }

  function LinkCall(code: Script, start: nat, offsets: map<string, nat>, patch: (nat, string)): Result<Script, LinkError>
    requires patch.0 < |code|
  {
    if patch.1 !in offsets then Err(TargetNotFound(patch.1))
    else
      var relative := Displacement(code, start, offsets[patch.1], patch.0);
      if !FitsI32(relative) then Err(OffsetOverflow)
      else if code[patch.0].opcode != CALL_L || |code[patch.0].operands| != 4 then Err(WrongInstruction)
      else Ok(code[patch.0 := Instruction(CALL_L, ToLe(relative, 4))])
  }

  function LinkCalls(code: Script, start: nat, offsets: map<string, nat>, patches: Patches): Result<Script, LinkError>
    requires PatchesInRange(Routine(code, patches))
    decreases |patches|
  {
    if patches == [] then Ok(code)
    else
      var linked :- LinkCall(code, start, offsets, patches[0]);
      LinkCalls(linked, start, offsets, patches[1..])
  }

  function LinkFunction(f: Function, offsets: map<string, nat>): Result<Function, LinkError>
    requires PatchesInRange(f.routine) && f.symbol in offsets
  {
    var code :- LinkCalls(f.routine.code, offsets[f.symbol], offsets, f.routine.patches);
    Ok(Function(f.symbol, Routine(code, [])))
  }

  predicate Known(p: Program, offsets: map<string, nat>) {
    forall t :: 0 <= t < |p| ==> PatchesInRange(p[t].routine) && p[t].symbol in offsets
  }

  function LinkAll(p: Program, offsets: map<string, nat>): Result<Program, LinkError>
    requires Known(p, offsets)
  {
    if p == [] then Ok([])
    else
      var first :- LinkFunction(p[0], offsets);
      var rest :- LinkAll(p[1..], offsets);
      Ok([first] + rest)
  }

  predicate InRangePatches(p: Program) {
    forall t :: 0 <= t < |p| ==> PatchesInRange(p[t].routine)
  }

  function Link(p: Program): Result<Program, LinkError>
    requires InRangePatches(p)
  {
    var offsets :- Table(p, |p|);
    TableMeaning(p, |p|);
    LinkAll(p, offsets)
  }

  predicate DistinctSymbols(p: Program, k: nat)
    requires k <= |p|
  {
    forall i, j :: 0 <= i < j < k ==> p[i].symbol != p[j].symbol
  }

  /** The table exists exactly when no two routines share a symbol, and maps each to its start. */
  lemma {:induction false} TableMeaning(p: Program, k: nat)
    requires k <= |p|
    ensures Table(p, k).Ok? <==> DistinctSymbols(p, k)
    ensures Table(p, k).Ok? ==>
              && (forall t :: 0 <= t < k ==> p[t].symbol in Table(p, k).value && Table(p, k).value[p[t].symbol] == Start(p, t))
              && (forall s :: s in Table(p, k).value ==> Defines(p, k, s))
  {
    hide Start;
    if k > 0 {
      TableMeaning(p, k - 1);
      if Table(p, k - 1).Ok? {
        var m := Table(p, k - 1).value;
        if p[k - 1].symbol in m {
          assert Defines(p, k - 1, p[k - 1].symbol);
        } else {
          forall s | s in m[p[k - 1].symbol := Start(p, k - 1)] ensures Defines(p, k, s) {
            if s != p[k - 1].symbol {
              assert Defines(p, k - 1, s);
            }
          }
        }
      }
    }
  }

  predicate Defines(p: Program, k: nat, symbol: string)
    requires k <= |p|
  {
    exists t :: 0 <= t < k && p[t].symbol == symbol
  }

  // ----- one routine -----

  /** What linking needs of one call site. */
  predicate Resolvable(code: Script, start: nat, offsets: map<string, nat>, patch: (nat, string)) {
    && patch.0 < |code| && patch.1 in offsets
    && FitsI32(Displacement(code, start, offsets[patch.1], patch.0))
    && code[patch.0].opcode == CALL_L && |code[patch.0].operands| == 4
  }

  predicate SameShape(a: Script, b: Script) {
    |a| == |b| && forall j :: 0 <= j < |a| ==> a[j].opcode == b[j].opcode && |a[j].operands| == |b[j].operands|
  }

  lemma ShapeKeepsOffset(a: Script, b: Script, k: nat)
    requires SameShape(a, b) && k <= |a|
    ensures Offset(a, k) == Offset(b, k)
  {
    hide Offset;
    SameLengths(a, b, k);
  }

  lemma ResolvableSameShape(a: Script, b: Script, start: nat, offsets: map<string, nat>, patch: (nat, string))
    requires SameShape(a, b)
    ensures Resolvable(a, start, offsets, patch) == Resolvable(b, start, offsets, patch)
  {
    hide Offset;
    if patch.0 < |a| {
      ShapeKeepsOffset(a, b, patch.0);
    }
  }

  predicate AllResolvable(code: Script, start: nat, offsets: map<string, nat>, patches: Patches) {
    forall k :: 0 <= k < |patches| ==> Resolvable(code, start, offsets, patches[k])
  }

  /** Linking a routine succeeds exactly when every call site can be resolved; it keeps the layout. */
  lemma {:induction false} LinkCallsSucceeds(code: Script, start: nat, offsets: map<string, nat>, patches: Patches)
    requires PatchesInRange(Routine(code, patches))
    ensures var r := LinkCalls(code, start, offsets, patches);
            && (r.Ok? <==> AllResolvable(code, start, offsets, patches))
            && (r.Ok? ==> SameShape(code, r.value))
    decreases |patches|
  {
    hide Resolvable, Displacement, ToLe;
    if patches != [] {
      LinkCallStep(code, start, offsets, patches[0]);
      var first := LinkCall(code, start, offsets, patches[0]);
      if first.Ok? {
        LinkCallsSucceeds(first.value, start, offsets, patches[1..]);
        forall k | 0 <= k < |patches|
          ensures Resolvable(code, start, offsets, patches[k]) == Resolvable(first.value, start, offsets, patches[k])
        {
          ResolvableSameShape(code, first.value, start, offsets, patches[k]);
        }
        assert forall k :: 0 < k < |patches| ==> patches[k] == patches[1..][k - 1];
      } else {
        assert !Resolvable(code, start, offsets, patches[0]);
      }
    }
  }

  lemma LinkCallStep(code: Script, start: nat, offsets: map<string, nat>, patch: (nat, string))
    requires patch.0 < |code|
    ensures LinkCall(code, start, offsets, patch).Ok? <==> Resolvable(code, start, offsets, patch)
    ensures LinkCall(code, start, offsets, patch).Ok? ==> SameShape(code, LinkCall(code, start, offsets, patch).value)
  {
    hide Displacement, ToLe;
  }

  /** CALL_L to byte `target`, from instruction `index` of a routine at `start`. */
  function LinkedCall(code: Script, start: nat, target: nat, index: nat): Instruction
    requires index < |code|
  {
    Instruction(CALL_L, ToLe(Displacement(code, start, target, index), 4))
  }

  predicate Increasing(patches: Patches) {
    forall j, k :: 0 <= j < k < |patches| ==> patches[j].0 < patches[k].0
  }

  predicate Untouched(patches: Patches, j: nat) {
    forall k :: 0 <= k < |patches| ==> patches[k].0 != j
  }

  /** Each call site gets its own displacement; nothing else changes. */
  lemma {:induction false} LinkCallsResult(code: Script, start: nat, offsets: map<string, nat>, patches: Patches)
    requires PatchesInRange(Routine(code, patches)) && Increasing(patches)
    requires AllResolvable(code, start, offsets, patches)
    ensures var r := LinkCalls(code, start, offsets, patches);
            && r.Ok? && SameShape(code, r.value)
            && (forall j :: 0 <= j < |code| && Untouched(patches, j) ==> r.value[j] == code[j])
            && (forall k :: 0 <= k < |patches| ==>
                  r.value[patches[k].0] == LinkedCall(code, start, offsets[patches[k].1], patches[k].0))
    decreases |patches|
  {
    hide Resolvable, Displacement, ToLe, LinkedCall, LinkCall;
    LinkCallsSucceeds(code, start, offsets, patches);
    if patches != [] {
      LinkCallStep(code, start, offsets, patches[0]);
      LinkCallValue(code, start, offsets, patches[0]);
      var first, rest := LinkCall(code, start, offsets, patches[0]).value, patches[1..];
      forall k | 0 <= k < |rest|
        ensures Resolvable(first, start, offsets, rest[k])
        ensures rest[k].1 in offsets && LinkedCall(code, start, offsets[rest[k].1], rest[k].0) == LinkedCall(first, start, offsets[rest[k].1], rest[k].0)
      {
        assert Resolvable(code, start, offsets, patches[k + 1]);
        ResolvableSameShape(code, first, start, offsets, rest[k]);
        LinkedCallSameShape(code, first, start, offsets, rest[k]);
      }
      LinkCallsResult(first, start, offsets, rest);
      var out := LinkCalls(first, start, offsets, rest).value;
      assert Untouched(rest, patches[0].0);
      assert out[patches[0].0] == first[patches[0].0];
      assert forall k :: 0 < k < |patches| ==> patches[k] == rest[k - 1];
      assert forall j :: 0 <= j < |code| && Untouched(patches, j) ==> Untouched(rest, j) && j != patches[0].0;
    }
  }

  lemma LinkCallValue(code: Script, start: nat, offsets: map<string, nat>, patch: (nat, string))
    requires patch.0 < |code| && LinkCall(code, start, offsets, patch).Ok?
    ensures patch.1 in offsets
    ensures LinkCall(code, start, offsets, patch).value == code[patch.0 := LinkedCall(code, start, offsets[patch.1], patch.0)]
    ensures |LinkCall(code, start, offsets, patch).value| == |code|
  {
    hide Displacement, ToLe;
  }

  lemma LinkedCallSameShape(a: Script, b: Script, start: nat, offsets: map<string, nat>, patch: (nat, string))
    requires SameShape(a, b) && patch.0 < |a| && Resolvable(a, start, offsets, patch)
    ensures patch.1 in offsets
    ensures LinkedCall(a, start, offsets[patch.1], patch.0) == LinkedCall(b, start, offsets[patch.1], patch.0)
  {
    hide Offset, ToLe;
    ShapeKeepsOffset(a, b, patch.0);
  }

  // ----- the whole program -----

  /** Everything linking needs: one routine per symbol, every callee present, within reach. */
  predicate Linkable(p: Program) {
    && DistinctSymbols(p, |p|)
    && forall t :: 0 <= t < |p| ==> CallsResolve(p, t)
  }

  predicate CallsResolve(p: Program, t: nat)
    requires t < |p|
  {
    forall k :: 0 <= k < |p[t].routine.patches| ==> CallResolves(p, t, p[t].routine.patches[k])
  }

  predicate CallResolves(p: Program, t: nat, patch: (nat, string))
    requires t < |p|
  {
    var code := p[t].routine.code;
    && patch.0 < |code| && code[patch.0].opcode == CALL_L && |code[patch.0].operands| == 4
    && exists u :: 0 <= u < |p| && p[u].symbol == patch.1 && FitsI32(Displacement(code, Start(p, t), Start(p, u), patch.0))
  }

  lemma ResolvableMeans(p: Program, t: nat, offsets: map<string, nat>, patch: (nat, string))
    requires Table(p, |p|) == Ok(offsets) && t < |p|
    ensures CallResolves(p, t, patch) <==> Resolvable(p[t].routine.code, Start(p, t), offsets, patch)
  {
    hide Displacement, Start, Table, DistinctSymbols;
    TableMeaning(p, |p|);
    if Resolvable(p[t].routine.code, Start(p, t), offsets, patch) {
      assert Defines(p, |p|, patch.1);
    }
  }

  /** Linking succeeds exactly on linkable programs. */
  lemma {:induction false} LinkSucceeds(p: Program)
    requires InRangePatches(p)
    ensures Link(p).Ok? <==> Linkable(p)
  {
    hide Table, LinkAll, Resolvable, CallResolves, DistinctSymbols;
    TableMeaning(p, |p|);
    if Table(p, |p|).Ok? {
      var offsets := Table(p, |p|).value;
      LinkAllSucceeds(p, offsets);
      forall t | 0 <= t < |p|
        ensures CallsResolve(p, t) <==> AllResolvable(p[t].routine.code, Start(p, t), offsets, p[t].routine.patches)
      {
        forall k | 0 <= k < |p[t].routine.patches|
          ensures CallResolves(p, t, p[t].routine.patches[k]) <==>
                  Resolvable(p[t].routine.code, Start(p, t), offsets, p[t].routine.patches[k])
        {
          ResolvableMeans(p, t, offsets, p[t].routine.patches[k]);
        }
      }
    }
  }

  lemma {:induction false} LinkAllSucceeds(p: Program, offsets: map<string, nat>)
    requires Known(p, offsets)
    ensures LinkAll(p, offsets).Ok? <==>
            forall t :: 0 <= t < |p| ==> AllResolvable(p[t].routine.code, offsets[p[t].symbol], offsets, p[t].routine.patches)
    ensures LinkAll(p, offsets).Ok? ==>
            && |LinkAll(p, offsets).value| == |p|
            && forall t :: 0 <= t < |p| ==> LinkFunction(p[t], offsets) == Ok(LinkAll(p, offsets).value[t])
  {
    hide AllResolvable, LinkCalls, PatchesInRange;
    if p != [] {
      LinkCallsSucceeds(p[0].routine.code, offsets[p[0].symbol], offsets, p[0].routine.patches);
      LinkAllSucceeds(p[1..], offsets);
      assert forall t :: 0 < t < |p| ==> p[t] == p[1..][t - 1];
    }
  }
}
