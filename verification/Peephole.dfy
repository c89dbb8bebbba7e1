/**
 * The five peephole passes and their fixpoint loop (codegen/opt.rs), as functions on values: where
 * a pass applies, what it does there, and where it looks next.
 */
module Peephole {
  import opened Prelude
  import opened Bytecode
  import opened Vm
  import opened Layout
  import opened Shorten

  /** The code of one function and its unresolved call sites. */
  datatype Routine = Routine(code: Script, patches: Patches)

  datatype Pass = MergeLoads | DropDup | DropStore | PeelJump | Narrow

  /** Slot read by LDLOC or LDARG: the two share numbers here, although they are different slots. */
  function LoadSlot(i: Instruction): Option<byte> {
    if LoadLocalSlot(i).Some? then LoadLocalSlot(i) else LoadArgSlot(i)
  }

  /** Some call site lies in `[start, start + len)`. */
  predicate Touched(patches: Patches, start: nat, len: nat) {
    exists k :: 0 <= k < |patches| && start <= patches[k].0 < start + len
  }

  function Shifted(patches: Patches, at: nat, count: nat): (r: Patches)
    ensures |r| == |patches|
  {
    seq(|patches|, k requires 0 <= k < |patches| =>
      if patches[k].0 >= at + count then (patches[k].0 - count, patches[k].1) else patches[k])
  }

  /** Slot `n` is loaded at or after `from`, before it is stored again. */
  predicate StillLoaded(s: Script, n: byte, from: nat)
    decreases |s| - from
  {
    if from >= |s| then false
    else if LoadLocalSlot(s[from]) == Some(n) then true
    else if StoreSlot(s[from]) == Some(n) then false
    else StillLoaded(s, n, from + 1)
  }

  const DUP_INSTRUCTION := Instruction(DUP, [])

  predicate Applies(pass: Pass, r: Routine, index: nat)
    requires index < |r.code|
  {
    var s := r.code;
    match pass
    case MergeLoads =>
      && index + 1 < |s| && LoadSlot(s[index]).Some? && LoadSlot(s[index + 1]) == LoadSlot(s[index])
      && !Touched(r.patches, index, 2)
    case DropDup =>
      index + 1 < |s| && s[index].opcode == DUP && s[index + 1].opcode == DROP && !Touched(r.patches, index, 2)
    case DropStore =>
      && index + 1 < |s| && StoreSlot(s[index]).Some? && LoadLocalSlot(s[index + 1]) == StoreSlot(s[index])
      && !Touched(r.patches, index, 2) && !StillLoaded(s, StoreSlot(s[index]).value, index + 2)
    case PeelJump =>
      IsRedundantJump(s, index) && !Touched(r.patches, index, 1) && TryDelete(s, index).Some?
    case Narrow => TryShorten(s, index).Some?
  }

  function Apply(pass: Pass, r: Routine, index: nat): Routine
    requires index < |r.code| && Applies(pass, r, index)
  {
    match pass
    case MergeLoads => r.(code := r.code[index + 1 := DUP_INSTRUCTION])
    case DropDup => Routine(Remove(r.code, index, 2), Shifted(r.patches, index, 2))
    case DropStore => Routine(Remove(r.code, index, 2), Shifted(r.patches, index, 2))
    case PeelJump => Routine(TryDelete(r.code, index).value, Shifted(r.patches, index, 1))
    case Narrow => r.(code := TryShorten(r.code, index).value)
  }

  /** Where a pass looks next: removals look at the same index again. */
  function After(pass: Pass, index: nat): nat {
    if pass.MergeLoads? || pass.Narrow? then index + 1 else index
  }

  /** Instructions a pass takes out at one place. */
  function Removed(pass: Pass): nat {
    match pass
    case MergeLoads => 0
    case DropDup => 2
    case DropStore => 2
    case PeelJump => 1
    case Narrow => 0
  }

  lemma DeletedShape(s: Script, index: nat)
    requires index < |s| && TryDelete(s, index).Some?
    ensures var out, trial := TryDelete(s, index).value, Remove(s, index, 1);
            |out| == |s| - 1 && forall m :: 0 <= m < |out| ==> Reshaped(trial[m], out[m])
  {
    hide Reshaped, Offset;
    var trial := Remove(s, index, 1);
    var out := TryDelete(s, index).value;
    RelayoutShape(trial, PrefixOffsets(s), PrefixOffsets(trial), DeleteEdit(s, index), 0);
    assert forall m :: 0 <= m < |out| ==> out[m - 0] == out[m];
  }

  lemma ShortenedShape(s: Script, index: nat)
    requires index < |s| && TryShorten(s, index).Some?
    ensures CanShorten(s[index])
    ensures var out, trial := TryShorten(s, index).value, s[index := Narrowed(s[index])];
            |out| == |s| && forall m :: 0 <= m < |out| ==> Reshaped(trial[m], out[m])
  {
    hide Reshaped, Offset, Narrowed, CanShorten;
    var trial := s[index := Narrowed(s[index])];
    var out := TryShorten(s, index).value;
    RelayoutShape(trial, PrefixOffsets(s), PrefixOffsets(trial), NarrowEdit(s, index), 0);
    assert forall m :: 0 <= m < |out| ==> out[m - 0] == out[m];
  }

  lemma ApplyLength(pass: Pass, r: Routine, index: nat)
    requires index < |r.code| && Applies(pass, r, index)
    ensures |Apply(pass, r, index).code| == |r.code| - Removed(pass)
    ensures After(pass, index) <= |Apply(pass, r, index).code|
  {
    hide TryDelete, TryShorten, Reshaped, Narrowed, StillLoaded;
    match pass
    case PeelJump => DeletedShape(r.code, index);
    case Narrow => ShortenedShape(r.code, index);
    case _ =>
  }

  /** One forward scan from `index`, and whether it changed anything. */
  function Scan(pass: Pass, r: Routine, index: nat): (Routine, bool)
    requires index <= |r.code|
    decreases |r.code| - index
  {
    if index == |r.code| then (r, false)
    else if Applies(pass, r, index) then
      ApplyLength(pass, r, index);
      (Scan(pass, Apply(pass, r, index), After(pass, index)).0, true)
    else Scan(pass, r, index + 1)
  }

  /** The passes of one round, in order. */
  function Round(r: Routine): (Routine, bool) {
    var (r1, merged) := Scan(MergeLoads, r, 0);
    var (r2, dropped) := Scan(DropDup, r1, 0);
    var (r3, paired) := Scan(DropStore, r2, 0);
    var (r4, peeled) := Scan(PeelJump, r3, 0);
    var (r5, shortened) := Scan(Narrow, r4, 0);
    (r5, merged || dropped || paired || peeled || shortened)
  }

  /** Rounds until one changes nothing, at most `rounds` of them. */
  function Optimize(r: Routine, rounds: nat): Routine
    decreases rounds
  {
    if rounds == 0 then r
    else
      var (next, changed) := Round(r);
      if changed then Optimize(next, rounds - 1) else next
  }

  const MAX_ROUNDS: nat := 64
}
