/**
 * What the three passes that do not relayout do to branch-free code. `Line` runs such code without
 * a pc; a run that does not fault keeps its stack, arguments and events, and only a local that no
 * later instruction reads may differ.
 */
module PeepholeLine {
  import opened Prelude
  import opened Bytecode
  import opened Vm
  import opened Layout
  import opened Shorten
  import opened LayoutRun
  import opened Peephole
  import opened PeepholeLayout

  /** What the k-th call of a routine does to the stack and the trace; `None` is a fault. */
  type Calls = (nat, List<Value>, seq<Event>) -> Option<(List<Value>, seq<Event>)>

  predicate IsStraight(i: Instruction) {
    !IsJump(i.opcode) && i.opcode != CALL && !IsUnmodelled(i.opcode)
  }

  predicate BranchFree(s: Script) {
    forall i :: i in s ==> IsStraight(i)
  }

  /** Run branch-free code from instruction `at` to its RET or its end, `k` calls made so far. */
  function Line(ops: Ops, call: Calls, s: Script, at: nat, k: nat, d: Data): Option<Data>
    decreases |s| - at
  {
    if at >= |s| || s[at].opcode == RET then Some(d)
    else
      match LineStep(ops, call, s[at], k, d)
      case None => None
      case Some((d', k')) => Line(ops, call, s, at + 1, k', d')
  }

  function LineStep(ops: Ops, call: Calls, i: Instruction, k: nat, d: Data): Option<(Data, nat)> {
    if i.opcode == CALL_L then
      match call(k, d.stack, d.trace)
      case None => None
      case Some((stack, trace)) => Some((d.(stack := stack, trace := trace), k + 1))
    else
      match ExecData(ops, i, d)
      case None => None
      case Some(d') => Some((d', k))
  }

  /** The same but for the value in local `n`. */
  predicate Similar(n: byte, d: Data, d2: Data) {
    && d.stack == d2.stack && d.args == d2.args && d.trace == d2.trace && |d.locals| == |d2.locals|
    && forall k :: 0 <= k < |d.locals| && k != n ==> d.locals[k] == d2.locals[k]
  }

  /** The same stack, arguments and trace: nothing a caller sees differs. */
  predicate SameOutside(d: Data, d2: Data) {
    d.stack == d2.stack && d.args == d2.args && d.trace == d2.trace
  }

  // ----- a store nobody reads -----

  lemma {:induction false} ExecSimilar(ops: Ops, i: Instruction, n: byte, d: Data, d2: Data)
    requires Similar(n, d, d2) && LoadLocalSlot(i) != Some(n)
    ensures ExecData(ops, i, d).Some? == ExecData(ops, i, d2).Some?
    ensures ExecData(ops, i, d).Some? ==>
              && Similar(n, ExecData(ops, i, d).value, ExecData(ops, i, d2).value)
              && (StoreSlot(i) == Some(n) ==> ExecData(ops, i, d).value == ExecData(ops, i, d2).value)
  {
    hide PushedValue, Take, Unary, Binary, ShortOrLongSlot, IsBinary, IsUnaryOperation;
    ExclusiveSlots(i);
    if PushedValue(i).Some? || i.opcode == NOP {
    } else if LoadLocalSlot(i).Some? || LoadArgSlot(i).Some? {
    } else if i.opcode == INITSLOT && |i.operands| == 2 {
    } else if NeedsOne(i) {
      if d.stack.Cons? {
        ExecOneSimilar(ops, i, n, d, d2);
      }
    } else if NeedsTwo(i) {
    } else {
    }
  }

  /** A store is no push, load, NOP or INITSLOT. */
  lemma ExclusiveSlots(i: Instruction)
    ensures StoreSlot(i).Some? ==>
              && PushedValue(i).None? && i.opcode != NOP && LoadLocalSlot(i).None? && LoadArgSlot(i).None?
              && i.opcode != INITSLOT && NeedsOne(i)
  {
  }

  lemma {:induction false} ExecOneSimilar(ops: Ops, i: Instruction, n: byte, d: Data, d2: Data)
    requires Similar(n, d, d2) && d.stack.Cons? && NeedsOne(i)
    ensures ExecOne(ops, i, d).Some? == ExecOne(ops, i, d2).Some?
    ensures ExecOne(ops, i, d).Some? ==>
              && Similar(n, ExecOne(ops, i, d).value, ExecOne(ops, i, d2).value)
              && (StoreSlot(i) == Some(n) ==> ExecOne(ops, i, d).value == ExecOne(ops, i, d2).value)
  {
    hide Take, Unary, ShortOrLongSlot, NeedsOne;
    if StoreSlot(i) == Some(n) && n as nat < |d.locals| {
      assert d.locals[n := d.stack.head] == d2.locals[n := d.stack.head];
    }
  }

  /** While no load of `n` comes before the next store of `n`, its value cannot be told. */
  lemma {:induction false} DeadSlot(ops: Ops, call: Calls, s: Script, n: byte, at: nat, k: nat, d: Data, d2: Data)
    requires Similar(n, d, d2) && !StillLoaded(s, n, at)
    ensures Line(ops, call, s, at, k, d).Some? == Line(ops, call, s, at, k, d2).Some?
    ensures Line(ops, call, s, at, k, d).Some? ==>
              Similar(n, Line(ops, call, s, at, k, d).value, Line(ops, call, s, at, k, d2).value)
    decreases |s| - at
  {
    hide ExecData, LoadLocalSlot, StoreSlot;
    if at < |s| && s[at].opcode != RET {
      ExecSimilar(ops, s[at], n, d, d2);
      CallIsNoStore(s[at]);
      if LineStep(ops, call, s[at], k, d).Some? {
        var (d', k') := LineStep(ops, call, s[at], k, d).value;
        var (d2', _) := LineStep(ops, call, s[at], k, d2).value;
        if StoreSlot(s[at]) == Some(n) {
          SimilarSelf(n, Line(ops, call, s, at + 1, k', d'));
        } else {
          DeadSlot(ops, call, s, n, at + 1, k', d', d2');
        }
      }
    }
  }

  lemma CallIsNoStore(i: Instruction)
    ensures i.opcode == CALL_L || i.opcode == RET ==> StoreSlot(i).None? && LoadLocalSlot(i).None?
  {
  }

  lemma SimilarSelf(n: byte, d: Option<Data>)
    ensures d.Some? ==> Similar(n, d.value, d.value)
  {
  }

  // ----- one edit -----

  /** From the edited place on, the shorter code is the longer code's tail. */
  lemma {:induction false} LineTail(ops: Ops, call: Calls, s: Script, index: nat, count: nat, at: nat, k: nat, d: Data)
    requires index + count <= |s| && index <= at
    ensures Line(ops, call, Remove(s, index, count), at, k, d) == Line(ops, call, s, at + count, k, d)
    decreases |s| - at
  {
    hide LineStep;
    if at < |s| - count {
      assert Remove(s, index, count)[at] == s[at + count];
      if s[at + count].opcode != RET && LineStep(ops, call, s[at + count], k, d).Some? {
        var (d', k') := LineStep(ops, call, s[at + count], k, d).value;
        LineTail(ops, call, s, index, count, at + 1, k', d');
      }
    }
  }

  /** `out` runs as `s` does from `index` on, whatever the data there. */
  ghost predicate Covers(ops: Ops, call: Calls, s: Script, out: Script, index: nat) {
    forall k: nat, d :: Covered(Line(ops, call, s, index, k, d), Line(ops, call, out, index, k, d))
  }

  /** If the first run does not fault, neither does the second, and they differ only in locals. */
  ghost predicate Covered(a: Option<Data>, b: Option<Data>) {
    a.Some? ==> b.Some? && SameOutside(a.value, b.value)
  }

  lemma {:induction false} LineFront(ops: Ops, call: Calls, s: Script, out: Script, index: nat, at: nat, k: nat, d: Data)
    requires at <= index <= |s| && index <= |out| && s[..index] == out[..index]
    requires Covers(ops, call, s, out, index)
    ensures Covered(Line(ops, call, s, at, k, d), Line(ops, call, out, at, k, d))
    decreases index - at
  {
    hide LineStep, Covered;
    if at < index {
      assert s[at] == s[..index][at] == out[at];
      if s[at].opcode == RET || LineStep(ops, call, s[at], k, d).None? {
        CoveredSelf(Line(ops, call, s, at, k, d));
      } else {
        var (d', k') := LineStep(ops, call, s[at], k, d).value;
        LineFront(ops, call, s, out, index, at + 1, k', d');
      }
    }
  }

  lemma CoveredSelf(a: Option<Data>)
    ensures Covered(a, a)
  {
  }

  /** `STLOC n; LDLOC n` puts the value back and changes local `n` only. */
  lemma StoreLoad(ops: Ops, call: Calls, s: Script, at: nat, n: byte, k: nat, d: Data)
    requires at + 1 < |s| && StoreSlot(s[at]) == Some(n) && LoadLocalSlot(s[at + 1]) == Some(n)
    ensures var r := Line(ops, call, s, at, k, d);
            r.None? || exists d1 :: Similar(n, d1, d) && r == Line(ops, call, s, at + 2, k, d1)
  {
    hide ShortOrLongSlot, Take, Unary, Binary;
    ExclusiveSlots(s[at]);
    LoadIsPlain(s[at + 1]);
    StoreIsPlain(s[at]);
    if Line(ops, call, s, at, k, d).Some? {
      var d1 := d.(locals := d.locals[n := d.stack.head]);
      assert ExecData(ops, s[at], d) == Some(d1.(stack := d.stack.tail));
      assert ExecData(ops, s[at + 1], d1.(stack := d.stack.tail)) == Some(d1);
      assert LineStep(ops, call, s[at], k, d) == Some((d1.(stack := d.stack.tail), k));
      assert LineStep(ops, call, s[at + 1], k, d1.(stack := d.stack.tail)) == Some((d1, k));
      assert Similar(n, d1, d);
      assert Line(ops, call, s, at, k, d) == Line(ops, call, s, at + 2, k, d1);
    }
  }

  lemma LoadIsPlain(i: Instruction)
    ensures LoadLocalSlot(i).Some? || LoadArgSlot(i).Some? ==> PushedValue(i).None? && i.opcode != NOP && i.opcode != CALL_L && i.opcode != RET
  {
  }

  lemma StoreIsPlain(i: Instruction)
    ensures StoreSlot(i).Some? ==> i.opcode != CALL_L && i.opcode != RET
  {
  }

  lemma {:induction false} DropStoreCovers(ops: Ops, call: Calls, r: Routine, index: nat)
    requires index < |r.code| && Applies(DropStore, r, index)
    ensures Covers(ops, call, r.code, Apply(DropStore, r, index).code, index)
  {
    hide StoreSlot, LoadLocalSlot, StillLoaded, Touched, Line, Shifted;
    var s, out := r.code, Apply(DropStore, r, index).code;
    var n := StoreSlot(s[index]).value;
    forall k: nat, d ensures Covered(Line(ops, call, s, index, k, d), Line(ops, call, out, index, k, d)) {
      StoreLoad(ops, call, s, index, n, k, d);
      if Line(ops, call, s, index, k, d).Some? {
        var d1 :| Similar(n, d1, d) && Line(ops, call, s, index, k, d) == Line(ops, call, s, index + 2, k, d1);
        DeadSlot(ops, call, s, n, index + 2, k, d1, d);
        LineTail(ops, call, s, index, 2, index, k, d);
      }
    }
  }

  lemma DupDrop(ops: Ops, call: Calls, s: Script, at: nat, k: nat, d: Data)
    requires at + 1 < |s| && s[at].opcode == DUP && s[at + 1].opcode == DROP
    ensures var r := Line(ops, call, s, at, k, d); r.None? || r == Line(ops, call, s, at + 2, k, d)
  {
    hide Take, Unary, Binary;
    if d.stack.Cons? {
      assert ExecData(ops, s[at], d) == Some(d.Push(d.stack.head));
      assert ExecData(ops, s[at + 1], d.Push(d.stack.head)) == Some(d);
      assert LineStep(ops, call, s[at + 1], k, d.Push(d.stack.head)) == Some((d, k));
    }
  }

  lemma {:induction false} DropDupCovers(ops: Ops, call: Calls, r: Routine, index: nat)
    requires index < |r.code| && Applies(DropDup, r, index)
    ensures Covers(ops, call, r.code, Apply(DropDup, r, index).code, index)
  {
    hide Line, Touched, Shifted;
    var s, out := r.code, Apply(DropDup, r, index).code;
    forall k: nat, d ensures Covered(Line(ops, call, s, index, k, d), Line(ops, call, out, index, k, d)) {
      DupDrop(ops, call, s, index, k, d);
      LineTail(ops, call, s, index, 2, index, k, d);
    }
  }

  /** What a load reads; `None` is a fault. */
  function Loaded(i: Instruction, d: Data): Option<Value>
    requires LoadSlot(i).Some?
  {
    var from := if LoadLocalSlot(i).Some? then d.locals else d.args;
    var n := LoadSlot(i).value;
    if n as nat < |from| then Some(from[n]) else None
  }

  lemma LoadMeaning(ops: Ops, i: Instruction, d: Data)
    requires LoadSlot(i).Some?
    ensures ExecData(ops, i, d) == if Loaded(i, d).Some? then Some(d.Push(Loaded(i, d).value)) else None
  {
    hide ShortOrLongSlot;
    LoadIsPlain(i);
  }

  lemma DupMeaning(ops: Ops, v: Value, d: Data)
    ensures ExecData(ops, DUP_INSTRUCTION, d.Push(v)) == Some(d.Push(v).Push(v))
  {
  }

  /** Both loads name a local, or both an argument. */
  predicate SameNamespace(i: Instruction, i2: Instruction) {
    LoadLocalSlot(i).Some? <==> LoadLocalSlot(i2).Some?
  }

  /** After the first load, DUP and the second load do the same thing. */
  ghost predicate MergeExact(ops: Ops, i: Instruction, i2: Instruction)
    requires LoadSlot(i).Some?
  {
    forall d :: Loaded(i, d).Some? ==>
      ExecData(ops, i2, d.Push(Loaded(i, d).value)) == ExecData(ops, DUP_INSTRUCTION, d.Push(Loaded(i, d).value))
  }

  /**
   * Merging `LDLOC n; LDLOC n` is right, and so is merging two LDARG; merging LDLOC n with
   * LDARG n, which the pass also does, is wrong.
   */
  lemma {:induction false} MergeExactWhen(ops: Ops, i: Instruction, i2: Instruction)
    requires LoadSlot(i).Some? && LoadSlot(i2) == LoadSlot(i)
    ensures MergeExact(ops, i, i2) <==> SameNamespace(i, i2)
  {
    hide LoadLocalSlot, LoadArgSlot, ExecData;
    var n := LoadSlot(i).value;
    forall d | Loaded(i, d).Some? && SameNamespace(i, i2)
      ensures ExecData(ops, i2, d.Push(Loaded(i, d).value)) == ExecData(ops, DUP_INSTRUCTION, d.Push(Loaded(i, d).value))
    {
      LoadMeaning(ops, i2, d.Push(Loaded(i, d).value));
      DupMeaning(ops, Loaded(i, d).value, d);
    }
    if !SameNamespace(i, i2) {
      var d := Data(Nil, seq(n + 1, _ => Int(0)), seq(n + 1, _ => Int(1)), []);
      var v := Loaded(i, d).value;
      LoadMeaning(ops, i2, d.Push(v));
      DupMeaning(ops, v, d);
      assert ExecData(ops, i2, d.Push(v)).value.stack.head != v;
      assert !MergeExact(ops, i, i2);
    }
  }

  lemma {:induction false} MergeCovers(ops: Ops, call: Calls, r: Routine, index: nat)
    requires index < |r.code| && Applies(MergeLoads, r, index) && SameNamespace(r.code[index], r.code[index + 1])
    ensures Covers(ops, call, r.code, Apply(MergeLoads, r, index).code, index)
  {
    hide Touched, LoadLocalSlot, LoadArgSlot, ExecData, SameNamespace;
    var s, out := r.code, Apply(MergeLoads, r, index).code;
    MergeExactWhen(ops, s[index], s[index + 1]);
    LoadIsPlainToo(s[index]);
    LoadIsPlainToo(s[index + 1]);
    forall k: nat, d ensures Covered(Line(ops, call, s, index, k, d), Line(ops, call, out, index, k, d)) {
      LoadMeaning(ops, s[index], d);
      if Loaded(s[index], d).Some? {
        var d1 := d.Push(Loaded(s[index], d).value);
        assert ExecData(ops, s[index + 1], d1) == ExecData(ops, DUP_INSTRUCTION, d1);
        assert LineStep(ops, call, s[index], k, d) == Some((d1, k)) == LineStep(ops, call, out[index], k, d);
        assert LineStep(ops, call, s[index + 1], k, d1) == LineStep(ops, call, out[index + 1], k, d1);
        SameTail(ops, call, s, out, index, k, d1);
      }
    }
  }

  lemma LoadIsPlainToo(i: Instruction)
    ensures LoadSlot(i).Some? ==> i.opcode != CALL_L && i.opcode != RET
  {
  }

  lemma {:induction false} SameTail(ops: Ops, call: Calls, s: Script, out: Script, index: nat, k: nat, d: Data)
    requires index + 1 < |s| && |out| == |s| && s[index + 2..] == out[index + 2..]
    requires s[index + 1].opcode != RET && out[index + 1].opcode != RET
    requires LineStep(ops, call, s[index + 1], k, d) == LineStep(ops, call, out[index + 1], k, d)
    ensures Covered(Line(ops, call, s, index + 1, k, d), Line(ops, call, out, index + 1, k, d))
  {
    hide LineStep;
    if LineStep(ops, call, s[index + 1], k, d).Some? {
      var (d', k') := LineStep(ops, call, s[index + 1], k, d).value;
      SameSuffix(ops, call, s, out, index + 2, index + 2, k', d');
      CoveredSelf(Line(ops, call, s, index + 2, k', d'));
    }
  }

  lemma {:induction false} SameSuffix(ops: Ops, call: Calls, s: Script, out: Script, from: nat, at: nat, k: nat, d: Data)
    requires from <= at && from <= |s| == |out| && s[from..] == out[from..]
    ensures Line(ops, call, s, at, k, d) == Line(ops, call, out, at, k, d)
    decreases |s| - at
  {
    hide LineStep;
    if at < |s| {
      assert s[at] == s[from..][at - from] == out[at];
      if s[at].opcode != RET && LineStep(ops, call, s[at], k, d).Some? {
        var (d', k') := LineStep(ops, call, s[at], k, d).value;
        SameSuffix(ops, call, s, out, from, at + 1, k', d');
      }
    }
  }

  // ----- whole runs of the optimizer -----

  /** Along the merging scan from `index`, no LDLOC is merged with an LDARG. */
  predicate MergesAlike(r: Routine, index: nat)
    requires index <= |r.code|
    decreases |r.code| - index
  {
    if index == |r.code| then true
    else if Applies(MergeLoads, r, index) then
      SameNamespace(r.code[index], r.code[index + 1]) && MergesAlike(Apply(MergeLoads, r, index), index + 1)
    else MergesAlike(r, index + 1)
  }

  /** No round of the optimizer merges an LDLOC with an LDARG. */
  predicate AlwaysMergesAlike(r: Routine, rounds: nat)
    decreases rounds
  {
    rounds == 0 || (MergesAlike(r, 0) && (Round(r).1 ==> AlwaysMergesAlike(Round(r).0, rounds - 1)))
  }

  lemma {:induction false} NoJumpsToShorten(s: Script, index: nat)
    requires BranchFree(s) && index < |s|
    ensures !IsRedundantJump(s, index) && TryShorten(s, index).None?
  {
    hide Relayout;
    assert s[index] in s;
  }

  lemma DupIsPlain()
    ensures IsStraight(DUP_INSTRUCTION) && LoadLocalSlot(DUP_INSTRUCTION).None? && LoadArgSlot(DUP_INSTRUCTION).None?
  {
  }

  /** On branch-free code the two layout passes find nothing, and the others bring in no branch. */
  lemma {:induction false} ApplyStraight(pass: Pass, r: Routine, index: nat)
    requires BranchFree(r.code) && index < |r.code| && Applies(pass, r, index)
    ensures BranchFree(Apply(pass, r, index).code) && !pass.PeelJump? && !pass.Narrow?
  {
    hide IsStraight, Applies, Apply, TryShorten, IsRedundantJump;
    NoJumpsToShorten(r.code, index);
    DupIsPlain();
    NoJumpPass(pass, r, index);
    var out := Apply(pass, r, index).code;
    forall i | i in out ensures i in r.code || i == DUP_INSTRUCTION {
      ApplyMembers(pass, r, index, i);
    }
  }

  lemma NoJumpPass(pass: Pass, r: Routine, index: nat)
    requires index < |r.code| && Applies(pass, r, index)
    requires !IsRedundantJump(r.code, index) && TryShorten(r.code, index).None?
    ensures !pass.PeelJump? && !pass.Narrow?
  {
    hide IsRedundantJump, TryShorten;
  }

  lemma ApplyMembers(pass: Pass, r: Routine, index: nat, i: Instruction)
    requires index < |r.code| && Applies(pass, r, index) && !pass.PeelJump? && !pass.Narrow?
    requires i in Apply(pass, r, index).code
    ensures i in r.code || i == DUP_INSTRUCTION
  {
    hide LoadLocalSlot, LoadArgSlot, LoadSlot, StoreSlot, StillLoaded, Touched;
  }

  lemma ScanStraight(pass: Pass, r: Routine, index: nat)
    requires BranchFree(r.code) && index <= |r.code|
    ensures BranchFree(Scan(pass, r, index).0.code)
    ensures pass.PeelJump? || pass.Narrow? ==> Scan(pass, r, index).0 == r
    decreases |r.code| - index
  {
    hide BranchFree, Applies, Apply;
    if index < |r.code| {
      if Applies(pass, r, index) {
        ApplyLength(pass, r, index);
        ApplyStraight(pass, r, index);
        ScanStraight(pass, Apply(pass, r, index), After(pass, index));
      } else {
        ScanStraight(pass, r, index + 1);
      }
    }
  }

  /** One edit of the three passes covers the routine from its first instruction. */
  lemma {:induction false} ApplyCovers(ops: Ops, call: Calls, pass: Pass, r: Routine, index: nat, k: nat, d: Data)
    requires index < |r.code| && Applies(pass, r, index) && !pass.PeelJump? && !pass.Narrow?
    requires pass.MergeLoads? ==> SameNamespace(r.code[index], r.code[index + 1])
    ensures Covered(Line(ops, call, r.code, 0, k, d), Line(ops, call, Apply(pass, r, index).code, 0, k, d))
  {
    hide LoadLocalSlot, LoadArgSlot, StoreSlot, StillLoaded, Touched, Covers, Line, Covered, SameNamespace;
    match pass {
      case MergeLoads => MergeCovers(ops, call, r, index);
      case DropDup => DropDupCovers(ops, call, r, index);
      case DropStore => DropStoreCovers(ops, call, r, index);
    }
    LineFront(ops, call, r.code, Apply(pass, r, index).code, index, 0, k, d);
  }

  lemma CoveredTrans(a: Option<Data>, b: Option<Data>, c: Option<Data>)
    requires Covered(a, b) && Covered(b, c)
    ensures Covered(a, c)
  {
  }

  /**
   * A whole scan of the DUP/DROP or the STLOC/LDLOC pass, on any code; and of the merging pass, as
   * far as it merges within one namespace.
   */
  lemma {:induction false} ScanCovers(ops: Ops, call: Calls, pass: Pass, r: Routine, index: nat, k: nat, d: Data)
    requires index <= |r.code| && !pass.PeelJump? && !pass.Narrow?
    requires pass.MergeLoads? ==> MergesAlike(r, index)
    ensures Covered(Line(ops, call, r.code, 0, k, d), Line(ops, call, Scan(pass, r, index).0.code, 0, k, d))
    decreases |r.code| - index
  {
    hide Applies, Apply, Line, Covered, SameNamespace;
    if index == |r.code| {
      CoveredSelf(Line(ops, call, r.code, 0, k, d));
    } else if Applies(pass, r, index) {
      ApplyLength(pass, r, index);
      ApplyCovers(ops, call, pass, r, index, k, d);
      var next := Apply(pass, r, index);
      ScanCovers(ops, call, pass, next, After(pass, index), k, d);
      CoveredTrans(Line(ops, call, r.code, 0, k, d), Line(ops, call, next.code, 0, k, d),
                   Line(ops, call, Scan(pass, next, After(pass, index)).0.code, 0, k, d));
    } else {
      ScanCovers(ops, call, pass, r, index + 1, k, d);
    }
  }

  lemma {:induction false} RoundCovers(ops: Ops, call: Calls, r: Routine, d: Data)
    requires BranchFree(r.code) && MergesAlike(r, 0)
    ensures BranchFree(Round(r).0.code)
    ensures Covered(Line(ops, call, r.code, 0, 0, d), Line(ops, call, Round(r).0.code, 0, 0, d))
  {
    hide BranchFree, MergesAlike, Line, Scan, Covered;
    var r1 := Scan(MergeLoads, r, 0).0;
    var r2 := Scan(DropDup, r1, 0).0;
    var r3 := Scan(DropStore, r2, 0).0;
    ScanCovers(ops, call, MergeLoads, r, 0, 0, d);
    ScanCovers(ops, call, DropDup, r1, 0, 0, d);
    ScanCovers(ops, call, DropStore, r2, 0, 0, d);
    ScanStraight(MergeLoads, r, 0);
    ScanStraight(DropDup, r1, 0);
    ScanStraight(DropStore, r2, 0);
    ScanStraight(PeelJump, r3, 0);
    ScanStraight(Narrow, r3, 0);
    CoveredTrans(Line(ops, call, r.code, 0, 0, d), Line(ops, call, r1.code, 0, 0, d), Line(ops, call, r2.code, 0, 0, d));
    CoveredTrans(Line(ops, call, r.code, 0, 0, d), Line(ops, call, r2.code, 0, 0, d), Line(ops, call, r3.code, 0, 0, d));
  }

  /**
   * The whole optimizer on branch-free code, as long as no round merges an LDLOC with an LDARG: a
   * run that does not fault before does not fault after, with the same stack, arguments and trace.
   */
  lemma {:induction false} OptimizeCovers(ops: Ops, call: Calls, r: Routine, rounds: nat, d: Data)
    requires BranchFree(r.code) && AlwaysMergesAlike(r, rounds)
    ensures Covered(Line(ops, call, r.code, 0, 0, d), Line(ops, call, Optimize(r, rounds).code, 0, 0, d))
    decreases rounds
  {
    hide BranchFree, MergesAlike, Line, Covered, Round;
    if rounds == 0 {
      CoveredSelf(Line(ops, call, r.code, 0, 0, d));
    } else {
      RoundCovers(ops, call, r, d);
      var next := Round(r).0;
      if Round(r).1 {
        OptimizeCovers(ops, call, next, rounds - 1, d);
        CoveredTrans(Line(ops, call, r.code, 0, 0, d), Line(ops, call, next.code, 0, 0, d),
                     Line(ops, call, Optimize(next, rounds - 1).code, 0, 0, d));
      }
    }
  }

  // ----- a condition on the routine alone -----

  /** No slot number is loaded both as a local and as an argument. */
  predicate NoMixedSlots(s: Script) {
    forall i, j :: i in s && j in s && LoadLocalSlot(i).Some? ==> LoadArgSlot(j) != LoadLocalSlot(i)
  }

  lemma {:induction false} MixedNeverMeets(s: Script, index: nat)
    requires NoMixedSlots(s) && index + 1 < |s| && LoadSlot(s[index]).Some? && LoadSlot(s[index + 1]) == LoadSlot(s[index])
    ensures SameNamespace(s[index], s[index + 1])
  {
    hide LoadLocalSlot, LoadArgSlot;
    assert s[index] in s && s[index + 1] in s;
  }

  lemma {:induction false} ApplyUnmixed(pass: Pass, r: Routine, index: nat)
    requires BranchFree(r.code) && NoMixedSlots(r.code) && index < |r.code| && Applies(pass, r, index)
    ensures BranchFree(Apply(pass, r, index).code) && NoMixedSlots(Apply(pass, r, index).code)
    ensures pass.MergeLoads? ==> SameNamespace(r.code[index], r.code[index + 1])
  {
    hide BranchFree, LoadLocalSlot, LoadArgSlot, Apply, Touched;
    ApplyStraight(pass, r, index);
    DupIsPlain();
    var out := Apply(pass, r, index).code;
    forall i | i in out ensures i in r.code || i == DUP_INSTRUCTION {
      ApplyMembers(pass, r, index, i);
    }
    if pass.MergeLoads? {
      MixedNeverMeets(r.code, index);
    }
  }

  lemma {:induction false} ScanUnmixed(pass: Pass, r: Routine, index: nat)
    requires BranchFree(r.code) && NoMixedSlots(r.code) && index <= |r.code|
    ensures BranchFree(Scan(pass, r, index).0.code) && NoMixedSlots(Scan(pass, r, index).0.code)
    ensures pass.MergeLoads? ==> MergesAlike(r, index)
    decreases |r.code| - index
  {
    hide BranchFree, NoMixedSlots, Applies, Apply, SameNamespace;
    if index < |r.code| {
      if Applies(pass, r, index) {
        ApplyLength(pass, r, index);
        ApplyUnmixed(pass, r, index);
        ScanUnmixed(pass, Apply(pass, r, index), After(pass, index));
      } else {
        ScanUnmixed(pass, r, index + 1);
      }
    }
  }

  /** Code that never loads local n and argument n both is never merged wrongly. */
  lemma {:induction false} UnmixedMergesAlike(r: Routine, rounds: nat)
    requires BranchFree(r.code) && NoMixedSlots(r.code)
    ensures AlwaysMergesAlike(r, rounds)
    decreases rounds
  {
    hide BranchFree, NoMixedSlots, Scan, MergesAlike;
    if rounds > 0 {
      var r1 := Scan(MergeLoads, r, 0).0;
      var r2 := Scan(DropDup, r1, 0).0;
      var r3 := Scan(DropStore, r2, 0).0;
      var r4 := Scan(PeelJump, r3, 0).0;
      ScanUnmixed(MergeLoads, r, 0);
      ScanUnmixed(DropDup, r1, 0);
      ScanUnmixed(DropStore, r2, 0);
      ScanUnmixed(PeelJump, r3, 0);
      ScanUnmixed(Narrow, r4, 0);
      UnmixedMergesAlike(Round(r).0, rounds - 1);
    }
  }

  // ----- the machine -----

  predicate CallFree(s: Script) {
    forall i :: i in s ==> i.opcode != CALL_L && WellFormed(i)
  }

  lemma {:induction false} StraightIsGood(s: Script)
    requires BranchFree(s) && CallFree(s)
    ensures GoodScript(s)
  {
    hide WellFormed, HasTarget, IsStraight, OffsetCount;
    forall j | 0 <= j < |s| ensures OffsetCount(s[j]) == 0 {
      assert s[j] in s;
      NoOffsets(s[j]);
    }
  }

  lemma NoOffsets(i: Instruction)
    requires IsStraight(i) && i.opcode != CALL_L
    ensures OffsetCount(i) == 0
  {
  }

  lemma StraightAct(ops: Ops, call: Calls, i: Instruction, k: nat, d: Data)
    requires IsStraight(i) && i.opcode != CALL_L && i.opcode != RET
    ensures Act(ops, i, d) ==
            if LineStep(ops, call, i, k, d).Some? then Next(LineStep(ops, call, i, k, d).value.0) else Fault
  {
    hide ExecData;
  }

  function Outcome(r: Option<Data>): State {
    if r.Some? then Returned(r.value) else Faulted
  }

  lemma {:induction false} LineRuns(ops: Ops, call: Calls, s: Script, at: nat, k: nat, d: Data) returns (n: nat)
    requires BranchFree(s) && CallFree(s) && at <= |s|
    ensures IndexRun(ops, s, Running(at, d, Nil), n) == Outcome(Line(ops, call, s, at, k, d))
    decreases |s| - at
  {
    hide IsStraight, WellFormed, LineStep, Act, Target;
    n := 1;
    if at < |s| {
      assert s[at] in s;
      if s[at].opcode == RET {
        RetLeaves(ops, s[at], d);
      } else {
        StraightAct(ops, call, s[at], k, d);
        if LineStep(ops, call, s[at], k, d).Some? {
          var (d', k') := LineStep(ops, call, s[at], k, d).value;
          n := LineRuns(ops, call, s, at + 1, k', d');
          n := n + 1;
        }
      }
    }
  }

  lemma RetLeaves(ops: Ops, i: Instruction, d: Data)
    requires i.opcode == RET
    ensures Act(ops, i, d) == Leave
  {
  }

  /** `Line` is what the byte-addressed machine does: it returns with that data, or faults. */
  lemma {:induction false} LineEnds(ops: Ops, call: Calls, s: Script, d: Data)
    requires BranchFree(s) && CallFree(s)
    ensures Ends(ops, s, d, Outcome(Line(ops, call, s, 0, 0, d)))
  {
    hide BranchFree, CallFree, GoodScript, InRange, ByteState, Line, IndexRun, Run, EncodeAll;
    StraightIsGood(s);
    StartState(s, d);
    var n := LineRuns(ops, call, s, 0, 0, d);
    RunRefines(ops, s, Running(0, d, Nil), n);
    HaltedBytes(s, Outcome(Line(ops, call, s, 0, 0, d)));
    assert Run(ops, EncodeAll(s), Running(0, d, Nil), n) == Outcome(Line(ops, call, s, 0, 0, d));
  }

  lemma HaltedBytes(s: Script, st: State)
    requires !st.Running?
    ensures InRange(s, st) && ByteState(s, st) == st
  {
  }
}
