/**
 * The STLOC/LDLOC pass on scripts with branches. Its own test looks forward only, in order; where
 * no other instruction loads the slot, and no branch crosses the pair or leads into it, the edit
 * is right.
 */
module RawStore {
  import opened Prelude
  import opened Bytecode
  import opened Vm
  import opened Layout
  import opened Shorten
  import opened LayoutRun
  import opened Peephole
  import opened PeepholeLayout
  import opened PeepholeLine
  import opened RawEdits
  import opened RawRun

  /** What the pass removes at `index`, on a script where it is safe to: `n` is the slot. */
  ghost predicate Removable(r: Routine, index: nat, n: byte)
    requires index < |r.code| && Applies(DropStore, r, index)
  {
    && GoodScript(r.code) && DropClear(r.code, index)
    && StoreSlot(r.code[index]) == Some(n) && OnlyLoad(r.code, index, n)
  }

  /** No instruction but the one after `index` loads local `n`. */
  predicate OnlyLoad(s: Script, index: nat, n: byte) {
    forall j :: 0 <= j < |s| && j != index + 1 ==> LoadLocalSlot(s[j]) != Some(n)
  }

  lemma {:induction false} StorelessGood(r: Routine, index: nat, n: byte)
    requires index < |r.code| && Applies(DropStore, r, index) && Removable(r, index, n)
    ensures var s, out := r.code, Apply(DropStore, r, index).code;
            && GoodScript(out) && index + 1 < |s| && |out| == |s| - 2 && LoadLocalSlot(s[index + 1]) == Some(n)
            && (forall j: nat :: j < |s| && (j < index || j >= index + 2) ==> out[IndexAfter(index, 2, j)] == s[j])
            && forall j, m, k :: Denotes(s, j, m, k) ==> Denotes(out, IndexAfter(index, 2, j), m, IndexAfter(index, 2, k))
  {
    hide Denotes, OffsetCount, WellFormed, Touched, StillLoaded, LoadLocalSlot, StoreSlot;
    var s, out := r.code, Apply(DropStore, r, index).code;
    forall j, m, k | Denotes(s, j, m, k) ensures Denotes(out, IndexAfter(index, 2, j), m, IndexAfter(index, 2, k)) {
      DroppedPairKeepsTarget(DropStore, r, index, j, m, k);
    }
    forall i | i in out ensures WellFormed(i) {
      assert i in s;
    }
    forall j, m | 0 <= j < |out| && 0 <= m < OffsetCount(out[j]) ensures HasTarget(out, j, m) {
      var o := if j < index then j else j + 2;
      assert out[j] == s[o] && HasTarget(s, o, m);
      var k :| Denotes(s, o, m, k);
      assert Denotes(out, IndexAfter(index, 2, o), m, IndexAfter(index, 2, k));
    }
  }

  // ----- the two runs side by side -----

  /** The same but for local `n`, in every context. */
  predicate SimilarCalls(n: byte, index: nat, calls: List<Frame>, calls2: List<Frame>) {
    match calls
    case Nil => calls2.Nil?
    case Cons(f, rest) =>
      && calls2.Cons? && f.returnPc != index + 1 && calls2.head.returnPc == IndexAfter(index, 2, f.returnPc)
      && f.args == calls2.head.args && SimilarLocals(n, f.locals, calls2.head.locals)
      && SimilarCalls(n, index, rest, calls2.tail)
  }

  predicate SimilarLocals(n: byte, a: seq<Value>, b: seq<Value>) {
    |a| == |b| && forall k :: 0 <= k < |a| && k != n ==> a[k] == b[k]
  }

  /** Between STLOC and LDLOC the stored value is still on the stack of the shorter script. */
  predicate SimilarData(n: byte, between: bool, d: Data, d2: Data) {
    if between then n as nat < |d.locals| && Similar(n, d.(stack := Cons(d.locals[n], d.stack)), d2) else Similar(n, d, d2)
  }

  predicate Alike(n: byte, index: nat, st: State, st2: State) {
    match st
    case Running(pc, d, calls) =>
      && st2.Running? && st2.pc == IndexAfter(index, 2, pc) && SimilarCalls(n, index, calls, st2.calls)
      && SimilarData(n, pc == index + 1, d, st2.data)
    case Returned(d) => st2.Returned? && Similar(n, d, st2.data)
    case Faulted => st2.Faulted?
  }

  /** Neither the store nor the load is a jump. */
  lemma PairActs(ops: Ops, i: Instruction, n: byte, d: Data)
    ensures StoreSlot(i) == Some(n) ==>
              Act(ops, i, d) == if d.stack.Cons? && n as nat < |d.locals|
                                then Next(d.(stack := d.stack.tail, locals := d.locals[n := d.stack.head])) else Fault
    ensures LoadLocalSlot(i) == Some(n) ==> Act(ops, i, d) == if n as nat < |d.locals| then Next(d.Push(d.locals[n])) else Fault
  {
    hide ShortOrLongSlot, Take, Unary, Binary;
    SlotOpcode(i);
    ExclusiveSlots(i);
    LoadIsPlain(i);
  }

  lemma SlotOpcode(i: Instruction)
    ensures StoreSlot(i).Some? || LoadLocalSlot(i).Some? ==>
              !IsJump(i.opcode) && i.opcode != CALL && i.opcode != CALL_L && i.opcode != RET && !IsUnmodelled(i.opcode)
  {
  }

  /** An instruction that does not load the slot does the same on both. */
  lemma {:induction false} SimilarAct(ops: Ops, i: Instruction, n: byte, d: Data, d2: Data)
    requires Similar(n, d, d2) && LoadLocalSlot(i) != Some(n)
    ensures match Act(ops, i, d)
            case Next(e) => Act(ops, i, d2).Next? && Similar(n, e, Act(ops, i, d2).d)
            case Jump(e) => Act(ops, i, d2).Jump? && Similar(n, e, Act(ops, i, d2).d)
            case Enter => Act(ops, i, d2).Enter?
            case Leave => Act(ops, i, d2).Leave?
            case Fault => Act(ops, i, d2).Fault?
  {
    hide ExecData, LoadLocalSlot;
    ExecSimilar(ops, i, n, d, d2);
  }

  /** A step of the pair is no step of the shorter script. */
  lemma {:induction false} StorePairStep(ops: Ops, r: Routine, index: nat, n: byte, st: State, st2: State)
    requires index < |r.code| && Applies(DropStore, r, index) && Removable(r, index, n) && Alike(n, index, st, st2) && AtPair(index, st)
    ensures var next := IndexStep(ops, r.code, st); next != Faulted ==> Alike(n, index, next, st2) && Idle(index, next) + 1 == Idle(index, st)
  {
    hide Act, GoodScript, Applies, Apply, DropClear, OnlyLoad, Target, StoreSlot, LoadLocalSlot, SimilarCalls;
    StorelessGood(r, index, n);
    PairActs(ops, r.code[st.pc], n, st.data);
  }

  lemma {:induction false} StoreOther(ops: Ops, r: Routine, index: nat, n: byte, pc: nat, d: Data)
    requires index < |r.code| && Applies(DropStore, r, index) && Removable(r, index, n) && pc < |r.code| && pc != index && pc != index + 1
    ensures var s, out, j := r.code, Apply(DropStore, r, index).code, IndexAfter(index, 2, pc);
            && |out| == |s| - 2 && index + 1 < |s| && j < |out| && out[j] == s[pc] && LoadLocalSlot(s[pc]) != Some(n)
            && (Act(ops, s[pc], d).Jump? || Act(ops, s[pc], d).Enter? ==>
                  && Target(s, pc) <= |s| && Target(s, pc) != index + 1 && Target(out, j) == IndexAfter(index, 2, Target(s, pc))
                  && (Target(s, pc) < |s| <==> Target(out, j) < |out|))
  {
    hide Act, Denotes, GoodScript, Applies, Apply, Target, StoreSlot, LoadLocalSlot;
    var s, out := r.code, Apply(DropStore, r, index).code;
    StorelessGood(r, index, n);
    var j := IndexAfter(index, 2, pc);
    assert out[j] == s[pc];
    if Act(ops, s[pc], d).Jump? || Act(ops, s[pc], d).Enter? {
      JumpHasTarget(ops, s, pc, d);
      TargetIs(out, j, IndexAfter(index, 2, Target(s, pc)));
      TargetBound(s, pc, Target(s, pc));
      JumpAfter(s, out, index, Target(s, pc));
    }
  }

  /** Any other step is a step of the shorter script. */
  lemma {:induction false} StoreOtherStep(ops: Ops, r: Routine, index: nat, n: byte, st: State, st2: State)
    requires index < |r.code| && Applies(DropStore, r, index) && Removable(r, index, n) && Alike(n, index, st, st2) && !AtPair(index, st)
    ensures Alike(n, index, IndexStep(ops, r.code, st), IndexStep(ops, Apply(DropStore, r, index).code, st2))
  {
    hide Act, Removable, Applies, Apply, Target, LoadLocalSlot;
    var s, out := r.code, Apply(DropStore, r, index).code;
    StorelessSize(r, index, n);
    if st.Running? && st.pc < |s| {
      StoreOther(ops, r, index, n, st.pc, st.data);
      SimilarAct(ops, s[st.pc], n, st.data, st2.data);
    }
  }

  lemma StorelessSize(r: Routine, index: nat, n: byte)
    requires index < |r.code| && Applies(DropStore, r, index) && Removable(r, index, n)
    ensures index + 1 < |r.code| && |Apply(DropStore, r, index).code| == |r.code| - 2
  {
    hide GoodScript, DropClear, OnlyLoad, Touched, StillLoaded, LoadLocalSlot, StoreSlot;
  }

  /** A run that has not faulted: the shorter script gets to a state alike. */
  lemma {:induction false} StoreRun(ops: Ops, r: Routine, index: nat, n: byte, st: State, st2: State, steps: nat) returns (m: nat)
    requires index < |r.code| && Applies(DropStore, r, index) && Removable(r, index, n) && Alike(n, index, st, st2) && IndexRun(ops, r.code, st, steps) != Faulted
    ensures m <= steps <= 3 * m + Idle(index, st)
    ensures Alike(n, index, IndexRun(ops, r.code, st, steps), IndexRun(ops, Apply(DropStore, r, index).code, st2, m))
    decreases steps
  {
    hide Removable, Applies, Apply, IndexStep, IndexRun, Alike;
    var s, out := r.code, Apply(DropStore, r, index).code;
    m := 0;
    UnfoldRun(ops, s, st, 0);
    UnfoldRun(ops, out, st2, 0);
    if steps > 0 {
      var st1 := IndexStep(ops, s, st);
      UnfoldRun(ops, s, st, steps - 1);
      if st1 == Faulted {
        EndedRun(ops, s, Faulted, steps - 1);
      }
      if AtPair(index, st) {
        StorePairStep(ops, r, index, n, st, st2);
        m := StoreRun(ops, r, index, n, st1, st2, steps - 1);
      } else {
        StoreOtherStep(ops, r, index, n, st, st2);
        m := StoreRun(ops, r, index, n, st1, IndexStep(ops, out, st2), steps - 1);
        UnfoldRun(ops, out, st2, m);
        m := m + 1;
      }
    }
  }

  /** The same on bytes. */
  lemma {:induction false} StoreBytes(ops: Ops, r: Routine, index: nat, n: byte, d: Data, steps: nat) returns (m: nat)
    requires index < |r.code| && Applies(DropStore, r, index) && Removable(r, index, n) && Run(ops, EncodeAll(r.code), Running(0, d, Nil), steps) != Faulted
    ensures m <= steps <= 3 * m + 2
    ensures var out := Apply(DropStore, r, index).code;
            var a, b := Run(ops, EncodeAll(r.code), Running(0, d, Nil), steps), Run(ops, EncodeAll(out), Running(0, d, Nil), m);
            (a.Running? <==> b.Running?) && (a.Returned? ==> b.Returned? && SameOutside(a.data, b.data))
  {
    hide Removable, Applies, GoodScript, Apply, EncodeAll, IndexRun, Run;
    var s, out := r.code, Apply(DropStore, r, index).code;
    var st := Running(0, d, Nil);
    RemovableGood(r, index, n);
    StorelessGood(r, index, n);
    StartState(s, d);
    StartState(out, d);
    RunRefines(ops, s, st, steps);
    m := StoreRun(ops, r, index, n, st, st, steps);
    RunRefines(ops, out, st, m);
  }

  lemma RemovableGood(r: Routine, index: nat, n: byte)
    requires index < |r.code| && Applies(DropStore, r, index) && Removable(r, index, n)
    ensures GoodScript(r.code)
  {
  }

  /**
   * Removing STLOC and LDLOC of a slot that nothing else loads, on a script with branches, none of
   * which crosses the pair or leads into it: a run that returned returns with the same stack,
   * arguments and trace, and no run ends in a new way, except that one which faulted may go on.
   */
  lemma {:induction false} DropStoreMeaning(ops: Ops, r: Routine, index: nat, n: byte, d: Data, fin: State)
    requires index < |r.code| && Applies(DropStore, r, index) && Removable(r, index, n) && !fin.Running?
    ensures GoodScript(Apply(DropStore, r, index).code)
    ensures Ends(ops, r.code, d, fin) && fin.Returned? ==>
              exists e :: Ends(ops, Apply(DropStore, r, index).code, d, Returned(e)) && SameOutside(fin.data, e)
    ensures Ends(ops, Apply(DropStore, r, index).code, d, fin) ==>
              || Ends(ops, r.code, d, Faulted)
              || (fin.Returned? && exists e :: Ends(ops, r.code, d, Returned(e)) && SameOutside(e, fin.data))
  {
    hide Removable, Applies, GoodScript, Apply, EncodeAll, Run;
    StorelessGood(r, index, n);
    var s, out := r.code, Apply(DropStore, r, index).code;
    var st := Running(0, d, Nil);
    if Ends(ops, s, d, fin) && fin.Returned? {
      var steps: nat :| Run(ops, EncodeAll(s), st, steps) == fin;
      var m := StoreBytes(ops, r, index, n, d, steps);
      var e := Run(ops, EncodeAll(out), st, m).data;
      assert Ends(ops, out, d, Returned(e));
    }
    if Ends(ops, out, d, fin) {
      var m: nat :| Run(ops, EncodeAll(out), st, m) == fin;
      var steps := 3 * m + 2;
      var a := Run(ops, EncodeAll(s), st, steps);
      if a == Faulted {
        assert Ends(ops, s, d, Faulted);
      } else {
        var m' := StoreBytes(ops, r, index, n, d, steps);
        RunAdd(ops, EncodeAll(out), st, m, m' - m);
        RunHalted(ops, EncodeAll(out), fin, m' - m);
        assert Ends(ops, s, d, Returned(a.data));
      }
    }
  }
}
