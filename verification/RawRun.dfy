/**
 * The load-merging and the DUP/DROP pass on scripts with branches: where every branch is kept on
 * its target and none leads between the two instructions of the edited pair, the edit is right.
 */
module RawRun {
  import opened Prelude
  import opened Bytecode
  import opened Vm
  import opened Layout
  import opened Shorten
  import opened LayoutRun
  import opened Peephole
  import opened PeepholeLayout
  import opened RawEdits
  import PeepholeLine

  /** No branch leads to the second of the two loads; and the second has no operand byte, or no branch crosses it. */
  ghost predicate MergeClear(s: Script, index: nat)
    requires index + 1 < |s|
  {
    forall j, n, k :: Denotes(s, j, n, k) ==> k != index + 1 && (s[index + 1].operands == [] || OnSameSide(j, index + 1, k))
  }

  lemma {:induction false} MergedGood(r: Routine, index: nat)
    requires GoodScript(r.code) && index < |r.code| && Applies(MergeLoads, r, index) && MergeClear(r.code, index)
    ensures var out := Apply(MergeLoads, r, index).code;
            && GoodScript(out) && |out| == |r.code|
            && forall j, n, k :: Denotes(r.code, j, n, k) ==> Denotes(out, j, n, k)
  {
    hide Denotes, OffsetCount, WellFormed, Touched, LoadSlot;
    var s, out := r.code, Apply(MergeLoads, r, index).code;
    PairHasNoOperand(MergeLoads, r, index);
    DupShape();
    forall j, n, k | Denotes(s, j, n, k) ensures Denotes(out, j, n, k) {
      MergedLoadKeepsTarget(r, index, j, n, k);
    }
    forall i | i in out ensures WellFormed(i) {
      assert i == DUP_INSTRUCTION || i in s;
    }
    forall j, n | 0 <= j < |out| && 0 <= n < OffsetCount(out[j]) ensures HasTarget(out, j, n) {
      assert j != index + 1 && out[j] == s[j] && HasTarget(s, j, n);
      var k :| Denotes(s, j, n, k);
      assert Denotes(out, j, n, k);
    }
  }

  lemma DupShape()
    ensures WellFormed(DUP_INSTRUCTION) && OffsetCount(DUP_INSTRUCTION) == 0
  {
  }

  // ----- merged loads: the same run, step for step -----

  /** No context will return to `at`. */
  predicate NoReturnTo(calls: List<Frame>, at: nat) {
    calls.Cons? ==> calls.head.returnPc != at && NoReturnTo(calls.tail, at)
  }

  /** At the second load, what it loads is on top: the first has just run. */
  predicate AfterLoad(s: Script, index: nat, st: State)
    requires index + 1 < |s| && LoadSlot(s[index + 1]).Some?
  {
    st.Running? ==>
      && NoReturnTo(st.calls, index + 1)
      && (st.pc == index + 1 ==>
            var v := PeepholeLine.Loaded(s[index + 1], st.data);
            v.Some? && st.data.stack.Cons? && st.data.stack.head == v.value)
  }

  /** Neither load is a jump or a call; each pushes what it loads or faults. */
  lemma LoadActs(ops: Ops, i: Instruction, d: Data)
    requires LoadSlot(i).Some?
    ensures Act(ops, i, d) == match PeepholeLine.Loaded(i, d) case Some(v) => Next(d.Push(v)) case None => Fault
  {
    hide LoadLocalSlot, LoadArgSlot, ExecData;
    LoadIsData(i);
    PeepholeLine.LoadMeaning(ops, i, d);
  }

  lemma LoadIsData(i: Instruction)
    requires LoadSlot(i).Some?
    ensures !IsJump(i.opcode) && i.opcode != CALL && i.opcode != CALL_L && i.opcode != RET && !IsUnmodelled(i.opcode)
  {
  }

  lemma DupActs(ops: Ops, d: Data)
    ensures Act(ops, DUP_INSTRUCTION, d) == if d.stack.Cons? then Next(d.Push(d.stack.head)) else Fault
  {
  }

  /** Where control may go from an instruction that is not the one before `at`: not to `at`, unless a branch leads there. */
  lemma {:induction false} StepAvoids(ops: Ops, s: Script, at: nat, st: State)
    requires GoodScript(s) && (forall j, n, k :: Denotes(s, j, n, k) ==> k != at)
    requires 0 < at < |s| && st.Running? && NoReturnTo(st.calls, at) && st.pc != at - 1 && st.pc < |s|
    ensures var next := IndexStep(ops, s, st); next.Running? ==> next.pc != at && NoReturnTo(next.calls, at)
  {
    hide Act, Denotes, GoodScript;
    var m := Act(ops, s[st.pc], st.data);
    if m.Jump? || m.Enter? {
      JumpHasTarget(ops, s, st.pc, st.data);
    }
  }

  lemma {:induction false} MergedStep(ops: Ops, r: Routine, index: nat, st: State)
    requires GoodScript(r.code) && index < |r.code| && Applies(MergeLoads, r, index) && MergeClear(r.code, index)
    requires PeepholeLine.SameNamespace(r.code[index], r.code[index + 1]) && AfterLoad(r.code, index, st)
    ensures IndexStep(ops, Apply(MergeLoads, r, index).code, st) == IndexStep(ops, r.code, st)
    ensures AfterLoad(r.code, index, IndexStep(ops, r.code, st))
  {
    hide Act, Denotes, GoodScript, Touched, LoadLocalSlot, LoadArgSlot, Target;
    var s, out := r.code, Apply(MergeLoads, r, index).code;
    MergedGood(r, index);
    if st.Running? && st.pc < |s| {
      if st.pc == index + 1 {
        LoadActs(ops, s[index + 1], st.data);
        DupActs(ops, st.data);
      } else {
        assert out[st.pc] == s[st.pc];
        if Act(ops, s[st.pc], st.data).Jump? || Act(ops, s[st.pc], st.data).Enter? {
          JumpHasTarget(ops, s, st.pc, st.data);
          TargetIs(out, st.pc, Target(s, st.pc));
        }
        if st.pc == index {
          LoadActs(ops, s[index], st.data);
        } else {
          StepAvoids(ops, s, index + 1, st);
        }
      }
    }
  }

  lemma {:induction false} MergedRun(ops: Ops, r: Routine, index: nat, st: State, n: nat)
    requires GoodScript(r.code) && index < |r.code| && Applies(MergeLoads, r, index) && MergeClear(r.code, index)
    requires PeepholeLine.SameNamespace(r.code[index], r.code[index + 1]) && AfterLoad(r.code, index, st)
    ensures IndexRun(ops, Apply(MergeLoads, r, index).code, st, n) == IndexRun(ops, r.code, st, n)
    decreases n
  {
    hide IndexStep, IndexRun, GoodScript, Applies, Apply, MergeClear, AfterLoad, PeepholeLine.SameNamespace;
    if n > 0 {
      UnfoldRun(ops, r.code, st, n - 1);
      UnfoldRun(ops, Apply(MergeLoads, r, index).code, st, n - 1);
      MergedStep(ops, r, index, st);
      MergedRun(ops, r, index, IndexStep(ops, r.code, st), n - 1);
    } else {
      UnfoldRun(ops, r.code, st, 0);
      UnfoldRun(ops, Apply(MergeLoads, r, index).code, st, 0);
    }
  }

  /**
   * Merging two loads of one namespace on a script with branches, none of which leads to the second
   * load or crosses it when it has an operand byte: every run returns the same data or faults as
   * before.
   */
  lemma {:induction false} MergeMeaning(ops: Ops, r: Routine, index: nat)
    requires GoodScript(r.code) && index < |r.code| && Applies(MergeLoads, r, index) && MergeClear(r.code, index)
    requires PeepholeLine.SameNamespace(r.code[index], r.code[index + 1])
    ensures GoodScript(Apply(MergeLoads, r, index).code) && SameMeaning(ops, r.code, Apply(MergeLoads, r, index).code)
  {
    hide GoodScript, Applies, Apply, MergeClear, PeepholeLine.SameNamespace, InRange, ByteState, EncodeAll, IndexRun, Run;
    MergedGood(r, index);
    var s, out := r.code, Apply(MergeLoads, r, index).code;
    forall d, fin: State | !fin.Running? ensures Ends(ops, s, d, fin) <==> Ends(ops, out, d, fin) {
      forall n: nat ensures Run(ops, EncodeAll(s), Running(0, d, Nil), n) == fin <==> Run(ops, EncodeAll(out), Running(0, d, Nil), n) == fin {
        SameEnd(ops, r, index, d, n);
      }
    }
  }

  lemma BeforeLoads(r: Routine, index: nat, d: Data)
    requires index < |r.code| && Applies(MergeLoads, r, index)
    ensures index + 1 < |r.code| && LoadSlot(r.code[index + 1]).Some? && AfterLoad(r.code, index, Running(0, d, Nil))
  {
    hide LoadSlot, Touched;
  }

  /** After any number of steps both machines are still running, or both have ended alike. */
  lemma {:induction false} SameEnd(ops: Ops, r: Routine, index: nat, d: Data, n: nat)
    requires GoodScript(r.code) && index < |r.code| && Applies(MergeLoads, r, index) && MergeClear(r.code, index)
    requires PeepholeLine.SameNamespace(r.code[index], r.code[index + 1])
    ensures var out := Apply(MergeLoads, r, index).code;
            var a, b := Run(ops, EncodeAll(r.code), Running(0, d, Nil), n), Run(ops, EncodeAll(out), Running(0, d, Nil), n);
            (a.Running? <==> b.Running?) && (!a.Running? ==> a == b)
  {
    hide GoodScript, Applies, Apply, MergeClear, PeepholeLine.SameNamespace, EncodeAll, IndexRun, Run;
    MergedGood(r, index);
    var s, out := r.code, Apply(MergeLoads, r, index).code;
    var st := Running(0, d, Nil);
    BeforeLoads(r, index, d);
    StartState(s, d);
    StartState(out, d);
    MergedRun(ops, r, index, st, n);
    RunRefines(ops, s, st, n);
    RunRefines(ops, out, st, n);
  }

  // ----- DUP and DROP removed: the same run, minus the pair -----

  /** No branch leads between the pair or crosses it, nor to a pair that ends the script: the machine may not jump to the end. */
  ghost predicate DropClear(s: Script, index: nat) {
    forall j, n, k :: Denotes(s, j, n, k) ==> k != index + 1 && OnSameSide(j, index, k) && (k == index ==> index + 2 < |s|)
  }

  lemma {:induction false} DroppedGood(r: Routine, index: nat)
    requires GoodScript(r.code) && index < |r.code| && Applies(DropDup, r, index) && DropClear(r.code, index)
    ensures var out := Apply(DropDup, r, index).code;
            && GoodScript(out) && |out| == |r.code| - 2
            && (forall j: nat :: j < |r.code| && (j < index || j >= index + 2) ==> out[IndexAfter(index, 2, j)] == r.code[j])
            && forall j, n, k :: Denotes(r.code, j, n, k) ==> Denotes(out, IndexAfter(index, 2, j), n, IndexAfter(index, 2, k))
  {
    hide Denotes, OffsetCount, WellFormed, Touched;
    var s, out := r.code, Apply(DropDup, r, index).code;
    forall j, n, k | Denotes(s, j, n, k) ensures Denotes(out, IndexAfter(index, 2, j), n, IndexAfter(index, 2, k)) {
      DroppedPairKeepsTarget(DropDup, r, index, j, n, k);
    }
    forall i | i in out ensures WellFormed(i) {
      assert i in s;
    }
    forall j, n | 0 <= j < |out| && 0 <= n < OffsetCount(out[j]) ensures HasTarget(out, j, n) {
      var o := if j < index then j else j + 2;
      assert out[j] == s[o] && HasTarget(s, o, n);
      var k :| Denotes(s, o, n, k);
      assert Denotes(out, IndexAfter(index, 2, o), n, IndexAfter(index, 2, k));
    }
  }

  function CallsAfter(index: nat, calls: List<Frame>): List<Frame> {
    match calls
    case Nil => Nil
    case Cons(f, rest) => Cons(f.(returnPc := IndexAfter(index, 2, f.returnPc)), CallsAfter(index, rest))
  }

  /** The state of the shorter script: between DUP and DROP, the one before the DUP. */
  function Without(index: nat, st: State): State {
    match st
    case Running(pc, d, calls) =>
      Running(IndexAfter(index, 2, pc),
              if pc == index + 1 && d.stack.Cons? then d.(stack := d.stack.tail) else d, CallsAfter(index, calls))
    case Returned(d) => st
    case Faulted => st
  }

  /** Control is between DUP and DROP only right after the DUP. */
  predicate AfterDup(index: nat, st: State) {
    st.Running? ==> NoReturnTo(st.calls, index + 1) && (st.pc == index + 1 ==> st.data.stack.Cons?)
  }

  predicate AtPair(index: nat, st: State) { st.Running? && (st.pc == index || st.pc == index + 1) }

  lemma DropActs(ops: Ops, i: Instruction, d: Data)
    requires i.opcode == DUP || i.opcode == DROP
    ensures Act(ops, i, d) ==
            if d.stack.Nil? then Fault
            else if i.opcode == DUP then Next(d.Push(d.stack.head)) else Next(d.(stack := d.stack.tail))
  {
  }

  /** Between DUP and DROP the shorter script has nothing to do. */
  lemma {:induction false} PairStep(ops: Ops, r: Routine, index: nat, st: State)
    requires index < |r.code| && Applies(DropDup, r, index) && AfterDup(index, st) && AtPair(index, st)
    ensures var next := IndexStep(ops, r.code, st);
            && AfterDup(index, next)
            && (next != Faulted ==> Without(index, next) == Without(index, st) && (st.pc == index + 1 ==> !AtPair(index, next)))
  {
    hide Act, Touched, Target;
    DropActs(ops, r.code[st.pc], st.data);
  }

  /** The instruction outside the pair at `pc`, and where it jumps, in the shorter script. */
  lemma {:induction false} OtherInstruction(ops: Ops, r: Routine, index: nat, pc: nat, d: Data)
    requires GoodScript(r.code) && index < |r.code| && Applies(DropDup, r, index) && DropClear(r.code, index)
    requires pc < |r.code| && pc != index && pc != index + 1
    ensures var s, out, j := r.code, Apply(DropDup, r, index).code, IndexAfter(index, 2, pc);
            && |out| == |s| - 2 && index + 1 < |s| && j < |out| && out[j] == s[pc]
            && (Act(ops, s[pc], d).Jump? || Act(ops, s[pc], d).Enter? ==>
                  && Target(s, pc) <= |s| && Target(s, pc) != index + 1 && Target(out, j) == IndexAfter(index, 2, Target(s, pc))
                  && (Target(s, pc) < |s| <==> Target(out, j) < |out|))
  {
    hide Act, Denotes, GoodScript, Touched, Target;
    var s, out := r.code, Apply(DropDup, r, index).code;
    DroppedGood(r, index);
    var j := IndexAfter(index, 2, pc);
    assert out[j] == s[pc];
    if Act(ops, s[pc], d).Jump? || Act(ops, s[pc], d).Enter? {
      JumpHasTarget(ops, s, pc, d);
      TargetIs(out, j, IndexAfter(index, 2, Target(s, pc)));
      TargetBound(s, pc, Target(s, pc));
      JumpAfter(s, out, index, Target(s, pc));
    }
  }

  /** Any other step is a step of the shorter script. */
  lemma {:induction false} OtherStep(ops: Ops, r: Routine, index: nat, st: State)
    requires GoodScript(r.code) && index < |r.code| && Applies(DropDup, r, index) && DropClear(r.code, index)
    requires AfterDup(index, st) && !AtPair(index, st)
    ensures var out, next := Apply(DropDup, r, index).code, IndexStep(ops, r.code, st);
            AfterDup(index, next) && Without(index, next) == IndexStep(ops, out, Without(index, st))
  {
    hide Act, GoodScript, Applies, Apply, DropClear, Target;
    var s, out := r.code, Apply(DropDup, r, index).code;
    if st.Running? {
      if st.pc < |s| {
        OtherInstruction(ops, r, index, st.pc, st.data);
      } else {
        DroppedSize(r, index);
      }
    }
  }

  lemma DroppedSize(r: Routine, index: nat)
    requires index < |r.code| && Applies(DropDup, r, index)
    ensures index + 1 < |r.code| && |Apply(DropDup, r, index).code| == |r.code| - 2
  {
    hide Touched;
  }

  lemma JumpAfter(s: Script, out: Script, index: nat, k: nat)
    requires index + 1 < |s| && |out| == |s| - 2 && k <= |s| && k != index + 1 && (k == index ==> index + 2 < |s|)
    ensures k < |s| <==> IndexAfter(index, 2, k) < |out|
  {
  }

  lemma TargetBound(s: Script, j: nat, k: nat)
    requires Denotes(s, j, 0, k)
    ensures k <= |s|
  {
  }

  /** Steps of the longer script that the shorter one does not make from here on before its next. */
  function Idle(index: nat, st: State): nat {
    if !AtPair(index, st) then 0 else if st.pc == index then 2 else 1
  }

  /** A run that has not faulted: the shorter script gets to the corresponding state. */
  lemma {:induction false} DroppedRun(ops: Ops, r: Routine, index: nat, st: State, n: nat) returns (m: nat)
    requires GoodScript(r.code) && index < |r.code| && Applies(DropDup, r, index) && DropClear(r.code, index)
    requires AfterDup(index, st) && IndexRun(ops, r.code, st, n) != Faulted
    ensures m <= n <= 3 * m + Idle(index, st)
    ensures IndexRun(ops, Apply(DropDup, r, index).code, Without(index, st), m) == Without(index, IndexRun(ops, r.code, st, n))
    decreases n
  {
    hide GoodScript, Applies, Apply, DropClear, IndexStep, IndexRun, Without, AfterDup;
    var s, out := r.code, Apply(DropDup, r, index).code;
    m := 0;
    UnfoldRun(ops, s, st, 0);
    UnfoldRun(ops, out, Without(index, st), 0);
    if n > 0 {
      var st1 := IndexStep(ops, s, st);
      UnfoldRun(ops, s, st, n - 1);
      if st1 == Faulted {
        EndedRun(ops, s, Faulted, n - 1);
      }
      if AtPair(index, st) {
        PairStep(ops, r, index, st);
        PairNext(ops, r, index, st);
        m := DroppedRun(ops, r, index, st1, n - 1);
      } else {
        OtherStep(ops, r, index, st);
        m := DroppedRun(ops, r, index, st1, n - 1);
        UnfoldRun(ops, out, Without(index, st), m);
        m := m + 1;
      }
    }
  }

  /** From the DUP control goes on to the DROP. */
  lemma {:induction false} PairNext(ops: Ops, r: Routine, index: nat, st: State)
    requires index < |r.code| && Applies(DropDup, r, index) && AtPair(index, st) && IndexStep(ops, r.code, st) != Faulted
    ensures Idle(index, IndexStep(ops, r.code, st)) + 1 == Idle(index, st)
  {
    hide Act, Touched, Target;
    DropActs(ops, r.code[st.pc], st.data);
  }

  /**
   * Removing DUP and DROP on a script with branches, none of which crosses the pair or leads into
   * it: a run that returned returns the same data, and no run ends in a new way, except that one
   * which faulted on the DUP may go on.
   */
  lemma {:induction false} DropDupMeaning(ops: Ops, r: Routine, index: nat, d: Data, fin: State)
    requires GoodScript(r.code) && index < |r.code| && Applies(DropDup, r, index) && DropClear(r.code, index) && !fin.Running?
    ensures GoodScript(Apply(DropDup, r, index).code)
    ensures Ends(ops, r.code, d, fin) && fin != Faulted ==> Ends(ops, Apply(DropDup, r, index).code, d, fin)
    ensures Ends(ops, Apply(DropDup, r, index).code, d, fin) ==> Ends(ops, r.code, d, fin) || Ends(ops, r.code, d, Faulted)
  {
    hide GoodScript, Applies, Apply, DropClear, InRange, ByteState, EncodeAll, IndexRun, Run;
    DroppedGood(r, index);
    var s, out := r.code, Apply(DropDup, r, index).code;
    var st := Running(0, d, Nil);
    StartState(s, d);
    StartState(out, d);
    StartsWithout(index, d);
    if Ends(ops, s, d, fin) && fin != Faulted {
      var n: nat :| Run(ops, EncodeAll(s), st, n) == fin;
      var m := DroppedBytes(ops, r, index, d, n);
    }
    if Ends(ops, out, d, fin) {
      var m: nat :| Run(ops, EncodeAll(out), st, m) == fin;
      var n := 3 * m + 2;
      if Run(ops, EncodeAll(s), st, n) != Faulted {
        var m' := DroppedBytes(ops, r, index, d, n);
        RunAdd(ops, EncodeAll(out), st, m, m' - m);
        RunHalted(ops, EncodeAll(out), fin, m' - m);
      }
    }
  }

  lemma StartsWithout(index: nat, d: Data)
    ensures AfterDup(index, Running(0, d, Nil)) && Without(index, Running(0, d, Nil)) == Running(0, d, Nil)
  {
  }

  /** The same on bytes: when the longer script has ended without a fault, the shorter has ended alike. */
  lemma {:induction false} DroppedBytes(ops: Ops, r: Routine, index: nat, d: Data, n: nat) returns (m: nat)
    requires GoodScript(r.code) && index < |r.code| && Applies(DropDup, r, index) && DropClear(r.code, index)
    requires Run(ops, EncodeAll(r.code), Running(0, d, Nil), n) != Faulted
    ensures m <= n <= 3 * m + 2
    ensures var out := Apply(DropDup, r, index).code;
            var a, b := Run(ops, EncodeAll(r.code), Running(0, d, Nil), n), Run(ops, EncodeAll(out), Running(0, d, Nil), m);
            (a.Running? <==> b.Running?) && (!a.Running? ==> a == b)
  {
    hide GoodScript, Applies, Apply, DropClear, EncodeAll, IndexRun, Run;
    DroppedGood(r, index);
    var s, out := r.code, Apply(DropDup, r, index).code;
    var st := Running(0, d, Nil);
    StartState(s, d);
    StartState(out, d);
    StartsWithout(index, d);
    RunRefines(ops, s, st, n);
    m := DroppedRun(ops, r, index, st, n);
    RunRefines(ops, out, st, m);
  }
}
