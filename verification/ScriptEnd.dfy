/**
 * The last instruction of a script. A routine that stands last in its script and got no RET falls
 * off the end, or jumps there and faults; what does neither does not notice what comes after it.
 */
module ScriptEnd {
  import opened Prelude
  import opened Bytecode
  import opened Vm
  import opened Layout
  import opened Shorten
  import opened LayoutRun
  import opened PeepholeLayout

  /** An instruction that faults, and one that returns. */
  const STOP := Instruction(THROW, [])

  const LEAVE := Instruction(RET, [])

  lemma {:induction false} SameOffset(s: Script, i: Instruction, k: nat)
    requires k <= |s|
    ensures Offset(s + [i], k) == Offset(s, k)
  {
    assert (s + [i])[..k] == s[..k];
  }

  lemma {:induction false} SameDenotes(s: Script, i: Instruction, j: nat, n: nat, k: nat)
    requires Denotes(s, j, n, k)
    ensures Denotes(s + [i], j, n, k)
  {
    hide Offset, OffsetAt, OffsetCount;
    SameOffset(s, i, j);
    SameOffset(s, i, k);
    assert (s + [i])[j] == s[j];
  }

  lemma {:induction false} LongerGood(s: Script, i: Instruction)
    requires GoodScript(s) && WellFormed(i) && OffsetCount(i) == 0
    ensures GoodScript(s + [i])
  {
    hide WellFormed, OffsetCount, Denotes;
    var t := s + [i];
    forall j, n | 0 <= j < |t| && 0 <= n < OffsetCount(t[j]) ensures HasTarget(t, j, n) {
      assert t[j] == s[j] && HasTarget(s, j, n);
      var k :| Denotes(s, j, n, k);
      SameDenotes(s, i, j, n, k);
    }
  }

  /** Inside the script the longer one takes the same step, but for a jump to the old end. */
  lemma {:induction false} LongerStep(ops: Ops, s: Script, i: Instruction, st: State)
    requires GoodScript(s) && st.Running? && st.pc < |s|
    ensures var a, b := IndexStep(ops, s, st), IndexStep(ops, s + [i], st);
            a == b || (a == Faulted && b.Running? && b.pc == |s|)
  {
    hide Act, GoodScript, Denotes;
    var t := s + [i];
    assert t[st.pc] == s[st.pc];
    if Act(ops, s[st.pc], st.data).Jump? || Act(ops, s[st.pc], st.data).Enter? {
      JumpHasTarget(ops, s, st.pc, st.data);
      SameDenotes(s, i, st.pc, 0, Target(s, st.pc));
      TargetIs(t, st.pc, Target(s, st.pc));
      InsideScript(s, st.pc, Target(s, st.pc));
    }
  }

  lemma InsideScript(s: Script, j: nat, k: nat)
    requires Denotes(s, j, 0, k)
    ensures k <= |s|
  {
  }

  /** At the old end, STOP faults. */
  lemma {:induction false} StopFaults(ops: Ops, s: Script, st: State, n: nat)
    requires st.Running? && st.pc == |s|
    ensures !IndexRun(ops, s + [STOP], st, n).Returned?
  {
    if n > 0 {
      EndedRun(ops, s + [STOP], Faulted, n - 1);
    }
  }

  /** A run that returns although STOP stands at the end never came there. */
  lemma {:induction false} ReturnsBeforeEnd(ops: Ops, s: Script, st: State, n: nat)
    requires GoodScript(s) && (st.Running? ==> st.pc <= |s|) && IndexRun(ops, s + [STOP], st, n).Returned?
    requires InRange(s, st)
    ensures IndexRun(ops, s, st, n) == IndexRun(ops, s + [STOP], st, n)
    decreases n
  {
    hide GoodScript, IndexStep, IndexRun, InRange;
    var t := s + [STOP];
    if n == 0 {
      UnfoldRun(ops, s, st, 0);
      UnfoldRun(ops, t, st, 0);
    } else if st.Running? {
      UnfoldRun(ops, s, st, n - 1);
      UnfoldRun(ops, t, st, n - 1);
      RangeMeans(s, st);
      if st.pc == |s| {
        StopFaults(ops, s, st, n);
      } else {
        LongerStep(ops, s, STOP, st);
        var next := IndexStep(ops, t, st);
        if next != IndexStep(ops, s, st) {
          StopFaults(ops, s, next, n - 1);
        }
        StepRefines(ops, s, st);
        RangeMeans(s, next);
        ReturnsBeforeEnd(ops, s, next, n - 1);
      }
    } else {
      EndedRun(ops, s, st, n);
      EndedRun(ops, t, st, n);
    }
  }

  lemma RangeMeans(s: Script, st: State)
    requires InRange(s, st)
    ensures st.Running? ==> st.pc <= |s|
  {
  }

  /** A run that faults although a RET stands at the end faults without it. */
  lemma {:induction false} FaultsBeforeEnd(ops: Ops, s: Script, st: State, n: nat)
    requires GoodScript(s) && InRange(s, st) && IndexRun(ops, s + [LEAVE], st, n) == Faulted
    ensures IndexRun(ops, s, st, n) == Faulted
    decreases n
  {
    hide GoodScript, IndexStep, IndexRun, InRange;
    var t := s + [LEAVE];
    UnfoldRun(ops, s, st, 0);
    UnfoldRun(ops, t, st, 0);
    if n > 0 {
      if st.Running? {
        UnfoldRun(ops, s, st, n - 1);
        UnfoldRun(ops, t, st, n - 1);
        RangeMeans(s, st);
        StepRefines(ops, s, st);
        if st.pc == |s| {
          LeaveReturns(ops, s, st);
          FaultsBeforeEnd(ops, s, IndexStep(ops, s, st), n - 1);
        } else {
          LongerStep(ops, s, LEAVE, st);
          if IndexStep(ops, s, st) == Faulted {
            EndedRun(ops, s, Faulted, n - 1);
          } else {
            FaultsBeforeEnd(ops, s, IndexStep(ops, s, st), n - 1);
          }
        }
      } else {
        EndedRun(ops, s, st, n);
        EndedRun(ops, t, st, n);
      }
    }
  }

  /** Falling off the end and RET are the same step. */
  lemma LeaveReturns(ops: Ops, s: Script, st: State)
    requires st.Running? && st.pc == |s|
    ensures IndexStep(ops, s + [LEAVE], st) == IndexStep(ops, s, st)
  {
  }

  lemma {:induction false} BothStart(s: Script, i: Instruction, d: Data)
    requires GoodScript(s) && WellFormed(i) && OffsetCount(i) == 0
    ensures GoodScript(s + [i]) && InRange(s, Running(0, d, Nil)) && InRange(s + [i], Running(0, d, Nil))
    ensures ByteState(s, Running(0, d, Nil)) == Running(0, d, Nil) == ByteState(s + [i], Running(0, d, Nil))
  {
    hide GoodScript;
    LongerGood(s, i);
    StartState(s, d);
    StartState(s + [i], d);
  }

  lemma StopShape()
    ensures WellFormed(STOP) && OffsetCount(STOP) == 0 && WellFormed(LEAVE) && OffsetCount(LEAVE) == 0
  {
  }

  /** What returns with STOP after it returns the same without, and what faults with RET after it faults without. */
  lemma {:induction false} EndUnseen(ops: Ops, s: Script, d: Data, e: Data)
    requires GoodScript(s)
    ensures Ends(ops, s + [STOP], d, Returned(e)) ==> Ends(ops, s, d, Returned(e))
    ensures Ends(ops, s + [LEAVE], d, Faulted) ==> Ends(ops, s, d, Faulted)
  {
    hide GoodScript, InRange, ByteState, EncodeAll, IndexRun, Run;
    var st := Running(0, d, Nil);
    StopShape();
    BothStart(s, STOP, d);
    BothStart(s, LEAVE, d);
    if Ends(ops, s + [STOP], d, Returned(e)) {
      var n: nat :| Run(ops, EncodeAll(s + [STOP]), st, n) == Returned(e);
      RunRefines(ops, s + [STOP], st, n);
      SameEnding(s + [STOP], IndexRun(ops, s + [STOP], st, n), Returned(e));
      ReturnsBeforeEnd(ops, s, st, n);
      RunRefines(ops, s, st, n);
      EndedState(s, Returned(e));
      assert Run(ops, EncodeAll(s), st, n) == Returned(e);
    }
    if Ends(ops, s + [LEAVE], d, Faulted) {
      var n: nat :| Run(ops, EncodeAll(s + [LEAVE]), st, n) == Faulted;
      RunRefines(ops, s + [LEAVE], st, n);
      SameEnding(s + [LEAVE], IndexRun(ops, s + [LEAVE], st, n), Faulted);
      FaultsBeforeEnd(ops, s, st, n);
      RunRefines(ops, s, st, n);
      EndedState(s, Faulted);
      assert Run(ops, EncodeAll(s), st, n) == Faulted;
    }
  }

  lemma SameEnding(s: Script, st: State, fin: State)
    requires InRange(s, st) && ByteState(s, st) == fin && !fin.Running?
    ensures st == fin
  {
  }

  lemma EndedState(s: Script, fin: State)
    requires !fin.Running?
    ensures InRange(s, fin) && ByteState(s, fin) == fin
  {
  }
}
