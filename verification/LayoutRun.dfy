/** Running a script by instruction index, and what the two layout edits do to a run. */
module LayoutRun {
  import opened Prelude
  import opened Bytecode
  import opened Disasm
  import opened Vm
  import opened Layout
  import opened Shorten

  /** What an instruction does, apart from where it sits. */
  datatype Move = Next(d: Data) | Jump(d: Data) | Enter | Leave | Fault

  function Act(ops: Ops, i: Instruction, d: Data): Move {
    if IsJump(i.opcode) then
      if i.operands == [] then Fault
      else
        match JumpTest(ops, i.opcode, d)
        case None => Fault
        case Some((taken, d')) => if taken then Jump(d') else Next(d')
    else if i.opcode == CALL || i.opcode == CALL_L then
      if i.operands == [] then Fault else Enter
    else if i.opcode == RET then Leave
    else if IsUnmodelled(i.opcode) then Fault
    else
      match ExecData(ops, i, d)
      case None => Fault
      case Some(d') => Next(d')
  }

  /** The instruction the relative operand of `s[j]` leads to. */
  ghost function Target(s: Script, j: nat): (k: nat)
    ensures HasTarget(s, j, 0) ==> Denotes(s, j, 0, k)
  {
    if HasTarget(s, j, 0) then var k: nat :| Denotes(s, j, 0, k); k else |s|
  }

  /** One step of the machine whose `pc` and return addresses are instruction indices. */
  ghost function IndexStep(ops: Ops, s: Script, st: State): State {
    if !st.Running? then st
    else if st.pc >= |s| then Return(st.data, st.calls)
    else
      match Act(ops, s[st.pc], st.data)
      case Next(d) => Running(st.pc + 1, d, st.calls)
      case Jump(d) => JumpTo(|s|, Target(s, st.pc), d, st.calls)
      case Enter =>
        JumpTo(|s|, Target(s, st.pc), st.data.(locals := [], args := []),
               Cons(Frame(st.pc + 1, st.data.locals, st.data.args), st.calls))
      case Leave => Return(st.data, st.calls)
      case Fault => Faulted
  }

  ghost function IndexRun(ops: Ops, s: Script, st: State, n: nat): State
    decreases n
  {
    if n == 0 then st else IndexRun(ops, s, IndexStep(ops, s, st), n - 1)
  }

  predicate CallsInRange(s: Script, calls: List<Frame>) {
    calls.Cons? ==> calls.head.returnPc <= |s| && CallsInRange(s, calls.tail)
  }

  predicate InRange(s: Script, st: State) {
    st.Running? ==> st.pc <= |s| && CallsInRange(s, st.calls)
  }

  function ByteCalls(s: Script, calls: List<Frame>): List<Frame>
    requires CallsInRange(s, calls)
  {
    match calls
    case Nil => Nil
    case Cons(f, rest) => Cons(f.(returnPc := Offset(s, f.returnPc)), ByteCalls(s, rest))
  }

  /** The state of the byte-addressed machine that an index state stands for. */
  function ByteState(s: Script, st: State): State
    requires InRange(s, st)
  {
    match st
    case Running(pc, d, calls) => Running(Offset(s, pc), d, ByteCalls(s, calls))
    case Returned(d) => st
    case Faulted => st
  }

  // ----- the byte-addressed machine runs the index machine -----

  lemma StepIsAct(ops: Ops, size: nat, i: Instruction, pc: nat, d: Data, calls: List<Frame>)
    ensures StepInstruction(ops, size, i, pc, d, calls) ==
            match Act(ops, i, d)
            case Next(d') => Running(pc + EncodedLen(i), d', calls)
            case Jump(d') => JumpTo(size, pc + Relative(i), d', calls)
            case Enter => JumpTo(size, pc + Relative(i), d.(locals := [], args := []), Cons(Frame(pc + EncodedLen(i), d.locals, d.args), calls))
            case Leave => Return(d, calls)
            case Fault => Faulted
  {
    hide ExecData, JumpTest;
  }

  lemma InstructionAt(s: Script, k: nat)
    requires k < |s|
    ensures CodeAt(EncodeAll(s), Offset(s, k), [s[k]])
    ensures Offset(s, k) < |EncodeAll(s)|
  {
    hide CodeAt, EncodeAll, ByteLen;
    assert s == s[..k] + ([s[k]] + s[k + 1..]);
    WholeCode(s);
    CodeAtSplit(EncodeAll(s), 0, s[..k], [s[k]] + s[k + 1..]);
    CodeAtSplit(EncodeAll(s), Offset(s, k), [s[k]], s[k + 1..]);
    CodeAtBytes(EncodeAll(s), Offset(s, k), s[k]);
  }

  lemma WholeCode(s: Script)
    ensures CodeAt(EncodeAll(s), 0, s)
  {
    assert EncodeAll(s)[0..|EncodeAll(s)|] == EncodeAll(s);
  }

  /** A jump or call leads to the first byte of its target instruction. */
  lemma {:induction false} RelativeTarget(s: Script, k: nat)
    requires GoodScript(s) && k < |s| && (IsJump(s[k].opcode) || s[k].opcode == CALL || s[k].opcode == CALL_L)
    ensures |s[k].operands| > 0 && Target(s, k) <= |s|
    ensures Offset(s, k) + Relative(s[k]) == Offset(s, Target(s, k))
    ensures Offset(s, Target(s, k)) < ByteLen(s) <==> Target(s, k) < |s|
  {
    hide Offset, FromLeSigned, ByteLen;
    GoodWellFormed(s, k);
    assert OffsetCount(s[k]) == 1 && s[k].operands[0..][..OffsetWidth(s[k])] == s[k].operands;
    assert HasTarget(s, k, 0);
    OffsetEnd(s);
    if Target(s, k) < |s| {
      OffsetsIncrease(s, Target(s, k), |s|);
    }
  }

  lemma {:induction false} StepRefines(ops: Ops, s: Script, st: State)
    requires GoodScript(s) && InRange(s, st)
    ensures InRange(s, IndexStep(ops, s, st))
    ensures Step(ops, EncodeAll(s), ByteState(s, st)) == ByteState(s, IndexStep(ops, s, st))
  {
    hide Act, GoodScript, Offset, StepInstruction, EncodeAll, ByteLen, CodeAt, WellFormed, Relative, HasTarget, Denotes, Reaches, DecodeOne;
    if st.Running? {
      OffsetEnd(s);
      if st.pc < |s| {
        var i, pc, calls := s[st.pc], Offset(s, st.pc), ByteCalls(s, st.calls);
        InstructionAt(s, st.pc);
        GoodWellFormed(s, st.pc);
        StepAt(ops, EncodeAll(s), i, pc, st.data, calls);
        StepIsAct(ops, ByteLen(s), i, pc, st.data, calls);
        OffsetStep(s, st.pc);
        ActJumps(ops, i, st.data);
        if IsJump(i.opcode) || i.opcode == CALL || i.opcode == CALL_L {
          RelativeTarget(s, st.pc);
        }
      } else {
        assert Step(ops, EncodeAll(s), ByteState(s, st)) == Return(st.data, ByteCalls(s, st.calls));
      }
    }
  }

  lemma ActJumps(ops: Ops, i: Instruction, d: Data)
    ensures Act(ops, i, d).Jump? || Act(ops, i, d).Enter? ==> IsJump(i.opcode) || i.opcode == CALL || i.opcode == CALL_L
  {
    hide ExecData, JumpTest;
  }

  /** Every run of the encoded script is the run by instruction index. */
  lemma {:induction false} RunRefines(ops: Ops, s: Script, st: State, n: nat)
    requires GoodScript(s) && InRange(s, st)
    ensures InRange(s, IndexRun(ops, s, st, n))
    ensures Run(ops, EncodeAll(s), ByteState(s, st), n) == ByteState(s, IndexRun(ops, s, st, n))
    decreases n
  {
    hide GoodScript, Step, IndexStep, InRange, ByteState, EncodeAll;
    if n > 0 {
      StepRefines(ops, s, st);
      RunRefines(ops, s, IndexStep(ops, s, st), n - 1);
    }
  }

  // ----- narrowing: the same run, step for step -----

  lemma SameAct(ops: Ops, i: Instruction, i2: Instruction, d: Data)
    requires i2.opcode == i.opcode || ShortForm(i.opcode) == Some(i2.opcode)
    requires if OffsetCount(i) == 0 then i2 == i else i.operands != [] && i2.operands != []
    ensures Act(ops, i2, d) == Act(ops, i, d)
  {
    hide ExecData;
  }

  lemma TargetIs(s: Script, j: nat, k: nat)
    requires Denotes(s, j, 0, k)
    ensures Target(s, j) == k
  {
    assert HasTarget(s, j, 0);
    DenotesUnique(s, j, 0, k, Target(s, j));
  }

  lemma JumpHasTarget(ops: Ops, s: Script, j: nat, d: Data)
    requires GoodScript(s) && j < |s| && (Act(ops, s[j], d).Jump? || Act(ops, s[j], d).Enter?)
    ensures Denotes(s, j, 0, Target(s, j))
  {
    hide Offset, FromLeSigned, Act;
    ActJumps(ops, s[j], d);
    GoodWellFormed(s, j);
    assert OffsetCount(s[j]) == 1;
    assert HasTarget(s, j, 0);
  }

  /** `out` does at `j'` what `s` does at `j`. */
  lemma EditedAct(ops: Ops, s: Script, out: Script, edit: Edit, j: nat, d: Data)
    requires GoodScript(s) && GoodScript(out) && KeepsTargets(s, out, edit) && j < |out|
    requires var i := s[OldIndex(edit, j)];
             && (out[j].opcode == i.opcode || ShortForm(i.opcode) == Some(out[j].opcode))
             && (OffsetCount(i) == 0 ==> out[j] == i)
    ensures var i := s[OldIndex(edit, j)];
            && Act(ops, out[j], d) == Act(ops, i, d)
            && (Act(ops, i, d).Jump? || Act(ops, i, d).Enter? ==> Target(out, j) == NewIndex(edit, Target(s, OldIndex(edit, j))))
  {
    hide Act, Denotes, GoodScript, Target;
    var o := OldIndex(edit, j);
    OperandsPresent(s[o]);
    OperandsPresent(out[j]);
    SameAct(ops, s[o], out[j], d);
    if Act(ops, s[o], d).Jump? || Act(ops, s[o], d).Enter? {
      JumpHasTarget(ops, s, o, d);
      TargetIs(out, j, NewIndex(edit, Target(s, o)));
    }
  }

  lemma OperandsPresent(i: Instruction)
    ensures OffsetCount(i) > 0 ==> i.operands != []
  {
  }

  lemma {:induction false} ShortenedStep(ops: Ops, s: Script, index: nat, st: State)
    requires GoodScript(s) && index < |s| && CanShorten(s[index])
    ensures TryShorten(s, index).Some? && IndexStep(ops, TryShorten(s, index).value, st) == IndexStep(ops, s, st)
  {
    hide Act, GoodScript, Target, TryShorten, KeepsTargets, CanShorten, ShortForm, OffsetCount;
    ShortenCorrect(s, index);
    var out, edit := TryShorten(s, index).value, NarrowEdit(s, index);
    if st.Running? && st.pc < |s| {
      assert SameUpToWidth(s[st.pc], out[st.pc]);
      EditedAct(ops, s, out, edit, st.pc, st.data);
    }
  }

  /**
   * Narrowing a branch changes no run: at every step both scripts are at the same instruction
   * with the same stack, slots, trace and return points.
   */
  lemma {:induction false} ShortenedRun(ops: Ops, s: Script, index: nat, st: State, n: nat)
    requires GoodScript(s) && index < |s| && CanShorten(s[index]) && InRange(s, st)
    ensures TryShorten(s, index).Some?
    ensures var out, reached := TryShorten(s, index).value, IndexRun(ops, s, st, n);
            && InRange(s, reached) && InRange(out, reached) && InRange(out, st)
            && Run(ops, EncodeAll(s), ByteState(s, st), n) == ByteState(s, reached)
            && Run(ops, EncodeAll(out), ByteState(out, st), n) == ByteState(out, reached)
  {
    hide GoodScript, TryShorten, KeepsTargets, CanShorten, IndexRun, InRange, ByteState, EncodeAll, Run;
    ShortenCorrect(s, index);
    var out := TryShorten(s, index).value;
    RunRefines(ops, s, st, n);
    SameRange(s, out, st);
    SameIndexRun(ops, s, index, st, n);
    RunRefines(ops, out, st, n);
  }

  lemma SameRange(s: Script, out: Script, st: State)
    requires |out| == |s|
    ensures InRange(s, st) == InRange(out, st)
  {
    if st.Running? {
      SameCallsRange(s, out, st.calls);
    }
  }

  lemma {:induction false} SameCallsRange(s: Script, out: Script, calls: List<Frame>)
    requires |out| == |s|
    ensures CallsInRange(s, calls) == CallsInRange(out, calls)
  {
    if calls.Cons? {
      SameCallsRange(s, out, calls.tail);
    }
  }

  lemma {:induction false} SameIndexRun(ops: Ops, s: Script, index: nat, st: State, n: nat)
    requires GoodScript(s) && index < |s| && CanShorten(s[index])
    ensures TryShorten(s, index).Some? && IndexRun(ops, TryShorten(s, index).value, st, n) == IndexRun(ops, s, st, n)
    decreases n
  {
    hide GoodScript, TryShorten, CanShorten, IndexStep;
    ShortenedStep(ops, s, index, st);
    if n > 0 {
      SameIndexRun(ops, s, index, IndexStep(ops, s, st), n - 1);
    }
  }

  // ----- deleting a redundant jump: the same run, minus the jump -----

  function ShiftCalls(edit: Edit, calls: List<Frame>): List<Frame> {
    match calls
    case Nil => Nil
    case Cons(f, rest) => Cons(f.(returnPc := NewIndex(edit, f.returnPc)), ShiftCalls(edit, rest))
  }

  /** The state of the edited script that stands for a state of the original. */
  function Shift(edit: Edit, st: State): State {
    match st
    case Running(pc, d, calls) => Running(NewIndex(edit, pc), d, ShiftCalls(edit, calls))
    case Returned(d) => st
    case Faulted => st
  }

  /** The jump itself only moves to the next instruction. */
  lemma RedundantStep(ops: Ops, s: Script, st: State)
    requires GoodScript(s) && st.Running? && st.pc < |s| && IsRedundantJump(s, st.pc)
    ensures IndexStep(ops, s, st) == Running(st.pc + 1, st.data, st.calls)
  {
    hide Offset, FromLeSigned, GoodScript, ExecData;
    var i := s[st.pc];
    assert OffsetCount(i) == 1 && i.operands[0..][..OffsetWidth(i)] == i.operands;
    OffsetStep(s, st.pc);
    TargetIs(s, st.pc, st.pc + 1);
  }

  lemma {:induction false} DeletedStep(ops: Ops, s: Script, index: nat, st: State)
    requires GoodScript(s) && index < |s| && IsRedundantJump(s, index) && InRange(s, st)
    ensures TryDelete(s, index).Some?
    ensures var out, edit := TryDelete(s, index).value, DeleteEdit(s, index);
            Shift(edit, IndexStep(ops, s, st)) ==
            if st.Running? && st.pc == index then Shift(edit, st) else IndexStep(ops, out, Shift(edit, st))
  {
    hide Act, GoodScript, Target, TryDelete, KeepsTargets, ShortForm, OffsetCount, Offset, EncodedLen, FromLeSigned, CallsInRange;
    DeleteCorrect(s, index);
    var out, edit := TryDelete(s, index).value, DeleteEdit(s, index);
    if st.Running? && st.pc == index {
      RedundantStep(ops, s, st);
    } else if st.Running? && st.pc < |s| {
      var j := NewIndex(edit, st.pc);
      SameCountAt(s, out, edit, j);
      EditedAct(ops, s, out, edit, j, st.data);
      if Act(ops, s[st.pc], st.data).Jump? || Act(ops, s[st.pc], st.data).Enter? {
        JumpHasTarget(ops, s, st.pc, st.data);
        assert Target(s, st.pc) <= |s|;
      }
    }
  }

  lemma SameCountAt(s: Script, out: Script, edit: Edit, j: nat)
    requires KeepsTargets(s, out, edit) && j < |out|
    ensures OldIndex(edit, j) < |s| && OffsetCount(out[j]) == OffsetCount(s[OldIndex(edit, j)])
  {
  }

  predicate AtJump(st: State, index: nat) {
    st.Running? && st.pc == index
  }

  lemma UnfoldRun(ops: Ops, s: Script, st: State, n: nat)
    ensures IndexRun(ops, s, st, 0) == st
    ensures IndexRun(ops, s, st, n + 1) == IndexRun(ops, s, IndexStep(ops, s, st), n)
  {
    hide IndexStep;
  }

  lemma {:induction false} EndedRun(ops: Ops, s: Script, st: State, n: nat)
    requires !st.Running?
    ensures IndexRun(ops, s, st, n) == st
    decreases n
  {
    if n > 0 {
      EndedRun(ops, s, st, n - 1);
    }
  }

  /** The edited script gets to the corresponding state, in at least half as many steps. */
  lemma {:induction false} DeletedRun(ops: Ops, s: Script, index: nat, st: State, n: nat) returns (m: nat)
    requires GoodScript(s) && index < |s| && IsRedundantJump(s, index) && InRange(s, st)
    ensures TryDelete(s, index).Some? && m <= n <= 2 * m + if AtJump(st, index) then 1 else 0
    ensures var out, edit := TryDelete(s, index).value, DeleteEdit(s, index);
            IndexRun(ops, out, Shift(edit, st), m) == Shift(edit, IndexRun(ops, s, st, n))
    decreases n
  {
    hide GoodScript, TryDelete, IsRedundantJump, IndexStep, InRange, Shift, DeleteEdit, IndexRun;
    DeletedStep(ops, s, index, st);
    var out, edit := TryDelete(s, index).value, DeleteEdit(s, index);
    m := 0;
    UnfoldRun(ops, s, st, 0);
    UnfoldRun(ops, out, Shift(edit, st), 0);
    if n > 0 {
      var st1 := IndexStep(ops, s, st);
      UnfoldRun(ops, s, st, n - 1);
      StepRefines(ops, s, st);
      m := DeletedRun(ops, s, index, st1, n - 1);
      if AtJump(st, index) {
        RedundantStep(ops, s, st);
      } else {
        UnfoldRun(ops, out, Shift(edit, st), m);
        m := m + 1;
      }
    }
  }

  lemma {:induction false} ShiftInRange(s: Script, out: Script, index: nat, st: State)
    requires index < |s| && |out| == |s| - 1 && InRange(s, st)
    ensures InRange(out, Shift(DeleteEdit(s, index), st))
  {
    hide Offset, EncodedLen;
    if st.Running? {
      ShiftCallsInRange(s, out, index, st.calls);
    }
  }

  lemma {:induction false} ShiftCallsInRange(s: Script, out: Script, index: nat, calls: List<Frame>)
    requires index < |s| && |out| == |s| - 1 && CallsInRange(s, calls)
    ensures CallsInRange(out, ShiftCalls(DeleteEdit(s, index), calls))
  {
    hide Offset, EncodedLen;
    if calls.Cons? {
      ShiftCallsInRange(s, out, index, calls.tail);
    }
  }

  /**
   * A script and the script without its redundant jump end the same way: one returns with a
   * given stack, slots and trace, or faults, exactly when the other does.
   */
  lemma {:induction false} DeletedMeaning(ops: Ops, s: Script, index: nat, st: State, fin: State)
    requires GoodScript(s) && index < |s| && IsRedundantJump(s, index) && InRange(s, st) && !fin.Running?
    ensures TryDelete(s, index).Some?
    ensures var out, edit := TryDelete(s, index).value, DeleteEdit(s, index);
            && InRange(out, Shift(edit, st))
            && (Reaches(ops, EncodeAll(s), ByteState(s, st), fin) <==>
                Reaches(ops, EncodeAll(out), ByteState(out, Shift(edit, st)), fin))
  {
    hide GoodScript, TryDelete, IsRedundantJump, IndexStep, InRange, EncodeAll, IndexRun, DeleteEdit;
    DeleteCorrect(s, index);
    var out, edit := TryDelete(s, index).value, DeleteEdit(s, index);
    var st' := Shift(edit, st);
    ShiftInRange(s, out, index, st);
    if Reaches(ops, EncodeAll(s), ByteState(s, st), fin) {
      var n: nat :| Run(ops, EncodeAll(s), ByteState(s, st), n) == fin;
      RunRefines(ops, s, st, n);
      var m := DeletedRun(ops, s, index, st, n);
      RunRefines(ops, out, st', m);
      assert Run(ops, EncodeAll(out), ByteState(out, st'), m) == fin;
    }
    if Reaches(ops, EncodeAll(out), ByteState(out, st'), fin) {
      var m: nat :| Run(ops, EncodeAll(out), ByteState(out, st'), m) == fin;
      var n := 2 * m + 1;
      RunRefines(ops, s, st, n);
      var m' := DeletedRun(ops, s, index, st, n);
      RunRefines(ops, out, st', m');
      RunAdd(ops, EncodeAll(out), ByteState(out, st'), m, m' - m);
      RunHalted(ops, EncodeAll(out), fin, m' - m);
      assert Run(ops, EncodeAll(s), ByteState(s, st), n) == fin;
    }
  }
}
