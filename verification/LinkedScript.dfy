/** What a successful link means for the flattened script. */
module LinkedScript {
  import opened Prelude
  import opened Bytecode
  import opened Disasm
  import opened Vm
  import opened Layout
  import opened Shorten
  import opened LayoutRun
  import opened Peephole
  import opened PeepholeCalls
  import opened Linker

  // ----- positions in the flattened script -----

  lemma {:induction false} CodeAppend(a: Program, b: Program)
    ensures Code(a + b) == Code(a) + Code(b)
  {
    if a == [] {
      assert a + b == b;
    } else {
      assert (a + b)[1..] == a[1..] + b;
      CodeAppend(a[1..], b);
    }
  }

  lemma {:induction false} CodeSplit(p: Program, t: nat)
    requires t < |p|
    ensures Code(p) == Code(p[..t]) + (p[t].routine.code + Code(p[t + 1..]))
  {
    hide Code;
    SplitSeq(p, t, t + 1);
    assert p[t..t + 1] == [p[t]];
    CodeAppend(p[..t], [p[t]] + p[t + 1..]);
    CodeCons(p[t], p[t + 1..]);
  }

  lemma CodeCons(f: Function, rest: Program)
    ensures Code([f] + rest) == f.routine.code + Code(rest)
  {
    assert ([f] + rest)[1..] == rest;
  }

  lemma {:induction false} StartStep(p: Program, t: nat)
    requires t < |p|
    ensures Base(p, t + 1) == Base(p, t) + |p[t].routine.code|
    ensures Start(p, t + 1) == Start(p, t) + ByteLen(p[t].routine.code)
  {
    hide Code, ByteLen;
    assert p[..t + 1] == p[..t] + [p[t]];
    CodeAppend(p[..t], [p[t]]);
    CodeOne(p[t]);
    ByteLenAppend(Code(p[..t]), p[t].routine.code);
  }

  lemma CodeOne(f: Function)
    ensures Code([f]) == f.routine.code
  {
    assert [f][1..] == [];
    assert Code([f]) == f.routine.code + [];
  }

  /** Instruction `j` of routine `t` is instruction `Base + j` of the script, `Start + Offset` bytes in. */
  lemma {:induction false} Placed(p: Program, t: nat, j: nat)
    requires t < |p| && j <= |p[t].routine.code|
    ensures Base(p, t) + j <= |Code(p)|
    ensures Offset(Code(p), Base(p, t) + j) == Start(p, t) + Offset(p[t].routine.code, j)
    ensures j < |p[t].routine.code| ==> Base(p, t) + j < |Code(p)| && Code(p)[Base(p, t) + j] == p[t].routine.code[j]
  {
    hide Code, ByteLen;
    var before, code, after := Code(p[..t]), p[t].routine.code, Code(p[t + 1..]);
    CodeSplit(p, t);
    assert (before + (code + after))[..|before| + j] == before + code[..j];
    ByteLenAppend(before, code[..j]);
  }

  lemma BaseStart(p: Program)
    ensures Base(p, 0) == 0
  {
  }

  lemma BaseEnd(p: Program)
    ensures Base(p, |p|) == |Code(p)|
  {
    assert p[..|p|] == p;
  }

  /** Every instruction of the script belongs to a routine. */
  lemma {:induction false} Owner(p: Program, g: nat, n: nat) returns (t: nat, j: nat)
    requires n <= |p| && g < Base(p, n)
    ensures t < |p| && j < |p[t].routine.code| && g == Base(p, t) + j
    decreases n
  {
    hide Base;
    if n == 0 {
      BaseStart(p);
    } else {
      StartStep(p, n - 1);
      if g < Base(p, n - 1) {
        t, j := Owner(p, g, n - 1);
      } else {
        t, j := n - 1, g - Base(p, n - 1);
      }
    }
  }

  // ----- the linked program -----

  /** Before linking: well-formed routines whose CALL_L sites are exactly their call table. */
  ghost predicate Ready(p: Program) {
    forall t :: 0 <= t < |p| ==> GoodScript(p[t].routine.code) && CallTable(p[t].routine)
  }

  lemma ReadyInRange(p: Program)
    requires Ready(p)
    ensures InRangePatches(p)
  {
    hide GoodScript, HasPatch;
  }

  /** Routine `t` of `out` is that of `p` with each call site leading to its callee. */
  ghost predicate LinkedRoutine(p: Program, out: Program, t: nat)
    requires |out| == |p| && t < |p|
  {
    var code, code', patches := p[t].routine.code, out[t].routine.code, p[t].routine.patches;
    && out[t].symbol == p[t].symbol && out[t].routine.patches == [] && SameShape(code, code')
    && (forall j :: 0 <= j < |code| && Untouched(patches, j) ==> code'[j] == code[j])
    && forall k :: 0 <= k < |patches| ==> LinkedSite(p, out, t, patches[k])
  }

  ghost predicate LinkedSite(p: Program, out: Program, t: nat, patch: (nat, string))
    requires |out| == |p| && t < |p|
  {
    && patch.0 < |p[t].routine.code| && patch.0 < |out[t].routine.code|
    && exists u :: LeadsToRoutine(p, out, t, patch, u)
  }

  ghost predicate LeadsToRoutine(p: Program, out: Program, t: nat, patch: (nat, string), u: nat)
    requires |out| == |p| && t < |p| && patch.0 < |p[t].routine.code| && patch.0 < |out[t].routine.code|
  {
    && u < |p| && p[u].symbol == patch.1
    && FitsI32(Displacement(p[t].routine.code, Start(p, t), Start(p, u), patch.0))
    && out[t].routine.code[patch.0] == LinkedCall(p[t].routine.code, Start(p, t), Start(p, u), patch.0)
  }

  lemma {:induction false} LinkedProgram(p: Program)
    requires Ready(p) && InRangePatches(p) && Link(p).Ok?
    ensures |Link(p).value| == |p|
    ensures forall t :: 0 <= t < |p| ==> LinkedRoutine(p, Link(p).value, t)
  {
    hide Table, LinkAll, AllResolvable, LinkCalls, GoodScript, CallTable, LinkedRoutine, DistinctSymbols, Start, Untouched;
    TableMeaning(p, |p|);
    var offsets := Table(p, |p|).value;
    LinkAllSucceeds(p, offsets);
    forall t | 0 <= t < |p| ensures LinkedRoutine(p, Link(p).value, t) {
      LinkedRoutineHolds(p, Link(p).value, offsets, t);
    }
  }

  lemma {:induction false} LinkedRoutineHolds(p: Program, out: Program, offsets: map<string, nat>, t: nat)
    requires Table(p, |p|) == Ok(offsets) && |out| == |p| && t < |p| && Known(p, offsets) && CallTable(p[t].routine)
    requires LinkFunction(p[t], offsets) == Ok(out[t])
    ensures LinkedRoutine(p, out, t)
  {
    hide Table, LinkCalls, GoodScript, DistinctSymbols, Start, Displacement, LinkedCall, HasPatch;
    TableMeaning(p, |p|);
    var r := p[t].routine;
    LinkCallsSucceeds(r.code, offsets[p[t].symbol], offsets, r.patches);
    LinkCallsResult(r.code, offsets[p[t].symbol], offsets, r.patches);
    forall k | 0 <= k < |r.patches| ensures LinkedSite(p, out, t, r.patches[k]) {
      assert Resolvable(r.code, offsets[p[t].symbol], offsets, r.patches[k]);
      assert Defines(p, |p|, r.patches[k].1);
      var u :| 0 <= u < |p| && p[u].symbol == r.patches[k].1;
      assert LeadsToRoutine(p, out, t, r.patches[k], u);
    }
  }

  /** Linking moves nothing. */
  lemma {:induction false} LinkedStart(p: Program, out: Program, t: nat)
    requires |out| == |p| && (forall u :: 0 <= u < |p| ==> LinkedRoutine(p, out, u)) && t <= |p|
    ensures Start(out, t) == Start(p, t) && Base(out, t) == Base(p, t)
    decreases t
  {
    hide Code, ByteLen, LinkedSite, Start, Base;
    if t == 0 {
      StartZero(p);
      StartZero(out);
    } else {
      LinkedStart(p, out, t - 1);
      StartStep(p, t - 1);
      StartStep(out, t - 1);
      assert LinkedRoutine(p, out, t - 1);
      ShapeKeepsLength(p[t - 1].routine.code, out[t - 1].routine.code);
    }
  }

  lemma StartZero(p: Program)
    ensures Start(p, 0) == 0 && Base(p, 0) == 0
  {
  }

  lemma ShapeKeepsLength(a: Script, b: Script)
    requires SameShape(a, b)
    ensures ByteLen(a) == ByteLen(b) && |a| == |b|
  {
    hide ByteLen, Offset;
    OffsetEnd(a);
    OffsetEnd(b);
    ShapeKeepsOffset(a, b, |a|);
  }

  lemma LinkedCallReads(code: Script, start: nat, target: nat, index: nat)
    requires index < |code| && FitsI32(Displacement(code, start, target, index))
    ensures var i := LinkedCall(code, start, target, index);
            WellFormed(i) && OffsetCount(i) == 1 && OffsetAt(i, 0) == Displacement(code, start, target, index)
  {
    hide Displacement, FromLeSigned, ToLe;
    var n := Displacement(code, start, target, index);
    I32RoundTrip(n);
    assert ToLe(n, 4)[0..][..4] == ToLe(n, 4);
  }

  /** A call site of the linked script denotes the first instruction of its callee. */
  lemma {:induction false} LinkedDenotes(p: Program, out: Program, t: nat, patch: (nat, string), u: nat)
    requires |out| == |p| && (forall v :: 0 <= v < |p| ==> LinkedRoutine(p, out, v)) && t < |p|
    requires patch.0 < |p[t].routine.code| && patch.0 < |out[t].routine.code| && LeadsToRoutine(p, out, t, patch, u)
    ensures Base(out, u) <= |Code(out)| && Offset(Code(out), Base(out, u)) == Start(out, u)
    ensures Denotes(Code(out), Base(out, t) + patch.0, 0, Base(out, u))
  {
    hide Code, Offset, OffsetCount, OffsetAt, LinkedCall, LinkedSite, Start, Base, WellFormed, Untouched;
    assert LinkedRoutine(p, out, t);
    var code, code' := p[t].routine.code, out[t].routine.code;
    LinkedStart(p, out, t);
    LinkedStart(p, out, u);
    ShapeKeepsOffset(code, code', patch.0);
    Placed(out, t, patch.0);
    Placed(out, u, 0);
    OffsetZero(out[u].routine.code);
    LinkedCallReads(code, Start(p, t), Start(p, u), patch.0);
  }

  /** A relative operand that linking left alone leads where it led, inside its routine or to its end. */
  lemma {:induction false} KeptDenotes(p: Program, out: Program, t: nat, j: nat, n: nat, k: nat)
    requires |out| == |p| && t < |p| && LinkedRoutine(p, out, t)
    requires Denotes(p[t].routine.code, j, n, k) && Untouched(p[t].routine.patches, j)
    ensures k <= |out[t].routine.code| && Denotes(Code(out), Base(out, t) + j, n, Base(out, t) + k)
  {
    hide Code, Offset, OffsetCount, OffsetAt, LinkedSite, Start, Base, Untouched;
    var code, code' := p[t].routine.code, out[t].routine.code;
    ShapeKeepsOffset(code, code', j);
    ShapeKeepsOffset(code, code', k);
    Placed(out, t, j);
    Placed(out, t, k);
  }

  /**
   * The flattened script of linked routines is good: every branch, call and try operand, linked
   * ones included, leads to an instruction boundary.
   */
  lemma {:induction false} LinkedGood(p: Program)
    requires Ready(p) && InRangePatches(p) && Link(p).Ok?
    ensures GoodScript(Code(Link(p).value))
  {
    hide Code, Link, Base, LinkedRoutine, GoodScript, CallTable, WellFormed, Denotes, InRangePatches, Offset;
    LinkedProgram(p);
    var out := Link(p).value;
    BaseEnd(out);
    forall g | 0 <= g < |Code(out)| ensures WellFormed(Code(out)[g]) {
      var t, j := Owner(out, g, |out|);
      LinkedInstruction(p, out, t, j);
      Placed(out, t, j);
    }
    forall g, n | 0 <= g < |Code(out)| && 0 <= n < OffsetCount(Code(out)[g]) ensures HasTarget(Code(out), g, n) {
      var t, j := Owner(out, g, |out|);
      Placed(out, t, j);
      LinkedTarget(p, out, t, j, n);
    }
    assert GoodScript(Code(out)) by {
      GoodFrom(Code(out));
    }
  }

  lemma GoodFrom(s: Script)
    requires forall g :: 0 <= g < |s| ==> WellFormed(s[g])
    requires forall g, n :: 0 <= g < |s| && 0 <= n < OffsetCount(s[g]) ==> HasTarget(s, g, n)
    ensures GoodScript(s)
  {
    hide WellFormed, HasTarget, OffsetCount;
  }

  lemma {:induction false} LinkedInstruction(p: Program, out: Program, t: nat, j: nat)
    requires Ready(p) && |out| == |p| && t < |p| && j < |out[t].routine.code| && LinkedRoutine(p, out, t)
    ensures WellFormed(out[t].routine.code[j])
  {
    hide HasTarget, WellFormed, OffsetCount, LinkedCall, Start;
    var r := p[t].routine;
    GoodWellFormed(r.code, j);
    if !Untouched(r.patches, j) {
      var k :| 0 <= k < |r.patches| && r.patches[k].0 == j;
      assert LinkedSite(p, out, t, r.patches[k]);
      var u :| LeadsToRoutine(p, out, t, r.patches[k], u);
      LinkedCallReads(r.code, Start(p, t), Start(p, u), j);
    }
  }

  /** An untouched instruction keeps its targets. */
  lemma {:induction false} KeptTarget(p: Program, out: Program, t: nat, j: nat, n: nat)
    requires Ready(p) && |out| == |p| && (forall v :: 0 <= v < |p| ==> LinkedRoutine(p, out, v))
    requires t < |p| && j < |out[t].routine.code| && n < OffsetCount(out[t].routine.code[j])
    requires Untouched(p[t].routine.patches, j)
    ensures HasTarget(Code(out), Base(out, t) + j, n)
  {
    hide WellFormed, LinkedCall, Start, Base, Code, Denotes, OffsetCount;
    var r := p[t].routine;
    assert LinkedRoutine(p, out, t);
    assert HasTarget(r.code, j, n);
    var k :| Denotes(r.code, j, n, k);
    KeptDenotes(p, out, t, j, n, k);
  }

  /** A call site leads to the routine of its symbol. */
  lemma {:induction false} CallTarget(p: Program, out: Program, t: nat, j: nat, n: nat)
    requires Ready(p) && |out| == |p| && (forall v :: 0 <= v < |p| ==> LinkedRoutine(p, out, v))
    requires t < |p| && j < |out[t].routine.code| && n < OffsetCount(out[t].routine.code[j])
    requires !Untouched(p[t].routine.patches, j)
    ensures HasTarget(Code(out), Base(out, t) + j, n)
  {
    hide WellFormed, LinkedCall, Start, Base, Code, Denotes, OffsetCount, GoodScript, LinkedRoutine, Displacement, Untouched;
    var r := p[t].routine;
    SiteInside(p, out, t, j);
    var k, u := Callee(p, out, t, j);
    LinkedCallReads(r.code, Start(p, t), Start(p, u), j);
    LinkedDenotes(p, out, t, r.patches[k], u);
  }

  lemma SiteInside(p: Program, out: Program, t: nat, j: nat)
    requires |out| == |p| && t < |p| && LinkedRoutine(p, out, t) && j < |out[t].routine.code|
    ensures |out[t].routine.code| == |p[t].routine.code|
  {
  }

  lemma {:induction false} Callee(p: Program, out: Program, t: nat, j: nat) returns (k: nat, u: nat)
    requires |out| == |p| && t < |p| && LinkedRoutine(p, out, t) && j < |p[t].routine.code| && !Untouched(p[t].routine.patches, j)
    ensures k < |p[t].routine.patches| && p[t].routine.patches[k].0 == j && LeadsToRoutine(p, out, t, p[t].routine.patches[k], u)
  {
    hide LeadsToRoutine;
    k :| 0 <= k < |p[t].routine.patches| && p[t].routine.patches[k].0 == j;
    assert LinkedSite(p, out, t, p[t].routine.patches[k]);
    u :| LeadsToRoutine(p, out, t, p[t].routine.patches[k], u);
  }

  lemma {:induction false} LinkedTarget(p: Program, out: Program, t: nat, j: nat, n: nat)
    requires Ready(p) && |out| == |p| && (forall v :: 0 <= v < |p| ==> LinkedRoutine(p, out, v))
    requires t < |p| && j < |out[t].routine.code| && n < OffsetCount(out[t].routine.code[j])
    ensures HasTarget(Code(out), Base(out, t) + j, n)
  {
    hide *;
    if Untouched(p[t].routine.patches, j) {
      KeptTarget(p, out, t, j, n);
    } else {
      CallTarget(p, out, t, j, n);
    }
  }

  // ----- running it -----

  /** The encoding of routine `t` stands at its start. */
  lemma {:induction false} RoutineAt(p: Program, t: nat)
    requires t < |p|
    ensures CodeAt(EncodeAll(Code(p)), Start(p, t), p[t].routine.code)
  {
    hide CodeAt, Code, EncodeAll;
    CodeSplit(p, t);
    WholeCode(Code(p));
    CodeAtSplit(EncodeAll(Code(p)), 0, Code(p[..t]), p[t].routine.code + Code(p[t + 1..]));
    CodeAtSplit(EncodeAll(Code(p)), Start(p, t), p[t].routine.code, Code(p[t + 1..]));
  }

  /**
   * The theorem of the linker: from a call site of any routine, the machine's next state is at
   * the first byte of the routine with the callee's symbol, which is where that routine's code
   * is written; the return address is the byte after the call.
   */
  lemma {:induction false} LinkedCallEnters(ops: Ops, p: Program, t: nat, k: nat, d: Data, calls: List<Frame>) returns (u: nat)
    requires Ready(p) && InRangePatches(p) && Link(p).Ok? && t < |p| && k < |p[t].routine.patches|
    ensures |Link(p).value| == |p| && u < |p| && p[u].symbol == p[t].routine.patches[k].1
    ensures forall v :: 0 <= v < |p| && p[v].symbol == p[t].routine.patches[k].1 ==> v == u
    ensures p[t].routine.patches[k].0 < |p[t].routine.code|
    ensures var out, index := Link(p).value, p[t].routine.patches[k].0;
            var script, pc := EncodeAll(Code(out)), Start(p, t) + Offset(p[t].routine.code, index);
            && CodeAt(script, Start(p, u), out[u].routine.code)
            && Step(ops, script, Running(pc, d, calls)) ==
               JumpTo(|script|, Start(p, u), d.(locals := [], args := []), Cons(Frame(pc + 5, d.locals, d.args), calls))
  {
    hide Code, EncodeAll, CodeAt, Start, Base, GoodScript, LinkedRoutine, Offset, WellFormed, LinkedCall, Displacement, Step, StepInstruction, InRangePatches;
    LinkSucceeds(p);
    LinkedProgram(p);
    var out, patch := Link(p).value, p[t].routine.patches[k];
    u := SiteTarget(p, out, t, k);
    var i := LinkedCall(p[t].routine.code, Start(p, t), Start(p, u), patch.0);
    LinkedStart(p, out, t);
    LinkedStart(p, out, u);
    RoutineAt(out, u);
    SiteCode(p, out, t, patch.0);
    LinkedCallReads(p[t].routine.code, Start(p, t), Start(p, u), patch.0);
    var pc := Start(p, t) + Offset(p[t].routine.code, patch.0);
    StepAt(ops, EncodeAll(Code(out)), i, pc, d, calls);
    CallStep(ops, |EncodeAll(Code(out))|, p[t].routine.code, Start(p, t), Start(p, u), patch.0, d, calls);
  }

  lemma {:induction false} SiteTarget(p: Program, out: Program, t: nat, k: nat) returns (u: nat)
    requires |out| == |p| && t < |p| && LinkedRoutine(p, out, t) && k < |p[t].routine.patches| && DistinctSymbols(p, |p|)
    ensures var patch := p[t].routine.patches[k];
            patch.0 < |p[t].routine.code| && patch.0 < |out[t].routine.code| && LeadsToRoutine(p, out, t, patch, u)
    ensures forall v :: 0 <= v < |p| && p[v].symbol == p[t].routine.patches[k].1 ==> v == u
  {
    hide Start, LinkedCall, SameShape, Untouched;
    var patch := p[t].routine.patches[k];
    assert LinkedSite(p, out, t, patch);
    u :| LeadsToRoutine(p, out, t, patch, u);
  }

  lemma {:induction false} SiteCode(p: Program, out: Program, t: nat, j: nat)
    requires |out| == |p| && t < |p| && LinkedRoutine(p, out, t) && j < |p[t].routine.code|
    ensures j < |out[t].routine.code|
    ensures CodeAt(EncodeAll(Code(out)), Start(out, t) + Offset(p[t].routine.code, j), [out[t].routine.code[j]])
  {
    hide Code, EncodeAll, CodeAt, Start, Base, Offset, LinkedSite, Untouched;
    ShapeKeepsOffset(p[t].routine.code, out[t].routine.code, j);
    Placed(out, t, j);
    InstructionAt(Code(out), Base(out, t) + j);
  }

  lemma CallStep(ops: Ops, size: nat, code: Script, start: nat, target: nat, index: nat, d: Data, calls: List<Frame>)
    requires index < |code| && FitsI32(Displacement(code, start, target, index))
    ensures var pc := start + Offset(code, index);
            StepInstruction(ops, size, LinkedCall(code, start, target, index), pc, d, calls) ==
            JumpTo(size, target, d.(locals := [], args := []), Cons(Frame(pc + 5, d.locals, d.args), calls))
  {
    hide Offset, ToLe, FromLeSigned, JumpTest, ExecData;
    I32RoundTrip(Displacement(code, start, target, index));
  }
}
