/** The two passes that relayout keep every good script good and its meaning, over whole scans. */
module PeepholeLayout {
  import opened Prelude
  import opened Bytecode
  import opened Vm
  import opened Layout
  import opened Shorten
  import opened LayoutRun
  import opened Peephole
  import opened PeepholeCalls
  import opened PeepholeFixpoint

  /** Run from the first byte, both scripts return the same data, or both fault, or neither ends. */
  ghost predicate SameMeaning(ops: Ops, s: Script, out: Script) {
    forall d, fin: State :: !fin.Running? ==> (Ends(ops, s, d, fin) <==> Ends(ops, out, d, fin))
  }

  ghost predicate Ends(ops: Ops, s: Script, d: Data, fin: State) {
    Reaches(ops, EncodeAll(s), Running(0, d, Nil), fin)
  }

  lemma StartState(s: Script, d: Data)
    ensures InRange(s, Running(0, d, Nil)) && ByteState(s, Running(0, d, Nil)) == Running(0, d, Nil)
  {
  }

  lemma {:induction false} PeelMeaning(ops: Ops, s: Script, index: nat)
    requires GoodScript(s) && index < |s| && IsRedundantJump(s, index)
    ensures TryDelete(s, index).Some? && GoodScript(TryDelete(s, index).value) && SameMeaning(ops, s, TryDelete(s, index).value)
  {
    hide GoodScript, IsRedundantJump, TryDelete, InRange, ByteState, Reaches, KeepsTargets;
    DeleteCorrect(s, index);
    var out := TryDelete(s, index).value;
    forall d, fin: State | !fin.Running? ensures Ends(ops, s, d, fin) <==> Ends(ops, out, d, fin) {
      var st := Running(0, d, Nil);
      StartState(s, d);
      StartState(out, d);
      DeletedMeaning(ops, s, index, st, fin);
      assert Shift(DeleteEdit(s, index), st) == st;
    }
  }

  lemma {:induction false} NarrowMeaning(ops: Ops, s: Script, index: nat)
    requires GoodScript(s) && index < |s| && CanShorten(s[index])
    ensures TryShorten(s, index).Some? && GoodScript(TryShorten(s, index).value) && SameMeaning(ops, s, TryShorten(s, index).value)
  {
    hide GoodScript, CanShorten, TryShorten, InRange, Run, KeepsTargets, EncodeAll, Offset, IndexRun;
    ShortenCorrect(s, index);
    var out := TryShorten(s, index).value;
    forall d, fin: State | !fin.Running? ensures Ends(ops, s, d, fin) <==> Ends(ops, out, d, fin) {
      var st := Running(0, d, Nil);
      StartState(s, d);
      StartState(out, d);
      if Ends(ops, s, d, fin) {
        var n: nat :| Run(ops, EncodeAll(s), Running(0, d, Nil), n) == fin;
        ShortenedRun(ops, s, index, st, n);
        assert Run(ops, EncodeAll(out), Running(0, d, Nil), n) == fin;
      }
      if Ends(ops, out, d, fin) {
        var n: nat :| Run(ops, EncodeAll(out), Running(0, d, Nil), n) == fin;
        ShortenedRun(ops, s, index, st, n);
        assert Run(ops, EncodeAll(s), Running(0, d, Nil), n) == fin;
      }
    }
  }

  /** On a good script whose call sites are CALL_L, a jump is eligible as soon as its shape is. */
  lemma {:induction false} EveryEligibleJump(r: Routine, index: nat)
    requires GoodScript(r.code) && CallTable(r) && index < |r.code|
    ensures Applies(PeelJump, r, index) <==> IsRedundantJump(r.code, index)
    ensures Applies(Narrow, r, index) <==> CanShorten(r.code[index])
  {
    hide GoodScript, TryDelete, KeepsTargets;
    if IsRedundantJump(r.code, index) {
      DeleteCorrect(r.code, index);
    }
    if CanShorten(r.code[index]) {
      ShortenCorrect(r.code, index);
    }
  }

  /** Where the optimizer stops on a good script, no jump could be dropped or written shorter. */
  lemma {:induction false} SettledJumps(r: Routine, index: nat)
    requires GoodScript(r.code) && CallTable(r) && Settled(r) && index < |r.code|
    ensures !IsRedundantJump(r.code, index) && !CanShorten(r.code[index])
  {
    hide GoodScript, CallTable, Applies, IsRedundantJump, CanShorten;
    EveryEligibleJump(r, index);
    assert QuietFrom(PeelJump, r, 0) && QuietFrom(Narrow, r, 0);
  }

  /** A whole scan of either pass: the script stays good and ends every run the same way. */
  lemma {:induction false} ScanMeaning(ops: Ops, pass: Pass, r: Routine, index: nat)
    requires pass.PeelJump? || pass.Narrow?
    requires GoodScript(r.code) && index <= |r.code|
    ensures GoodScript(Scan(pass, r, index).0.code) && SameMeaning(ops, r.code, Scan(pass, r, index).0.code)
    decreases |r.code| - index
  {
    hide GoodScript, SameMeaning, IsRedundantJump, TryDelete, Touched;
    if index == |r.code| {
      SameMeaningSelf(ops, r.code);
    } else if Applies(pass, r, index) {
      ApplyLength(pass, r, index);
      if pass.PeelJump? {
        PeelMeaning(ops, r.code, index);
      } else {
        NarrowMeaning(ops, r.code, index);
      }
      var next := Apply(pass, r, index);
      ScanMeaning(ops, pass, next, After(pass, index));
      SameMeaningTrans(ops, r.code, next.code, Scan(pass, next, After(pass, index)).0.code);
    } else {
      ScanMeaning(ops, pass, r, index + 1);
    }
  }

  lemma SameMeaningSelf(ops: Ops, s: Script)
    ensures SameMeaning(ops, s, s)
  {
  }

  lemma SameMeaningTrans(ops: Ops, a: Script, b: Script, c: Script)
    requires SameMeaning(ops, a, b) && SameMeaning(ops, b, c)
    ensures SameMeaning(ops, a, c)
  {
    hide Ends;
  }
}
