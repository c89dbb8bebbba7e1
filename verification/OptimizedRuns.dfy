/**
 * The whole bytecode optimizer on code with branches. Two of its passes re-encode branches and are
 * always right; for the other three it is a matter of where they apply.
 */
module OptimizedRuns {
  import opened Prelude
  import opened Bytecode
  import opened Vm
  import opened Layout
  import opened Shorten
  import opened Peephole
  import opened PeepholeLayout
  import opened PeepholeLine
  import opened RawRun
  import opened RawStore

  /**
   * The edit at `index` loses no branch: none leads into the edited pair or crosses bytes that go
   * away; two merged loads are of one namespace; the local whose store goes away is loaded nowhere
   * else.
   */
  ghost predicate Clear(pass: Pass, r: Routine, index: nat)
    requires index < |r.code| && Applies(pass, r, index)
  {
    match pass
    case MergeLoads => SameNamespace(r.code[index], r.code[index + 1]) && MergeClear(r.code, index)
    case DropDup => DropClear(r.code, index)
    case DropStore => DropClear(r.code, index) && OnlyLoad(r.code, index, StoreSlot(r.code[index]).value)
    case PeelJump => true
    case Narrow => true
  }

  /** Every edit of a scan is clear. */
  ghost predicate ScanClear(pass: Pass, r: Routine, index: nat)
    requires index <= |r.code|
    decreases |r.code| - index
  {
    if index == |r.code| then true
    else if Applies(pass, r, index) then
      ApplyLength(pass, r, index);
      Clear(pass, r, index) && ScanClear(pass, Apply(pass, r, index), After(pass, index))
    else ScanClear(pass, r, index + 1)
  }

  ghost predicate RoundClear(r: Routine) {
    var r1 := Scan(MergeLoads, r, 0).0;
    var r2 := Scan(DropDup, r1, 0).0;
    ScanClear(MergeLoads, r, 0) && ScanClear(DropDup, r1, 0) && ScanClear(DropStore, r2, 0)
  }

  /** Every edit of the first `rounds` rounds is clear. */
  ghost predicate AlwaysClear(r: Routine, rounds: nat)
    decreases rounds
  {
    rounds == 0 || (RoundClear(r) && (Round(r).1 ==> AlwaysClear(Round(r).0, rounds - 1)))
  }

  /** A run of the first script that returns returns in the second, with the same stack, arguments and trace. */
  ghost predicate Keeps(ops: Ops, s: Script, out: Script) {
    forall d, e :: Ends(ops, s, d, Returned(e)) ==> ReturnsAlike(ops, out, d, e)
  }

  ghost predicate ReturnsAlike(ops: Ops, out: Script, d: Data, e: Data) {
    exists e2 :: Ends(ops, out, d, Returned(e2)) && SameOutside(e, e2)
  }

  lemma KeepsSelf(ops: Ops, s: Script)
    ensures Keeps(ops, s, s)
  {
    hide Ends;
    forall d, e | Ends(ops, s, d, Returned(e)) ensures ReturnsAlike(ops, s, d, e) {
      assert SameOutside(e, e);
    }
  }

  lemma {:induction false} KeepsTrans(ops: Ops, a: Script, b: Script, c: Script)
    requires Keeps(ops, a, b) && Keeps(ops, b, c)
    ensures Keeps(ops, a, c)
  {
    hide Ends;
    forall d, e | Ends(ops, a, d, Returned(e)) ensures ReturnsAlike(ops, c, d, e) {
      assert ReturnsAlike(ops, b, d, e);
      var e2 :| Ends(ops, b, d, Returned(e2)) && SameOutside(e, e2);
      assert ReturnsAlike(ops, c, d, e2);
      var e3 :| Ends(ops, c, d, Returned(e3)) && SameOutside(e2, e3);
      assert SameOutside(e, e3);
    }
  }

  lemma {:induction false} SameMeaningKeeps(ops: Ops, s: Script, out: Script)
    requires SameMeaning(ops, s, out)
    ensures Keeps(ops, s, out)
  {
    hide Ends;
    forall d, e | Ends(ops, s, d, Returned(e)) ensures ReturnsAlike(ops, out, d, e) {
      assert Ends(ops, out, d, Returned(e)) && SameOutside(e, e);
    }
  }

  lemma {:induction false} ApplyKeeps(ops: Ops, pass: Pass, r: Routine, index: nat)
    requires GoodScript(r.code) && index < |r.code| && Applies(pass, r, index) && Clear(pass, r, index)
    ensures GoodScript(Apply(pass, r, index).code) && Keeps(ops, r.code, Apply(pass, r, index).code)
  {
    hide GoodScript, Ends, MergeClear, DropClear, OnlyLoad, Touched, StillLoaded, IsRedundantJump, TryDelete, TryShorten, CanShorten, LoadSlot, StoreSlot, SameMeaning, SameNamespace, SameOutside;
    var s, out := r.code, Apply(pass, r, index).code;
    match pass
    case MergeLoads =>
      MergeMeaning(ops, r, index);
      SameMeaningKeeps(ops, s, out);
    case DropDup => DropDupKeeps(ops, r, index);
    case DropStore => DropStoreKeeps(ops, r, index, StoreSlot(s[index]).value);
    case PeelJump =>
      PeelMeaning(ops, s, index);
      SameMeaningKeeps(ops, s, out);
    case Narrow =>
      CanBeShortened(s, index);
      NarrowMeaning(ops, s, index);
      SameMeaningKeeps(ops, s, out);
  }

  lemma CanBeShortened(s: Script, index: nat)
    requires index < |s| && TryShorten(s, index).Some?
    ensures CanShorten(s[index])
  {
    hide Relayout;
  }

  lemma {:induction false} DropDupKeeps(ops: Ops, r: Routine, index: nat)
    requires GoodScript(r.code) && index < |r.code| && Applies(DropDup, r, index) && DropClear(r.code, index)
    ensures GoodScript(Apply(DropDup, r, index).code) && Keeps(ops, r.code, Apply(DropDup, r, index).code)
  {
    hide GoodScript, Ends, DropClear, Applies, Apply;
    var s, out := r.code, Apply(DropDup, r, index).code;
    DropDupMeaning(ops, r, index, Data(Nil, [], [], []), Faulted);
    forall d, e | Ends(ops, s, d, Returned(e)) ensures ReturnsAlike(ops, out, d, e) {
      DropDupMeaning(ops, r, index, d, Returned(e));
      assert SameOutside(e, e);
    }
  }

  lemma {:induction false} DropStoreKeeps(ops: Ops, r: Routine, index: nat, n: byte)
    requires index < |r.code| && Applies(DropStore, r, index) && Removable(r, index, n)
    ensures GoodScript(Apply(DropStore, r, index).code) && Keeps(ops, r.code, Apply(DropStore, r, index).code)
  {
    hide GoodScript, Ends, Removable, Applies, Apply;
    var s, out := r.code, Apply(DropStore, r, index).code;
    DropStoreMeaning(ops, r, index, n, Data(Nil, [], [], []), Faulted);
    forall d, e | Ends(ops, s, d, Returned(e)) ensures ReturnsAlike(ops, out, d, e) {
      DropStoreMeaning(ops, r, index, n, d, Returned(e));
    }
  }

  lemma {:induction false} ScanKeeps(ops: Ops, pass: Pass, r: Routine, index: nat)
    requires GoodScript(r.code) && index <= |r.code| && ScanClear(pass, r, index)
    ensures GoodScript(Scan(pass, r, index).0.code) && Keeps(ops, r.code, Scan(pass, r, index).0.code)
    decreases |r.code| - index
  {
    hide GoodScript, Applies, Apply, Clear, Keeps;
    if index == |r.code| {
      KeepsSelf(ops, r.code);
    } else if Applies(pass, r, index) {
      ApplyLength(pass, r, index);
      ApplyKeeps(ops, pass, r, index);
      var next := Apply(pass, r, index);
      ScanKeeps(ops, pass, next, After(pass, index));
      KeepsTrans(ops, r.code, next.code, Scan(pass, next, After(pass, index)).0.code);
    } else {
      ScanKeeps(ops, pass, r, index + 1);
    }
  }

  lemma {:induction false} LayoutScanClear(pass: Pass, r: Routine, index: nat)
    requires index <= |r.code| && (pass.PeelJump? || pass.Narrow?)
    ensures ScanClear(pass, r, index)
    decreases |r.code| - index
  {
    hide Applies, Apply;
    if index < |r.code| {
      if Applies(pass, r, index) {
        ApplyLength(pass, r, index);
        LayoutScanClear(pass, Apply(pass, r, index), After(pass, index));
      } else {
        LayoutScanClear(pass, r, index + 1);
      }
    }
  }

  lemma {:induction false} RoundKeeps(ops: Ops, r: Routine)
    requires GoodScript(r.code) && RoundClear(r)
    ensures GoodScript(Round(r).0.code) && Keeps(ops, r.code, Round(r).0.code)
  {
    hide GoodScript, Scan, ScanClear, Keeps;
    var r1 := Scan(MergeLoads, r, 0).0;
    var r2 := Scan(DropDup, r1, 0).0;
    var r3 := Scan(DropStore, r2, 0).0;
    var r4 := Scan(PeelJump, r3, 0).0;
    var r5 := Scan(Narrow, r4, 0).0;
    ScanKeeps(ops, MergeLoads, r, 0);
    ScanKeeps(ops, DropDup, r1, 0);
    ScanKeeps(ops, DropStore, r2, 0);
    LayoutScanClear(PeelJump, r3, 0);
    ScanKeeps(ops, PeelJump, r3, 0);
    LayoutScanClear(Narrow, r4, 0);
    ScanKeeps(ops, Narrow, r4, 0);
    KeepsTrans(ops, r.code, r1.code, r2.code);
    KeepsTrans(ops, r.code, r2.code, r3.code);
    KeepsTrans(ops, r.code, r3.code, r4.code);
    KeepsTrans(ops, r.code, r4.code, r5.code);
  }

  /**
   * The optimizer on any good script, branches and calls included: as long as every edit is clear,
   * a run that returned returns with the same stack, arguments and trace.
   */
  lemma {:induction false} OptimizeKeeps(ops: Ops, r: Routine, rounds: nat)
    requires GoodScript(r.code) && AlwaysClear(r, rounds)
    ensures GoodScript(Optimize(r, rounds).code) && Keeps(ops, r.code, Optimize(r, rounds).code)
    decreases rounds
  {
    hide GoodScript, Round, RoundClear, Keeps;
    if rounds == 0 {
      KeepsSelf(ops, r.code);
    } else {
      RoundKeeps(ops, r);
      var next := Round(r).0;
      if Round(r).1 {
        OptimizeKeeps(ops, next, rounds - 1);
        KeepsTrans(ops, r.code, next.code, Optimize(next, rounds - 1).code);
      }
    }
  }
}
