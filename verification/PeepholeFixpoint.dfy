/** The peephole loop has a measure: it would end without its cap, and it ends only when no pass applies. */
module PeepholeFixpoint {
  import opened Prelude
  import opened Bytecode
  import opened Vm
  import opened Layout
  import opened Shorten
  import opened Peephole

  /** Encoded bytes, plus one if the instruction loads a slot. */
  function Weight(i: Instruction): nat {
    EncodedLen(i) + if LoadSlot(i).Some? then 1 else 0
  }

  function Measure(s: Script): nat {
    if s == [] then 0 else Weight(s[0]) + Measure(s[1..])
  }

  lemma {:induction false} MeasureAppend(a: Script, b: Script)
    ensures Measure(a + b) == Measure(a) + Measure(b)
  {
    if a == [] {
      assert a + b == b;
    } else {
      assert (a + b)[1..] == a[1..] + b;
      MeasureAppend(a[1..], b);
    }
  }

  lemma {:induction false} MeasureSame(s: Script, s2: Script)
    requires |s| == |s2| && forall k :: 0 <= k < |s| ==> Weight(s[k]) == Weight(s2[k])
    ensures Measure(s) == Measure(s2)
  {
    hide Weight;
    if s != [] {
      MeasureSame(s[1..], s2[1..]);
    }
  }

  lemma MeasureOne(i: Instruction)
    ensures Measure([i]) == Weight(i)
  {
    assert [i][1..] == [];
  }

  lemma MeasureReplace(s: Script, index: nat, i: Instruction)
    requires index < |s|
    ensures Measure(s[index := i]) == Measure(s) - Weight(s[index]) + Weight(i)
  {
    hide Measure, Weight;
    SplitSeq(s, index, index + 1);
    SplitSeq(s[index := i], index, index + 1);
    assert s[index..index + 1] == [s[index]] && s[index := i][index..index + 1] == [i];
    assert s[index := i][..index] == s[..index] && s[index := i][index + 1..] == s[index + 1..];
    MeasureAppend(s[..index], [s[index]] + s[index + 1..]);
    MeasureAppend([s[index]], s[index + 1..]);
    MeasureAppend(s[..index], [i] + s[index + 1..]);
    MeasureAppend([i], s[index + 1..]);
    MeasureOne(i);
    MeasureOne(s[index]);
  }

  lemma MeasureRemove(s: Script, index: nat, count: nat)
    requires index + count <= |s|
    ensures Measure(s) == Measure(Remove(s, index, count)) + Measure(s[index..index + count])
  {
    hide *;
    var a, mid, b := s[..index], s[index..index + count], s[index + count..];
    SplitSeq(s, index, index + count);
    MeasureMiddle(a, mid, b);
    assert Remove(s, index, count) == a + b by {
      RemoveShape(s, index, count);
    }
  }

  lemma RemoveShape(s: Script, index: nat, count: nat)
    requires index + count <= |s|
    ensures Remove(s, index, count) == s[..index] + s[index + count..]
  {
  }

  lemma MeasureMiddle(a: Script, mid: Script, b: Script)
    ensures Measure(a + (mid + b)) == Measure(a + b) + Measure(mid)
  {
    hide Measure;
    MeasureAppend(a, mid + b);
    MeasureAppend(mid, b);
    MeasureAppend(a, b);
  }

  lemma {:induction false} MeasurePositive(s: Script)
    ensures Measure(s) >= |s|
  {
    if s != [] {
      MeasurePositive(s[1..]);
    }
  }

  lemma ReshapedWeight(i: Instruction, i2: Instruction)
    requires Reshaped(i, i2)
    ensures Weight(i) == Weight(i2)
  {
  }

  lemma NarrowedWeight(i: Instruction)
    requires CanShorten(i)
    ensures Weight(Narrowed(i)) == Weight(i) - 3
  {
  }

  lemma MergedWeight(i: Instruction)
    requires LoadSlot(i).Some?
    ensures Weight(DUP_INSTRUCTION) < Weight(i)
  {
  }

  /** Applying any pass anywhere makes the routine strictly smaller. */
  lemma ApplyShrinks(pass: Pass, r: Routine, index: nat)
    requires index < |r.code| && Applies(pass, r, index)
    ensures Measure(Apply(pass, r, index).code) < Measure(r.code)
  {
    hide Measure, Weight, TryDelete, TryShorten, Reshaped, Narrowed, StillLoaded, CanShorten, LoadSlot;
    var s := r.code;
    match pass
    case MergeLoads =>
      MeasureReplace(s, index + 1, DUP_INSTRUCTION);
      MergedWeight(s[index + 1]);
    case DropDup =>
      MeasureRemove(s, index, 2);
      MeasurePositive(s[index..index + 2]);
    case DropStore =>
      MeasureRemove(s, index, 2);
      MeasurePositive(s[index..index + 2]);
    case PeelJump =>
      DeletedShape(s, index);
      MeasureRemove(s, index, 1);
      MeasurePositive(s[index..index + 1]);
      SameMeasure(Remove(s, index, 1), TryDelete(s, index).value);
    case Narrow =>
      ShortenedShape(s, index);
      MeasureReplace(s, index, Narrowed(s[index]));
      NarrowedWeight(s[index]);
      SameMeasure(s[index := Narrowed(s[index])], TryShorten(s, index).value);
  }

  lemma SameMeasure(s: Script, s2: Script)
    requires |s| == |s2| && forall k :: 0 <= k < |s| ==> Reshaped(s[k], s2[k])
    ensures Measure(s) == Measure(s2)
  {
    hide Measure, Weight, Reshaped;
    forall k | 0 <= k < |s| ensures Weight(s[k]) == Weight(s2[k]) {
      ReshapedWeight(s[k], s2[k]);
    }
    MeasureSame(s, s2);
  }

  /** No pass applies at any place at or after `from`. */
  predicate QuietFrom(pass: Pass, r: Routine, from: nat) {
    forall k :: from <= k < |r.code| ==> !Applies(pass, r, k)
  }

  /**
   * A scan that reports a change made the routine strictly smaller; one that does not left it
   * alone, and there is nowhere left for its pass to apply.
   */
  lemma {:induction false} ScanShrinks(pass: Pass, r: Routine, index: nat)
    requires index <= |r.code|
    ensures var (out, changed) := Scan(pass, r, index);
            && (changed <==> !QuietFrom(pass, r, index))
            && (if changed then Measure(out.code) < Measure(r.code) else out == r)
    decreases |r.code| - index
  {
    hide Measure, Applies, Apply;
    if index < |r.code| {
      if Applies(pass, r, index) {
        ApplyLength(pass, r, index);
        ApplyShrinks(pass, r, index);
        ScanShrinks(pass, Apply(pass, r, index), After(pass, index));
      } else {
        ScanShrinks(pass, r, index + 1);
      }
    }
  }

  /** No pass applies anywhere. */
  predicate Settled(r: Routine) {
    forall pass: Pass :: QuietFrom(pass, r, 0)
  }

  lemma RoundShrinks(r: Routine)
    ensures var (out, changed) := Round(r);
            && (changed <==> !Settled(r))
            && (if changed then Measure(out.code) < Measure(r.code) else out == r)
  {
    hide Measure, Scan, QuietFrom;
    ScanShrinks(MergeLoads, r, 0);
    var r1 := Scan(MergeLoads, r, 0).0;
    ScanShrinks(DropDup, r1, 0);
    var r2 := Scan(DropDup, r1, 0).0;
    ScanShrinks(DropStore, r2, 0);
    var r3 := Scan(DropStore, r2, 0).0;
    ScanShrinks(PeelJump, r3, 0);
    var r4 := Scan(PeelJump, r3, 0).0;
    ScanShrinks(Narrow, r4, 0);
    if !Round(r).1 {
      forall pass: Pass ensures QuietFrom(pass, r, 0) {
        match pass
        case MergeLoads =>
        case DropDup =>
        case DropStore =>
        case PeelJump =>
        case Narrow =>
      }
    }
  }

  /** Rounds without a cap: the measure is what makes this a function at all. */
  function OptimizeFully(r: Routine): Routine
    decreases Measure(r.code)
  {
    RoundShrinks(r);
    var (next, changed) := Round(r);
    if changed then OptimizeFully(next) else next
  }

  /** Run to the end, the loop stops exactly at a routine no pass applies to. */
  lemma {:induction false} FullySettled(r: Routine)
    ensures Settled(OptimizeFully(r))
    ensures Settled(r) <==> OptimizeFully(r) == r
    ensures OptimizeFully(r) != r ==> Measure(OptimizeFully(r).code) < Measure(r.code)
    decreases Measure(r.code)
  {
    hide Round, Measure, Settled;
    RoundShrinks(r);
    if Round(r).1 {
      FullySettled(Round(r).0);
    }
  }

  /**
   * The cap is the only difference: leaving the loop early gives the uncapped result, where no
   * pass applies, and a routine of fewer than `rounds` bytes and loads always leaves early.
   */
  lemma {:induction false} CapOnlyTruncates(r: Routine, rounds: nat)
    ensures OptimizeFully(Optimize(r, rounds)) == OptimizeFully(r)
    ensures Settled(Optimize(r, rounds)) <==> Optimize(r, rounds) == OptimizeFully(r)
    ensures Measure(r.code) < rounds ==> Settled(Optimize(r, rounds))
    decreases rounds
  {
    hide Round, Measure, Settled;
    RoundShrinks(r);
    FullySettled(r);
    FullySettled(Optimize(r, rounds));
    if rounds > 0 && Round(r).1 {
      CapOnlyTruncates(Round(r).0, rounds - 1);
    }
  }
}
