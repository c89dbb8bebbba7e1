/**
 * A compiled source file: optimizing, linking in place, flattening (codegen/mod.rs). The three lists
 * of functions are one program laid out in order; every method is proved against that program.
 */
module SourceFile {
  import opened Prelude
  import opened Bytecode
  import opened Layout
  import opened Shorten
  import opened Peephole
  import opened PeepholeCalls
  import opened Optimizer
  import opened Linker
  import opened LinkedScript

  ghost function FunctionView(f: CompiledFunction): Function
    reads f
  {
    Function(f.LinkSymbol(), f.View())
  }

  ghost function Views(fs: seq<CompiledFunction>): (p: Program)
    reads fs
    ensures |p| == |fs| && forall k :: 0 <= k < |fs| ==> p[k] == FunctionView(fs[k])
  {
    if fs == [] then [] else [FunctionView(fs[0])] + Views(fs[1..])
  }

  predicate Separate(fs: seq<CompiledFunction>) {
    forall i, j :: 0 <= i < j < |fs| ==> fs[i] != fs[j]
  }

  /** `bytecode_offset_in_routine`. */
  method BytecodeOffsetInRoutine(instructions: Script, index: nat) returns (sum: nat)
    requires index <= |instructions|
    ensures sum == Offset(instructions, index)
  {
    sum := 0;
    for k := 0 to index
      invariant sum == Offset(instructions, k)
    {
      OffsetStep(instructions, k);
      sum := sum + EncodedLen(instructions[k]);
    }
  }

  /** Give every call site of `f` its displacement and clear the call table. */
  method Apply(f: CompiledFunction, offsets: map<string, nat>) returns (error: Option<LinkError>)
    requires f.LinkSymbol() in offsets && PatchesInRange(f.View())
    modifies f
    ensures match LinkFunction(old(FunctionView(f)), offsets)
            case Ok(g) => error == None && FunctionView(f) == g
            case Err(e) => error == Some(e)
  {
    hide LinkCalls, Displacement, ToLe, Offset;
    var myStart := offsets[f.LinkSymbol()];
    var patches := f.callPatches;
    ghost var goal := LinkCalls(f.instructions, myStart, offsets, patches);
    f.callPatches := [];
    for k := 0 to |patches|
      invariant |f.instructions| == |old(f.instructions)| && f.callPatches == []
      invariant PatchesInRange(Routine(f.instructions, patches[k..]))
      invariant goal == LinkCalls(f.instructions, myStart, offsets, patches[k..])
    {
      var (index, symbol) := patches[k];
      assert patches[k..][0] == patches[k] && patches[k..][1..] == patches[k + 1..];
      UnfoldLinkCalls(f.instructions, myStart, offsets, patches[k..]);
      if symbol !in offsets {
        return Some(TargetNotFound(symbol));
      }
      var inRoutine := BytecodeOffsetInRoutine(f.instructions, index);
      var relative := offsets[symbol] as int - (myStart + inRoutine);
      assert relative == Displacement(f.instructions, myStart, offsets[symbol], index) by { DisplacementMeans(f.instructions, myStart, offsets[symbol], index); }
      if !FitsI32(relative) {
        return Some(OffsetOverflow);
      }
      if f.instructions[index].opcode != CALL_L || |f.instructions[index].operands| != 4 {
        return Some(WrongInstruction);
      }
      f.instructions := f.instructions[index := Instruction(CALL_L, ToLe(relative, 4))];
    }
    UnfoldLinkCalls(f.instructions, myStart, offsets, patches[|patches|..]);
    error := None;
  }

  lemma DisplacementMeans(code: Script, start: nat, target: nat, index: nat)
    requires index < |code|
    ensures Displacement(code, start, target, index) == target - (start + Offset(code, index))
  {
  }

  lemma {:induction false} UnfoldLinkCalls(code: Script, start: nat, offsets: map<string, nat>, patches: Patches)
    requires PatchesInRange(Routine(code, patches))
    ensures patches == [] ==> LinkCalls(code, start, offsets, patches) == Ok(code)
    ensures patches != [] ==>
              match LinkCall(code, start, offsets, patches[0])
              case Ok(linked) =>
                && PatchesInRange(Routine(linked, patches[1..]))
                && LinkCalls(code, start, offsets, patches) == LinkCalls(linked, start, offsets, patches[1..])
              case Err(e) => LinkCalls(code, start, offsets, patches) == Err(e)
  {
    hide Displacement, ToLe;
  }

  lemma {:induction false} UnfoldLinkAll(p: Program, k: nat, offsets: map<string, nat>)
    requires Known(p, offsets) && k <= |p|
    ensures Known(p[k..], offsets)
    ensures k == |p| ==> LinkAll(p[k..], offsets) == Ok([])
    ensures k < |p| ==>
              match LinkFunction(p[k], offsets)
              case Ok(first) =>
                && Known(p[k + 1..], offsets)
                && LinkAll(p[k..], offsets) ==
                   (match LinkAll(p[k + 1..], offsets)
                    case Ok(rest) => Ok([first] + rest)
                    case Err(e) => Err(e))
              case Err(e) => LinkAll(p[k..], offsets) == Err(e)
  {
    hide PatchesInRange, LinkFunction;
    if k < |p| {
      assert p[k..][0] == p[k] && p[k..][1..] == p[k + 1..];
    }
  }

  ghost function Prepend(front: Program, r: Result<Program, LinkError>): Result<Program, LinkError> {
    if r.Ok? then Ok(front + r.value) else r
  }

  lemma PrependOne(front: Program, f: Function, r: Result<Program, LinkError>)
    ensures Prepend(front + [f], r) == Prepend(front, Prepend([f], r))
  {
    assert r.Ok? ==> (front + [f]) + r.value == front + ([f] + r.value);
  }

  lemma PrependNone(r: Result<Program, LinkError>)
    ensures Prepend([], r) == r
  {
    assert r.Ok? ==> [] + r.value == r.value;
  }

  /** Link the functions of one list, in order, stopping at the first failure. */
  method ApplyAll(fs: seq<CompiledFunction>, offsets: map<string, nat>) returns (error: Option<LinkError>)
    requires Separate(fs) && Known(Views(fs), offsets)
    modifies fs
    ensures match LinkAll(old(Views(fs)), offsets)
            case Ok(p) => error == None && Views(fs) == p
            case Err(e) => error == Some(e)
  {
    hide LinkAll, LinkFunction, PatchesInRange, Views, CompiledFunction.View, Known;
    ghost var p := Views(fs);
    ghost var goal := LinkAll(p, offsets);
    ghost var done: Program := [];
    assert p[0..] == p;
    PrependNone(goal);
    for k := 0 to |fs|
      invariant |done| == k && forall m :: 0 <= m < k ==> FunctionView(fs[m]) == done[m]
      invariant forall m :: k <= m < |fs| ==> FunctionView(fs[m]) == p[m]
      invariant Known(p[k..], offsets) && goal == Prepend(done, LinkAll(p[k..], offsets))
    {
      UnfoldLinkAll(p, k, offsets);
      KnownAt(p, k, offsets);
      error := Apply(fs[k], offsets);
      if error.Some? {
        return;
      }
      ghost var first := LinkFunction(p[k], offsets).value;
      PrependOne(done, first, LinkAll(p[k + 1..], offsets));
      done := done + [first];
    }
    UnfoldLinkAll(p, |fs|, offsets);
    assert done + [] == done;
    assert Views(fs) == done;
    error := None;
  }

  lemma KnownAt(p: Program, k: nat, offsets: map<string, nat>)
    requires Known(p, offsets) && k < |p|
    ensures PatchesInRange(p[k].routine) && p[k].symbol in offsets
  {
  }

  /** Register each routine of one list at its offset in the script. */
  method Register(fs: seq<CompiledFunction>, ghost p: Program, ghost first: nat, offsets: map<string, nat>, off: nat)
    returns (error: Option<LinkError>, table: map<string, nat>, end: nat)
    requires first + |fs| <= |p| && Table(p, first) == Ok(offsets) && off == Start(p, first)
    requires forall k :: 0 <= k < |fs| ==> FunctionView(fs[k]) == p[first + k]
    ensures match Table(p, first + |fs|)
            case Ok(m) => error == None && table == m && end == Start(p, first + |fs|)
            case Err(e) => error == Some(e)
    ensures error.Some? ==> Table(p, |p|) == Err(error.value)
  {
    hide Start, Code, ByteLen;
    table, end := offsets, off;
    for k := 0 to |fs|
      invariant Table(p, first + k) == Ok(table) && end == Start(p, first + k)
    {
      var f := fs[k];
      assert FunctionView(f) == p[first + k];
      var symbol := f.LinkSymbol();
      if symbol in table {
        error := Some(DuplicateRoutine(symbol));
        TableFails(p, first + k + 1, |p|);
        TableFails(p, first + k + 1, first + |fs|);
        return;
      }
      table := table[symbol := end];
      StartStep(p, first + k);
      OffsetEnd(f.instructions);
      var len := BytecodeOffsetInRoutine(f.instructions, |f.instructions|);
      end := end + len;
    }
    error := None;
  }

  /** Symbol to byte offset for the whole file, or the first symbol used twice. */
  method BuildTable(a: seq<CompiledFunction>, b: seq<CompiledFunction>, c: seq<CompiledFunction>)
    returns (error: Option<LinkError>, offsets: map<string, nat>)
    ensures match Table(Views(a + b + c), |a + b + c|)
            case Ok(m) => error == None && offsets == m
            case Err(e) => error == Some(e)
  {
    hide *;
    ghost var p := Views(a + b + c);
    ViewsThree(a, b, c);
    TableStarts(p);
    var off;
    error, offsets, off := Register(a, p, 0, map[], 0);
    if error.None? {
      error, offsets, off := Register(b, p, |a|, offsets, off);
    }
    if error.None? {
      error, offsets, off := Register(c, p, |a| + |b|, offsets, off);
    }
  }

  lemma ViewsThree(a: seq<CompiledFunction>, b: seq<CompiledFunction>, c: seq<CompiledFunction>)
    ensures var p := Views(a + b + c);
            && |p| == |a| + |b| + |c|
            && (forall k :: 0 <= k < |a| ==> p[k] == FunctionView(a[k]))
            && (forall k :: 0 <= k < |b| ==> p[|a| + k] == FunctionView(b[k]))
            && (forall k :: 0 <= k < |c| ==> p[|a| + |b| + k] == FunctionView(c[k]))
  {
    hide Views, FunctionView;
    forall k | 0 <= k < |b| ensures Views(a + b + c)[|a| + k] == FunctionView(b[k]) {
      assert (a + b + c)[|a| + k] == b[k];
    }
    forall k | 0 <= k < |c| ensures Views(a + b + c)[|a| + |b| + k] == FunctionView(c[k]) {
      assert (a + b + c)[|a| + |b| + k] == c[k];
    }
  }

  lemma {:induction false} TableFails(p: Program, k: nat, n: nat)
    requires k <= n <= |p| && Table(p, k).Err?
    ensures Table(p, n) == Table(p, k)
    decreases n
  {
    hide Start;
    if k < n {
      TableFails(p, k, n - 1);
    }
  }

  lemma Pieces(a: seq<CompiledFunction>, b: seq<CompiledFunction>, c: seq<CompiledFunction>)
    requires Separate(a + b + c)
    ensures Separate(a) && Separate(b) && Separate(c)
    ensures forall i, j :: 0 <= i < |a| && 0 <= j < |b| ==> a[i] != b[j]
    ensures forall i, j :: 0 <= i < |a| && 0 <= j < |c| ==> a[i] != c[j]
    ensures forall i, j :: 0 <= i < |b| && 0 <= j < |c| ==> b[i] != c[j]
    ensures forall f :: f in a || f in b || f in c ==> f in a + b + c
  {
    var all := a + b + c;
    assert forall i :: 0 <= i < |a| ==> a[i] == all[i];
    assert forall i :: 0 <= i < |b| ==> b[i] == all[|a| + i];
    assert forall i :: 0 <= i < |c| ==> c[i] == all[|a| + |b| + i];
  }

  lemma ViewsAppend(a: seq<CompiledFunction>, b: seq<CompiledFunction>)
    ensures Views(a + b) == Views(a) + Views(b)
  {
    hide Views;
  }

  lemma ThreeViews(a: seq<CompiledFunction>, b: seq<CompiledFunction>, c: seq<CompiledFunction>)
    ensures Views(a + b + c) == Views(a) + Views(b) + Views(c)
  {
    hide Views;
    ViewsAppend(a + b, c);
    ViewsAppend(a, b);
  }

  /** The three lists one after the other. */
  method LinkLists(a: seq<CompiledFunction>, b: seq<CompiledFunction>, c: seq<CompiledFunction>, offsets: map<string, nat>)
    returns (error: Option<LinkError>)
    requires Separate(a + b + c) && Known(Views(a + b + c), offsets)
    modifies a, b, c
    ensures match LinkAll(old(Views(a + b + c)), offsets)
            case Ok(p) => error == None && Views(a + b + c) == p
            case Err(e) => error == Some(e)
  {
    hide LinkAll, Views, Known, Separate;
    Pieces(a, b, c);
    ThreeViews(a, b, c);
    ghost var pa, pb, pc := Views(a), Views(b), Views(c);
    LinkThree(pa, pb, pc, offsets);
    error := ApplyAll(a, offsets);
    if error.Some? {
      return;
    }
    assert Views(b) == pb && Views(c) == pc;
    error := ApplyAll(b, offsets);
    if error.Some? {
      return;
    }
    assert Views(c) == pc;
    error := ApplyAll(c, offsets);
    ThreeViews(a, b, c);
  }

  /** All functions compiled from one source file. */
  class CompiledSourceFile {
    var packageFunctions: seq<CompiledFunction>
    var structMethods: seq<CompiledFunction>
    var contractMethods: seq<CompiledFunction>

    constructor (packageFunctions: seq<CompiledFunction>, structMethods: seq<CompiledFunction>, contractMethods: seq<CompiledFunction>)
      ensures All() == packageFunctions + structMethods + contractMethods
    {
      this.packageFunctions, this.structMethods, this.contractMethods := packageFunctions, structMethods, contractMethods;
    }

    /** Layout order. */
    ghost function All(): seq<CompiledFunction>
      reads this
    {
      packageFunctions + structMethods + contractMethods
    }

    /** Each function is owned once. */
    ghost predicate Valid()
      reads this
    {
      Separate(All())
    }

    ghost function Contents(): Program
      reads this, All()
    {
      Views(All())
    }

    /** The optimizer, on every function of the file. */
    method Optimize()
      requires Valid()
      modifies packageFunctions, structMethods, contractMethods
      ensures |Contents()| == |old(Contents())|
      ensures forall t :: 0 <= t < |Contents()| ==>
                Contents()[t] == old(Contents())[t].(routine := Peephole.Optimize(old(Contents())[t].routine, 64))
    {
      hide Peephole.Optimize, Views, CompiledFunction.View;
      Pieces(packageFunctions, structMethods, contractMethods);
      ghost var before := Contents();
      OptimizeList(packageFunctions);
      OptimizeList(structMethods);
      OptimizeList(contractMethods);
      forall t | 0 <= t < |Contents()|
        ensures Contents()[t] == before[t].(routine := Peephole.Optimize(before[t].routine, 64))
      {
        var a, b := |packageFunctions|, |packageFunctions + structMethods|;
        assert All()[t] == if t < a then packageFunctions[t] else if t < b then structMethods[t - a] else contractMethods[t - b];
      }
    }

    /**
     * Resolve every CALL_L of the file: the functions become the linked program, in place, or
     * the first problem in program order is reported.
     */
    method LinkCallLPatches() returns (error: Option<LinkError>)
      requires Valid() && InRangePatches(Contents())
      modifies packageFunctions, structMethods, contractMethods
      ensures match Link(old(Contents()))
              case Ok(p) => error == None && Contents() == p
              case Err(e) => error == Some(e)
    {
      hide Link, LinkAll, Table, Views, Separate, InRangePatches;
      ghost var p := Contents();
      UnfoldLink(p);
      var offsets;
      error, offsets := BuildTable(packageFunctions, structMethods, contractMethods);
      if error.None? {
        error := LinkLists(packageFunctions, structMethods, contractMethods, offsets);
      }
    }

    /** Encode all instructions in order to a single script. */
    method FlattenToBytes() returns (out: seq<byte>)
      ensures out == EncodeAll(Code(Contents()))
    {
      hide EncodeAll, Code, Views;
      var a := FlattenList(packageFunctions);
      var b := FlattenList(structMethods);
      var c := FlattenList(contractMethods);
      out := a + b + c;
      assert Views(All()) == Views(packageFunctions) + Views(structMethods) + Views(contractMethods);
      CodeAppend(Views(packageFunctions), Views(structMethods));
      CodeAppend(Views(packageFunctions) + Views(structMethods), Views(contractMethods));
      EncodeAllAppend(Code(Views(packageFunctions)), Code(Views(structMethods)));
      EncodeAllAppend(Code(Views(packageFunctions)) + Code(Views(structMethods)), Code(Views(contractMethods)));
    }
  }

  method OptimizeList(fs: seq<CompiledFunction>)
    requires Separate(fs)
    modifies fs
    ensures forall k :: 0 <= k < |fs| ==> fs[k].View() == Peephole.Optimize(old(fs[k].View()), 64)
  {
    hide CompiledFunction.View, Peephole.Optimize;
    for k := 0 to |fs|
      invariant forall m :: 0 <= m < k ==> fs[m].View() == Peephole.Optimize(old(fs[m].View()), 64)
      invariant forall m :: k <= m < |fs| ==> fs[m].View() == old(fs[m].View())
    {
      fs[k].Optimize();
    }
  }

  method FlattenList(fs: seq<CompiledFunction>) returns (out: seq<byte>)
    ensures out == EncodeAll(Code(Views(fs)))
  {
    hide EncodeAll, Code, Views;
    out := [];
    FlattenNone();
    assert Views(fs)[..0] == [];
    for k := 0 to |fs|
      invariant out == EncodeAll(Code(Views(fs)[..k]))
    {
      var code := fs[k].instructions;
      ghost var front := out;
      assert code[..0] == [];
      assert front + [] == front;
      for j := 0 to |code|
        invariant out == front + EncodeAll(code[..j])
      {
        assert code[..j + 1] == code[..j] + [code[j]];
        EncodeAllAppend(code[..j], [code[j]]);
        EncodeOne(code[j]);
        out := out + Encode(code[j]);
      }
      assert code[..|code|] == code;
      assert Views(fs)[..k + 1] == Views(fs)[..k] + [FunctionView(fs[k])];
      CodeAppend(Views(fs)[..k], [FunctionView(fs[k])]);
      CodeOne(FunctionView(fs[k]));
      EncodeAllAppend(Code(Views(fs)[..k]), code);
    }
    assert Views(fs)[..|fs|] == Views(fs);
  }

  lemma FlattenNone()
    ensures EncodeAll([]) == [] && Code([]) == []
  {
  }

  lemma EncodeOne(i: Instruction)
    ensures EncodeAll([i]) == Encode(i)
  {
    assert [i][1..] == [];
    assert EncodeAll([i]) == Encode(i) + [];
  }

  lemma TableStarts(p: Program)
    ensures Table(p, 0) == Ok(map[]) && Start(p, 0) == 0
  {
  }

  lemma {:induction false} UnfoldLink(p: Program)
    requires InRangePatches(p)
    ensures match Table(p, |p|)
            case Ok(offsets) => Known(p, offsets) && Link(p) == LinkAll(p, offsets)
            case Err(e) => Link(p) == Err(e)
  {
    hide Table, LinkAll, Start;
    TableMeaning(p, |p|);
  }

  /** Linking list by list is linking the whole program. */
  lemma {:induction false} LinkThree(p: Program, q: Program, r: Program, offsets: map<string, nat>)
    requires Known(p + q + r, offsets)
    ensures Known(p, offsets) && Known(q, offsets) && Known(r, offsets)
    ensures LinkAll(p + q + r, offsets) == Chain(Chain(LinkAll(p, offsets), LinkAll(q, offsets)), LinkAll(r, offsets))
  {
    hide LinkAll;
    KnownAppend(p + q, r, offsets);
    KnownAppend(p, q, offsets);
    LinkAppend(p + q, r, offsets);
    LinkAppend(p, q, offsets);
  }

  lemma KnownAppend(p: Program, q: Program, offsets: map<string, nat>)
    ensures Known(p + q, offsets) <==> Known(p, offsets) && Known(q, offsets)
  {
    hide PatchesInRange;
    assert forall t :: 0 <= t < |p| ==> (p + q)[t] == p[t];
    assert forall t :: 0 <= t < |q| ==> (p + q)[|p| + t] == q[t];
  }

  lemma {:induction false} LinkAppend(p: Program, q: Program, offsets: map<string, nat>)
    requires Known(p, offsets) && Known(q, offsets)
    ensures Known(p + q, offsets)
    ensures LinkAll(p + q, offsets) == Chain(LinkAll(p, offsets), LinkAll(q, offsets))
  {
    hide LinkFunction, PatchesInRange;
    if p == [] {
      assert p + q == q;
      PrependNone(LinkAll(q, offsets));
    } else {
      assert (p + q)[1..] == p[1..] + q;
      LinkAppend(p[1..], q, offsets);
      if LinkFunction(p[0], offsets).Ok? && LinkAll(p[1..], offsets).Ok? && LinkAll(q, offsets).Ok? {
        var f, rest := LinkFunction(p[0], offsets).value, LinkAll(p[1..], offsets).value;
        assert [f] + (rest + LinkAll(q, offsets).value) == ([f] + rest) + LinkAll(q, offsets).value;
      }
    }
  }

  ghost function Chain(a: Result<Program, LinkError>, b: Result<Program, LinkError>): Result<Program, LinkError> {
    if a.Err? then a else if b.Err? then b else Ok(a.value + b.value)
  }
}
