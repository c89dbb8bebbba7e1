/**
 * Linking by name, on the compiled functions themselves: a method is called as contract, "::" and
 * method, a package function by its bare name, and names without a colon never collide.
 */
module LinkedNames {
  import opened Prelude
  import opened Bytecode
  import opened Disasm
  import opened Vm
  import opened Layout
  import opened Optimizer
  import opened Linker
  import opened LinkedScript
  import opened SourceFile

  predicate Plain(s: string) { forall k :: 0 <= k < |s| ==> s[k] != ':' }

  /** Identifiers hold no colon. */
  predicate PlainNames(f: CompiledFunction) { Plain(f.name) && (f.contract.Some? ==> Plain(f.contract.value)) }

  /** A call site with this symbol is a call of `f`. */
  predicate Names(symbol: string, f: CompiledFunction) {
    match f.contract
    case None => symbol == f.name
    case Some(c) =>
      && |symbol| == |c| + 2 + |f.name| && symbol[|c|] == ':' && symbol[|c| + 1] == ':'
      && (forall k :: 0 <= k < |c| ==> symbol[k] == c[k])
      && forall k :: 0 <= k < |f.name| ==> symbol[|c| + 2 + k] == f.name[k]
  }

  lemma SymbolNames(symbol: string, f: CompiledFunction)
    ensures symbol == f.LinkSymbol() <==> Names(symbol, f)
  {
    if f.contract.Some? {
      var c := f.contract.value;
      var s := f.LinkSymbol();
      assert s == (c + "::") + f.name;
      assert s[..|c|] == c && s[|c| + 2..] == f.name;
      if Names(symbol, f) {
        assert symbol == (c + "::") + f.name;
      }
    }
  }

  /** The first colon of a method's symbol ends its contract. */
  lemma ContractEnds(symbol: string, f: CompiledFunction)
    requires PlainNames(f) && Names(symbol, f)
    ensures f.contract.None? ==> Plain(symbol)
    ensures f.contract.Some? ==>
              && |f.contract.value| + 2 <= |symbol| && symbol[|f.contract.value|] == ':' && Plain(symbol[..|f.contract.value|])
              && symbol[..|f.contract.value|] == f.contract.value && symbol[|f.contract.value| + 2..] == f.name
  {
    assert f.contract.Some? ==> symbol[..|f.contract.value|] == f.contract.value;
  }

  /** Two functions have one symbol exactly when their contracts and names agree. */
  lemma {:induction false} SymbolsDiffer(f: CompiledFunction, g: CompiledFunction)
    requires PlainNames(f) && PlainNames(g)
    ensures f.LinkSymbol() == g.LinkSymbol() <==> f.contract == g.contract && f.name == g.name
  {
    hide Names, Plain;
    SymbolNames(f.LinkSymbol(), f);
    SymbolNames(f.LinkSymbol(), g);
    ContractEnds(f.LinkSymbol(), f);
    if f.LinkSymbol() == g.LinkSymbol() {
      ContractEnds(f.LinkSymbol(), g);
      FirstColon(f.LinkSymbol(), f.contract, g.contract);
    }
  }

  lemma FirstColon(s: string, c: Option<string>, e: Option<string>)
    requires c.None? || (|c.value| < |s| && s[|c.value|] == ':' && Plain(s[..|c.value|]))
    requires e.None? || (|e.value| < |s| && s[|e.value|] == ':' && Plain(s[..|e.value|]))
    requires (c.None? || e.None?) ==> Plain(s)
    ensures c.None? == e.None? && (c.Some? ==> |c.value| == |e.value|)
  {
  }

  /** The table of starts exists exactly when no contract, and no package, defines a name twice. */
  lemma {:induction false} NamesTwice(fs: seq<CompiledFunction>)
    requires forall k :: 0 <= k < |fs| ==> PlainNames(fs[k])
    ensures Table(Views(fs), |fs|).Ok? <==>
            forall i, j :: 0 <= i < j < |fs| ==> !(fs[i].contract == fs[j].contract && fs[i].name == fs[j].name)
  {
    hide Table, Views, PlainNames;
    var p := Views(fs);
    TableMeaning(p, |p|);
    forall i, j | 0 <= i < j < |fs|
      ensures p[i].symbol == p[j].symbol <==> fs[i].contract == fs[j].contract && fs[i].name == fs[j].name
    {
      SymbolsDiffer(fs[i], fs[j]);
    }
  }

  /** The call site `k` of `fs[t]`, in the linked script: its machine address and where one step takes it. */
  ghost predicate Calls(ops: Ops, fs: seq<CompiledFunction>, t: nat, k: nat, u: nat, d: Data, calls: List<Frame>)
    requires t < |fs| && u < |fs| && k < |fs[t].callPatches|
    requires InRangePatches(Views(fs)) && fs[t].callPatches[k].0 < |fs[t].instructions|
    reads fs
  {
    var p := Views(fs);
    var out, index := Link(p), fs[t].callPatches[k].0;
    && out.Ok? && |out.value| == |fs|
    && var script, pc := EncodeAll(Code(out.value)), Start(p, t) + Offset(fs[t].instructions, index);
       && CodeAt(script, Start(p, u), out.value[u].routine.code)
       && Step(ops, script, Running(pc, d, calls)) ==
          JumpTo(|script|, Start(p, u), d.(locals := [], args := []), Cons(Frame(pc + 5, d.locals, d.args), calls))
  }

  /** A call site that names a function of the file enters that function at its first byte. */
  lemma {:induction false} NamedCallEnters(ops: Ops, fs: seq<CompiledFunction>, t: nat, k: nat, u: nat, d: Data, calls: List<Frame>)
    requires Ready(Views(fs)) && InRangePatches(Views(fs)) && Link(Views(fs)).Ok?
    requires t < |fs| && k < |fs[t].callPatches| && u < |fs| && Names(fs[t].callPatches[k].1, fs[u])
    ensures fs[t].callPatches[k].0 < |fs[t].instructions| && Calls(ops, fs, t, k, u, d, calls)
  {
    hide Ready, InRangePatches, Link, Names, CodeAt, Code, Start, Offset, Step, JumpTo;
    SymbolNames(fs[t].callPatches[k].1, fs[u]);
    var p := Views(fs);
    assert p[t] == FunctionView(fs[t]) && p[u] == FunctionView(fs[u]);
    var v := LinkedCallEnters(ops, p, t, k, d, calls);
    assert v == u;
  }

  /** `self.method(...)` in a contract: the site's symbol is contract, "::" and method. */
  lemma {:induction false} MethodCallEnters(ops: Ops, fs: seq<CompiledFunction>, t: nat, k: nat, u: nat, contract: string, name: string, d: Data, calls: List<Frame>)
    requires Ready(Views(fs)) && InRangePatches(Views(fs)) && Link(Views(fs)).Ok? && t < |fs| && k < |fs[t].callPatches| && u < |fs|
    requires fs[t].callPatches[k].1 == contract + "::" + name && fs[u].contract == Some(contract) && fs[u].name == name
    ensures fs[t].callPatches[k].0 < |fs[t].instructions| && Calls(ops, fs, t, k, u, d, calls)
  {
    hide *;
    JoinedNames(contract, name, fs[u]);
    NamedCallEnters(ops, fs, t, k, u, d, calls);
  }

  lemma JoinedNames(contract: string, name: string, f: CompiledFunction)
    requires f.contract == Some(contract) && f.name == name
    ensures Names(contract + "::" + name, f)
  {
    assert contract + "::" + name == (contract + "::") + name;
  }

  /** A bare name calls the package function, whatever methods share the name. */
  lemma {:induction false} PackageCallEnters(ops: Ops, fs: seq<CompiledFunction>, t: nat, k: nat, u: nat, d: Data, calls: List<Frame>)
    requires Ready(Views(fs)) && InRangePatches(Views(fs)) && Link(Views(fs)).Ok? && t < |fs| && k < |fs[t].callPatches| && u < |fs|
    requires fs[u].contract == None && fs[t].callPatches[k].1 == fs[u].name
    ensures fs[t].callPatches[k].0 < |fs[t].instructions| && Calls(ops, fs, t, k, u, d, calls)
  {
    hide *;
    BareName(fs[u]);
    NamedCallEnters(ops, fs, t, k, u, d, calls);
  }

  lemma BareName(f: CompiledFunction)
    requires f.contract == None
    ensures Names(f.name, f)
  {
  }

  // ----- when a file links -----

  /** The call at `patch` of `fs[t]` is a CALL_L to some function of the file, within 32 bits. */
  ghost predicate Callable(fs: seq<CompiledFunction>, t: nat, patch: (nat, string))
    requires t < |fs|
    reads fs
  {
    var p, code := Views(fs), fs[t].instructions;
    && patch.0 < |code| && code[patch.0].opcode == 0x35 && |code[patch.0].operands| == 4
    && exists u :: 0 <= u < |fs| && Names(patch.1, fs[u]) && InReach(p, t, patch.0, u)
  }

  predicate InReach(p: Program, t: nat, index: nat, u: nat)
    requires t < |p| && u < |p| && index < |p[t].routine.code|
  {
    -0x8000_0000 <= Start(p, u) - (Start(p, t) + Offset(p[t].routine.code, index)) <= 0x7FFF_FFFF
  }

  lemma {:induction false} CallableMeans(fs: seq<CompiledFunction>, t: nat, patch: (nat, string))
    requires t < |fs|
    ensures CallResolves(Views(fs), t, patch) <==> Callable(fs, t, patch)
  {
    hide Start, Offset, Names, Views;
    var p := Views(fs);
    assert p[t] == FunctionView(fs[t]);
    forall u | 0 <= u < |fs| ensures p[u].symbol == patch.1 <==> Names(patch.1, fs[u]) {
      assert p[u] == FunctionView(fs[u]);
      SymbolNames(patch.1, fs[u]);
    }
  }

  /** A file links exactly when no name is defined twice and every call names a function in reach. */
  lemma {:induction false} LinksExactlyWhen(fs: seq<CompiledFunction>)
    requires InRangePatches(Views(fs)) && forall k :: 0 <= k < |fs| ==> PlainNames(fs[k])
    ensures Link(Views(fs)).Ok? <==>
            && (forall i, j :: 0 <= i < j < |fs| ==> !(fs[i].contract == fs[j].contract && fs[i].name == fs[j].name))
            && forall t, k :: 0 <= t < |fs| && 0 <= k < |fs[t].callPatches| ==> Callable(fs, t, fs[t].callPatches[k])
  {
    hide Link, Table, Callable, CallResolves, PlainNames, Views, InRangePatches;
    var p := Views(fs);
    LinkSucceeds(p);
    NamesTwice(fs);
    TableMeaning(p, |p|);
    forall t | 0 <= t < |fs|
      ensures CallsResolve(p, t) <==> forall k :: 0 <= k < |fs[t].callPatches| ==> Callable(fs, t, fs[t].callPatches[k])
    {
      assert p[t] == FunctionView(fs[t]);
      forall k | 0 <= k < |fs[t].callPatches|
        ensures CallResolves(p, t, p[t].routine.patches[k]) <==> Callable(fs, t, fs[t].callPatches[k])
      {
        CallableMeans(fs, t, fs[t].callPatches[k]);
      }
    }
  }
}
