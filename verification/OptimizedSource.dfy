/** From the source of a routine to its bytes after the whole optimizer, as long as every edit is clear. */
module OptimizedSource {
  import opened Prelude
  import opened Bytecode
  import opened Vm
  import opened Ast
  import opened Semantics
  import opened CodegenSpec
  import opened CodegenEnv
  import opened CodegenFunction
  import opened CompiledScript
  import opened Layout
  import opened Peephole
  import opened PeepholeLine
  import opened PeepholeLayout
  import opened OptimizedRuns
  import opened LaidOut

  /** The script returns, with that stack and that trace. */
  ghost predicate ReturnsWith(ops: Ops, s: Script, d: Data, stack: List<Value>, trace: seq<Event>) {
    exists e :: Ends(ops, s, d, Returned(e)) && e.stack == stack && e.trace == trace
  }

  /**
   * Where the source returns, so does the optimized code, with the same value after the same
   * events; and where the body ends normally and got its RET, it returns after the same events.
   */
  lemma {:induction false} OptimizedFunction(ops: Ops, params: seq<string>, isVoid: bool, stmts: seq<Stmt>, tail: Script, rounds: nat, fuel: nat,
                                             values: seq<Value>, below: List<Value>, d: Data)
    requires LaidOut.Loaded(params, isVoid, stmts, tail, values, below, d)
    requires AlwaysClear(Routine(FunctionCode(params, isVoid, stmts).value + tail, []), rounds)
    ensures var out := Optimize(Routine(FunctionCode(params, isVoid, stmts).value + tail, []), rounds).code;
            match ExecBlock(ops, stmts, Store(Cons(map[], Nil), ArgValues(params, values), d.trace), map[], fuel)
            case Return(v, s1) => ReturnsWith(ops, out, d, if v.Some? then Cons(v.value, below) else below, s1.trace)
            case Normal(s1) =>
              AppendsRet(isVoid, BlockCode(StartEnv(params), stmts).value.0) ==> ReturnsWith(ops, out, d, below, s1.trace)
            case _ => true
  {
    hide GoodScript, BlockCode, ExecBlock, Take, AllNoSelfInit, AppendsRet, ArgValues, Ends, FunctionCode, AlwaysClear, Optimize;
    var code := FunctionCode(params, isVoid, stmts).value + tail;
    var out := Optimize(Routine(code, []), rounds).code;
    FunctionGood(params, isVoid, stmts);
    GoodAppend(FunctionCode(params, isVoid, stmts).value, tail);
    OptimizeKeeps(ops, Routine(code, []), rounds);
    var d' := CompiledRuns(ops, params, isVoid, stmts, tail, fuel, values, below, d);
    if Ends(ops, code, d, Returned(d')) {
      assert ReturnsAlike(ops, out, d, d');
      var e :| Ends(ops, out, d, Returned(e)) && SameOutside(d', e);
    }
  }
}
