/** A compiled routine keeps the meaning of its source through the layout passes. */
module LaidOut {
  import opened Prelude
  import opened Bytecode
  import opened Disasm
  import opened Vm
  import opened Ast
  import opened Semantics
  import opened CodegenSpec
  import opened CodegenSteps
  import opened CodegenEnv
  import opened CodegenStmt
  import opened CodegenFunction
  import opened Layout
  import opened Shorten
  import opened Peephole
  import opened PeepholeCalls
  import opened PeepholeFixpoint
  import opened PeepholeLayout
  import opened CompiledScript
  import opened ScriptEnd

  /** The two passes that rewrite operands, each scanned any number of times in any order. */
  function LayoutPasses(r: Routine, passes: seq<bool>): Routine
    decreases |passes|
  {
    if passes == [] then r
    else LayoutPasses(Scan(if passes[0] then PeelJump else Narrow, r, 0).0, passes[1..])
  }

  lemma {:induction false} LayoutPassesMeaning(ops: Ops, r: Routine, passes: seq<bool>)
    requires GoodScript(r.code)
    ensures GoodScript(LayoutPasses(r, passes).code) && SameMeaning(ops, r.code, LayoutPasses(r, passes).code)
    decreases |passes|
  {
    hide GoodScript, SameMeaning;
    if passes == [] {
      SameMeaningSelf(ops, r.code);
    } else {
      var pass := if passes[0] then PeelJump else Narrow;
      ScanMeaning(ops, pass, r, 0);
      LayoutPassesMeaning(ops, Scan(pass, r, 0).0, passes[1..]);
      SameMeaningTrans(ops, r.code, Scan(pass, r, 0).0.code, LayoutPasses(r, passes).code);
    }
  }

  /**
   * What a script does from its first byte, in terms of the source outcome of the routine that
   * begins it. A body that ends normally says something only when the routine got its RET.
   */
  ghost predicate Yields(ops: Ops, s: Script, d: Data, below: List<Value>, appendsRet: bool, o: Outcome) {
    match o
    case Return(v, s1) =>
      exists d' :: Ends(ops, s, d, Returned(d')) && d'.trace == s1.trace
                   && d'.stack == if v.Some? then Cons(v.value, below) else below
    case Normal(s1) =>
      appendsRet ==> exists d' :: Ends(ops, s, d, Returned(d')) && d'.trace == s1.trace && d'.stack == below
    case Fault => Ends(ops, s, d, Faulted)
    case OutOfFuel => true
    case Stuck => true
  }

  /** A routine alone, or with other code after it, with its arguments on the stack. */
  ghost predicate Loaded(params: seq<string>, isVoid: bool, stmts: seq<Stmt>, tail: Script, values: seq<Value>, below: List<Value>, d: Data) {
    && FunctionCode(params, isVoid, stmts).Ok? && AllNoSelfInit(stmts) && GoodScript(tail)
    && Take(d.stack, |params|) == Some((values, below)) && |values| == |params|
    && var env' := BlockCode(StartEnv(params), stmts).value.1;
       env'.next > 0 || params != []
  }

  /**
   * Source to laid-out bytes: a routine compiled on the structured path, with whatever code after
   * it, and then rewritten by any sequence of the two layout passes, returns the value and
   * performs the events of its source, and faults where its source faults.
   */
  lemma {:induction false} LaidOutFunction(ops: Ops, params: seq<string>, isVoid: bool, stmts: seq<Stmt>, tail: Script, passes: seq<bool>, fuel: nat,
                                           values: seq<Value>, below: List<Value>, d: Data)
    requires Loaded(params, isVoid, stmts, tail, values, below, d)
    ensures var code := FunctionCode(params, isVoid, stmts).value + tail;
            var s := Store(Cons(map[], Nil), ArgValues(params, values), d.trace);
            Yields(ops, LayoutPasses(Routine(code, []), passes).code, d, below,
                   AppendsRet(isVoid, BlockCode(StartEnv(params), stmts).value.0), ExecBlock(ops, stmts, s, map[], fuel))
  {
    hide GoodScript, BlockCode, ExecBlock, LayoutPasses, Take, AllNoSelfInit, AppendsRet, ArgValues, Ends, FunctionCode;
    var code := FunctionCode(params, isVoid, stmts).value + tail;
    var out := LayoutPasses(Routine(code, []), passes).code;
    var o := ExecBlock(ops, stmts, Store(Cons(map[], Nil), ArgValues(params, values), d.trace), map[], fuel);
    FunctionGood(params, isVoid, stmts);
    GoodAppend(FunctionCode(params, isVoid, stmts).value, tail);
    LayoutPassesMeaning(ops, Routine(code, []), passes);
    var d' := CompiledRuns(ops, params, isVoid, stmts, tail, fuel, values, below, d);
    if o.Return? || o.Normal? {
      assert Ends(ops, code, d, Returned(d')) <==> Ends(ops, out, d, Returned(d'));
    } else if o.Fault? {
      assert Ends(ops, code, d, Faulted) <==> Ends(ops, out, d, Faulted);
    }
  }

  /** What the code does from the first byte of a script, when it has its RET or something follows it. */
  ghost predicate Follows(ops: Ops, code: Script, d: Data, below: List<Value>, appendsRet: bool, o: Outcome, d': Data) {
    match o
    case Return(v, s1) =>
      Ends(ops, code, d, Returned(d')) && d'.trace == s1.trace && d'.stack == if v.Some? then Cons(v.value, below) else below
    case Normal(s1) => appendsRet ==> Ends(ops, code, d, Returned(d')) && d'.trace == s1.trace && d'.stack == below
    case Fault => Ends(ops, code, d, Faulted)
    case _ => true
  }

  lemma {:induction false} FollowedRuns(ops: Ops, params: seq<string>, isVoid: bool, stmts: seq<Stmt>, tail: Script, fuel: nat,
                                        values: seq<Value>, below: List<Value>, d: Data) returns (d': Data)
    requires Loaded(params, isVoid, stmts, tail, values, below, d)
    requires AppendsRet(isVoid, BlockCode(StartEnv(params), stmts).value.0) || tail != []
    ensures Follows(ops, FunctionCode(params, isVoid, stmts).value + tail, d, below, AppendsRet(isVoid, BlockCode(StartEnv(params), stmts).value.0),
                    ExecBlock(ops, stmts, Store(Cons(map[], Nil), ArgValues(params, values), d.trace), map[], fuel), d')
  {
    hide BlockCode, ExecBlock, Take, AllNoSelfInit, ArgValues, Reaches, EncodeAll, ByteLen, FunctionCode, CodeAt, GoodScript, AppendsRet;
    var code := FunctionCode(params, isVoid, stmts).value;
    var x := Machine(ops, EncodeAll(code + tail), Nil);
    RoutineFirst(code, tail);
    ReachesSelf(ops, x.script, Running(0, d, Nil));
    d' := FunctionCorrect(x, Running(0, d, Nil), params, isVoid, stmts, fuel, 0, values, below, d);
  }

  /**
   * The compiled routine at the start of a script, what follows it or nothing: without a RET at
   * its end it is run with one instruction more, which does not show in a run that returns from
   * inside or faults.
   */
  lemma {:induction false} CompiledRuns(ops: Ops, params: seq<string>, isVoid: bool, stmts: seq<Stmt>, tail: Script, fuel: nat,
                                        values: seq<Value>, below: List<Value>, d: Data) returns (d': Data)
    requires Loaded(params, isVoid, stmts, tail, values, below, d)
    ensures Follows(ops, FunctionCode(params, isVoid, stmts).value + tail, d, below, AppendsRet(isVoid, BlockCode(StartEnv(params), stmts).value.0),
                    ExecBlock(ops, stmts, Store(Cons(map[], Nil), ArgValues(params, values), d.trace), map[], fuel), d')
  {
    hide BlockCode, ExecBlock, Take, AllNoSelfInit, ArgValues, Ends, FunctionCode, GoodScript, AppendsRet;
    BodyCompiled(params, isVoid, stmts);
    if AppendsRet(isVoid, BlockCode(StartEnv(params), stmts).value.0) || tail != [] {
      d' := FollowedRuns(ops, params, isVoid, stmts, tail, fuel, values, below, d);
    } else {
      var code := FunctionCode(params, isVoid, stmts).value;
      assert code + [] == code;
      FunctionGood(params, isVoid, stmts);
      EndsGood();
      d' := FollowedRuns(ops, params, isVoid, stmts, [STOP], fuel, values, below, d);
      var e := FollowedRuns(ops, params, isVoid, stmts, [LEAVE], fuel, values, below, d);
      EndUnseen(ops, code, d, d');
    }
  }

  lemma BodyCompiled(params: seq<string>, isVoid: bool, stmts: seq<Stmt>)
    requires FunctionCode(params, isVoid, stmts).Ok?
    ensures BlockCode(StartEnv(params), stmts).Ok?
  {
    hide BlockCode;
  }

  lemma EndsGood()
    ensures GoodScript([STOP]) && GoodScript([LEAVE])
  {
    StopShape();
    var none: Script := [];
    assert GoodScript(none);
    LongerGood(none, STOP);
    LongerGood(none, LEAVE);
    assert none + [STOP] == [STOP] && none + [LEAVE] == [LEAVE];
  }

  lemma RoutineFirst(code: Code, tail: Code)
    ensures CodeAt(EncodeAll(code + tail), 0, code) && ByteLen(code) <= |EncodeAll(code + tail)|
    ensures tail != [] ==> ByteLen(code) < |EncodeAll(code + tail)|
  {
    assert EncodeAll(code + tail)[0..|EncodeAll(code + tail)|] == EncodeAll(code + tail);
    CodeAtSplit(EncodeAll(code + tail), 0, code, tail);
    ByteLenAppend(code, tail);
  }
}
