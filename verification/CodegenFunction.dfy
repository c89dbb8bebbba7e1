/** Correctness of a whole compiled routine, with its INITSLOT prologue and RET epilogue. */
module CodegenFunction {
  import opened Prelude
  import opened Bytecode
  import opened Disasm
  import opened Vm
  import opened Ast
  import opened Semantics
  import opened CodegenSpec
  import opened CodegenSteps
  import opened CodegenExpr
  import opened CodegenEnv
  import opened CodegenStmt

  /** Parameter values by name, from the argument values in order. */
  function ArgValues(params: seq<string>, values: seq<Value>): map<string, Value>
    requires |params| <= |values|
  {
    map n | n in ArgSlots(params) && ArgSlots(params)[n] < |values| :: values[ArgSlots(params)[n]]
  }

  lemma {:induction false} ArgSlotsOk(params: seq<string>)
    ensures forall n :: n in ArgSlots(params) <==> n in params
    ensures forall n :: n in ArgSlots(params) ==> ArgSlots(params)[n] < |params| && params[ArgSlots(params)[n]] == n
    decreases |params|
  {
    if params != [] {
      ArgSlotsOk(params[..|params| - 1]);
      assert params == params[..|params| - 1] + [params[|params| - 1]];
    }
  }

  /** The routine's machine state on entry: the arguments on the stack, first one on top. */
  ghost predicate Entered(x: Machine, a: State, code: Code, pc: nat, params: seq<string>, values: seq<Value>, below: List<Value>, d: Data) {
    && Leads(x, a, At(x, pc, d)) && CodeAt(x.script, pc, code) && pc + ByteLen(code) <= |x.script|
    && Take(d.stack, |params|) == Some((values, below)) && |values| == |params|
  }

  /** INITSLOT moves the arguments into their slots and clears the locals. */
  lemma PrologueCorrect(x: Machine, a: State, locals: byte, rest: Code, pc: nat, params: seq<string>, values: seq<Value>, below: List<Value>, d: Data)
    returns (d': Data)
    requires |params| <= 255 && Entered(x, a, [Instruction(INITSLOT, [locals, |params|])] + rest, pc, params, values, below, d)
    ensures CodeAt(x.script, pc + 3, rest) && ByteLen([Instruction(INITSLOT, [locals, |params|])] + rest) == 3 + ByteLen(rest)
    ensures locals == 0 && params == [] ==> Leads(x, a, Faulted)
    ensures locals > 0 || params != [] ==>
              && d' == Data(below, seq(locals, _ => Null), values, d.trace)
              && Leads(x, a, At(x, pc + 3, d'))
  {
    hide CodeAt, Leads, ByteLen, Take;
    var i := Instruction(INITSLOT, [locals, |params|]);
    d' := Data(below, seq(locals, _ => Null), values, d.trace);
    DataStep(x, a, i, rest, pc, d);
    ExecInitslot(x.ops, i, locals, |params|, d);
  }

  lemma ExecInitslot(ops: Ops, i: Instruction, locals: byte, args: byte, d: Data)
    requires i == Instruction(INITSLOT, [locals, args])
    ensures ExecData(ops, i, d) == Initialize(d, locals, args)
  {
    hide Initialize;
  }

  /** What the machine does on a compiled routine, in terms of the body's meaning. */
  ghost predicate Behaves(x: Machine, a: State, end: nat, appendsRet: bool, below: List<Value>, o: Outcome, fuel: nat, d': Data) {
    match o
    case Return(v, s1) =>
      && Leads(x, a, Vm.Return(d', x.calls)) && d'.trace == s1.trace
      && d'.stack == if v.Some? then Cons(v.value, below) else below
    case Normal(s1) =>
      && d'.stack == below && d'.trace == s1.trace
      && Leads(x, a, if appendsRet then Vm.Return(d', x.calls) else At(x, end, d'))
    case Fault => Leads(x, a, Faulted)
    case OutOfFuel => Outlasts(x.ops, x.script, a, fuel)
    case Stuck => true
  }

  lemma StartMirrors(params: seq<string>, values: seq<Value>, d: Data)
    requires |values| == |params| <= 255 && d.args == values
    ensures EnvOk(StartEnv(params))
    ensures Mirrors(StartEnv(params), Store(Cons(map[], Nil), ArgValues(params, values), d.trace), d)
  {
    ArgSlotsOk(params);
    assert SlotsOf(StartEnv(params).scopes) == {};
  }

  /**
   * A compiled routine behaves as its source. Two facts the source does not show:
   * a routine with neither locals nor parameters faults on entry, whatever its body; and a body
   * that ends normally returns exactly when a RET was appended, otherwise the machine runs on
   * into the bytes after the routine.
   */
  lemma {:induction false} FunctionCorrect(x: Machine, a: State, params: seq<string>, isVoid: bool, stmts: seq<Stmt>, fuel: nat, pc: nat,
                        values: seq<Value>, below: List<Value>, d: Data) returns (d': Data)
    requires FunctionCode(params, isVoid, stmts).Ok? && AllNoSelfInit(stmts)
    requires Entered(x, a, FunctionCode(params, isVoid, stmts).value, pc, params, values, below, d)
    requires var body := BlockCode(StartEnv(params), stmts).value.0;
             AppendsRet(isVoid, body) || pc + ByteLen(FunctionCode(params, isVoid, stmts).value) < |x.script|
    ensures var (body, env') := BlockCode(StartEnv(params), stmts).value;
            var s := Store(Cons(map[], Nil), ArgValues(params, values), d.trace);
            if env'.next == 0 && params == [] then Leads(x, a, Faulted)
            else Behaves(x, a, pc + ByteLen(FunctionCode(params, isVoid, stmts).value), AppendsRet(isVoid, body), below,
                         ExecBlock(x.ops, stmts, s, map[], fuel), fuel, d')
  {
    hide CodeAt, Leads, ByteLen, Take, BlockCode, ExecBlock, Mirrors, EnvOk, Frames, AllNoSelfInit, ArgSlots;
    var env := StartEnv(params);
    var (body, env') := BlockCode(env, stmts).value;
    var epilogue := Epilogue(isVoid, body);
    var d1 := PrologueCorrect(x, a, env'.next, body + epilogue, pc, params, values, below, d);
    d' := d1;
    if env'.next > 0 || params != [] {
      StartMirrors(params, values, d1);
      var s := Store(Cons(map[], Nil), ArgValues(params, values), d.trace);
      CodeAtSplit(x.script, pc + 3, body, epilogue);
      ByteLenAppend(body, epilogue);
      ByteLenOne(Op(RET));
      ByteLenNone();
      d' := BlockCorrect(x, a, env, stmts, fuel, pc + 3, s, d1);
      if ExecBlock(x.ops, stmts, s, map[], fuel).Normal? {
        FramesStack0(env, d1, d');
        MirrorsTrace(env', ExecBlock(x.ops, stmts, s, map[], fuel).store, d');
        if AppendsRet(isVoid, body) {
          ReturnStep(x, a, pc + 3 + ByteLen(body), d');
        }
      }
    }
  }

  lemma FramesStack0(env: Env, d: Data, d': Data)
    requires Frames(env, env.next, d, d')
    ensures d'.stack == d.stack
  {
  }

  lemma MirrorsTrace(env: Env, s: Store, d: Data)
    requires Mirrors(env, s, d)
    ensures d.trace == s.trace
  {
  }
}
