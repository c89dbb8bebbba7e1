/** The order in which the arguments of an `emit` reach the event, against the documented one. */
module EventOrder {
  import opened Prelude
  import opened Bytecode
  import opened Disasm
  import opened Vm
  import opened Ast
  import opened Semantics
  import opened CodegenSpec
  import opened CodegenSteps
  import opened CodegenExpr
  import opened CodegenEnv
  import opened CodegenStmt
  import opened CodegenFunction
  import opened CompiledScript
  import opened PeepholeLayout
  import opened Layout
  import opened LaidOut

  /**
   * The code of any `emit` appends one event with the argument values back to front. With at most
   * one argument that is the documented order; with more it is not as soon as the outer two differ.
   */
  lemma {:induction false} EmitReverses(x: Machine, a: State, env: Env, event: seq<byte>, args: seq<Expr>, pc: nat, s: Store, d: Data) returns (d': Data)
    requires StmtCode(env, Emit(event, args)).Ok? && Ready(x, a, env, StmtCode(env, Emit(event, args)).value.0, pc, s, d)
    requires EvalAll(x.ops, args, s).Vals?
    ensures Leads(x, a, At(x, pc + ByteLen(StmtCode(env, Emit(event, args)).value.0), d')) && d'.stack == d.stack
    ensures var r := EvalAll(x.ops, args, s);
            var documented := r.store.trace + [Event(event, Array(r.vs))];
            && d'.trace == r.store.trace + [Event(event, Array(Reverse(r.vs)))]
            && (|args| <= 1 ==> d'.trace == documented)
            && (|args| >= 2 && r.vs[0] != r.vs[|r.vs| - 1] ==> d'.trace != documented)
  {
    hide StmtCode, EvalAll, CodeAt, EnvOk, Leads, ByteLen, Ready;
    d' := EmitCorrect(x, a, env, event, args, 0, pc, s, d);
    var r := EvalAll(x.ops, args, s);
    EvalAllLength(x.ops, args, s);
    FramesStack0(env, d, d');
    MirrorsTrace(env, r.store.(trace := r.store.trace + [Event(event, Array(Reverse(r.vs)))]), d');
    OuterTwo(r.vs);
    LastEvent(r.store.trace, Event(event, Array(Reverse(r.vs))), Event(event, Array(r.vs)));
  }

  lemma LastEvent(trace: seq<Event>, e: Event, e2: Event)
    ensures trace + [e] == trace + [e2] ==> e == e2
  {
    if trace + [e] == trace + [e2] {
      assert (trace + [e])[|trace|] == (trace + [e2])[|trace|];
    }
  }

  lemma OuterTwo(vs: seq<Value>)
    ensures |vs| <= 1 ==> Reverse(vs) == vs
    ensures |vs| >= 2 && vs[0] != vs[|vs| - 1] ==> Reverse(vs) != vs
  {
    assert |vs| >= 2 ==> Reverse(vs)[0] == vs[|vs| - 1];
  }

  lemma {:induction false} EvalAllLength(ops: Ops, es: seq<Expr>, s: Store)
    ensures EvalAll(ops, es, s).Vals? ==> |EvalAll(ops, es, s).vs| == |es|
    decreases |es|
  {
    hide EvalExpr;
    if es != [] && EvalExpr(ops, es[0], s).Val? {
      EvalAllLength(ops, es[1..], EvalExpr(ops, es[0], s).store);
    }
  }

  // ----- a whole routine: void f(p0, p1, ...) { emit E(p0, p1, ...); } -----

  function Idents(names: seq<string>): (es: seq<Expr>)
    ensures |es| == |names|
  {
    seq(|names|, k requires 0 <= k < |names| => Ident(names[k]))
  }

  predicate DistinctNames(names: seq<string>) {
    forall j, k :: 0 <= j < |names| && 0 <= k < |names| && names[j] == names[k] ==> j == k
  }

  function EmitBody(event: seq<byte>, params: seq<string>): seq<Stmt> { [Emit(event, Idents(params))] }

  /** The first value on top. */
  function Stacked(values: seq<Value>): List<Value> {
    if values == [] then Nil else Cons(values[0], Stacked(values[1..]))
  }

  lemma {:induction false} TakeStacked(values: seq<Value>)
    ensures Take(Stacked(values), |values|) == Some((values, Nil))
    decreases |values|
  {
    if values != [] {
      TakeStacked(values[1..]);
      assert [values[0]] + values[1..] == values;
    } else {
      assert values == [];
    }
  }

  function Called(values: seq<Value>): Data { Data(Stacked(values), [], [], []) }

  /** Alone on the machine and called with `values`, the routine never returns but after one event with them in order. */
  ghost predicate EmitsInOrder(ops: Ops, params: seq<string>, event: seq<byte>, values: seq<Value>)
    requires FunctionCode(params, true, EmitBody(event, params)).Ok?
  {
    forall d' :: Ends(ops, FunctionCode(params, true, EmitBody(event, params)).value, Called(values), Returned(d')) ==>
      d'.trace == [Event(event, Array(values))]
  }

  lemma {:induction false} IdentsCode(env: Env, names: seq<string>)
    requires forall n :: n in names ==> VariableCode(env, n, false).Ok?
    ensures ExprsCode(env, Idents(names)).Ok?
    decreases |names|
  {
    hide VariableCode;
    if names != [] {
      assert Idents(names)[1..] == Idents(names[1..]) && Idents(names)[0] == Ident(names[0]);
      assert names[0] in names;
      IdentsCode(env, names[1..]);
    }
  }

  lemma {:induction false} IdentsValues(ops: Ops, names: seq<string>, values: seq<Value>, s: Store)
    requires |names| == |values| && forall k :: 0 <= k < |names| ==> Lookup(s, names[k]) == Some(values[k])
    ensures EvalAll(ops, Idents(names), s) == Vals(values, s)
    decreases |names|
  {
    hide Lookup;
    if names != [] {
      assert Idents(names)[1..] == Idents(names[1..]) && Idents(names)[0] == Ident(names[0]);
      IdentsValues(ops, names[1..], values[1..], s);
      assert [values[0]] + values[1..] == values;
    } else {
      assert values == [];
    }
  }

  /** The body compiles, ends in SYSCALL and so gets its RET. */
  lemma {:induction false} EmitBodyCode(event: seq<byte>, params: seq<string>)
    requires |params| <= 255 && PushData(event).Ok?
    ensures BlockCode(StartEnv(params), EmitBody(event, params)).Ok?
    ensures var (body, env') := BlockCode(StartEnv(params), EmitBody(event, params)).value; AppendsRet(true, body) && env'.next == 0
    ensures FunctionCode(params, true, EmitBody(event, params)).Ok? && AllNoSelfInit(EmitBody(event, params))
  {
    hide ExprsCode, ArgSlots, PushInt, PushData;
    ArgSlotsOk(params);
    var env := Enter(StartEnv(params));
    forall n | n in params ensures VariableCode(env, n, false).Ok? {
      assert ResolveLocal(Nil, n) == None;
      assert ResolveLocal(StartEnv(params).scopes, n) == None;
      assert ResolveLocal(env.scopes, n) == None;
    }
    IdentsCode(env, params);
    var stmts := EmitBody(event, params);
    assert stmts[1..] == [] && stmts[0] == Emit(event, Idents(params));
    var c := ExprsCode(env, Idents(params)).value;
    var code := StmtCode(env, stmts[0]).value.0;
    assert code == c + ([PushInt(|params|)] + ([Op(PACK)] + ([PushData(event).value] + [Instruction(SYSCALL, NOTIFY)])));
    assert code[|code| - 1] == Instruction(SYSCALL, NOTIFY);
    assert StmtsCode(env, stmts) == Ok((code + [], env));
    assert code + [] == code;
  }

  lemma {:induction false} ParameterValue(params: seq<string>, values: seq<Value>, k: nat)
    requires DistinctNames(params) && |values| == |params| && k < |params|
    ensures Lookup(Store(Cons(map[], Cons(map[], Nil)), ArgValues(params, values), []), params[k]) == Some(values[k])
  {
    hide ArgSlots;
    ArgSlotsOk(params);
    assert params[k] in params && params[k] in ArgSlots(params);
    assert ArgSlots(params)[params[k]] == k;
    var s := Store(Cons(map[], Cons(map[], Nil)), ArgValues(params, values), []);
    assert LookupScopes(s.scopes, params[k]) == None by {
      assert LookupScopes(Nil, params[k]) == None;
      assert LookupScopes(Cons(map[], Nil), params[k]) == None;
    }
  }

  lemma {:induction false} EmitBodyMeaning(ops: Ops, event: seq<byte>, params: seq<string>, values: seq<Value>)
    requires DistinctNames(params) && |values| == |params|
    ensures ExecBlock(ops, EmitBody(event, params), Store(Cons(map[], Nil), ArgValues(params, values), []), map[], 0) ==
            Normal(Store(Cons(map[], Nil), ArgValues(params, values), [Event(event, Array(Reverse(values)))]))
  {
    hide EvalAll, ArgValues, Lookup, Reverse;
    var s := Store(Cons(map[], Cons(map[], Nil)), ArgValues(params, values), []);
    forall k | 0 <= k < |params| ensures Lookup(s, params[k]) == Some(values[k]) {
      ParameterValue(params, values, k);
    }
    IdentsValues(ops, params, values, s);
    var stmts := EmitBody(event, params);
    assert stmts[1..] == [] && stmts[0] == Emit(event, Idents(params));
    assert [] + [Event(event, Array(Reverse(values)))] == [Event(event, Array(Reverse(values)))];
    assert Exec(ops, stmts[0], s, 0) == Normal(s.(trace := [Event(event, Array(Reverse(values)))]));
    assert ExecAll(ops, stmts, s, 0) == Normal(s.(trace := [Event(event, Array(Reverse(values)))])) by {
      assert ExecAll(ops, [], s.(trace := [Event(event, Array(Reverse(values)))]), 0) == Normal(s.(trace := [Event(event, Array(Reverse(values)))]));
    }
  }

  /** With parameters, the routine returns after its one event. */
  lemma {:induction false} EmittedReversed(ops: Ops, params: seq<string>, event: seq<byte>, values: seq<Value>) returns (d': Data)
    requires DistinctNames(params) && 0 < |params| <= 255 && PushData(event).Ok? && |values| == |params|
    ensures FunctionCode(params, true, EmitBody(event, params)).Ok?
    ensures Ends(ops, FunctionCode(params, true, EmitBody(event, params)).value, Called(values), Returned(d'))
    ensures d'.trace == [Event(event, Array(Reverse(values)))] && d'.stack == Nil
  {
    hide FunctionCode, BlockCode, ExecBlock, AllNoSelfInit, Take, Stacked, ArgValues, Ends, AppendsRet, EmitBody, DistinctNames;
    EmitBodyCode(event, params);
    TakeStacked(values);
    EmitBodyMeaning(ops, event, params, values);
    EmptyGood();
    var stmts, code := EmitBody(event, params), FunctionCode(params, true, EmitBody(event, params)).value;
    d' := CompiledRuns(ops, params, true, stmts, [], 0, values, Nil, Called(values));
    assert code + [] == code;
  }

  lemma EmptyGood()
    ensures GoodScript([])
  {
  }

  /** Without any, it faults on its INITSLOT. */
  lemma {:induction false} EmitNothingFaults(ops: Ops, event: seq<byte>)
    requires PushData(event).Ok?
    ensures FunctionCode([], true, EmitBody(event, [])).Ok?
    ensures Ends(ops, FunctionCode([], true, EmitBody(event, [])).value, Called([]), Faulted)
  {
    hide FunctionCode, BlockCode, ExecBlock, AllNoSelfInit, Take, ArgValues, AppendsRet, EmitBody, Reaches, EncodeAll, CodeAt, ByteLen;
    EmitBodyCode(event, []);
    TakeStacked([]);
    var code := FunctionCode([], true, EmitBody(event, [])).value;
    var x := Machine(ops, EncodeAll(code), Nil);
    assert code + [] == code;
    RoutineFirst(code, []);
    ReachesSelf(ops, x.script, Running(0, Called([]), Nil));
    var d' := FunctionCorrect(x, Running(0, Called([]), Nil), [], true, EmitBody(event, []), 0, 0, [], Nil, Called([]));
  }

  lemma {:induction false} HaltsOnce(ops: Ops, script: seq<byte>, a: State, b: State, c: State)
    requires Reaches(ops, script, a, b) && Reaches(ops, script, a, c) && !b.Running? && !c.Running?
    ensures b == c
  {
    hide Step;
    var m: nat :| Run(ops, script, a, m) == b;
    var n: nat :| Run(ops, script, a, n) == c;
    if m <= n {
      RunAdd(ops, script, a, m, n - m);
      RunHalted(ops, script, b, n - m);
    } else {
      RunAdd(ops, script, a, n, m - n);
      RunHalted(ops, script, c, m - n);
    }
  }

  /** One call of the routine keeps the order exactly when its values read the same reversed. */
  lemma {:induction false} InOrderOnce(ops: Ops, params: seq<string>, event: seq<byte>, values: seq<Value>)
    requires DistinctNames(params) && 0 < |params| <= 255 && PushData(event).Ok? && |values| == |params|
    ensures FunctionCode(params, true, EmitBody(event, params)).Ok?
    ensures EmitsInOrder(ops, params, event, values) <==> Reverse(values) == values
  {
    hide FunctionCode, EmitBody, Reaches, Reverse, EncodeAll, Stacked, DistinctNames, PushData;
    var d' := EmittedReversed(ops, params, event, values);
    var code := FunctionCode(params, true, EmitBody(event, params)).value;
    forall d1 | Ends(ops, code, Called(values), Returned(d1)) ensures d1 == d' {
      HaltsOnce(ops, EncodeAll(code), Running(0, Called(values), Nil), Returned(d'), Returned(d1));
    }
    LastEvent([], Event(event, Array(Reverse(values))), Event(event, Array(values)));
    assert [] + [Event(event, Array(Reverse(values)))] == [Event(event, Array(Reverse(values)))];
    assert [] + [Event(event, Array(values))] == [Event(event, Array(values))];
  }

  /** The documented order is kept for all values exactly when there is at most one argument. */
  lemma {:induction false} EventOrderExactlyWhen(ops: Ops, params: seq<string>, event: seq<byte>)
    requires DistinctNames(params) && |params| <= 255 && PushData(event).Ok?
    ensures FunctionCode(params, true, EmitBody(event, params)).Ok?
    ensures (forall values: seq<Value> :: |values| == |params| ==> EmitsInOrder(ops, params, event, values)) <==> |params| <= 1
  {
    hide FunctionCode, EmitBody, EmitsInOrder, Reverse, DistinctNames, PushData;
    EmitBodyCode(event, params);
    if params == [] {
      forall values: seq<Value> | |values| == 0 ensures EmitsInOrder(ops, params, event, values) {
        assert params == [] && values == [];
        NeverReturns(ops, event);
      }
    } else {
      forall values: seq<Value> | |values| == |params| ensures EmitsInOrder(ops, params, event, values) <==> Reverse(values) == values {
        InOrderOnce(ops, params, event, values);
      }
      forall values: seq<Value> | |values| == |params| && |params| <= 1 ensures EmitsInOrder(ops, params, event, values) {
        OuterTwo(values);
      }
      var numbers := seq(|params|, j => Int(j));
      OuterTwo(numbers);
      assert |numbers| == |params|;
    }
  }

  lemma {:induction false} NeverReturns(ops: Ops, event: seq<byte>)
    requires PushData(event).Ok?
    ensures FunctionCode([], true, EmitBody(event, [])).Ok? && EmitsInOrder(ops, [], event, [])
  {
    hide FunctionCode, EmitBody, Reaches, EncodeAll, Stacked;
    EmitNothingFaults(ops, event);
    var code := FunctionCode([], true, EmitBody(event, [])).value;
    if d1 :| Ends(ops, code, Called([]), Returned(d1)) {
      HaltsOnce(ops, EncodeAll(code), Running(0, Called([]), Nil), Faulted, Returned(d1));
      assert false;
    }
  }

  /** `void f(source, dest) { emit E(source, dest); }` notifies `[dest, source]`. */
  lemma {:induction false} TwoArgumentEvent(ops: Ops, event: seq<byte>, source: Value, dest: Value) returns (d': Data)
    requires PushData(event).Ok?
    ensures FunctionCode(["source", "dest"], true, EmitBody(event, ["source", "dest"])).Ok?
    ensures Ends(ops, FunctionCode(["source", "dest"], true, EmitBody(event, ["source", "dest"])).value, Called([source, dest]), Returned(d'))
    ensures d'.trace == [Event(event, Array([dest, source]))]
  {
    hide FunctionCode, EmitBody, Ends, PushData;
    d' := EmittedReversed(ops, ["source", "dest"], event, [source, dest]);
    assert Reverse([source, dest]) == [dest, source];
  }
}
