/**
 * The SSA intermediate representation (ir/mod.rs) and what running it means: blocks run one after
 * the other, each extending an environment of values and a trace of effects.
 */
module Ir {
  import opened Prelude
  import opened Bytecode
  import opened Vm
  import Ast
  import Semantics

  datatype ValueRef = Value(id: nat) | Param(index: nat)

  /** One instruction that defines a new SSA value. Reads and writes of mutable heap objects are not modelled. */
  datatype Instr =
    | Const(lit: Ast.Literal)
    | Copy(value: ValueRef)
    | Unary(op: Ast.UnaryOp, value: ValueRef)
    | Binary(bop: Ast.BinaryOp, left: ValueRef, right: ValueRef)
    | IsNull(value: ValueRef, eqNull: bool)
    | Cast(value: ValueRef, ty: Ast.Type)
    | StructFieldGet(base: ValueRef, index: nat)
    | Pure(opcode: byte, args: seq<ValueRef>)        // SubStr, Sqrt, ModMul, ModPow, Within
    | ArrayPack(elements: seq<ValueRef>)
    | StructPack(fields: seq<ValueRef>)
    | StorageGet(field: seq<byte>, ty: Ast.Type)
    | Emit(event: seq<byte>, args: seq<ValueRef>)
    | MapCompound(field: seq<byte>, key: ValueRef, value: ValueRef)  // `self.map[key] op= value` in storage
    | Call(callee: string, args: seq<ValueRef>)      // package, contract, struct, runtime and external calls, other storage writes

  datatype Terminator =
    | Unset
    | Ret(result: Option<ValueRef>)
    | Jump(target: nat, args: seq<ValueRef>)
    | Branch(cond: ValueRef, thenBb: nat, thenArgs: seq<ValueRef>, elseBb: nat, elseArgs: seq<ValueRef>)

  /** A block, the ids and instructions it runs in order, and where it goes next. */
  datatype BasicBlock = BasicBlock(params: nat, instrs: seq<(nat, Instr)>, term: Terminator)

  type Instrs = seq<(nat, Instr)>

  /** Block `k` of a function is the block with id `k`. */
  type Blocks = seq<BasicBlock>

  predicate HasSideEffects(i: Instr) { i.Emit? || i.MapCompound? || i.Call? }

  predicate MustKeep(i: Instr) { i.Emit? || i.MapCompound? || i.Call? || i.StructPack? }

  /** The values an instruction uses. */
  function Operands(i: Instr): seq<ValueRef> {
    match i
    case Const(_) => []
    case Copy(v) => [v]
    case Unary(_, v) => [v]
    case Binary(_, l, r) => [l, r]
    case IsNull(v, _) => [v]
    case Cast(v, _) => [v]
    case StructFieldGet(b, _) => [b]
    case Pure(_, args) => args
    case ArrayPack(es) => es
    case StructPack(fs) => fs
    case StorageGet(_, _) => []
    case Emit(_, args) => args
    case MapCompound(_, k, v) => [k, v]
    case Call(_, args) => args
  }

  function TermOperands(t: Terminator): seq<ValueRef> {
    match t
    case Unset => []
    case Ret(v) => if v.Some? then [v.value] else []
    case Jump(_, args) => args
    case Branch(c, _, a, _, b) => [c] + a + b
  }

  // ----- meaning -----

  /**
   * The machine's operations, and the instructions whose result nothing here depends on: `pure`
   * for operators of several operands, `read` for storage, `call` for anything that may act on
   * the world. The world is known by what was done to it.
   */
  datatype IrOps = IrOps(
    vm: Ops,
    pure: (byte, seq<Value>) -> Option<Value>,
    read: (seq<byte>, Ast.Type, seq<Event>) -> Option<Value>,
    compound: (seq<byte>, Value, Value, seq<Event>) -> Option<(Value, seq<Event>)>,
    call: (string, seq<Value>, seq<Event>) -> Option<(Value, seq<Event>)>)

  type Env = map<nat, Value>

  function ValueOf(v: ValueRef, params: seq<Value>, env: Env): Option<Value> {
    match v
    case Value(id) => if id in env then Some(env[id]) else None
    case Param(k) => if k < |params| then Some(params[k]) else None
  }

  function ValuesOf(vs: seq<ValueRef>, params: seq<Value>, env: Env): (r: Option<seq<Value>>)
    ensures r.Some? ==> |r.value| == |vs|
  {
    if vs == [] then Some([])
    else
      match ValueOf(vs[0], params, env)
      case None => None
      case Some(v) =>
        match ValuesOf(vs[1..], params, env)
        case None => None
        case Some(rest) => Some([v] + rest)
  }

  lemma OneValue(v: ValueRef, params: seq<Value>, env: Env)
    ensures ValuesOf([v], params, env) == if ValueOf(v, params, env).Some? then Some([ValueOf(v, params, env).value]) else None
  {
    assert [v][1..] == [];
    assert ValueOf(v, params, env).Some? ==> [ValueOf(v, params, env).value] + [] == [ValueOf(v, params, env).value];
  }

  lemma TwoValues(l: ValueRef, r: ValueRef, params: seq<Value>, env: Env)
    ensures ValuesOf([l, r], params, env) ==
            if ValueOf(l, params, env).Some? && ValueOf(r, params, env).Some?
            then Some([ValueOf(l, params, env).value, ValueOf(r, params, env).value]) else None
  {
    assert [l, r][1..] == [r];
    OneValue(r, params, env);
    if ValueOf(l, params, env).Some? && ValueOf(r, params, env).Some? {
      var a, b := ValueOf(l, params, env).value, ValueOf(r, params, env).value;
      assert [a] + [b] == [a, b];
    }
  }

  predicate IsPure(i: Instr) { !HasSideEffects(i) && !i.StorageGet? }

  /** Value of an instruction that reads nothing but its operands; `None` is a fault. */
  function PureValue(ops: IrOps, i: Instr, vs: seq<Value>): Option<Value>
    requires IsPure(i) && |vs| == |Operands(i)|
  {
    match i
    case Const(lit) => Semantics.LiteralValue(lit)
    case Copy(_) => Some(vs[0])
    case Unary(op, _) => Semantics.UnaryMeaning(ops.vm, op, vs[0])
    case Binary(op, _, _) =>
      if op == Ast.And || op == Ast.Or then None else BinaryValue(ops.vm, Ast.BinaryOpCode(op), vs[0], vs[1])
    case IsNull(_, eqNull) => Some(Bool((vs[0] == Null) == eqNull))
    case Cast(_, ty) =>
      if Ast.StackItemType(ty).Some? then ops.vm.unary(Instruction(CONVERT, [Ast.StackItemType(ty).value]), vs[0]) else None
    case StructFieldGet(_, k) => Vm.Binary(ops.vm, Instruction(PICKITEM, []), vs[0], Int(k))
    case Pure(op, _) => ops.pure(op, vs)
    case ArrayPack(_) => Some(Array(vs))
    case StructPack(_) => Some(Array(Reverse(vs)))
  }

  function Eval(ops: IrOps, i: Instr, vs: seq<Value>, trace: seq<Event>): Option<(Value, seq<Event>)>
    requires |vs| == |Operands(i)|
  {
    match i
    case StorageGet(field, ty) =>
      (match ops.read(field, ty, trace)
       case None => None
       case Some(v) => Some((v, trace)))
    case Emit(event, _) => Some((Null, trace + [Event(event, Array(Reverse(vs)))]))
    case MapCompound(field, _, _) => ops.compound(field, vs[0], vs[1], trace)
    case Call(callee, _) => ops.call(callee, vs, trace)
    case _ =>
      match PureValue(ops, i, vs)
      case None => None
      case Some(v) => Some((v, trace))
  }

  /** The instructions of a block from position `p` on; `None` is a fault. */
  function Exec(ops: IrOps, instrs: Instrs, p: nat, params: seq<Value>, env: Env, trace: seq<Event>): Option<(Env, seq<Event>)>
    decreases |instrs| - p
  {
    if p >= |instrs| then Some((env, trace))
    else
      match ExecInstr(ops, instrs[p].1, params, env, trace)
      case None => None
      case Some((v, trace')) => Exec(ops, instrs, p + 1, params, env[instrs[p].0 := v], trace')
  }

  function ExecInstr(ops: IrOps, i: Instr, params: seq<Value>, env: Env, trace: seq<Event>): Option<(Value, seq<Event>)> {
    match ValuesOf(Operands(i), params, env)
    case None => None
    case Some(vs) => Eval(ops, i, vs, trace)
  }

  datatype Run =
    | AtBlock(block: nat, params: seq<Value>, env: Env, trace: seq<Event>)
    | Finished(result: Option<Value>, trace: seq<Event>)
    | Crashed

  function Enter(f: Blocks, target: nat, args: seq<ValueRef>, params: seq<Value>, env: Env, trace: seq<Event>): Run {
    match ValuesOf(args, params, env)
    case None => Crashed
    case Some(vs) => if target < |f| && |vs| == f[target].params then AtBlock(target, vs, env, trace) else Crashed
  }

  function Transfer(f: Blocks, t: Terminator, params: seq<Value>, env: Env, trace: seq<Event>): Run {
    match t
    case Unset => Crashed
    case Ret(None) => Finished(None, trace)
    case Ret(Some(v)) =>
      var r := ValueOf(v, params, env);
      if r.Some? then Finished(r, trace) else Crashed
    case Jump(target, args) => Enter(f, target, args, params, env, trace)
    case Branch(cond, thenBb, thenArgs, elseBb, elseArgs) =>
      match ValueOf(cond, params, env)
      case None => Crashed
      case Some(c) =>
        if Truthy(c) then Enter(f, thenBb, thenArgs, params, env, trace)
        else Enter(f, elseBb, elseArgs, params, env, trace)
  }

  /** One block: its instructions, then its terminator. */
  function StepBlock(ops: IrOps, f: Blocks, st: Run): Run {
    if !st.AtBlock? then st
    else if st.block >= |f| then Crashed
    else
      match Exec(ops, f[st.block].instrs, 0, st.params, st.env, st.trace)
      case None => Crashed
      case Some((env, trace)) => Transfer(f, f[st.block].term, st.params, env, trace)
  }

  function RunIr(ops: IrOps, f: Blocks, st: Run, n: nat): Run
    decreases n
  {
    if n == 0 then st else RunIr(ops, f, StepBlock(ops, f, st), n - 1)
  }

  // ----- well-formed blocks -----

  /** No id at or after position `p` is `v`. */
  predicate NotDefinedFrom(instrs: Instrs, p: nat, v: ValueRef) {
    v.Value? ==> forall q :: p <= q < |instrs| ==> instrs[q].0 != v.id
  }

  predicate UsesEarlier(instrs: Instrs, p: nat)
    requires p < |instrs|
  {
    forall k :: 0 <= k < |Operands(instrs[p].1)| ==> NotDefinedFrom(instrs, p, Operands(instrs[p].1)[k])
  }

  /** Ids of a block are distinct, and what it uses of its own ids it uses after defining them. */
  predicate LocalSsa(instrs: Instrs) {
    && (forall p, q :: 0 <= p < q < |instrs| ==> instrs[p].0 != instrs[q].0)
    && forall p :: 0 <= p < |instrs| ==> UsesEarlier(instrs, p)
  }

  predicate AllLocalSsa(f: Blocks) {
    forall b :: 0 <= b < |f| ==> LocalSsa(f[b].instrs)
  }

  // ----- substitution -----

  type Subst = map<nat, ValueRef>

  function Replace(v: ValueRef, s: Subst): ValueRef {
    if v.Value? && v.id in s then s[v.id] else v
  }

  function ReplaceAll(vs: seq<ValueRef>, s: Subst): (r: seq<ValueRef>)
    ensures |r| == |vs|
  {
    seq(|vs|, k requires 0 <= k < |vs| => Replace(vs[k], s))
  }

  function Rewrite(i: Instr, s: Subst): Instr {
    match i
    case Const(_) => i
    case Copy(v) => Copy(Replace(v, s))
    case Unary(op, v) => Unary(op, Replace(v, s))
    case Binary(op, l, r) => Binary(op, Replace(l, s), Replace(r, s))
    case IsNull(v, eqNull) => IsNull(Replace(v, s), eqNull)
    case Cast(v, ty) => Cast(Replace(v, s), ty)
    case StructFieldGet(b, k) => StructFieldGet(Replace(b, s), k)
    case Pure(op, args) => Pure(op, ReplaceAll(args, s))
    case ArrayPack(es) => ArrayPack(ReplaceAll(es, s))
    case StructPack(fs) => StructPack(ReplaceAll(fs, s))
    case StorageGet(_, _) => i
    case Emit(event, args) => Emit(event, ReplaceAll(args, s))
    case MapCompound(field, k, v) => MapCompound(field, Replace(k, s), Replace(v, s))
    case Call(callee, args) => Call(callee, ReplaceAll(args, s))
  }

  function RewriteTerm(t: Terminator, s: Subst): Terminator {
    match t
    case Unset => t
    case Ret(v) => if v.Some? then Ret(Some(Replace(v.value, s))) else t
    case Jump(target, args) => Jump(target, ReplaceAll(args, s))
    case Branch(c, a, aArgs, b, bArgs) => Branch(Replace(c, s), a, ReplaceAll(aArgs, s), b, ReplaceAll(bArgs, s))
  }

  lemma RewriteOperands(i: Instr, s: Subst)
    ensures Operands(Rewrite(i, s)) == ReplaceAll(Operands(i), s)
  {
  }

  lemma {:induction false} RewriteEval(ops: IrOps, i: Instr, s: Subst, vs: seq<Value>, trace: seq<Event>)
    requires |vs| == |Operands(i)|
    ensures Eval(ops, Rewrite(i, s), vs, trace) == Eval(ops, i, vs, trace)
  {
  }

  /** Each substitute has the value of what it stands for. */
  ghost predicate Knows(s: Subst, vs: seq<ValueRef>, params: seq<Value>, env: Env) {
    forall k :: 0 <= k < |vs| ==> ValueOf(Replace(vs[k], s), params, env) == ValueOf(vs[k], params, env)
  }

  lemma {:induction false} SameValues(s: Subst, vs: seq<ValueRef>, params: seq<Value>, env: Env)
    requires Knows(s, vs, params, env)
    ensures ValuesOf(ReplaceAll(vs, s), params, env) == ValuesOf(vs, params, env)
  {
    if vs != [] {
      assert ReplaceAll(vs, s)[1..] == ReplaceAll(vs[1..], s);
      SameValues(s, vs[1..], params, env);
    }
  }

  lemma {:induction false} RewriteExec(ops: IrOps, i: Instr, s: Subst, params: seq<Value>, env: Env, trace: seq<Event>)
    requires Knows(s, Operands(i), params, env)
    ensures ExecInstr(ops, Rewrite(i, s), params, env, trace) == ExecInstr(ops, i, params, env, trace)
  {
    hide Eval, Rewrite;
    RewriteOperands(i, s);
    SameValues(s, Operands(i), params, env);
    if ValuesOf(Operands(i), params, env).Some? {
      RewriteEval(ops, i, s, ValuesOf(Operands(i), params, env).value, trace);
    }
  }

  predicate SameShapes(f: Blocks, f': Blocks) {
    |f'| == |f| && forall b :: 0 <= b < |f| ==> f'[b].params == f[b].params
  }

  lemma RewriteEnter(f: Blocks, f': Blocks, target: nat, args: seq<ValueRef>, s: Subst, params: seq<Value>, env: Env, trace: seq<Event>)
    requires Knows(s, args, params, env) && SameShapes(f, f')
    ensures Enter(f', target, ReplaceAll(args, s), params, env, trace) == Enter(f, target, args, params, env, trace)
  {
    hide ReplaceAll, Knows, ValuesOf;
    SameValues(s, args, params, env);
  }

  lemma KnowsPart(s: Subst, a: seq<ValueRef>, b: seq<ValueRef>, c: seq<ValueRef>, params: seq<Value>, env: Env)
    requires Knows(s, a + b + c, params, env)
    ensures Knows(s, a, params, env) && Knows(s, b, params, env) && Knows(s, c, params, env)
  {
    hide ValueOf, Replace;
    var all := a + b + c;
    assert forall k :: 0 <= k < |a| ==> a[k] == all[k];
    assert forall k :: 0 <= k < |b| ==> b[k] == all[|a| + k];
    assert forall k :: 0 <= k < |c| ==> c[k] == all[|a| + |b| + k];
  }

  lemma {:induction false} RewriteTransfer(f: Blocks, f': Blocks, t: Terminator, s: Subst, params: seq<Value>, env: Env, trace: seq<Event>)
    requires Knows(s, TermOperands(t), params, env) && SameShapes(f, f')
    ensures Transfer(f', RewriteTerm(t, s), params, env, trace) == Transfer(f, t, params, env, trace)
  {
    hide Enter, ReplaceAll, Replace, ValueOf, SameShapes;
    match t
    case Jump(target, args) => RewriteEnter(f, f', target, args, s, params, env, trace);
    case Branch(c, a, aArgs, b, bArgs) =>
      KnowsPart(s, [c], aArgs, bArgs, params, env);
      assert [c][0] == c;
      RewriteEnter(f, f', a, aArgs, s, params, env, trace);
      RewriteEnter(f, f', b, bArgs, s, params, env, trace);
    case Ret(v) => assert v.Some? ==> TermOperands(t)[0] == v.value;
    case Unset =>
  }
}
