/**
 * Copy propagation and local common-subexpression elimination (ir/opt.rs). Both rewrite a block by
 * a substitution that holds wherever it is applied, so they change nothing the block computes or
 * does, faults included.
 */
module IrCopy {
  import opened Prelude
  import opened Vm
  import opened Ir

  // ----- rewriting a block by its copies -----

  function RewriteInstrs(instrs: Instrs, s: Subst): (r: Instrs)
    ensures |r| == |instrs|
  {
    seq(|instrs|, p requires 0 <= p < |instrs| => (instrs[p].0, Rewrite(instrs[p].1, s)))
  }

  predicate DefinedAs(instrs: Instrs, id: nat, i: Instr) {
    exists q :: 0 <= q < |instrs| && instrs[q] == (id, i)
  }

  /** Every substitution is one the block itself makes by a copy. */
  predicate OfCopies(s: Subst, instrs: Instrs) {
    forall id :: id in s ==> DefinedAs(instrs, id, Copy(s[id]))
  }

  /** The copies executed so far hold the value they copied. */
  ghost predicate CopiesHold(instrs: Instrs, p: nat, params: seq<Value>, env: Env) {
    forall q :: 0 <= q < p && q < |instrs| && instrs[q].1.Copy? ==>
      instrs[q].0 in env && ValueOf(instrs[q].1.value, params, env) == Some(env[instrs[q].0])
  }

  lemma {:induction false} CopiesStep(instrs: Instrs, p: nat, params: seq<Value>, env: Env, v: Value)
    requires LocalSsa(instrs) && p < |instrs| && CopiesHold(instrs, p, params, env)
    requires instrs[p].1.Copy? ==> ValueOf(instrs[p].1.value, params, env) == Some(v)
    ensures CopiesHold(instrs, p + 1, params, env[instrs[p].0 := v])
  {
    forall q | 0 <= q < p + 1 && instrs[q].1.Copy?
      ensures ValueOf(instrs[q].1.value, params, env[instrs[p].0 := v]) == ValueOf(instrs[q].1.value, params, env)
    {
      assert UsesEarlier(instrs, q) && Operands(instrs[q].1)[0] == instrs[q].1.value;
      assert NotDefinedFrom(instrs, q, instrs[q].1.value);
    }
  }

  /** At `p`, a value not defined from `p` on has the value of its substitute. */
  lemma {:induction false} KnowsValue(instrs: Instrs, s: Subst, p: nat, v: ValueRef, params: seq<Value>, env: Env)
    requires OfCopies(s, instrs) && CopiesHold(instrs, p, params, env) && NotDefinedFrom(instrs, p, v)
    ensures ValueOf(Replace(v, s), params, env) == ValueOf(v, params, env)
  {
    if v.Value? && v.id in s {
      assert DefinedAs(instrs, v.id, Copy(s[v.id]));
    }
  }

  lemma {:induction false} KnowsOperands(instrs: Instrs, s: Subst, p: nat, params: seq<Value>, env: Env)
    requires LocalSsa(instrs) && p < |instrs| && OfCopies(s, instrs) && CopiesHold(instrs, p, params, env)
    ensures Knows(s, Operands(instrs[p].1), params, env)
  {
    hide Operands, CopiesHold;
    assert UsesEarlier(instrs, p);
    forall k | 0 <= k < |Operands(instrs[p].1)|
      ensures ValueOf(Replace(Operands(instrs[p].1)[k], s), params, env) == ValueOf(Operands(instrs[p].1)[k], params, env)
    {
      KnowsValue(instrs, s, p, Operands(instrs[p].1)[k], params, env);
    }
  }

  lemma CopyResult(ops: IrOps, i: Instr, params: seq<Value>, env: Env, trace: seq<Event>)
    requires ExecInstr(ops, i, params, env, trace).Some?
    ensures i.Copy? ==> ValueOf(i.value, params, env) == Some(ExecInstr(ops, i, params, env, trace).value.0)
  {
    if i.Copy? {
      assert [i.value][1..] == [];
    }
  }

  /** Rewriting a block by its own copies changes nothing it computes or does, faults included. */
  lemma {:induction false} RewrittenExec(ops: IrOps, instrs: Instrs, s: Subst, p: nat, params: seq<Value>, env: Env, trace: seq<Event>)
    requires LocalSsa(instrs) && p <= |instrs| && OfCopies(s, instrs) && CopiesHold(instrs, p, params, env)
    ensures Exec(ops, RewriteInstrs(instrs, s), p, params, env, trace) == Exec(ops, instrs, p, params, env, trace)
    ensures Exec(ops, instrs, p, params, env, trace).Some? ==>
              CopiesHold(instrs, |instrs|, params, Exec(ops, instrs, p, params, env, trace).value.0)
    decreases |instrs| - p
  {
    hide ExecInstr, Rewrite, LocalSsa, OfCopies, CopiesHold;
    if p < |instrs| {
      KnowsOperands(instrs, s, p, params, env);
      RewriteExec(ops, instrs[p].1, s, params, env, trace);
      if ExecInstr(ops, instrs[p].1, params, env, trace).Some? {
        var (v, trace') := ExecInstr(ops, instrs[p].1, params, env, trace).value;
        CopyResult(ops, instrs[p].1, params, env, trace);
        CopiesStep(instrs, p, params, env, v);
        RewrittenExec(ops, instrs, s, p + 1, params, env[instrs[p].0 := v], trace');
      }
    }
  }

  lemma {:induction false} RewrittenSsa(instrs: Instrs, s: Subst)
    requires LocalSsa(instrs) && OfCopies(s, instrs)
    ensures LocalSsa(RewriteInstrs(instrs, s))
  {
    hide Operands, Rewrite;
    var out := RewriteInstrs(instrs, s);
    forall p | 0 <= p < |out| ensures UsesEarlier(out, p) {
      RewriteOperands(instrs[p].1, s);
      assert UsesEarlier(instrs, p);
      forall k | 0 <= k < |Operands(out[p].1)| ensures NotDefinedFrom(out, p, Operands(out[p].1)[k]) {
        ReplacedEarlier(instrs, s, p, Operands(instrs[p].1)[k]);
      }
    }
  }

  lemma {:induction false} ReplacedEarlier(instrs: Instrs, s: Subst, p: nat, v: ValueRef)
    requires LocalSsa(instrs) && OfCopies(s, instrs) && NotDefinedFrom(instrs, p, v)
    ensures NotDefinedFrom(RewriteInstrs(instrs, s), p, Replace(v, s))
  {
    hide Rewrite;
    if v.Value? && v.id in s {
      assert DefinedAs(instrs, v.id, Copy(s[v.id]));
      var q :| 0 <= q < |instrs| && instrs[q] == (v.id, Copy(s[v.id]));
      assert UsesEarlier(instrs, q) && Operands(instrs[q].1)[0] == s[v.id];
      assert NotDefinedFrom(instrs, q, s[v.id]);
    }
  }

  lemma {:induction false} KnowsTerm(instrs: Instrs, s: Subst, t: Terminator, params: seq<Value>, env: Env)
    requires OfCopies(s, instrs) && CopiesHold(instrs, |instrs|, params, env)
    ensures Knows(s, TermOperands(t), params, env)
  {
    hide TermOperands, CopiesHold, OfCopies;
    forall k | 0 <= k < |TermOperands(t)|
      ensures ValueOf(Replace(TermOperands(t)[k], s), params, env) == ValueOf(TermOperands(t)[k], params, env)
    {
      KnowsValue(instrs, s, |instrs|, TermOperands(t)[k], params, env);
    }
  }

  // ----- copy propagation -----

  /** The copies of the first `p` instructions. */
  function Copies(instrs: Instrs, p: nat): Subst
    requires p <= |instrs|
  {
    if p == 0 then map[]
    else
      match instrs[p - 1].1
      case Copy(v) => Copies(instrs, p - 1)[instrs[p - 1].0 := v]
      case _ => Copies(instrs, p - 1)
  }

  function PropagateBlock(b: BasicBlock): BasicBlock {
    var s := Copies(b.instrs, |b.instrs|);
    BasicBlock(b.params, RewriteInstrs(b.instrs, s), RewriteTerm(b.term, s))
  }

  lemma {:induction false} CopiesAreCopies(instrs: Instrs, p: nat)
    requires p <= |instrs|
    ensures OfCopies(Copies(instrs, p), instrs)
  {
    if p > 0 {
      CopiesAreCopies(instrs, p - 1);
      if instrs[p - 1].1.Copy? {
        assert DefinedAs(instrs, instrs[p - 1].0, Copy(instrs[p - 1].1.value));
      }
    }
  }

  // ----- common subexpressions -----

  /** Instructions that get a key: pure computations other than array and struct literals. */
  predicate Keyed(i: Instr) {
    i.Const? || i.Copy? || i.Unary? || i.Binary? || i.IsNull? || i.Cast? || i.StructFieldGet? || i.Pure?
  }

  /** First holder of each computation seen in the block, keyed by the normalized instruction. */
  type Table = map<Instr, nat>

  datatype Cse = Cse(instrs: Instrs, subst: Subst, table: Table)

  /** One instruction of the forward walk. */
  function CseStep(c: Cse, id: nat, i: Instr): Cse {
    if !Keyed(i) then c.(instrs := c.instrs + [(id, i)])
    else
      var key := Rewrite(i, c.subst);
      if key in c.table then
        Cse(c.instrs + [(id, Copy(Value(c.table[key])))], c.subst[id := Value(c.table[key])], c.table)
      else
        Cse(c.instrs + [(id, key)], c.subst, c.table[key := id])
  }

  function CseUpTo(instrs: Instrs, p: nat): (c: Cse)
    requires p <= |instrs|
    ensures |c.instrs| == p
  {
    if p == 0 then Cse([], map[], map[])
    else CseStep(CseUpTo(instrs, p - 1), instrs[p - 1].0, instrs[p - 1].1)
  }

  /** The walk, then a rewrite of what is left by everything it replaced. */
  function CseBlock(b: BasicBlock): BasicBlock {
    var c := CseUpTo(b.instrs, |b.instrs|);
    BasicBlock(b.params, RewriteInstrs(c.instrs, c.subst), RewriteTerm(b.term, c.subst))
  }

  lemma {:induction false} CsePrefix(instrs: Instrs, p: nat, n: nat)
    requires p <= n <= |instrs|
    ensures CseUpTo(instrs, n).instrs[..p] == CseUpTo(instrs, p).instrs
    decreases n
  {
    if p < n {
      CsePrefix(instrs, p, n - 1);
    } else {
      assert CseUpTo(instrs, n).instrs[..n] == CseUpTo(instrs, n).instrs;
    }
  }

  /** What the walk leaves at position `p`. */
  function CseAt(instrs: Instrs, p: nat): (nat, Instr)
    requires p < |instrs|
  {
    CseUpTo(instrs, p + 1).instrs[p]
  }

  lemma {:induction false} CseFinal(instrs: Instrs, p: nat)
    requires p < |instrs|
    ensures CseUpTo(instrs, |instrs|).instrs[p] == CseAt(instrs, p) && CseAt(instrs, p).0 == instrs[p].0
  {
    CsePrefix(instrs, p + 1, |instrs|);
    assert CseUpTo(instrs, |instrs|).instrs[..p + 1][p] == CseUpTo(instrs, |instrs|).instrs[p];
  }

  /** Ids and operands the walk remembers at `p` were all defined before `p`. */
  ghost predicate CseEarlier(instrs: Instrs, p: nat)
    requires p <= |instrs|
  {
    var c := CseUpTo(instrs, p);
    && (forall key :: key in c.table ==> NotDefinedFrom(instrs, p, Value(c.table[key])))
    && (forall key :: key in c.table ==> OperandsEarlier(instrs, p, key))
    && (forall id :: id in c.subst ==> NotDefinedFrom(instrs, p, c.subst[id]))
    && OfCopies(c.subst, c.instrs)
  }

  predicate OperandsEarlier(instrs: Instrs, p: nat, i: Instr) {
    forall k :: 0 <= k < |Operands(i)| ==> NotDefinedFrom(instrs, p, Operands(i)[k])
  }

  lemma {:induction false} OfCopiesGrows(s: Subst, instrs: Instrs, more: Instrs)
    requires OfCopies(s, instrs)
    ensures OfCopies(s, instrs + more)
  {
    forall id | id in s ensures DefinedAs(instrs + more, id, Copy(s[id])) {
      assert DefinedAs(instrs, id, Copy(s[id]));
      var q :| 0 <= q < |instrs| && instrs[q] == (id, Copy(s[id]));
      assert (instrs + more)[q] == instrs[q];
    }
  }

  lemma {:induction false} CseEarlierStep(instrs: Instrs, p: nat)
    requires LocalSsa(instrs) && p < |instrs| && CseEarlier(instrs, p)
    ensures CseEarlier(instrs, p + 1)
  {
    hide Operands, Rewrite;
    var c, c' := CseUpTo(instrs, p), CseUpTo(instrs, p + 1);
    var (id, i) := instrs[p];
    assert UsesEarlier(instrs, p);
    KeyEarlier(instrs, p);
    OfCopiesGrows(c.subst, c.instrs, [c'.instrs[p]]);
    assert forall v :: NotDefinedFrom(instrs, p, v) ==> NotDefinedFrom(instrs, p + 1, v);
    assert NotDefinedFrom(instrs, p + 1, Value(id));
    assert forall key :: OperandsEarlier(instrs, p, key) ==> OperandsEarlier(instrs, p + 1, key);
    if Keyed(i) && Rewrite(i, c.subst) in c.table {
      assert c'.instrs[p] == (id, Copy(c'.subst[id]));
    }
  }

  lemma {:induction false} KeyEarlier(instrs: Instrs, p: nat)
    requires LocalSsa(instrs) && p < |instrs| && CseEarlier(instrs, p)
    ensures OperandsEarlier(instrs, p, Rewrite(instrs[p].1, CseUpTo(instrs, p).subst))
  {
    hide Operands, Rewrite, CseUpTo;
    RewriteOperands(instrs[p].1, CseUpTo(instrs, p).subst);
    assert UsesEarlier(instrs, p);
  }

  lemma {:induction false} CseEarlierAll(instrs: Instrs, p: nat)
    requires LocalSsa(instrs) && p <= |instrs|
    ensures CseEarlier(instrs, p)
  {
    if p > 0 {
      CseEarlierAll(instrs, p - 1);
      CseEarlierStep(instrs, p - 1);
    }
  }

  /** The walk's result is again a block in order. */
  lemma {:induction false} CseSsa(instrs: Instrs)
    requires LocalSsa(instrs)
    ensures LocalSsa(CseUpTo(instrs, |instrs|).instrs) && OfCopies(CseUpTo(instrs, |instrs|).subst, CseUpTo(instrs, |instrs|).instrs)
  {
    hide Operands, Rewrite, CseUpTo;
    var out := CseUpTo(instrs, |instrs|).instrs;
    CseEarlierAll(instrs, |instrs|);
    forall p | 0 <= p < |instrs| ensures out[p].0 == instrs[p].0 {
      CseFinal(instrs, p);
    }
    forall p | 0 <= p < |out| ensures UsesEarlier(out, p) {
      CseFinal(instrs, p);
      CseEarlierAll(instrs, p);
      assert UsesEarlier(instrs, p);
      KeyEarlier(instrs, p);
      CseAtOperands(instrs, p);
    }
  }

  lemma {:induction false} CseAtOperands(instrs: Instrs, p: nat)
    requires LocalSsa(instrs) && p < |instrs| && CseEarlier(instrs, p)
    requires OperandsEarlier(instrs, p, Rewrite(instrs[p].1, CseUpTo(instrs, p).subst))
    ensures OperandsEarlier(instrs, p, CseAt(instrs, p).1)
  {
    hide Rewrite;
    assert UsesEarlier(instrs, p);
    var c := CseUpTo(instrs, p);
    var i := instrs[p].1;
    if Keyed(i) && Rewrite(i, c.subst) in c.table {
      assert Operands(CseAt(instrs, p).1) == [Value(c.table[Rewrite(i, c.subst)])];
    }
  }

  // ----- meaning -----

  /** Each holder in the table has the value its key computes now. */
  ghost predicate TableHolds(ops: IrOps, table: Table, params: seq<Value>, env: Env) {
    forall key :: key in table ==>
      Keyed(key) && table[key] in env && ExecInstr(ops, key, params, env, []) == Some((env[table[key]], []))
  }

  lemma {:induction false} KeyedIgnoresTrace(ops: IrOps, i: Instr, params: seq<Value>, env: Env, trace: seq<Event>)
    requires Keyed(i)
    ensures ExecInstr(ops, i, params, env, trace) ==
            match ExecInstr(ops, i, params, env, [])
            case None => None
            case Some((v, _)) => Some((v, trace))
    ensures ExecInstr(ops, i, params, env, []).Some? ==> ExecInstr(ops, i, params, env, []).value.1 == []
  {
    hide PureValue, Operands;
  }

  /** A new definition disturbs no value that was defined before. */
  lemma {:induction false} EarlierValues(instrs: Instrs, p: nat, vs: seq<ValueRef>, params: seq<Value>, env: Env, v: Value)
    requires p < |instrs| && forall k :: 0 <= k < |vs| ==> NotDefinedFrom(instrs, p, vs[k])
    ensures ValuesOf(vs, params, env[instrs[p].0 := v]) == ValuesOf(vs, params, env)
  {
    if vs != [] {
      assert NotDefinedFrom(instrs, p, vs[0]);
      EarlierValues(instrs, p, vs[1..], params, env, v);
    }
  }

  lemma {:induction false} TableKept(ops: IrOps, instrs: Instrs, p: nat, table: Table, params: seq<Value>, env: Env, v: Value)
    requires p < |instrs| && TableHolds(ops, table, params, env)
    requires forall key :: key in table ==> NotDefinedFrom(instrs, p, Value(table[key])) && OperandsEarlier(instrs, p, key)
    ensures TableHolds(ops, table, params, env[instrs[p].0 := v])
  {
    hide Eval, Operands;
    forall key | key in table ensures ExecInstr(ops, key, params, env[instrs[p].0 := v], []) == ExecInstr(ops, key, params, env, []) {
      assert OperandsEarlier(instrs, p, key);
      EarlierValues(instrs, p, Operands(key), params, env, v);
    }
  }

  /** The invariant of a run through the walked block. */
  ghost predicate CseRunning(ops: IrOps, instrs: Instrs, p: nat, params: seq<Value>, env: Env)
    requires p <= |instrs|
  {
    TableHolds(ops, CseUpTo(instrs, p).table, params, env) && CopiesHold(CseUpTo(instrs, |instrs|).instrs, p, params, env)
  }

  lemma {:induction false} CseInstr(ops: IrOps, instrs: Instrs, p: nat, params: seq<Value>, env: Env, trace: seq<Event>)
    requires LocalSsa(instrs) && p < |instrs| && CseRunning(ops, instrs, p, params, env)
    ensures ExecInstr(ops, CseAt(instrs, p).1, params, env, trace) == ExecInstr(ops, instrs[p].1, params, env, trace)
  {
    hide ExecInstr, Rewrite, CopiesHold, LocalSsa, Operands;
    var c, final := CseUpTo(instrs, p), CseUpTo(instrs, |instrs|).instrs;
    var i := instrs[p].1;
    if Keyed(i) {
      WalkKnows(instrs, p, params, env);
      RewriteExec(ops, i, c.subst, params, env, trace);
      var key := Rewrite(i, c.subst);
      if key in c.table {
        KeyedIgnoresTrace(ops, key, params, env, trace);
        CopyExec(ops, c.table[key], params, env, trace);
      }
    }
  }

  lemma CopyExec(ops: IrOps, id: nat, params: seq<Value>, env: Env, trace: seq<Event>)
    requires id in env
    ensures ExecInstr(ops, Copy(Value(id)), params, env, trace) == Some((env[id], trace))
  {
    OneValue(Value(id), params, env);
  }

  lemma {:induction false} WalkKnows(instrs: Instrs, p: nat, params: seq<Value>, env: Env)
    requires LocalSsa(instrs) && p < |instrs| && CopiesHold(CseUpTo(instrs, |instrs|).instrs, p, params, env)
    ensures Knows(CseUpTo(instrs, p).subst, Operands(instrs[p].1), params, env)
  {
    hide Operands, CopiesHold, Rewrite, CseUpTo;
    var c, final := CseUpTo(instrs, p), CseUpTo(instrs, |instrs|).instrs;
    CseEarlierAll(instrs, p);
    CsePrefix(instrs, p, |instrs|);
    assert final == final[..p] + final[p..];
    OfCopiesGrows(c.subst, final[..p], final[p..]);
    assert UsesEarlier(instrs, p);
    forall k | 0 <= k < |Operands(instrs[p].1)|
      ensures ValueOf(Replace(Operands(instrs[p].1)[k], c.subst), params, env) == ValueOf(Operands(instrs[p].1)[k], params, env)
    {
      var v := Operands(instrs[p].1)[k];
      assert NotDefinedFrom(final, p, v) by {
        forall q | p <= q < |final| ensures final[q].0 == instrs[q].0 {
          CseFinal(instrs, q);
        }
      }
      KnowsValue(final, c.subst, p, v, params, env);
    }
  }

  lemma {:induction false} CseRunningStep(ops: IrOps, instrs: Instrs, p: nat, params: seq<Value>, env: Env, trace: seq<Event>)
    requires LocalSsa(instrs) && p < |instrs| && CseRunning(ops, instrs, p, params, env)
    requires ExecInstr(ops, instrs[p].1, params, env, trace).Some?
    ensures CseRunning(ops, instrs, p + 1, params, env[instrs[p].0 := ExecInstr(ops, instrs[p].1, params, env, trace).value.0])
  {
    hide ExecInstr, Rewrite, CopiesHold, LocalSsa, Operands;
    var c, final := CseUpTo(instrs, p), CseUpTo(instrs, |instrs|).instrs;
    var (id, i) := instrs[p];
    var v := ExecInstr(ops, i, params, env, trace).value.0;
    CseInstr(ops, instrs, p, params, env, trace);
    CseFinal(instrs, p);
    CseSsa(instrs);
    CopyResult(ops, final[p].1, params, env, trace);
    CopiesStep(final, p, params, env, v);
    CseEarlierAll(instrs, p);
    TableKept(ops, instrs, p, c.table, params, env, v);
    if Keyed(i) && Rewrite(i, c.subst) !in c.table {
      KeyEarlier(instrs, p);
      NewEntry(ops, instrs, p, params, env, trace);
    }
  }

  lemma {:induction false} NewEntry(ops: IrOps, instrs: Instrs, p: nat, params: seq<Value>, env: Env, trace: seq<Event>)
    requires LocalSsa(instrs) && p < |instrs| && CseRunning(ops, instrs, p, params, env) && Keyed(instrs[p].1)
    requires ExecInstr(ops, instrs[p].1, params, env, trace).Some?
    requires OperandsEarlier(instrs, p, Rewrite(instrs[p].1, CseUpTo(instrs, p).subst))
    ensures var key, v := Rewrite(instrs[p].1, CseUpTo(instrs, p).subst), ExecInstr(ops, instrs[p].1, params, env, trace).value.0;
            Keyed(key) && ExecInstr(ops, key, params, env[instrs[p].0 := v], []) == Some((v, []))
  {
    hide Eval, CopiesHold, LocalSsa, Operands, CseUpTo, TableHolds;
    var s := CseUpTo(instrs, p).subst;
    var key, v := Rewrite(instrs[p].1, s), ExecInstr(ops, instrs[p].1, params, env, trace).value.0;
    WalkKnows(instrs, p, params, env);
    RewriteExec(ops, instrs[p].1, s, params, env, trace);
    KeyedIgnoresTrace(ops, key, params, env, trace);
    EarlierValues(instrs, p, Operands(key), params, env, v);
  }

  /** The walk changes nothing the block computes or does, faults included. */
  lemma {:induction false} CseExec(ops: IrOps, instrs: Instrs, p: nat, params: seq<Value>, env: Env, trace: seq<Event>)
    requires LocalSsa(instrs) && p <= |instrs| && CseRunning(ops, instrs, p, params, env)
    ensures Exec(ops, CseUpTo(instrs, |instrs|).instrs, p, params, env, trace) == Exec(ops, instrs, p, params, env, trace)
    decreases |instrs| - p
  {
    hide ExecInstr, CseUpTo, LocalSsa, CseRunning, CseAt;
    if p < |instrs| {
      CseInstr(ops, instrs, p, params, env, trace);
      CseFinal(instrs, p);
      if ExecInstr(ops, instrs[p].1, params, env, trace).Some? {
        var (v, trace') := ExecInstr(ops, instrs[p].1, params, env, trace).value;
        CseRunningStep(ops, instrs, p, params, env, trace);
        CseExec(ops, instrs, p + 1, params, env[instrs[p].0 := v], trace');
      }
    }
  }
}
